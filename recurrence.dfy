/**
  `Recurrence`: the `post_save` receiver `create_recurring_task`. When a task with recurring
  settings is saved as DONE, a TODO successor is created whose date is advanced by the interval,
  together with a copy of the recurring settings that points at the root of the chain.
*/
module Recurrence {
  import opened Wrappers
  import opened TaskModel
  import Calendar

  /** A `RecurringTask` row; it belongs to the task `task` (one-to-one). */
  datatype RecurringTask = RecurringTask(
    task: string,
    isRecurring: bool,
    frequency: Option<string>,
    interval: nat,
    endDate: Option<int>,
    maxOccurrences: Option<nat>,
    recurrenceParent: Option<string>)

  datatype Spawn = Spawn(task: Task, settings: RecurringTask)

  /** `Task.objects.filter(recurrence_parent=root).count()`. */
  function ChildCount(tasks: map<string, Task>, root: string): nat {
    |set k | k in tasks && tasks[k].recurrenceParent == Some(root)|
  }

  /** `recurring.recurrence_parent or instance`: the root of the chain. */
  function ChainRoot(inst: Task, rec: RecurringTask): string {
    rec.recurrenceParent.GetOr(inst.id)
  }

  /** `instance.due_date or instance.scheduled_start`. */
  function BaseDate(inst: Task): Option<int> {
    if inst.dueDate.Some? then inst.dueDate else inst.scheduledStart
  }

  /** The next date for a stored frequency; `None` for a frequency that is not one of the three. */
  function NextDate(frequency: Option<string>, interval: nat, base: int): Option<int> {
    if frequency == Some("DAILY") then Some(Calendar.AddDays(base, interval))
    else if frequency == Some("WEEKLY") then Some(Calendar.AddDays(base, 7 * interval))
    else if frequency == Some("MONTHLY") then Some(Calendar.AddMonths(base, interval))
    else None
  }

  /** The guard "end date reached". */
  predicate Ended(rec: RecurringTask, now: int) {
    rec.endDate.Some? && now >= rec.endDate.value
  }

  /** The guard "max occurrences reached"; a max of 0 or none is no limit. */
  predicate Exhausted(rec: RecurringTask, root: string, tasks: map<string, Task>) {
    rec.maxOccurrences.Some? && rec.maxOccurrences.value > 0 &&
    ChildCount(tasks, root) >= rec.maxOccurrences.value
  }

  /**
    What the receiver creates when `inst` has just been saved, with `rec` its recurring settings
    (if any), `tasks` the task table and `newId` the key of the created task. `linksChild` says
    whether the new task's own `recurrence_parent` is set to the chain root: the code as written
    leaves it unset (`false`); the corrected generator sets it (`true`).
  */
  function Successor(inst: Task, rec: Option<RecurringTask>, tasks: map<string, Task>, now: int,
                     newId: string, linksChild: bool): Option<Spawn>
  {
    if inst.status != Done || rec.None? || !rec.value.isRecurring then None
    else
      var r := rec.value;
      var root := ChainRoot(inst, r);
      if Ended(r, now) then None
      else if Exhausted(r, root, tasks) then None
      else if BaseDate(inst).None? then None
      else
        var next := NextDate(r.frequency, r.interval, BaseDate(inst).value);
        if next.None? then None
        else
          var t := Task(
            newId, inst.project, inst.title, inst.subtitle, inst.description, Todo, inst.priority,
            if inst.dueDate.Some? then next else None,
            if inst.scheduledStart.Some? then next else None,
            inst.durationMinutes, None, inst.assignedTo, 0, 0, 0, false, None, None,
            if linksChild then Some(root) else None, now);
          Some(Spawn(t, RecurringTask(newId, true, r.frequency, r.interval, r.endDate, r.maxOccurrences, Some(root))))
  }

  /** A successor appears only for a DONE task whose recurring settings are switched on. */
  lemma SuccessorNeedsDoneAndRecurring(inst: Task, rec: Option<RecurringTask>, tasks: map<string, Task>,
                                       now: int, newId: string, linksChild: bool)
    requires Successor(inst, rec, tasks, now, newId, linksChild).Some?
    ensures inst.status == Done && rec.Some? && rec.value.isRecurring
  {
  }

  /** The three guards that stop the generator before the frequency is looked at. */
  lemma SuccessorGuards(inst: Task, rec: RecurringTask, tasks: map<string, Task>, now: int,
                        newId: string, linksChild: bool)
    ensures Ended(rec, now) ==> Successor(inst, Some(rec), tasks, now, newId, linksChild) == None
    ensures Exhausted(rec, ChainRoot(inst, rec), tasks) ==> Successor(inst, Some(rec), tasks, now, newId, linksChild) == None
    ensures inst.dueDate.None? && inst.scheduledStart.None? ==> Successor(inst, Some(rec), tasks, now, newId, linksChild) == None
    ensures rec.frequency !in {Some("DAILY"), Some("WEEKLY"), Some("MONTHLY")} ==>
      Successor(inst, Some(rec), tasks, now, newId, linksChild) == None
  {
  }

  /**
    When every guard passes a successor is created; its date is the base date (the due date, else
    the scheduled start) advanced by `interval` days, weeks or months.
  */
  lemma SuccessorDate(inst: Task, rec: RecurringTask, tasks: map<string, Task>, now: int,
                      newId: string, linksChild: bool)
    requires inst.status == Done && rec.isRecurring
    requires !Ended(rec, now) && !Exhausted(rec, ChainRoot(inst, rec), tasks)
    requires inst.dueDate.Some? || inst.scheduledStart.Some?
    requires rec.frequency in {Some("DAILY"), Some("WEEKLY"), Some("MONTHLY")}
    ensures var s := Successor(inst, Some(rec), tasks, now, newId, linksChild);
      var base := if inst.dueDate.Some? then inst.dueDate.value else inst.scheduledStart.value;
      var next := if inst.dueDate.Some? then s.value.task.dueDate.value else s.value.task.scheduledStart.value;
      s.Some? &&
      (rec.frequency == Some("DAILY") ==> next == base + rec.interval * Calendar.MicrosPerDay) &&
      (rec.frequency == Some("WEEKLY") ==> next == base + 7 * rec.interval * Calendar.MicrosPerDay) &&
      (rec.frequency == Some("MONTHLY") ==>
        && next % Calendar.MicrosPerDay == base % Calendar.MicrosPerDay
        && Calendar.ValidDate(Calendar.CivilFromDays(base / Calendar.MicrosPerDay))
        && Calendar.CivilFromDays(next / Calendar.MicrosPerDay) ==
           Calendar.AddMonthsToDate(Calendar.CivilFromDays(base / Calendar.MicrosPerDay), rec.interval))
  {
    var base := if inst.dueDate.Some? then inst.dueDate.value else inst.scheduledStart.value;
    Calendar.AddMonthsMovesDate(base, rec.interval);
  }

  /** The successor copies the task's content, starts over as TODO, and the settings follow the chain. */
  lemma SuccessorShape(inst: Task, rec: Option<RecurringTask>, tasks: map<string, Task>, now: int,
                       newId: string, linksChild: bool)
    requires Successor(inst, rec, tasks, now, newId, linksChild).Some?
    ensures var s := Successor(inst, rec, tasks, now, newId, linksChild).value;
      var t := s.task;
      t.id == newId && t.status == Todo && t.progress == 0 && t.trackedSeconds == 0 &&
      t.project == inst.project && t.title == inst.title && t.subtitle == inst.subtitle &&
      t.description == inst.description && t.priority == inst.priority &&
      t.durationMinutes == inst.durationMinutes && t.assignedTo == inst.assignedTo &&
      (t.dueDate.Some? <==> inst.dueDate.Some?) &&
      (t.scheduledStart.Some? <==> inst.scheduledStart.Some?) &&
      (t.dueDate.Some? && t.scheduledStart.Some? ==> t.dueDate == t.scheduledStart) &&
      !t.isArchived
    ensures var s := Successor(inst, rec, tasks, now, newId, linksChild).value;
      var r := rec.value;
      s.settings.task == newId && s.settings.isRecurring &&
      s.settings.frequency == r.frequency && s.settings.interval == r.interval &&
      s.settings.endDate == r.endDate && s.settings.maxOccurrences == r.maxOccurrences &&
      s.settings.recurrenceParent == Some(if r.recurrenceParent.Some? then r.recurrenceParent.value else inst.id)
  {
  }

  lemma ChildCountAdd(tasks: map<string, Task>, root: string, newId: string, t: Task)
    requires newId !in tasks
    ensures t.recurrenceParent == Some(root) ==> ChildCount(tasks[newId := t], root) == ChildCount(tasks, root) + 1
    ensures t.recurrenceParent != Some(root) ==> ChildCount(tasks[newId := t], root) == ChildCount(tasks, root)
  {
    var before := set k | k in tasks && tasks[k].recurrenceParent == Some(root);
    var grown := tasks[newId := t];
    var after := set k | k in grown && grown[k].recurrenceParent == Some(root);
    if t.recurrenceParent == Some(root) {
      assert after == before + {newId};
    } else {
      assert after == before;
    }
  }

  /**
    As written, a spawn does not raise the count the max-occurrence guard reads, so a DONE task
    that passes the guard still passes it after its successor exists: saving it again spawns again,
    whatever `recurrence_max_occurrences` says.
  */
  lemma {:induction false} AsWrittenMaxOccurrencesNeverReached(inst: Task, rec: RecurringTask, tasks: map<string, Task>,
                                                                now: int, newId: string, nextId: string)
    requires newId !in tasks
    requires Successor(inst, Some(rec), tasks, now, newId, false).Some?
    ensures var s := Successor(inst, Some(rec), tasks, now, newId, false).value;
      ChildCount(tasks[newId := s.task], ChainRoot(inst, rec)) == ChildCount(tasks, ChainRoot(inst, rec)) &&
      Successor(inst, Some(rec), tasks[newId := s.task], now, nextId, false).Some?
  {
    var s := Successor(inst, Some(rec), tasks, now, newId, false).value;
    ChildCountAdd(tasks, ChainRoot(inst, rec), newId, s.task);
  }

  /** A concrete chain: a max of 1 and no children yet; the as-written generator spawns twice in a row. */
  lemma AsWrittenSpawnsPastMaxOfOne()
    ensures var inst := Task("a", "p", "Weekly report", "", None, Done, Medium, Some(0), None, None, None,
                             "u", 0, 100, 0, false, None, None, None, 0);
      var tasks := map["a" := inst];
      var rec := RecurringTask("a", true, Some("DAILY"), 1, None, Some(1), None);
      var first := Successor(inst, Some(rec), tasks, 0, "b", false);
      first.Some? &&
      Successor(inst, Some(rec), tasks["b" := first.value.task], 0, "c", false).Some?
  {
    var inst := Task("a", "p", "Weekly report", "", None, Done, Medium, Some(0), None, None, None,
                     "u", 0, 100, 0, false, None, None, None, 0);
    var tasks := map["a" := inst];
    var rec := RecurringTask("a", true, Some("DAILY"), 1, None, Some(1), None);
    assert (set k | k in tasks && tasks[k].recurrenceParent == Some("a")) == {};
    AsWrittenMaxOccurrencesNeverReached(inst, rec, tasks, 0, "b", "c");
  }

  /**
    Corrected generator (the successor's `recurrence_parent` is the chain root): every spawn adds
    one to the count, so a chain whose count is within the maximum stays within it.
  */
  lemma {:induction false} CorrectedSpawnsStayWithinMax(inst: Task, rec: RecurringTask, tasks: map<string, Task>,
                                                         now: int, newId: string)
    requires newId !in tasks
    requires Successor(inst, Some(rec), tasks, now, newId, true).Some?
    ensures var s := Successor(inst, Some(rec), tasks, now, newId, true).value;
      var root := ChainRoot(inst, rec);
      ChildCount(tasks[newId := s.task], root) == ChildCount(tasks, root) + 1 &&
      (rec.maxOccurrences.Some? && rec.maxOccurrences.value > 0 ==>
        ChildCount(tasks[newId := s.task], root) <= rec.maxOccurrences.value)
  {
    var s := Successor(inst, Some(rec), tasks, now, newId, true).value;
    ChildCountAdd(tasks, ChainRoot(inst, rec), newId, s.task);
  }

  /** Corrected generator: once the count reaches the maximum, no further successor appears. */
  lemma CorrectedStopsAtMax(inst: Task, rec: RecurringTask, tasks: map<string, Task>, now: int, newId: string)
    requires rec.maxOccurrences.Some? && rec.maxOccurrences.value > 0
    requires ChildCount(tasks, ChainRoot(inst, rec)) >= rec.maxOccurrences.value
    ensures Successor(inst, Some(rec), tasks, now, newId, true) == None
  {
  }

  /** The task and recurring-settings tables the receiver reads and writes. */
  class RecurrenceStore {
    var tasks: map<string, Task>
    var recurring: map<string, RecurringTask>   // keyed by the owning task's id

    constructor(tasks: map<string, Task>, recurring: map<string, RecurringTask>)
      ensures this.tasks == tasks && this.recurring == recurring
    {
      this.tasks := tasks;
      this.recurring := recurring;
    }

    /**
      The receiver, run after `inst` was saved; `newId` is the fresh key of the successor. It
      follows the corrected generator, which sets the successor's `recurrence_parent`.
    */
    method OnTaskSaved(inst: Task, now: int, newId: string) returns (created: Option<string>)
      requires newId !in tasks && newId !in recurring
      modifies this
      ensures var rec := if inst.id in old(recurring) then Some(old(recurring)[inst.id]) else None;
        match Successor(inst, rec, old(tasks), now, newId, true)
        case None => created == None && tasks == old(tasks) && recurring == old(recurring)
        case Some(s) => (created == Some(newId) &&
          tasks == old(tasks)[newId := s.task] && recurring == old(recurring)[newId := s.settings])
    {
      created := None;
      if inst.status != Done || inst.id !in recurring || !recurring[inst.id].isRecurring {
        return;
      }
      var r := recurring[inst.id];
      if r.endDate.Some? && now >= r.endDate.value {
        return;
      }
      var root := if r.recurrenceParent.Some? then r.recurrenceParent.value else inst.id;
      if r.maxOccurrences.Some? && r.maxOccurrences.value > 0 {
        var childCount := ChildCount(tasks, root);
        if childCount >= r.maxOccurrences.value {
          return;
        }
      }
      var base := if inst.dueDate.Some? then inst.dueDate else inst.scheduledStart;
      if base.None? {
        return;
      }
      var next := NextDate(r.frequency, r.interval, base.value);
      if next.None? {
        return;
      }
      var t := Task(
        newId, inst.project, inst.title, inst.subtitle, inst.description, Todo, inst.priority,
        if inst.dueDate.Some? then next else None,
        if inst.scheduledStart.Some? then next else None,
        inst.durationMinutes, None, inst.assignedTo, 0, 0, 0, false, None, None, Some(root), now);
      tasks := tasks[newId := t];
      recurring := recurring[newId := RecurringTask(newId, true, r.frequency, r.interval, r.endDate, r.maxOccurrences, Some(root))];
      created := Some(newId);
    }
  }
}
