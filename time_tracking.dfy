/**
  `TimeTracking`: the duration text shown for tracked time, the duration `tasks_schedule` stores,
  and the time entries the timer and the done-toggle open and close. Instants are integer
  microseconds; `max(0, int(delta.total_seconds()))` becomes whole elapsed seconds.
*/
module TimeTracking {
  import opened Wrappers
  import opened PyValues
  import opened TaskModel
  import Ordering

  const MicrosPerSecond: int := 1_000_000

  // ---------------------------------------------------------------------------
  // humanize_seconds
  // ---------------------------------------------------------------------------

  /** `f"{m:02d}"` for `0 <= m < 60`. */
  function Pad2(m: nat): (s: string)
    requires m < 60
    ensures |s| == 2 && AllDigits(s)
  {
    if m < 10 then ['0', DigitChar(m)]
    else
      assert FormatNat(m) == FormatNat(m / 10) + [DigitChar(m % 10)];
      FormatNat(m)
  }

  /**
    `humanize_seconds(seconds)`: `None` or 0 is 0; whole minutes are `seconds // 60` (floor
    division), then `"{h}h {mm}m"` when there is at least one hour, else `"{m}m"`.
  */
  function Humanize(seconds: Option<int>): string {
    var s := seconds.GetOr(0);
    var totalMinutes := s / 60;
    var hours := totalMinutes / 60;
    var minutes := totalMinutes % 60;
    if hours > 0 then FormatNat(hours) + "h " + Pad2(minutes) + "m" else FormatNat(minutes) + "m"
  }

  /** Reads a humanized duration back as whole minutes. */
  function ParseHumanized(t: string): Option<nat> {
    if |t| == 0 || t[|t| - 1] != 'm' then None
    else
      var b := t[..|t| - 1];
      if |b| >= 5 && b[|b| - 3] == ' ' && b[|b| - 4] == 'h' then
        var hs := b[..|b| - 4];
        var ms := b[|b| - 2..];
        if AllDigits(hs) && AllDigits(ms) then Some(DigitsValue(hs) * 60 + DigitsValue(ms)) else None
      else if |b| > 0 && AllDigits(b) then Some(DigitsValue(b))
      else None
  }

  lemma Pad2Value(m: nat)
    requires m < 60
    ensures DigitsValue(Pad2(m)) == m
  {
    if m < 10 {
      assert Pad2(m)[..1] == "0";
      assert DigitsValue("0") == DigitsValue("") * 10 + 0;
    } else {
      DigitsValueOfFormatNat(m);
    }
  }

  lemma ShortNumeral(m: nat)
    requires m < 100
    ensures |FormatNat(m)| <= 2
  {
  }

  /** The text names the whole minutes of a non-negative count of seconds. */
  lemma {:induction false} HumanizeRoundTrip(s: nat)
    ensures ParseHumanized(Humanize(Some(s))) == Some(s / 60)
  {
    if s / 60 / 60 > 0 {
      HumanizeHoursRead(s);
    } else {
      HumanizeMinutesRead(s);
    }
  }

  /** With at least one hour, the text reads back as hours and minutes. */
  lemma HumanizeHoursRead(s: nat)
    requires s / 60 / 60 > 0
    ensures ParseHumanized(Humanize(Some(s))) == Some(s / 60)
  {
    var totalMinutes := s / 60;
    var hours := totalMinutes / 60;
    var minutes := totalMinutes % 60;
    SplitMinutes(totalMinutes);
    assert Humanize(Some(s)) == FormatNat(hours) + "h " + Pad2(minutes) + "m";
    ReadHoursAndMinutes(hours, minutes);
  }

  /** Under an hour, the text reads back as the minutes alone. */
  lemma HumanizeMinutesRead(s: nat)
    requires s / 60 / 60 == 0
    ensures ParseHumanized(Humanize(Some(s))) == Some(s / 60)
  {
    var totalMinutes := s / 60;
    var minutes := totalMinutes % 60;
    SplitMinutes(totalMinutes);
    assert Humanize(Some(s)) == FormatNat(minutes) + "m";
    ReadMinutes(minutes);
  }

  /** Whole minutes split into full hours and the minutes past the hour. */
  lemma SplitMinutes(total: nat)
    ensures (total / 60) * 60 + total % 60 == total && total % 60 < 60
  {
  }

  lemma ReadHoursAndMinutes(hours: nat, minutes: nat)
    requires minutes < 60
    ensures ParseHumanized(FormatNat(hours) + "h " + Pad2(minutes) + "m") == Some(hours * 60 + minutes)
  {
    var b := FormatNat(hours) + "h " + Pad2(minutes);
    var t := b + "m";
    assert t[..|t| - 1] == b;
    assert b[..|b| - 4] == FormatNat(hours);
    assert b[|b| - 2..] == Pad2(minutes);
    DigitsValueOfFormatNat(hours);
    Pad2Value(minutes);
  }

  lemma ReadMinutes(minutes: nat)
    requires minutes < 60
    ensures ParseHumanized(FormatNat(minutes) + "m") == Some(minutes)
  {
    var t := FormatNat(minutes) + "m";
    assert t[..|t| - 1] == FormatNat(minutes);
    ShortNumeral(minutes);
    DigitsValueOfFormatNat(minutes);
  }

  /** `None` and 0 both read as nothing tracked. */
  lemma HumanizeNothing()
    ensures Humanize(None) == "0m" && Humanize(Some(0)) == "0m"
    ensures Humanize(Some(59)) == "0m" && Humanize(Some(3600)) == "1h 00m"
  {
    assert FormatNat(0) == "0";
    assert FormatNat(1) == "1";
  }

  /** Floor division makes a negative count wrap into the last hour: -30 seconds reads as 59 minutes. */
  lemma HumanizeNegativeFloors()
    ensures Humanize(Some(-30)) == "59m"
  {
    assert -30 / 60 == -1;
    assert -1 / 60 == -1 && -1 % 60 == 59;
    assert FormatNat(59) == FormatNat(5) + [DigitChar(9)];
  }

  // ---------------------------------------------------------------------------
  // tasks_schedule
  // ---------------------------------------------------------------------------

  /**
    The minutes `tasks_schedule` stores: with an end, `max(1, (seconds + 59) // 60)` of the
    difference; without one, the posted integer, else the task's truthy duration, else 60.
  */
  function ScheduleMinutes(start: int, end: Option<int>, posted: Option<string>, existing: Option<int>): int {
    if end.Some? then
      var m := (end.value - start + 59 * MicrosPerSecond) / (60 * MicrosPerSecond);
      if m < 1 then 1 else m
    else
      var p := ParseInt(posted.GetOr(""));
      if p.Some? then p.value
      else if existing.Some? && existing.value != 0 then existing.value
      else 60
  }

  /**
    `tasks_schedule`'s single `update(...)` of the task row: a missing start is refused (400), a
    negative posted duration violates the column's check constraint, otherwise the start, the
    duration and a due date equal to the start are stored.
  */
  function Schedule(task: Task, start: Option<int>, end: Option<int>, posted: Option<string>): Result<Task> {
    if start.None? then Err("400")
    else
      var minutes := ScheduleMinutes(start.value, end, posted, task.durationMinutes);
      if minutes < 0 then Err(NegativeDuration)
      else Ok(task.(scheduledStart := start, durationMinutes := Some(minutes), dueDate := start))
  }

  /** With an end given, a whole number of seconds is rounded up to minutes, and at least 1. */
  lemma ScheduleRoundsUpToMinutes(start: int, seconds: int, posted: Option<string>, existing: Option<int>)
    ensures var m := ScheduleMinutes(start, Some(start + seconds * MicrosPerSecond), posted, existing);
      m >= 1 && (seconds > 0 ==> (m - 1) * 60 < seconds <= m * 60)
  {
    var m := ScheduleMinutes(start, Some(start + seconds * MicrosPerSecond), posted, existing);
    var q := (seconds * MicrosPerSecond + 59 * MicrosPerSecond) / (60 * MicrosPerSecond);
    assert seconds * MicrosPerSecond + 59 * MicrosPerSecond == (seconds + 59) * MicrosPerSecond;
    assert q == (seconds + 59) / 60 by {
      var a := seconds + 59;
      assert a * MicrosPerSecond == (a / 60) * (60 * MicrosPerSecond) + (a % 60) * MicrosPerSecond;
    }
  }

  /** Without an end: the posted integer wins, then a truthy stored duration, then 60. */
  lemma ScheduleFallbacks(start: int, posted: Option<string>, existing: Option<int>)
    ensures ParseInt(posted.GetOr("")).Some? ==> ScheduleMinutes(start, None, posted, existing) == ParseInt(posted.GetOr("")).value
    ensures ParseInt(posted.GetOr("")).None? && existing.Some? && existing.value != 0 ==>
      ScheduleMinutes(start, None, posted, existing) == existing.value
    ensures ParseInt(posted.GetOr("")).None? && (existing.None? || existing.value == 0) ==>
      ScheduleMinutes(start, None, posted, existing) == 60
  {
  }

  /** A scheduled task is due when it starts, and nothing but the three columns changes. */
  lemma ScheduleSetsDueToStart(task: Task, start: Option<int>, end: Option<int>, posted: Option<string>)
    ensures Schedule(task, start, end, posted).Ok? <==>
      start.Some? && ScheduleMinutes(start.value, end, posted, task.durationMinutes) >= 0
    ensures Schedule(task, start, end, posted).Ok? ==>
      var t := Schedule(task, start, end, posted).value;
      t.scheduledStart == start && t.dueDate == start && t.durationMinutes.Some? && t.durationMinutes.value >= 0 &&
      t == task.(scheduledStart := t.scheduledStart, dueDate := t.dueDate, durationMinutes := t.durationMinutes)
    ensures end.Some? && start.Some? ==> Schedule(task, start, end, posted).Ok?
  {
  }

  // ---------------------------------------------------------------------------
  // Time entries
  // ---------------------------------------------------------------------------

  /** A `TaskTimeEntry` row. */
  datatype TimeEntry = TimeEntry(id: string, task: string, user: string, startedAt: int,
                                 stoppedAt: Option<int>, durationSeconds: nat)

  /** `max(0, int((now - started).total_seconds()))`: whole seconds, truncated, never negative. */
  function Elapsed(started: int, now: int): nat {
    if now - started <= 0 then 0 else (now - started) / MicrosPerSecond
  }

  lemma ElapsedIsWholeSeconds(started: int, now: int)
    ensures now <= started ==> Elapsed(started, now) == 0
    ensures now > started ==>
      Elapsed(started, now) * MicrosPerSecond <= now - started < (Elapsed(started, now) + 1) * MicrosPerSecond
  {
  }

  /** The seconds the entries of one task hold. */
  function SumTracked(entries: seq<TimeEntry>, taskId: string): nat {
    if |entries| == 0 then 0
    else
      var last := entries[|entries| - 1];
      SumTracked(entries[..|entries| - 1], taskId) + (if last.task == taskId then last.durationSeconds else 0)
  }

  function Contribution(e: TimeEntry, taskId: string): nat {
    if e.task == taskId then e.durationSeconds else 0
  }

  /** Replacing one entry changes a task's sum by the difference of the two entries' contributions. */
  lemma {:induction false} SumTrackedUpdate(entries: seq<TimeEntry>, j: nat, x: TimeEntry, taskId: string)
    requires j < |entries|
    ensures SumTracked(entries[j := x], taskId) + Contribution(entries[j], taskId) ==
      SumTracked(entries, taskId) + Contribution(x, taskId)
  {
    var n := |entries| - 1;
    var updated := entries[j := x];
    if j == n {
      assert updated[..n] == entries[..n];
    } else {
      assert updated[..n] == entries[..n][j := x];
      SumTrackedUpdate(entries[..n], j, x, taskId);
    }
  }

  /** Appending an entry that has tracked nothing leaves every sum alone. */
  lemma SumTrackedAppendEmpty(entries: seq<TimeEntry>, e: TimeEntry, taskId: string)
    requires e.durationSeconds == 0
    ensures SumTracked(entries + [e], taskId) == SumTracked(entries, taskId)
  {
    assert (entries + [e])[..|entries|] == entries;
  }

  predicate IsOpenFor(e: TimeEntry, taskId: string, user: string) {
    e.task == taskId && e.user == user && e.stoppedAt.None?
  }

  function OpenFor(entries: seq<TimeEntry>, taskId: string, user: string): (r: seq<TimeEntry>)
    ensures forall e :: e in r <==> e in entries && IsOpenFor(e, taskId, user)
  {
    if |entries| == 0 then []
    else
      assert entries == [entries[0]] + entries[1..];
      (if IsOpenFor(entries[0], taskId, user) then [entries[0]] else []) + OpenFor(entries[1..], taskId, user)
  }

  /** `ordering = ("-started_at",)` on time entries. */
  function EntryKey(e: TimeEntry): Ordering.Key {
    (-e.startedAt, 0)
  }

  /** `filter(task=..., user=..., stopped_at__isnull=True).order_by("-started_at").first()`. */
  function LatestOpen(entries: seq<TimeEntry>, taskId: string, user: string): Option<TimeEntry> {
    var sorted := Ordering.SortBy(OpenFor(entries, taskId, user), EntryKey);
    if |sorted| == 0 then None else Some(sorted[0])
  }

  /** The entry the timer stops is the user's open entry on the task that started last. */
  lemma LatestOpenIsLatest(entries: seq<TimeEntry>, taskId: string, user: string)
    ensures LatestOpen(entries, taskId, user).None? <==> forall e :: e in entries ==> !IsOpenFor(e, taskId, user)
    ensures LatestOpen(entries, taskId, user).Some? ==>
      var l := LatestOpen(entries, taskId, user).value;
      l in entries && IsOpenFor(l, taskId, user) &&
      forall e :: e in entries && IsOpenFor(e, taskId, user) ==> e.startedAt <= l.startedAt
  {
    var open := OpenFor(entries, taskId, user);
    var sorted := Ordering.SortBy(open, EntryKey);
    Ordering.SortByCorrect(open, EntryKey);
    forall e
      ensures e in sorted <==> e in open
    {
      Ordering.SortByMembers(open, EntryKey, e);
    }
    if |sorted| > 0 {
      forall e | e in entries && IsOpenFor(e, taskId, user)
        ensures e.startedAt <= sorted[0].startedAt
      {
        assert e in sorted;
        var k :| 0 <= k < |sorted| && sorted[k] == e;
        if k > 0 {
          assert Ordering.KeyLe(EntryKey(sorted[0]), EntryKey(sorted[k]));
        }
      }
    }
  }

  /** An entry closed at `now`: stopped, with the elapsed seconds added. */
  function Closed(e: TimeEntry, now: int): TimeEntry {
    e.(stoppedAt := Some(now), durationSeconds := e.durationSeconds + Elapsed(e.startedAt, now))
  }

  /** The entries after the done-toggle closes every open entry of the task (any user). */
  function CloseAllOpen(entries: seq<TimeEntry>, taskId: string, now: int): seq<TimeEntry> {
    seq(|entries|, k requires 0 <= k < |entries| =>
      if entries[k].task == taskId && entries[k].stoppedAt.None? then Closed(entries[k], now) else entries[k])
  }

  /** The seconds the done-toggle adds to the task. */
  function TotalOpenElapsed(entries: seq<TimeEntry>, taskId: string, now: int): nat {
    if |entries| == 0 then 0
    else
      var last := entries[|entries| - 1];
      TotalOpenElapsed(entries[..|entries| - 1], taskId, now) +
        (if last.task == taskId && last.stoppedAt.None? then Elapsed(last.startedAt, now) else 0)
  }

  predicate UniqueEntryIds(entries: seq<TimeEntry>) {
    forall i, j :: 0 <= i < j < |entries| ==> entries[i].id != entries[j].id
  }

  /** The tables `tasks_timer` and `tasks_toggle` change. */
  class TimeStore {
    var tasks: map<string, Task>
    var entries: seq<TimeEntry>

    constructor(tasks: map<string, Task>, entries: seq<TimeEntry>)
      ensures this.tasks == tasks && this.entries == entries
    {
      this.tasks := tasks;
      this.entries := entries;
    }

    /** The task's `tracked_seconds` equals what its entries hold. */
    ghost predicate InSync(taskId: string)
      reads this
    {
      taskId in tasks && tasks[taskId].trackedSeconds == SumTracked(entries, taskId)
    }

    /**
      `tasks_timer`: without an open entry of this user, a TODO task moves to IN_PROGRESS and an
      entry starts at `now`; otherwise the latest open entry stops and its elapsed seconds are
      added to it and to the task.
    */
    method Timer(taskId: string, user: string, now: int, newEntryId: string) returns (started: bool)
      requires taskId in tasks && UniqueEntryIds(entries)
      requires forall k :: 0 <= k < |entries| ==> entries[k].id != newEntryId
      modifies this
      ensures UniqueEntryIds(entries)
      ensures started <==> LatestOpen(old(entries), taskId, user).None?
      ensures started ==> StartedState(old(tasks), old(entries), taskId, user, now, newEntryId, tasks, entries)
      ensures !started ==> StoppedState(old(tasks), old(entries), taskId, LatestOpen(old(entries), taskId, user).value, now, tasks, entries)
      ensures old(InSync(taskId)) ==> InSync(taskId)
    {
      LatestOpenIsLatest(entries, taskId, user);
      var open := LatestOpen(entries, taskId, user);
      if open.None? {
        StartEntry(taskId, user, now, newEntryId);
        started := true;
      } else {
        StopEntry(taskId, open.value, now);
        started := false;
      }
    }

    method StartEntry(taskId: string, user: string, now: int, newEntryId: string)
      requires taskId in tasks && UniqueEntryIds(entries)
      requires forall k :: 0 <= k < |entries| ==> entries[k].id != newEntryId
      modifies this
      ensures UniqueEntryIds(entries)
      ensures StartedState(old(tasks), old(entries), taskId, user, now, newEntryId, tasks, entries)
      ensures old(InSync(taskId)) ==> InSync(taskId)
    {
      var t := tasks[taskId];
      if t.status == Todo {
        tasks := tasks[taskId := t.(status := InProgress)];
      }
      SumTrackedAppendEmpty(entries, TimeEntry(newEntryId, taskId, user, now, None, 0), taskId);
      entries := entries + [TimeEntry(newEntryId, taskId, user, now, None, 0)];
    }

    method StopEntry(taskId: string, e: TimeEntry, now: int)
      requires taskId in tasks && UniqueEntryIds(entries)
      requires e in entries && e.task == taskId
      modifies this
      ensures UniqueEntryIds(entries)
      ensures StoppedState(old(tasks), old(entries), taskId, e, now, tasks, entries)
      ensures old(InSync(taskId)) ==> InSync(taskId)
    {
      var j :| 0 <= j < |entries| && entries[j] == e;
      var added := Elapsed(e.startedAt, now);
      SumTrackedUpdate(entries, j, Closed(e, now), taskId);
      ClosedInPlace(entries, j, now);
      entries := entries[j := Closed(e, now)];
      if added > 0 {
        var t := tasks[taskId];
        tasks := tasks[taskId := t.(trackedSeconds := t.trackedSeconds + added)];
      } else {
        assert tasks[taskId] == tasks[taskId].(trackedSeconds := tasks[taskId].trackedSeconds + added);
      }
    }

    /**
      `tasks_toggle` on the time entries: DONE becomes TODO and anything else DONE; on DONE every
      open entry of the task is closed and the sum of their elapsed seconds is added to the task.
      In the view all of this is one transaction: the status is saved, the status_changed (and on
      DONE the task_completed) automation triggers run, and only then are the entries closed; the
      two column normalizations come last. The triggers, the receivers of the status save and the
      normalizations are not run here: `TaskEngine`, `Recurrence` and `ColumnOrder` model them.
    */
    method Toggle(taskId: string, now: int) returns (newStatus: Status)
      requires taskId in tasks
      modifies this
      ensures var t := old(tasks)[taskId];
        newStatus == (if t.status != Done then Done else Todo) &&
        (newStatus == Todo ==> entries == old(entries) && tasks == old(tasks)[taskId := t.(status := Todo)]) &&
        (newStatus == Done ==>
          entries == CloseAllOpen(old(entries), taskId, now) &&
          tasks == old(tasks)[taskId := t.(status := Done,
                                           trackedSeconds := t.trackedSeconds + TotalOpenElapsed(old(entries), taskId, now))])
      ensures old(InSync(taskId)) ==> InSync(taskId)
    {
      newStatus := if tasks[taskId].status != Done then Done else Todo;
      tasks := tasks[taskId := tasks[taskId].(status := newStatus)];
      if newStatus == Done {
        var total := CloseOpenEntries(taskId, now);
        if total > 0 {
          var t := tasks[taskId];
          tasks := tasks[taskId := t.(trackedSeconds := t.trackedSeconds + total)];
        }
      }
    }

    /** The loop over the task's open entries in `tasks_toggle`; returns the seconds added. */
    method CloseOpenEntries(taskId: string, now: int) returns (total: nat)
      modifies this
      ensures tasks == old(tasks)
      ensures entries == CloseAllOpen(old(entries), taskId, now)
      ensures total == TotalOpenElapsed(old(entries), taskId, now)
      ensures SumTracked(entries, taskId) == SumTracked(old(entries), taskId) + total
    {
      ghost var start := entries;
      ghost var target := CloseAllOpen(start, taskId, now);
      total := 0;
      var i := 0;
      while i < |entries|
        invariant 0 <= i <= |entries| == |start|
        invariant entries == target[..i] + start[i..] && tasks == old(tasks)
        invariant total == TotalOpenElapsed(start[..i], taskId, now)
        invariant SumTracked(entries, taskId) == SumTracked(start, taskId) + total
      {
        CloseStep(start, target, entries, i, taskId, now);
        var e := entries[i];
        if e.task == taskId && e.stoppedAt.None? {
          var added := Elapsed(e.startedAt, now);
          var closed := if added > 0 then Closed(e, now) else e.(stoppedAt := Some(now));
          SumTrackedUpdate(entries, i, closed, taskId);
          entries := entries[i := closed];
          total := total + added;
        }
        i := i + 1;
      }
      assert start[..|start|] == start;
      assert target[..|start|] == target && start[|start|..] == [];
    }
  }

  /** One iteration of the closing loop, as the loop's invariant needs it. */
  lemma CloseStep(start: seq<TimeEntry>, target: seq<TimeEntry>, entries: seq<TimeEntry>, i: nat, taskId: string, now: int)
    requires target == CloseAllOpen(start, taskId, now)
    requires i < |start| && entries == target[..i] + start[i..]
    ensures entries[i] == start[i]
    ensures TotalOpenElapsed(start[..i + 1], taskId, now) == TotalOpenElapsed(start[..i], taskId, now) +
      (if start[i].task == taskId && start[i].stoppedAt.None? then Elapsed(start[i].startedAt, now) else 0)
    ensures start[i].task == taskId && start[i].stoppedAt.None? ==>
      target[i] == Closed(start[i], now) &&
      entries[i := Closed(start[i], now)] == target[..i + 1] + start[i + 1..]
    ensures !(start[i].task == taskId && start[i].stoppedAt.None?) ==>
      entries == target[..i + 1] + start[i + 1..]
    ensures Elapsed(start[i].startedAt, now) == 0 ==> Closed(start[i], now) == start[i].(stoppedAt := Some(now))
  {
    assert start[..i + 1][..i] == start[..i];
    assert target[..i + 1] == target[..i] + [target[i]];
    assert start[i..] == [start[i]] + start[i + 1..];
  }

  /** The state after the timer starts an entry. */
  ghost predicate StartedState(tasks0: map<string, Task>, entries0: seq<TimeEntry>, taskId: string, user: string,
                               now: int, newEntryId: string, tasks1: map<string, Task>, entries1: seq<TimeEntry>)
    requires taskId in tasks0
  {
    var t := tasks0[taskId];
    entries1 == entries0 + [TimeEntry(newEntryId, taskId, user, now, None, 0)] &&
    tasks1 == tasks0[taskId := if t.status == Todo then t.(status := InProgress) else t]
  }

  /** Closing the entry at `j` in place changes that entry only, and the ids stay unique. */
  lemma ClosedInPlace(entries: seq<TimeEntry>, j: nat, now: int)
    requires UniqueEntryIds(entries) && j < |entries|
    ensures var after := entries[j := Closed(entries[j], now)];
      UniqueEntryIds(after) &&
      forall k :: 0 <= k < |after| ==> after[k] == if entries[k].id == entries[j].id then Closed(entries[j], now) else entries[k]
  {
  }

  /** The state after the timer stops entry `e`. */
  ghost predicate StoppedState(tasks0: map<string, Task>, entries0: seq<TimeEntry>, taskId: string, e: TimeEntry,
                               now: int, tasks1: map<string, Task>, entries1: seq<TimeEntry>)
    requires taskId in tasks0
  {
    var t := tasks0[taskId];
    |entries1| == |entries0| &&
    (forall k :: 0 <= k < |entries1| ==> entries1[k] == if entries0[k].id == e.id then Closed(e, now) else entries0[k]) &&
    tasks1 == tasks0[taskId := t.(trackedSeconds := t.trackedSeconds + Elapsed(e.startedAt, now))]
  }

  /** After the done-toggle no entry of the task is left open, and entries of other tasks are untouched. */
  lemma ToggleClosesEveryEntry(entries: seq<TimeEntry>, taskId: string, now: int)
    ensures |CloseAllOpen(entries, taskId, now)| == |entries|
    ensures forall k :: 0 <= k < |entries| && entries[k].task == taskId ==>
      CloseAllOpen(entries, taskId, now)[k].stoppedAt.Some?
    ensures forall k :: 0 <= k < |entries| && entries[k].task != taskId ==>
      CloseAllOpen(entries, taskId, now)[k] == entries[k]
    ensures forall k :: 0 <= k < |entries| && entries[k].stoppedAt.Some? ==>
      CloseAllOpen(entries, taskId, now)[k] == entries[k]
  {
  }
}
