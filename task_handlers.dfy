/**
  `TaskHandlers`: the `_action_*` handlers of the two task automation engines. A handler
  changes the engine's in-memory task instance and then saves the listed columns to the row;
  an exception (from `int()` or from the save) stops it where it was raised. `Effect` keeps
  the instance, the tables and the exception text apart, because a rollback restores the
  tables but not the instance.
*/
module TaskHandlers {
  import opened Wrappers
  import opened PyValues
  import opened TaskModel
  import opened LookupKeys

  /**
    The read-only catalog the handlers look rows up in, keyed by `str(pk)`: projects and labels
    have UUID keys, users integer keys; a project or label maps to its organization, a user to `is_active`.
  */
  datatype Catalog = Catalog(
    projects: map<string, string>,
    labels: map<string, string>,
    users: map<string, bool>)

  /** The engine's `triggered_by` and the value `timezone.now()` returns. */
  datatype Context = Context(now: int, triggeredBy: Option<string>)

  /** Which of the two engines: the `if`/`elif` one or the registry-based one. */
  datatype Engine = Chain | Registered

  datatype Effect = Effect(inst: Task, db: Tables, raised: Option<string>)

  /** The effect changes no other task's row or label links, and no row appears or disappears. */
  ghost predicate Confined(inst: Task, db: Tables, e: Effect) {
    e.inst.id == inst.id && e.db.tasks.Keys == db.tasks.Keys &&
    (forall k :: k in db.tasks && k != inst.id ==> e.db.tasks[k] == db.tasks[k]) &&
    (forall k, l :: k != inst.id ==> ((k, l) in e.db.labelLinks <==> (k, l) in db.labelLinks))
  }

  /** The organization of the instance's project (`task.project.organization`). */
  function OrgOf(cat: Catalog, inst: Task): Option<string> {
    if inst.project in cat.projects then Some(cat.projects[inst.project]) else None
  }

  /** Assigns to the instance, then saves `fields`; a failed save leaves the instance changed. */
  function SaveEffect(db: Tables, inst: Task, fields: set<Field>): (e: Effect)
    ensures e.inst == inst
    ensures e.raised.None? <==> Save(db, inst, fields).Ok?
    ensures e.raised.Some? ==> e.db == db
    ensures e.db.labelLinks == db.labelLinks && e.db.tasks.Keys == db.tasks.Keys
    ensures forall k :: k in db.tasks && k != inst.id ==> e.db.tasks[k] == db.tasks[k]
  {
    match Save(db, inst, fields)
    case Ok(db') => Effect(inst, db', None)
    case Err(msg) => Effect(inst, db, Some(msg))
  }

  function Unchanged(inst: Task, db: Tables): (e: Effect)
    ensures Confined(inst, db, e)
    ensures e.raised.Some? ==> e.db == db
  {
    Effect(inst, db, None)
  }

  function ChangeStatusEffect(config: Config, inst: Task, db: Tables): (e: Effect)
    ensures Confined(inst, db, e)
    ensures e.raised.Some? ==> e.db == db
  {
    match Constraint(config, "status")
    case Some(JStr(s)) =>
      (match ParseStatus(s)
       case Some(st) => SaveEffect(db, inst.(status := st), {StatusField})
       case None => Unchanged(inst, db))
    case _ => Unchanged(inst, db)
  }

  function SetPriorityEffect(config: Config, inst: Task, db: Tables): (e: Effect)
    ensures Confined(inst, db, e)
    ensures e.raised.Some? ==> e.db == db
  {
    match Constraint(config, "priority")
    case Some(JStr(s)) =>
      (match ParsePriority(s)
       case Some(p) => SaveEffect(db, inst.(priority := p), {PriorityField})
       case None => Unchanged(inst, db))
    case _ => Unchanged(inst, db)
  }

  function AssignUserEffect(cat: Catalog, ctx: Context, config: Config, inst: Task, db: Tables): (e: Effect)
    ensures Confined(inst, db, e)
    ensures e.raised.Some? ==> e.db == db
  {
    if Truthy(GetOr(config, "assign_triggered_by", JBool(false))) && ctx.triggeredBy.Some? then
      SaveEffect(db, inst.(assignedTo := ctx.triggeredBy.value), {AssignedToField})
    else
      match Constraint(config, "user_id")
      case Some(u) =>
        (match IntKey(u)
         case Err(msg) => Effect(inst, db, Some(msg))
         case Ok(key) =>
           if key in cat.users && cat.users[key] then SaveEffect(db, inst.(assignedTo := key), {AssignedToField})
           else Unchanged(inst, db))
      case None => Unchanged(inst, db)
  }

  /**
    `get_or_create(task=task, label=label)` for a label of the task's organization; a `label_id`
    that is not a UUID raises in the lookup.
  */
  function AddLabelEffect(cat: Catalog, config: Config, inst: Task, db: Tables): (e: Effect)
    ensures Confined(inst, db, e)
    ensures e.raised.Some? ==> e.db == db
  {
    match Constraint(config, "label_id")
    case Some(l) =>
      (match UuidKey(l)
       case Err(msg) => Effect(inst, db, Some(msg))
       case Ok(key) =>
         if key in cat.labels && OrgOf(cat, inst) == Some(cat.labels[key]) then
           Unchanged(inst, db.(labelLinks := db.labelLinks + {(inst.id, key)}))
         else Unchanged(inst, db))
    case None => Unchanged(inst, db)
  }

  /**
    `filter(task=task, label_id=label_id).delete()`: no organization check and no error when the
    link is absent, but a `label_id` that is not a UUID raises.
  */
  function RemoveLabelEffect(config: Config, inst: Task, db: Tables): (e: Effect)
    ensures Confined(inst, db, e)
    ensures e.raised.Some? ==> e.db == db
  {
    match Constraint(config, "label_id")
    case Some(l) =>
      (match UuidKey(l)
       case Err(msg) => Effect(inst, db, Some(msg))
       case Ok(key) => Unchanged(inst, db.(labelLinks := db.labelLinks - {(inst.id, key)})))
    case None => Unchanged(inst, db)
  }

  function SetDueDateEffect(ctx: Context, config: Config, inst: Task, db: Tables): (e: Effect)
    ensures Confined(inst, db, e)
    ensures e.raised.Some? ==> e.db == db
  {
    match PyInt(GetOr(config, "days_offset", JInt(3)))
    case Ok(days) => SaveEffect(db, inst.(dueDate := Some(ctx.now + days * Day)), {DueDateField})
    case Err(msg) => Effect(inst, db, Some(msg))
  }

  function ClearDueDateEffect(inst: Task, db: Tables): (e: Effect)
    ensures Confined(inst, db, e)
    ensures e.raised.Some? ==> e.db == db
  {
    SaveEffect(db, inst.(dueDate := None), {DueDateField})
  }

  /** The chain engine also requires the target to differ from the current project. */
  function MoveToProjectEffect(engine: Engine, cat: Catalog, config: Config, inst: Task, db: Tables): (e: Effect)
    ensures Confined(inst, db, e)
    ensures e.raised.Some? ==> e.db == db
  {
    match Constraint(config, "project_id")
    case Some(p) =>
      (match UuidKey(p)
       case Err(msg) => Effect(inst, db, Some(msg))
       case Ok(key) =>
         if key in cat.projects && OrgOf(cat, inst) == Some(cat.projects[key]) &&
            (engine == Registered || key != inst.project)
         then SaveEffect(db, inst.(project := key), {ProjectField})
         else Unchanged(inst, db))
    case None => Unchanged(inst, db)
  }

  /** The start `add_to_calendar` assigns: now (registry) or now plus `int(days_offset)` days, 1 by default (chain). */
  function CalendarStart(engine: Engine, ctx: Context, config: Config): (r: Result<int>)
    ensures engine == Registered ==> r == Ok(ctx.now)
    ensures engine == Chain && "days_offset" !in config ==> r == Ok(ctx.now + Day)
  {
    if engine == Chain then
      match PyInt(GetOr(config, "days_offset", JInt(1)))
      case Ok(days) => Ok(ctx.now + days * Day)
      case Err(msg) => Err(msg)
    else Ok(ctx.now)
  }

  /**
    Only for a task without `scheduled_start`. The chain engine schedules at now + `days_offset`
    (default 1) days, the registry engine at now; both then set `duration_minutes` (default 60).
    The start is assigned before `int(duration)` runs, so a bad duration leaves it on the instance.
  */
  function AddToCalendarEffect(engine: Engine, ctx: Context, config: Config, inst: Task, db: Tables): (e: Effect)
    ensures Confined(inst, db, e)
    ensures e.raised.Some? ==> e.db == db
  {
    if inst.scheduledStart.Some? then Unchanged(inst, db)
    else
      match CalendarStart(engine, ctx, config)
      case Err(msg) => Effect(inst, db, Some(msg))
      case Ok(s) =>
        var scheduled := inst.(scheduledStart := Some(s));
        match PyInt(GetOr(config, "duration_minutes", JInt(60)))
        case Err(msg) => Effect(scheduled, db, Some(msg))
        case Ok(d) => SaveEffect(db, scheduled.(durationMinutes := Some(d)), {ScheduledStartField, DurationField})
  }

  /**
    The chain engine archives only a task not yet archived and records `triggered_by` as is;
    the registry engine always archives and replaces `archived_by` only when `triggered_by` is set.
  */
  function ArchiveEffect(engine: Engine, ctx: Context, inst: Task, db: Tables): (e: Effect)
    ensures Confined(inst, db, e)
    ensures e.raised.Some? ==> e.db == db
  {
    var fields := {IsArchivedField, ArchivedAtField, ArchivedByField};
    if engine == Chain then
      if inst.isArchived then Unchanged(inst, db)
      else SaveEffect(db, inst.(isArchived := true, archivedAt := Some(ctx.now), archivedBy := ctx.triggeredBy), fields)
    else
      var archiver := if ctx.triggeredBy.Some? then ctx.triggeredBy else inst.archivedBy;
      SaveEffect(db, inst.(isArchived := true, archivedAt := Some(ctx.now), archivedBy := archiver), fields)
  }

  /** `_execute_action`: dispatch on the stored action-type string; an unknown type does nothing. */
  function ApplyAction(engine: Engine, cat: Catalog, ctx: Context, action: Action, inst: Task, db: Tables): (e: Effect)
    ensures Confined(inst, db, e)
    ensures e.raised.Some? ==> e.db == db
  {
    var dispatched := if engine == Chain then ChainDispatch(action.actionType) else RegistryDispatch(action.actionType);
    match dispatched
    case None => Unchanged(inst, db)
    case Some(kind) =>
      var config := action.config;
      match kind
      case ChangeStatus => ChangeStatusEffect(config, inst, db)
      case SetPriority => SetPriorityEffect(config, inst, db)
      case AssignUser => AssignUserEffect(cat, ctx, config, inst, db)
      case UnassignUser => Unchanged(inst, db)
      case AddLabel => AddLabelEffect(cat, config, inst, db)
      case RemoveLabel => RemoveLabelEffect(config, inst, db)
      case SetDueDate => SetDueDateEffect(ctx, config, inst, db)
      case ClearDueDate => ClearDueDateEffect(inst, db)
      case MoveToProject => MoveToProjectEffect(engine, cat, config, inst, db)
      case SendNotification => Unchanged(inst, db)
      case PostComment => Unchanged(inst, db)
      case AddToCalendar => AddToCalendarEffect(engine, ctx, config, inst, db)
      case ArchiveTask => ArchiveEffect(engine, ctx, inst, db)
  }

  // ---------------------------------------------------------------------------
  // Properties of the handlers
  // ---------------------------------------------------------------------------

  /** The instance agrees with its stored row. */
  predicate InSync(inst: Task, db: Tables) {
    inst.id in db.tasks && db.tasks[inst.id] == inst
  }

  /**
    `change_status` does nothing unless the configured value is one of the three statuses;
    otherwise it sets that status and nothing else.
  */
  lemma ChangeStatusOnlyValid(config: Config, inst: Task, db: Tables)
    requires InSync(inst, db)
    ensures var e := ChangeStatusEffect(config, inst, db);
      e.raised.None? &&
      if "status" in config && config["status"].JStr? && ParseStatus(config["status"].s).Some? then
        e.inst == inst.(status := ParseStatus(config["status"].s).value) &&
        e.db == db.(tasks := db.tasks[inst.id := e.inst])
      else e.inst == inst && e.db == db
  {
    var e := ChangeStatusEffect(config, inst, db);
    if "status" in config && config["status"].JStr? && ParseStatus(config["status"].s).Some? {
      var st := ParseStatus(config["status"].s).value;
      assert WriteFields(inst, inst.(status := st), {StatusField}) == inst.(status := st);
    }
  }

  /** `set_priority` does nothing unless the value is a priority; otherwise it sets only the priority. */
  lemma SetPriorityOnlyValid(config: Config, inst: Task, db: Tables)
    requires InSync(inst, db)
    ensures var e := SetPriorityEffect(config, inst, db);
      e.raised.None? &&
      if "priority" in config && config["priority"].JStr? && ParsePriority(config["priority"].s).Some? then
        e.inst == inst.(priority := ParsePriority(config["priority"].s).value) &&
        e.db == db.(tasks := db.tasks[inst.id := e.inst])
      else e.inst == inst && e.db == db
  {
    var e := SetPriorityEffect(config, inst, db);
    if "priority" in config && config["priority"].JStr? && ParsePriority(config["priority"].s).Some? {
      var p := ParsePriority(config["priority"].s).value;
      assert WriteFields(inst, inst.(priority := p), {PriorityField}) == inst.(priority := p);
    }
  }

  /** A configured key that the lookup's field cannot convert. */
  predicate MalformedUuid(config: Config, key: string) {
    key in config && Truthy(config[key]) && UuidKey(config[key]).Err?
  }

  /**
    `add_label` raises exactly when the configured `label_id` is not a UUID, touches only label
    links, and running it twice equals running it once.
  */
  lemma AddLabelIdempotent(cat: Catalog, config: Config, inst: Task, db: Tables)
    ensures var e := AddLabelEffect(cat, config, inst, db);
      (e.raised.Some? <==> MalformedUuid(config, "label_id")) &&
      e.inst == inst && e.db.tasks == db.tasks && db.labelLinks <= e.db.labelLinks &&
      AddLabelEffect(cat, config, inst, e.db) == e
  {
  }

  /**
    `add_label` links the label the configured value names, whatever its spelling, exactly when
    that label belongs to the task's organization.
  */
  lemma AddLabelScopedToOrganization(cat: Catalog, config: Config, inst: Task, db: Tables)
    requires "label_id" in config && Truthy(config["label_id"]) && UuidKey(config["label_id"]).Ok?
    ensures var key := UuidKey(config["label_id"]).value;
      AddLabelEffect(cat, config, inst, db).db.labelLinks ==
        if key in cat.labels && OrgOf(cat, inst) == Some(cat.labels[key]) then db.labelLinks + {(inst.id, key)}
        else db.labelLinks
  {
  }

  /**
    `remove_label` raises exactly when the configured `label_id` is not a UUID; otherwise it
    removes the task's link to the label that value names and no other link.
  */
  lemma RemoveLabelDropsOneLink(config: Config, inst: Task, db: Tables)
    ensures var e := RemoveLabelEffect(config, inst, db);
      (e.raised.Some? <==> MalformedUuid(config, "label_id")) &&
      e.inst == inst && e.db.tasks == db.tasks &&
      ("label_id" in config && Truthy(config["label_id"]) && UuidKey(config["label_id"]).Ok? ==>
        e.db.labelLinks == db.labelLinks - {(inst.id, UuidKey(config["label_id"]).value)}) &&
      (!("label_id" in config && Truthy(config["label_id"])) ==> e.db == db)
  {
  }

  /** An already-archived task is left alone by the chain engine; otherwise it is archived now by `triggered_by`. */
  lemma ArchiveChainGuarded(ctx: Context, inst: Task, db: Tables)
    requires InSync(inst, db)
    ensures var e := ArchiveEffect(Chain, ctx, inst, db);
      e.raised.None? &&
      (inst.isArchived ==> e.inst == inst && e.db == db) &&
      (!inst.isArchived ==>
        e.inst == inst.(isArchived := true, archivedAt := Some(ctx.now), archivedBy := ctx.triggeredBy) &&
        e.db.tasks[inst.id] == e.inst)
  {
    var e := ArchiveEffect(Chain, ctx, inst, db);
    if !inst.isArchived {
      var fields := {IsArchivedField, ArchivedAtField, ArchivedByField};
      var a := inst.(isArchived := true, archivedAt := Some(ctx.now), archivedBy := ctx.triggeredBy);
      assert WriteFields(inst, a, fields) == a;
    }
  }

  /**
    The registry engine's archive is unguarded: on an archived task it still moves `archived_at`
    to now, and without `triggered_by` it keeps the previous `archived_by`.
  */
  lemma ArchiveRegisteredUnguarded(ctx: Context, inst: Task, db: Tables)
    requires InSync(inst, db)
    ensures var e := ArchiveEffect(Registered, ctx, inst, db);
      e.raised.None? && e.inst.isArchived && e.inst.archivedAt == Some(ctx.now) &&
      e.inst.archivedBy == (if ctx.triggeredBy.Some? then ctx.triggeredBy else inst.archivedBy) &&
      e.db.tasks[inst.id] == e.inst
  {
    var e := ArchiveEffect(Registered, ctx, inst, db);
    var fields := {IsArchivedField, ArchivedAtField, ArchivedByField};
    assert WriteFields(inst, e.inst, fields) == e.inst;
  }

  /**
    The registry engine moves to any project of the same organization, the chain engine only to
    a different one; when they disagree the task is already in the target and the stored rows agree.
  */
  lemma MoveToProjectVariantsAgree(cat: Catalog, config: Config, inst: Task, db: Tables)
    requires InSync(inst, db)
    ensures MoveToProjectEffect(Chain, cat, config, inst, db).inst == MoveToProjectEffect(Registered, cat, config, inst, db).inst
    ensures MoveToProjectEffect(Chain, cat, config, inst, db).db == MoveToProjectEffect(Registered, cat, config, inst, db).db
  {
    if "project_id" in config && Truthy(config["project_id"]) && UuidKey(config["project_id"]).Ok? {
      var key := UuidKey(config["project_id"]).value;
      if key == inst.project {
        assert inst.(project := key) == inst;
        assert WriteFields(inst, inst, {ProjectField}) == inst;
        assert db.tasks[inst.id := inst] == db.tasks;
      }
    }
  }

  /**
    A `project_id` that is the text of a project's UUID, of the task's organization, moves a stored
    task there in both engines (the chain engine when it is another project) and raises nothing.
  */
  lemma MoveToUuidProject(engine: Engine, cat: Catalog, config: Config, inst: Task, db: Tables, v: nat)
    requires v < UuidLimit && "project_id" in config && config["project_id"] == JStr(UuidString(v))
    requires UuidString(v) in cat.projects && OrgOf(cat, inst) == Some(cat.projects[UuidString(v)])
    requires engine == Registered || UuidString(v) != inst.project
    requires inst.id in db.tasks
    ensures var e := MoveToProjectEffect(engine, cat, config, inst, db);
      e.raised.None? && e.inst == inst.(project := UuidString(v)) &&
      e.db.tasks[inst.id] == WriteFields(db.tasks[inst.id], inst.(project := UuidString(v)), {ProjectField})
  {
    UuidRoundTrip(v);
    assert Truthy(config["project_id"]);
  }

  /** `add_to_calendar` never changes a task that already has a `scheduled_start`. */
  lemma AddToCalendarKeepsScheduled(engine: Engine, ctx: Context, config: Config, inst: Task, db: Tables)
    requires inst.scheduledStart.Some?
    ensures AddToCalendarEffect(engine, ctx, config, inst, db) == Unchanged(inst, db)
  {
  }

  /**
    The registry engine's `add_to_calendar` with no config schedules an unscheduled task at now
    for 60 minutes.
  */
  lemma AddToCalendarDefaults(ctx: Context, inst: Task, db: Tables)
    requires InSync(inst, db) && inst.scheduledStart.None?
    ensures var e := AddToCalendarEffect(Registered, ctx, map[], inst, db);
      e.raised.None? && e.inst == inst.(scheduledStart := Some(ctx.now), durationMinutes := Some(60)) &&
      e.db.tasks[inst.id] == e.inst
    ensures var e := AddToCalendarEffect(Chain, ctx, map[], inst, db);
      e.raised.None? && e.inst == inst.(scheduledStart := Some(ctx.now + Day), durationMinutes := Some(60))
  {
    var e := AddToCalendarEffect(Registered, ctx, map[], inst, db);
    assert WriteFields(inst, e.inst, {ScheduledStartField, DurationField}) == e.inst;
  }

  /**
    A `duration_minutes` that `int()` rejects raises after the start was assigned: the instance
    keeps the new start while the row is untouched.
  */
  lemma AddToCalendarBadDuration(engine: Engine, ctx: Context, config: Config, inst: Task, db: Tables)
    requires inst.scheduledStart.None?
    requires engine == Chain ==> "days_offset" !in config
    requires "duration_minutes" in config && PyInt(config["duration_minutes"]).Err?
    ensures var e := AddToCalendarEffect(engine, ctx, config, inst, db);
      e.raised.Some? && e.db == db && e.inst.scheduledStart.Some?
  {
    assert GetOr(config, "duration_minutes", JInt(60)) == config["duration_minutes"];
    CalendarDurationRaises(engine, ctx, config, inst, db, PyInt(config["duration_minutes"]).error);
  }

  /** Once the start is known, an `int()` error on the duration is raised with the start kept. */
  lemma CalendarDurationRaises(engine: Engine, ctx: Context, config: Config, inst: Task, db: Tables, msg: string)
    requires inst.scheduledStart.None? && CalendarStart(engine, ctx, config).Ok?
    requires PyInt(GetOr(config, "duration_minutes", JInt(60))) == Err(msg)
    ensures AddToCalendarEffect(engine, ctx, config, inst, db) ==
      Effect(inst.(scheduledStart := Some(CalendarStart(engine, ctx, config).value)), db, Some(msg))
  {
  }

  /** `set_due_date` sets the due date to now plus `int(days_offset)` days, or raises `int()`'s error. */
  lemma SetDueDateOffset(ctx: Context, config: Config, inst: Task, db: Tables)
    requires InSync(inst, db)
    ensures var e := SetDueDateEffect(ctx, config, inst, db);
      match PyInt(GetOr(config, "days_offset", JInt(3)))
      case Ok(d) => e.raised.None? && e.inst == inst.(dueDate := Some(ctx.now + d * Day)) && e.db.tasks[inst.id] == e.inst
      case Err(m) => e == Effect(inst, db, Some(m))
  {
    match PyInt(GetOr(config, "days_offset", JInt(3))) {
      case Ok(d) =>
        var a := inst.(dueDate := Some(ctx.now + d * Day));
        assert WriteFields(inst, a, {DueDateField}) == a;
      case Err(_) =>
    }
  }

  /** An action whose type neither engine knows (for example a board-only type) changes nothing. */
  lemma UnknownActionIsNoOp(engine: Engine, cat: Catalog, ctx: Context, action: Action, inst: Task, db: Tables)
    requires action.actionType !in Registry
    ensures ApplyAction(engine, cat, ctx, action, inst, db) == Unchanged(inst, db)
  {
    DispatchAgrees(action.actionType);
  }
}
