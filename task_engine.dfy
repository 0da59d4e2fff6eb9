/**
  `TaskEngine`: rule lookup, per-rule transactions, the trigger methods and the task buttons
  of the two task automation engines. The database tables live in `TaskStore`; the caller's
  in-memory task instance is passed in and handed back, since handlers change it in place.
*/
module TaskEngine {
  import opened Wrappers
  import opened PyValues
  import opened TaskModel
  import opened TaskHandlers
  import opened TriggerFilter
  import Ordering

  /** The trigger method called, with its arguments. */
  datatype Event =
    | Created
    | Updated
    | Completed
    | DueReached
    | StatusChange(oldStatus: string, newStatus: string)
    | PriorityChange(oldPriority: string, newPriority: string)
    | LabelAdd(labelId: string)
    | LabelRemove(labelId: string)
    | Assigned(user: string)
    | DueApproaching(daysUntilDue: int)
    | Overdue(daysOverdue: int)

  function TriggerOf(ev: Event): TriggerType {
    match ev
    case Created => TaskCreated
    case Updated => TaskUpdated
    case Completed => TaskCompleted
    case DueReached => DueDateReached
    case StatusChange(_, _) => StatusChanged
    case PriorityChange(_, _) => PriorityChanged
    case LabelAdd(_) => LabelAdded
    case LabelRemove(_) => LabelRemoved
    case Assigned(_) => AssignedToUser
    case DueApproaching(_) => DueDateApproaching
    case Overdue(_) => DueDateOverdue
  }

  /**
    The per-rule filter of a trigger method; `Err` is the exception the filter raises.
    The two engines differ only for `assigned_to_user`, which the registry engine does not filter.
  */
  function RuleMatches(engine: Engine, config: Config, ev: Event): Result<bool> {
    match ev
    case StatusChange(o, n) => Ok(StatusMatches(config, o, n))
    case PriorityChange(o, n) => Ok(PriorityMatches(config, o, n))
    case LabelAdd(l) => Ok(LabelMatches(config, l))
    case LabelRemove(l) => Ok(LabelMatches(config, l))
    case Assigned(u) => Ok(engine == Registered || UserMatches(config, u))
    case DueApproaching(d) => Ok(DaysThresholdMatches(config, d))
    case Overdue(d) => IntervalMatches(config, d)
    case _ => Ok(true)
  }

  /** The conditions of the rule query: organization, trigger type, active, project null or equal. */
  predicate Selected(rule: Rule, org: string, project: string, trigger: TriggerType) {
    rule.organization == org && rule.trigger == trigger && rule.isActive &&
    (rule.project.None? || rule.project.value == project)
  }

  function SelectAll(rules: seq<Rule>, org: string, project: string, trigger: TriggerType): (r: seq<Rule>)
    ensures forall x :: x in r <==> x in rules && Selected(x, org, project, trigger)
  {
    if |rules| == 0 then []
    else if Selected(rules[0], org, project, trigger) then [rules[0]] + SelectAll(rules[1..], org, project, trigger)
    else SelectAll(rules[1..], org, project, trigger)
  }

  /** The rule query, in the model's `-created_at` order. */
  function RulesFor(rules: seq<Rule>, org: string, project: string, trigger: TriggerType): seq<Rule> {
    Ordering.SortBy(SelectAll(rules, org, project, trigger), RuleKey)
  }

  /** The query returns exactly the selected rules, newest first. */
  lemma RulesForSelects(rules: seq<Rule>, org: string, project: string, trigger: TriggerType)
    ensures forall x :: x in RulesFor(rules, org, project, trigger) <==> x in rules && Selected(x, org, project, trigger)
    ensures forall i, j :: 0 <= i < j < |RulesFor(rules, org, project, trigger)| ==>
      RulesFor(rules, org, project, trigger)[i].createdAt >= RulesFor(rules, org, project, trigger)[j].createdAt
  {
    var sel := SelectAll(rules, org, project, trigger);
    var r := RulesFor(rules, org, project, trigger);
    forall x
      ensures x in r <==> x in rules && Selected(x, org, project, trigger)
    {
      Ordering.SortByMembers(sel, RuleKey, x);
    }
    Ordering.SortByCorrect(sel, RuleKey);
    forall i, j | 0 <= i < j < |r|
      ensures r[i].createdAt >= r[j].createdAt
    {
      assert Ordering.KeyLe(RuleKey(r[i]), RuleKey(r[j]));
    }
  }

  // ---------------------------------------------------------------------------
  // Specification of one rule and of a list of rules
  // ---------------------------------------------------------------------------

  /** The actions run one after another until one raises. */
  function RunActions(engine: Engine, cat: Catalog, ctx: Context, acts: seq<Action>, inst: Task, db: Tables): (e: Effect)
    ensures Confined(inst, db, e)
    decreases |acts|
  {
    if |acts| == 0 then Effect(inst, db, None)
    else
      var first := ApplyAction(engine, cat, ctx, acts[0], inst, db);
      if first.raised.Some? then first
      else RunActions(engine, cat, ctx, acts[1..], first.inst, first.db)
  }

  datatype RuleOutcome = RuleOutcome(inst: Task, db: Tables, log: Log)

  /**
    `_execute_rule`: the ordered actions in one transaction; on an exception the tables are
    rolled back and a FAILED log carries the message, otherwise a SUCCESS log is written.
  */
  function RunRule(engine: Engine, cat: Catalog, ctx: Context, rule: Rule, inst: Task, db: Tables): RuleOutcome {
    var e := RunActions(engine, cat, ctx, OrderedActions(rule.actions), inst, db);
    match e.raised
    case None => RuleOutcome(e.inst, e.db, Log(rule.id, inst.id, Success, SuccessMessage))
    case Some(msg) => RuleOutcome(e.inst, db, Log(rule.id, inst.id, Failed, msg))
  }

  /** A rule either commits all its actions with SUCCESS or rolls back with FAILED and the exception text. */
  lemma RunRuleAllOrNothing(engine: Engine, cat: Catalog, ctx: Context, rule: Rule, inst: Task, db: Tables)
    ensures var out := RunRule(engine, cat, ctx, rule, inst, db);
      var e := RunActions(engine, cat, ctx, OrderedActions(rule.actions), inst, db);
      out.log.rule == rule.id && out.log.task == inst.id &&
      (out.log.status == Success <==> e.raised.None?) &&
      (out.log.status == Success ==> out.db == e.db && out.log.message == SuccessMessage) &&
      (out.log.status == Failed ==> out.db == db && out.log.message == e.raised.value)
  {
  }

  /** A rule with no actions always succeeds and changes nothing. */
  lemma EmptyRuleSucceeds(engine: Engine, cat: Catalog, ctx: Context, rule: Rule, inst: Task, db: Tables)
    requires rule.actions == []
    ensures RunRule(engine, cat, ctx, rule, inst, db) == RuleOutcome(inst, db, Log(rule.id, inst.id, Success, SuccessMessage))
  {
    assert OrderedActions(rule.actions) == [];
  }

  datatype RunOutcome = RunOutcome(inst: Task, db: Tables, logs: seq<Log>)

  /** `_execute_rules`: every rule in turn, on the instance the previous rule left behind. */
  function RunRules(engine: Engine, cat: Catalog, ctx: Context, rules: seq<Rule>, inst: Task, db: Tables): RunOutcome
    decreases |rules|
  {
    if |rules| == 0 then RunOutcome(inst, db, [])
    else
      var first := RunRule(engine, cat, ctx, rules[0], inst, db);
      var rest := RunRules(engine, cat, ctx, rules[1..], first.inst, first.db);
      RunOutcome(rest.inst, rest.db, [first.log] + rest.logs)
  }

  /** One log per rule, in the order of the rules, each about the acting task. */
  lemma {:induction false} RunRulesOneLogPerRule(engine: Engine, cat: Catalog, ctx: Context, rules: seq<Rule>, inst: Task, db: Tables)
    ensures var out := RunRules(engine, cat, ctx, rules, inst, db);
      |out.logs| == |rules| && out.inst.id == inst.id &&
      forall i :: 0 <= i < |rules| ==> out.logs[i].rule == rules[i].id && out.logs[i].task == inst.id
  {
    if |rules| > 0 {
      var first := RunRule(engine, cat, ctx, rules[0], inst, db);
      RunRulesOneLogPerRule(engine, cat, ctx, rules[1..], first.inst, first.db);
    }
  }

  /** The filter-first form: the rules whose filter holds, or the first exception a filter raises. */
  function FilterRules(engine: Engine, rules: seq<Rule>, ev: Event): (r: Result<seq<Rule>>)
    ensures r.Ok? ==> forall x :: x in r.value <==> x in rules && RuleMatches(engine, x.triggerConfig, ev) == Ok(true)
    decreases |rules|
  {
    if |rules| == 0 then Ok([])
    else
      match RuleMatches(engine, rules[0].triggerConfig, ev)
      case Err(msg) => Err(msg)
      case Ok(m) =>
        match FilterRules(engine, rules[1..], ev)
        case Err(msg) => Err(msg)
        case Ok(rest) => Ok(if m then [rules[0]] + rest else rest)
  }

  datatype TriggerOutcome = TriggerOutcome(inst: Task, db: Tables, logs: seq<Log>, raised: Option<string>)

  /** One iteration of an inline trigger loop: evaluate the rule's filter, then run it if it holds. */
  function ConsiderRule(engine: Engine, cat: Catalog, ctx: Context, rule: Rule, ev: Event, inst: Task, db: Tables): TriggerOutcome {
    match RuleMatches(engine, rule.triggerConfig, ev)
    case Err(msg) => TriggerOutcome(inst, db, [], Some(msg))
    case Ok(false) => TriggerOutcome(inst, db, [], None)
    case Ok(true) =>
      var out := RunRule(engine, cat, ctx, rule, inst, db);
      TriggerOutcome(out.inst, out.db, [out.log], None)
  }

  /** The inline form: each rule's filter is evaluated just before that rule would run. */
  function RunInline(engine: Engine, cat: Catalog, ctx: Context, rules: seq<Rule>, ev: Event, inst: Task, db: Tables): TriggerOutcome
    decreases |rules|
  {
    if |rules| == 0 then TriggerOutcome(inst, db, [], None)
    else
      var step := ConsiderRule(engine, cat, ctx, rules[0], ev, inst, db);
      if step.raised.Some? then step
      else
        var rest := RunInline(engine, cat, ctx, rules[1..], ev, step.inst, step.db);
        TriggerOutcome(rest.inst, rest.db, step.logs + rest.logs, rest.raised)
  }

  /** The registry engine's trigger: filter the whole list, then run what is left. */
  function RunFiltered(engine: Engine, cat: Catalog, ctx: Context, rules: seq<Rule>, ev: Event, inst: Task, db: Tables): TriggerOutcome {
    match FilterRules(engine, rules, ev)
    case Err(msg) => TriggerOutcome(inst, db, [], Some(msg))
    case Ok(kept) =>
      var out := RunRules(engine, cat, ctx, kept, inst, db);
      TriggerOutcome(out.inst, out.db, out.logs, None)
  }

  /**
    While no filter raises, evaluating filters inline runs exactly the rules the filter-first
    form keeps, in the same order and with the same effects.
  */
  lemma {:induction false} InlineMatchesFilterFirst(engine: Engine, cat: Catalog, ctx: Context, rules: seq<Rule>, ev: Event, inst: Task, db: Tables)
    requires FilterRules(engine, rules, ev).Ok?
    ensures RunInline(engine, cat, ctx, rules, ev, inst, db) == RunFiltered(engine, cat, ctx, rules, ev, inst, db)
  {
    if |rules| > 0 {
      var m := RuleMatches(engine, rules[0].triggerConfig, ev).value;
      var kept := FilterRules(engine, rules[1..], ev).value;
      var step := ConsiderRule(engine, cat, ctx, rules[0], ev, inst, db);
      InlineMatchesFilterFirst(engine, cat, ctx, rules[1..], ev, step.inst, step.db);
      var rest := RunRules(engine, cat, ctx, kept, step.inst, step.db);
      assert RunInline(engine, cat, ctx, rules[1..], ev, step.inst, step.db) == TriggerOutcome(rest.inst, rest.db, rest.logs, None);
      if m {
        var first := RunRule(engine, cat, ctx, rules[0], inst, db);
        assert step == TriggerOutcome(first.inst, first.db, [first.log], None);
        assert ([rules[0]] + kept)[1..] == kept;
        assert RunRules(engine, cat, ctx, [rules[0]] + kept, inst, db) == RunOutcome(rest.inst, rest.db, [first.log] + rest.logs);
      } else {
        assert step == TriggerOutcome(inst, db, [], None);
        assert [] + rest.logs == rest.logs;
      }
    }
  }

  /**
    When some filter raises, both forms raise; the filter-first form has run no rule at all,
    while the inline form has already run (and logged) the matching rules before it.
  */
  lemma {:induction false} FilterErrorRaisesInBothForms(engine: Engine, cat: Catalog, ctx: Context, rules: seq<Rule>, ev: Event, inst: Task, db: Tables)
    requires FilterRules(engine, rules, ev).Err?
    ensures RunInline(engine, cat, ctx, rules, ev, inst, db).raised.Some?
    ensures RunFiltered(engine, cat, ctx, rules, ev, inst, db) == TriggerOutcome(inst, db, [], Some(FilterRules(engine, rules, ev).error))
  {
    var step := ConsiderRule(engine, cat, ctx, rules[0], ev, inst, db);
    if step.raised.None? {
      FilterErrorRaisesInBothForms(engine, cat, ctx, rules[1..], ev, step.inst, step.db);
    }
  }

  /** A divisor of 0 in the first matching-order overdue rule makes the inline trigger raise before running anything. */
  lemma OverdueZeroDivisorFirst(engine: Engine, cat: Catalog, ctx: Context, rules: seq<Rule>, days: int, inst: Task, db: Tables)
    requires |rules| > 0 && "trigger_every_n_days" in rules[0].triggerConfig
    requires rules[0].triggerConfig["trigger_every_n_days"] == JInt(0)
    ensures RunInline(engine, cat, ctx, rules, Overdue(days), inst, db) == TriggerOutcome(inst, db, [], Some(ZeroModulo))
  {
  }

  /** `trigger_assigned_to_user` of the registry engine runs every selected rule, whatever its `user_id`. */
  lemma RegisteredAssignedRunsAll(cat: Catalog, ctx: Context, rules: seq<Rule>, user: string, inst: Task, db: Tables)
    ensures FilterRules(Registered, rules, Assigned(user)) == Ok(rules)
    ensures RunFiltered(Registered, cat, ctx, rules, Assigned(user), inst, db).logs ==
            RunRules(Registered, cat, ctx, rules, inst, db).logs
  {
    AllMatchKeepsAll(Registered, rules, Assigned(user));
  }

  lemma {:induction false} AllMatchKeepsAll(engine: Engine, rules: seq<Rule>, ev: Event)
    requires forall x :: x in rules ==> RuleMatches(engine, x.triggerConfig, ev) == Ok(true)
    ensures FilterRules(engine, rules, ev) == Ok(rules)
  {
    if |rules| > 0 {
      AllMatchKeepsAll(engine, rules[1..], ev);
      assert rules == [rules[0]] + rules[1..];
    }
  }

  /** In the chain engine, an assignment rule with a set `user_id` for another user is skipped. */
  lemma ChainAssignedSkipsOtherUser(config: Config, user: string)
    requires "user_id" in config && Truthy(config["user_id"]) && PyStr(config["user_id"]) != user
    ensures RuleMatches(Chain, config, Assigned(user)) == Ok(false)
  {
  }

  // ---------------------------------------------------------------------------
  // Buttons
  // ---------------------------------------------------------------------------

  datatype ButtonOutcome = ButtonOutcome(inst: Task, db: Tables, ok: bool)

  /**
    `execute_task_button` of the chain engine: `False` for a missing or inactive button, another
    organization, or another project; otherwise the actions in one transaction, `False` on an exception.
  */
  function RunButtonChecked(cat: Catalog, ctx: Context, buttons: map<string, Button>, buttonId: string, inst: Task, db: Tables): ButtonOutcome {
    if buttonId !in buttons || !buttons[buttonId].isActive then ButtonOutcome(inst, db, false)
    else
      var button := buttons[buttonId];
      if Some(button.organization) != OrgOf(cat, inst) then ButtonOutcome(inst, db, false)
      else if button.project.Some? && button.project.value != inst.project then ButtonOutcome(inst, db, false)
      else
        var e := RunActions(Chain, cat, ctx, OrderedActions(button.actions), inst, db);
        if e.raised.Some? then ButtonOutcome(e.inst, db, false) else ButtonOutcome(e.inst, e.db, true)
  }

  /** The button runs exactly when it is active, in scope, and no action raises; a `False` leaves the tables as they were. */
  lemma ButtonCheckedResult(cat: Catalog, ctx: Context, buttons: map<string, Button>, buttonId: string, inst: Task, db: Tables)
    ensures var out := RunButtonChecked(cat, ctx, buttons, buttonId, inst, db);
      (out.ok <==>
        buttonId in buttons && buttons[buttonId].isActive &&
        Some(buttons[buttonId].organization) == OrgOf(cat, inst) &&
        (buttons[buttonId].project.None? || buttons[buttonId].project.value == inst.project) &&
        RunActions(Chain, cat, ctx, OrderedActions(buttons[buttonId].actions), inst, db).raised.None?) &&
      (!out.ok ==> out.db == db)
  {
  }

  /** The registry engine's `execute_task_button`: no lookup and no scope check; an exception propagates after rollback. */
  function RunButtonUnchecked(cat: Catalog, ctx: Context, button: Button, inst: Task, db: Tables): (e: Effect)
    ensures e.raised.Some? ==> e.db == db
    ensures e.raised.None? ==> e == RunActions(Registered, cat, ctx, OrderedActions(button.actions), inst, db)
  {
    var e := RunActions(Registered, cat, ctx, OrderedActions(button.actions), inst, db);
    if e.raised.Some? then Effect(e.inst, db, e.raised) else e
  }

  /** What `_execute_rules` still produces after logging `prefix`. */
  function ContinueRules(engine: Engine, cat: Catalog, ctx: Context, prefix: seq<Log>, rest: seq<Rule>, inst: Task, db: Tables): RunOutcome {
    var out := RunRules(engine, cat, ctx, rest, inst, db);
    RunOutcome(out.inst, out.db, prefix + out.logs)
  }

  lemma ContinueRulesStep(engine: Engine, cat: Catalog, ctx: Context, prefix: seq<Log>, rs: seq<Rule>, i: int, inst: Task, db: Tables)
    requires 0 <= i < |rs|
    ensures var first := RunRule(engine, cat, ctx, rs[i], inst, db);
      ContinueRules(engine, cat, ctx, prefix, rs[i..], inst, db) ==
      ContinueRules(engine, cat, ctx, prefix + [first.log], rs[i + 1..], first.inst, first.db)
  {
    assert rs[i..][1..] == rs[i + 1..];
    var first := RunRule(engine, cat, ctx, rs[i], inst, db);
    var rest := RunRules(engine, cat, ctx, rs[i + 1..], first.inst, first.db);
    assert prefix + ([first.log] + rest.logs) == (prefix + [first.log]) + rest.logs;
  }

  /** What an inline loop still produces after logging `prefix`, unless it has already raised. */
  function ContinueInline(engine: Engine, cat: Catalog, ctx: Context, prefix: seq<Log>, raised: Option<string>,
                          rest: seq<Rule>, ev: Event, inst: Task, db: Tables): TriggerOutcome {
    if raised.Some? then TriggerOutcome(inst, db, prefix, raised)
    else
      var out := RunInline(engine, cat, ctx, rest, ev, inst, db);
      TriggerOutcome(out.inst, out.db, prefix + out.logs, out.raised)
  }

  lemma ContinueInlineStart(engine: Engine, cat: Catalog, ctx: Context, rs: seq<Rule>, ev: Event, inst: Task, db: Tables)
    ensures ContinueInline(engine, cat, ctx, [], None, rs, ev, inst, db) == RunInline(engine, cat, ctx, rs, ev, inst, db)
  {
    assert [] + RunInline(engine, cat, ctx, rs, ev, inst, db).logs == RunInline(engine, cat, ctx, rs, ev, inst, db).logs;
  }

  lemma ContinueInlineDone(engine: Engine, cat: Catalog, ctx: Context, prefix: seq<Log>, raised: Option<string>,
                           rest: seq<Rule>, ev: Event, inst: Task, db: Tables)
    requires raised.Some? || rest == []
    ensures ContinueInline(engine, cat, ctx, prefix, raised, rest, ev, inst, db) == TriggerOutcome(inst, db, prefix, raised)
  {
    assert prefix + [] == prefix;
  }

  lemma ContinueInlineStep(engine: Engine, cat: Catalog, ctx: Context, prefix: seq<Log>, rs: seq<Rule>, i: int, ev: Event, inst: Task, db: Tables)
    requires 0 <= i < |rs|
    ensures var step := ConsiderRule(engine, cat, ctx, rs[i], ev, inst, db);
      ContinueInline(engine, cat, ctx, prefix, None, rs[i..], ev, inst, db) ==
      ContinueInline(engine, cat, ctx, prefix + step.logs, step.raised, rs[i + 1..], ev, step.inst, step.db)
  {
    assert rs[i..][1..] == rs[i + 1..];
    var step := ConsiderRule(engine, cat, ctx, rs[i], ev, inst, db);
    if step.raised.None? {
      var out := RunInline(engine, cat, ctx, rs[i + 1..], ev, step.inst, step.db);
      assert prefix + (step.logs + out.logs) == (prefix + step.logs) + out.logs;
    } else {
      assert step.logs == [];
    }
  }

  // ---------------------------------------------------------------------------
  // The store
  // ---------------------------------------------------------------------------

  class TaskStore {
    var tasks: map<string, Task>
    var labelLinks: set<(string, string)>
    var logs: seq<Log>
    const catalog: Catalog
    const rules: seq<Rule>
    const buttons: map<string, Button>

    constructor (db: Tables, catalog: Catalog, rules: seq<Rule>, buttons: map<string, Button>)
      ensures tasks == db.tasks && labelLinks == db.labelLinks && logs == []
      ensures this.catalog == catalog && this.rules == rules && this.buttons == buttons
    {
      tasks := db.tasks;
      labelLinks := db.labelLinks;
      logs := [];
      this.catalog := catalog;
      this.rules := rules;
      this.buttons := buttons;
    }

    function Db(): Tables
      reads this
    {
      Tables(tasks, labelLinks)
    }

    /** `_execute_action`. */
    method ExecuteAction(engine: Engine, ctx: Context, action: Action, inst: Task) returns (inst': Task, raised: Option<string>)
      modifies this
      ensures var e := ApplyAction(engine, catalog, ctx, action, inst, old(Db()));
        Db() == e.db && inst' == e.inst && raised == e.raised
      ensures logs == old(logs)
    {
      var e := ApplyAction(engine, catalog, ctx, action, inst, Db());
      tasks := e.db.tasks;
      labelLinks := e.db.labelLinks;
      inst' := e.inst;
      raised := e.raised;
    }

    /** Runs the actions inside a transaction: a snapshot of the tables, restored on an exception. */
    method RunAtomically(engine: Engine, ctx: Context, acts: seq<Action>, inst: Task) returns (inst': Task, raised: Option<string>)
      modifies this
      ensures var e := RunActions(engine, catalog, ctx, acts, inst, old(Db()));
        inst' == e.inst && raised == e.raised &&
        Db() == (if raised.Some? then old(Db()) else e.db)
      ensures logs == old(logs)
    {
      var snapshot := Db();
      inst' := inst;
      raised := None;
      var i := 0;
      while i < |acts| && raised.None?
        invariant 0 <= i <= |acts|
        invariant logs == old(logs)
        invariant raised.None? ==>
          RunActions(engine, catalog, ctx, acts, inst, snapshot) == RunActions(engine, catalog, ctx, acts[i..], inst', Db())
        invariant raised.Some? ==>
          RunActions(engine, catalog, ctx, acts, inst, snapshot) == Effect(inst', Db(), raised)
      {
        assert acts[i..][1..] == acts[i + 1..];
        inst', raised := ExecuteAction(engine, ctx, acts[i], inst');
        i := i + 1;
      }
      if raised.Some? {
        tasks := snapshot.tasks;
        labelLinks := snapshot.labelLinks;
      }
    }

    /** `_execute_rule`: the transaction, then exactly one log, written outside it. */
    method ExecuteRule(engine: Engine, ctx: Context, rule: Rule, inst: Task) returns (inst': Task, log: Log)
      modifies this
      ensures var out := RunRule(engine, catalog, ctx, rule, inst, old(Db()));
        inst' == out.inst && Db() == out.db && log == out.log
      ensures logs == old(logs) + [log]
    {
      var raised;
      inst', raised := RunAtomically(engine, ctx, OrderedActions(rule.actions), inst);
      match raised {
        case None => log := Log(rule.id, inst.id, Success, SuccessMessage);
        case Some(msg) => log := Log(rule.id, inst.id, Failed, msg);
      }
      logs := logs + [log];
    }

    /** `_execute_rules`. */
    method ExecuteRules(engine: Engine, ctx: Context, rs: seq<Rule>, inst: Task) returns (inst': Task, newLogs: seq<Log>)
      modifies this
      ensures var out := RunRules(engine, catalog, ctx, rs, inst, old(Db()));
        inst' == out.inst && Db() == out.db && newLogs == out.logs
      ensures logs == old(logs) + newLogs
    {
      inst' := inst;
      newLogs := [];
      var i := 0;
      assert rs[0..] == rs;
      assert [] + RunRules(engine, catalog, ctx, rs, inst, Db()).logs == RunRules(engine, catalog, ctx, rs, inst, Db()).logs;
      while i < |rs|
        invariant 0 <= i <= |rs|
        invariant logs == old(logs) + newLogs
        invariant RunRules(engine, catalog, ctx, rs, inst, old(Db())) ==
          ContinueRules(engine, catalog, ctx, newLogs, rs[i..], inst', Db())
      {
        ContinueRulesStep(engine, catalog, ctx, newLogs, rs, i, inst', Db());
        var log;
        inst', log := ExecuteRule(engine, ctx, rs[i], inst');
        newLogs := newLogs + [log];
        i := i + 1;
      }
      assert newLogs + [] == newLogs;
    }

    /**
      A trigger method: the rule query for the instance's organization and project, then the
      inline filter loop (chain engine) or the filter-first form (registry engine).
    */
    method Trigger(engine: Engine, ctx: Context, ev: Event, inst: Task) returns (inst': Task, newLogs: seq<Log>, raised: Option<string>)
      requires inst.project in catalog.projects
      modifies this
      ensures var rs := RulesFor(rules, catalog.projects[inst.project], inst.project, TriggerOf(ev));
        var out := if engine == Chain then RunInline(engine, catalog, ctx, rs, ev, inst, old(Db()))
                   else RunFiltered(engine, catalog, ctx, rs, ev, inst, old(Db()));
        inst' == out.inst && Db() == out.db && newLogs == out.logs && raised == out.raised
      ensures logs == old(logs) + newLogs
    {
      var rs := RulesFor(rules, catalog.projects[inst.project], inst.project, TriggerOf(ev));
      if engine == Registered {
        inst', newLogs, raised := RunRulesFiltered(engine, ctx, rs, ev, inst);
      } else {
        inst', newLogs, raised := RunRulesInline(engine, ctx, rs, ev, inst);
      }
    }

    /** The registry engine's trigger body: the list comprehension, then `_execute_rules`. */
    method RunRulesFiltered(engine: Engine, ctx: Context, rs: seq<Rule>, ev: Event, inst: Task) returns (inst': Task, newLogs: seq<Log>, raised: Option<string>)
      modifies this
      ensures var out := RunFiltered(engine, catalog, ctx, rs, ev, inst, old(Db()));
        inst' == out.inst && Db() == out.db && newLogs == out.logs && raised == out.raised
      ensures logs == old(logs) + newLogs
    {
      match FilterRules(engine, rs, ev) {
        case Err(msg) =>
          inst', newLogs, raised := inst, [], Some(msg);
        case Ok(kept) =>
          inst', newLogs := ExecuteRules(engine, ctx, kept, inst);
          raised := None;
      }
    }

    /** The chain engine's trigger body: `for rule in rules`, skipping rules whose filter fails. */
    method RunRulesInline(engine: Engine, ctx: Context, rs: seq<Rule>, ev: Event, inst: Task) returns (inst': Task, newLogs: seq<Log>, raised: Option<string>)
      modifies this
      ensures var out := RunInline(engine, catalog, ctx, rs, ev, inst, old(Db()));
        inst' == out.inst && Db() == out.db && newLogs == out.logs && raised == out.raised
      ensures logs == old(logs) + newLogs
    {
      inst' := inst;
      newLogs := [];
      raised := None;
      var i := 0;
      assert rs[0..] == rs;
      ContinueInlineStart(engine, catalog, ctx, rs, ev, inst, Db());
      while i < |rs| && raised.None?
        invariant 0 <= i <= |rs|
        invariant logs == old(logs) + newLogs
        invariant RunInline(engine, catalog, ctx, rs, ev, inst, old(Db())) ==
          ContinueInline(engine, catalog, ctx, newLogs, raised, rs[i..], ev, inst', Db())
      {
        ContinueInlineStep(engine, catalog, ctx, newLogs, rs, i, ev, inst', Db());
        var stepLogs;
        inst', stepLogs, raised := ConsiderRuleNow(engine, ctx, rs[i], ev, inst');
        newLogs := newLogs + stepLogs;
        i := i + 1;
      }
      ContinueInlineDone(engine, catalog, ctx, newLogs, raised, rs[i..], ev, inst', Db());
    }

    /** The body of the inline loop for one rule. */
    method ConsiderRuleNow(engine: Engine, ctx: Context, rule: Rule, ev: Event, inst: Task) returns (inst': Task, stepLogs: seq<Log>, raised: Option<string>)
      modifies this
      ensures var out := ConsiderRule(engine, catalog, ctx, rule, ev, inst, old(Db()));
        inst' == out.inst && Db() == out.db && stepLogs == out.logs && raised == out.raised
      ensures logs == old(logs) + stepLogs
    {
      match RuleMatches(engine, rule.triggerConfig, ev) {
        case Err(msg) =>
          inst', stepLogs, raised := inst, [], Some(msg);
        case Ok(m) =>
          raised := None;
          if m {
            var log;
            inst', log := ExecuteRule(engine, ctx, rule, inst);
            stepLogs := [log];
          } else {
            inst', stepLogs := inst, [];
          }
      }
    }

    /** `execute_task_button` of the chain engine. */
    method ExecuteButtonChecked(ctx: Context, buttonId: string, inst: Task) returns (inst': Task, ok: bool)
      modifies this
      ensures var out := RunButtonChecked(catalog, ctx, buttons, buttonId, inst, old(Db()));
        inst' == out.inst && Db() == out.db && ok == out.ok
      ensures logs == old(logs)
    {
      if buttonId !in buttons || !buttons[buttonId].isActive {
        return inst, false;
      }
      var button := buttons[buttonId];
      if Some(button.organization) != OrgOf(catalog, inst) {
        return inst, false;
      }
      if button.project.Some? && button.project.value != inst.project {
        return inst, false;
      }
      var raised;
      inst', raised := RunAtomically(Chain, ctx, OrderedActions(button.actions), inst);
      ok := raised.None?;
    }

    /** `execute_task_button` of the registry engine; `raised` is the exception it lets escape. */
    method ExecuteButtonUnchecked(ctx: Context, button: Button, inst: Task) returns (inst': Task, raised: Option<string>)
      modifies this
      ensures var e := RunButtonUnchecked(catalog, ctx, button, inst, old(Db()));
        inst' == e.inst && Db() == e.db && raised == e.raised
      ensures logs == old(logs)
    {
      inst', raised := RunAtomically(Registered, ctx, OrderedActions(button.actions), inst);
    }
  }
}
