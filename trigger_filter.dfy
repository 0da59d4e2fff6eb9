/**
  `TriggerFilter`: pure predicates deciding whether a rule's `trigger_config` matches the
  concrete event. Every key is optional; a key that is absent or holds a falsy value imposes
  no constraint. Identifiers are compared through `str(...)` on both sides, statuses and
  priorities with Python `!=` between the event's string and the configured value.
*/
module TriggerFilter {
  import opened Wrappers
  import opened PyValues

  /** The message of the `ZeroDivisionError` raised by `x % 0`. */
  const ZeroModulo := "integer modulo by zero"

  /** `label_matches(rule, label)` */
  predicate LabelMatches(config: Config, labelId: string) {
    match Constraint(config, "label_id")
    case None => true
    case Some(target) => labelId == PyStr(target)
  }

  /** `status_matches(rule, old_status, new_status)` */
  predicate StatusMatches(config: Config, oldStatus: string, newStatus: string) {
    var target := Constraint(config, "to_status");
    var source := Constraint(config, "from_status");
    if target.Some? && target.value != JStr(newStatus) then false
    else if source.Some? && source.value != JStr(oldStatus) then false
    else true
  }

  /** `priority_matches(rule, old_priority, new_priority)`: only `to_priority` is consulted. */
  predicate PriorityMatches(config: Config, oldPriority: string, newPriority: string) {
    var target := Constraint(config, "to_priority");
    !(target.Some? && target.value != JStr(newPriority))
  }

  /** `column_matches(rule, from_column, to_column)`, columns given by their ids. */
  predicate ColumnMatches(config: Config, fromColumn: string, toColumn: string) {
    var target := Constraint(config, "to_column_id");
    var source := Constraint(config, "from_column_id");
    if target.Some? && toColumn != PyStr(target.value) then false
    else if source.Some? && fromColumn != PyStr(source.value) then false
    else true
  }

  /** The user filter of `trigger_assigned_to_user` in the if/elif engine (`user_id`). */
  predicate UserMatches(config: Config, userId: string) {
    match Constraint(config, "user_id")
    case None => true
    case Some(target) => userId == PyStr(target)
  }

  /** `days_threshold_matches(rule, days)`: `days == config.get("days_before", 3)`. */
  predicate DaysThresholdMatches(config: Config, days: int) {
    PyEqInt(GetOr(config, "days_before", JInt(3)), days)
  }

  /**
    `interval_matches(rule, days_overdue)`: `days_overdue % config.get("trigger_every_n_days", 1) == 0`.
    A divisor of `0` (or `False`) raises `ZeroDivisionError`; a string or `None` raises `TypeError`.
  */
  function IntervalMatches(config: Config, daysOverdue: int): Result<bool> {
    match GetOr(config, "trigger_every_n_days", JInt(1))
    case JInt(n) => if n == 0 then Err(ZeroModulo) else Ok(PyMod(daysOverdue, n) == 0)
    case JBool(b) => if b then Ok(PyMod(daysOverdue, 1) == 0) else Err(ZeroModulo)
    case JStr(_) => Err("unsupported operand type(s) for %: 'int' and 'str'")
    case JNull => Err("unsupported operand type(s) for %: 'int' and 'NoneType'")
  }

  // ---------------------------------------------------------------------------
  // Properties
  // ---------------------------------------------------------------------------

  /** A key is "unset" when it is absent or falsy. */
  predicate Unset(config: Config, key: string) {
    key !in config || !Truthy(config[key])
  }

  /** With none of its keys set, every filter matches every event. */
  lemma UnsetKeysMatchEverything(config: Config, a: string, b: string, lbl: string)
    requires Unset(config, "label_id") && Unset(config, "to_status") && Unset(config, "from_status")
    requires Unset(config, "to_priority") && Unset(config, "to_column_id") && Unset(config, "from_column_id")
    requires Unset(config, "user_id")
    ensures LabelMatches(config, lbl) && UserMatches(config, lbl)
    ensures StatusMatches(config, a, b) && PriorityMatches(config, a, b) && ColumnMatches(config, a, b)
  {
  }

  /**
    Setting a key that was unset can only narrow a filter: every event the stricter config
    accepts, the looser one accepted.
  */
  lemma SettingKeyNarrows(config: Config, key: string, v: Json, a: string, b: string)
    requires Unset(config, key)
    ensures var stricter := config[key := v];
      (LabelMatches(stricter, a) ==> LabelMatches(config, a)) &&
      (UserMatches(stricter, a) ==> UserMatches(config, a)) &&
      (StatusMatches(stricter, a, b) ==> StatusMatches(config, a, b)) &&
      (PriorityMatches(stricter, a, b) ==> PriorityMatches(config, a, b)) &&
      (ColumnMatches(stricter, a, b) ==> ColumnMatches(config, a, b))
  {
  }

  /** A set `label_id` admits exactly one label id: the configured value's `str`. */
  lemma SetLabelAdmitsOne(config: Config, l1: string, l2: string)
    requires !Unset(config, "label_id")
    ensures LabelMatches(config, PyStr(config["label_id"]))
    ensures LabelMatches(config, l1) && LabelMatches(config, l2) ==> l1 == l2
  {
  }

  /** A set `to_status` admits at most one new status, whatever the old one. */
  lemma SetToStatusAdmitsOne(config: Config, oldStatus: string, n1: string, n2: string)
    requires !Unset(config, "to_status")
    ensures StatusMatches(config, oldStatus, n1) && StatusMatches(config, oldStatus, n2) ==> n1 == n2
  {
  }

  /** `status_matches` is the filter with only `to_status` and the filter with only `from_status`, both holding. */
  lemma StatusSidesIndependent(config: Config, oldStatus: string, newStatus: string)
    ensures StatusMatches(config, oldStatus, newStatus) <==>
      StatusMatches(config - {"from_status"}, oldStatus, newStatus) &&
      StatusMatches(config - {"to_status"}, oldStatus, newStatus)
  {
  }

  /** With both keys set, a mismatch on either side rejects the event. */
  lemma StatusMatchesBothSet(config: Config, from: string, to: string, oldStatus: string, newStatus: string)
    requires from != "" && to != ""
    requires config == map["from_status" := JStr(from), "to_status" := JStr(to)]
    ensures StatusMatches(config, oldStatus, newStatus) <==> oldStatus == from && newStatus == to
  {
  }

  /** `priority_matches` never looks at the old priority. */
  lemma PriorityIgnoresOld(config: Config, old1: string, old2: string, newPriority: string)
    ensures PriorityMatches(config, old1, newPriority) == PriorityMatches(config, old2, newPriority)
    ensures PriorityMatches(config, old1, newPriority) <==>
      Unset(config, "to_priority") || config["to_priority"] == JStr(newPriority)
  {
  }

  /** A set `to_column_id` admits only one destination column, a set `from_column_id` only one source column. */
  lemma SetColumnAdmitsOne(config: Config, f1: string, f2: string, t1: string, t2: string)
    ensures !Unset(config, "to_column_id") && ColumnMatches(config, f1, t1) && ColumnMatches(config, f2, t2) ==> t1 == t2
    ensures !Unset(config, "from_column_id") && ColumnMatches(config, f1, t1) && ColumnMatches(config, f2, t2) ==> f1 == f2
  {
  }

  /** Exact equality with `days_before`, which defaults to 3 (not "at or before"). */
  lemma DaysThresholdIsExact(config: Config, days: int)
    ensures "days_before" !in config ==> (DaysThresholdMatches(config, days) <==> days == 3)
    ensures "days_before" in config && config["days_before"].JInt? ==>
      (DaysThresholdMatches(config, days) <==> days == config["days_before"].i)
  {
  }

  /**
    For a non-zero integer `n` the rule fires exactly on the multiples of `n`
    (with `n` defaulting to 1, on every day); a zero divisor is an error.
  */
  lemma IntervalMatchesMultiples(config: Config, daysOverdue: int)
    ensures "trigger_every_n_days" !in config ==> IntervalMatches(config, daysOverdue) == Ok(true)
    ensures "trigger_every_n_days" in config && config["trigger_every_n_days"].JInt? ==>
      var n := config["trigger_every_n_days"].i;
      (n == 0 ==> IntervalMatches(config, daysOverdue).Err?) &&
      (n != 0 ==> IntervalMatches(config, daysOverdue) == Ok(daysOverdue % n == 0))
  {
  }
}
