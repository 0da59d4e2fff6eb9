/**
  `BoardEngine`: the card automation engine of the boards app: rule lookup per board, the card
  handlers (moving between and within columns, labels, due date, assignee), the per-rule
  transaction, the trigger methods, card buttons, and the `board_card_move` view that fires
  `card_moved`. Cards are a sequence of rows, so that the `Max`/`Min` aggregates over a
  column are plain recursive functions.
*/
module BoardEngine {
  import opened Wrappers
  import opened PyValues
  import opened TriggerFilter
  import opened LookupKeys
  import Ordering

  const Day: int := 86_400_000_000

  /** A `BoardCard` row, or the engine's in-memory instance of it. */
  datatype Card = Card(
    id: string,
    column: string,
    title: string,
    sortOrder: nat,
    dueDate: Option<int>,
    assignedTo: Option<string>,
    createdAt: int)

  datatype CardField = ColumnField | SortOrderField | DueDateField | AssignedToField

  datatype Tables = Tables(cards: seq<Card>, labelLinks: set<(string, string)>)

  /** Column id to board id, label id to board id, user id to `is_active`. */
  datatype Catalog = Catalog(columns: map<string, string>, labels: map<string, string>, users: map<string, bool>)

  datatype Context = Context(now: int, triggeredBy: Option<string>)

  datatype Effect = Effect(inst: Card, db: Tables, raised: Option<string>)

  predicate HasRow(cards: seq<Card>, id: string) {
    exists i :: 0 <= i < |cards| && cards[i].id == id
  }

  function WriteCard(row: Card, inst: Card, fields: set<CardField>): Card {
    row.(
      column := if ColumnField in fields then inst.column else row.column,
      sortOrder := if SortOrderField in fields then inst.sortOrder else row.sortOrder,
      dueDate := if DueDateField in fields then inst.dueDate else row.dueDate,
      assignedTo := if AssignedToField in fields then inst.assignedTo else row.assignedTo)
  }

  /** Rewrites the rows whose id is the instance's. */
  function UpdateRows(cards: seq<Card>, inst: Card, fields: set<CardField>): (r: seq<Card>)
    ensures |r| == |cards|
    ensures forall i :: 0 <= i < |cards| ==>
      r[i] == if cards[i].id == inst.id then WriteCard(cards[i], inst, fields) else cards[i]
  {
    if |cards| == 0 then []
    else [if cards[0].id == inst.id then WriteCard(cards[0], inst, fields) else cards[0]] + UpdateRows(cards[1..], inst, fields)
  }

  const NoRowUpdated := "Save with update_fields did not affect any rows."

  /** `card.save(update_fields=fields)`. */
  function SaveEffect(db: Tables, inst: Card, fields: set<CardField>): (e: Effect)
    ensures e.inst == inst && e.db.labelLinks == db.labelLinks && |e.db.cards| == |db.cards|
    ensures e.raised.None? <==> HasRow(db.cards, inst.id)
    ensures e.raised.Some? ==> e.db == db
  {
    if HasRow(db.cards, inst.id) then Effect(inst, db.(cards := UpdateRows(db.cards, inst, fields)), None)
    else Effect(inst, db, Some(NoRowUpdated))
  }

  // ---------------------------------------------------------------------------
  // Column aggregates
  // ---------------------------------------------------------------------------

  /** A row of `column`, other than `exclude`. */
  predicate Counted(c: Card, column: string, exclude: Option<string>) {
    c.column == column && (exclude.None? || c.id != exclude.value)
  }

  /** `aggregate(Max("sort_order"))` over the counted rows; `None` when there are none. */
  function MaxSort(cards: seq<Card>, column: string, exclude: Option<string>): (r: Option<nat>)
    ensures r.None? <==> forall i :: 0 <= i < |cards| ==> !Counted(cards[i], column, exclude)
    ensures r.Some? ==> forall i :: 0 <= i < |cards| && Counted(cards[i], column, exclude) ==> cards[i].sortOrder <= r.value
    ensures r.Some? ==> exists i :: 0 <= i < |cards| && Counted(cards[i], column, exclude) && cards[i].sortOrder == r.value
  {
    if |cards| == 0 then None
    else
      var rest := MaxSort(cards[1..], column, exclude);
      var here := cards[0];
      if !Counted(here, column, exclude) then
        assert forall i :: 1 <= i < |cards| ==> cards[i] == cards[1..][i - 1];
        rest
      else if rest.None? || rest.value < here.sortOrder then
        assert forall i :: 1 <= i < |cards| ==> cards[i] == cards[1..][i - 1];
        Some(here.sortOrder)
      else
        assert forall i :: 1 <= i < |cards| ==> cards[i] == cards[1..][i - 1];
        assert exists i :: 1 <= i < |cards| && Counted(cards[i], column, exclude) && cards[i].sortOrder == rest.value by {
          var j :| 0 <= j < |cards[1..]| && Counted(cards[1..][j], column, exclude) && cards[1..][j].sortOrder == rest.value;
          assert cards[j + 1] == cards[1..][j];
        }
        rest
  }

  /** `aggregate(Min("sort_order"))` over the counted rows; `None` when there are none. */
  function MinSort(cards: seq<Card>, column: string, exclude: Option<string>): (r: Option<nat>)
    ensures r.None? <==> forall i :: 0 <= i < |cards| ==> !Counted(cards[i], column, exclude)
    ensures r.Some? ==> forall i :: 0 <= i < |cards| && Counted(cards[i], column, exclude) ==> r.value <= cards[i].sortOrder
    ensures r.Some? ==> exists i :: 0 <= i < |cards| && Counted(cards[i], column, exclude) && cards[i].sortOrder == r.value
  {
    if |cards| == 0 then None
    else
      var rest := MinSort(cards[1..], column, exclude);
      var here := cards[0];
      if !Counted(here, column, exclude) then
        assert forall i :: 1 <= i < |cards| ==> cards[i] == cards[1..][i - 1];
        rest
      else if rest.None? || here.sortOrder < rest.value then
        assert forall i :: 1 <= i < |cards| ==> cards[i] == cards[1..][i - 1];
        Some(here.sortOrder)
      else
        assert forall i :: 1 <= i < |cards| ==> cards[i] == cards[1..][i - 1];
        assert exists i :: 1 <= i < |cards| && Counted(cards[i], column, exclude) && cards[i].sortOrder == rest.value by {
          var j :| 0 <= j < |cards[1..]| && Counted(cards[1..][j], column, exclude) && cards[1..][j].sortOrder == rest.value;
          assert cards[j + 1] == cards[1..][j];
        }
        rest
  }

  /** `int(max_sort or 0) + 1`. */
  function AfterLast(max: Option<nat>): nat {
    match max
    case None => 1
    case Some(m) => if m == 0 then 1 else m + 1
  }

  /** `max(0, int(min_sort or 1) - 1)`. */
  function BeforeFirst(min: Option<nat>): nat {
    match min
    case None => 0
    case Some(m) => if m == 0 then 0 else m - 1
  }

  /** The position past the end lies strictly after every counted card. */
  lemma AfterLastIsPastEveryCard(cards: seq<Card>, column: string, exclude: Option<string>)
    ensures forall i :: 0 <= i < |cards| && Counted(cards[i], column, exclude) ==>
      cards[i].sortOrder < AfterLast(MaxSort(cards, column, exclude))
    ensures AfterLast(MaxSort(cards, column, exclude)) >= 1
  {
  }

  /** The position before the start is at or before every counted card, and never negative. */
  lemma BeforeFirstIsAtOrBeforeEveryCard(cards: seq<Card>, column: string, exclude: Option<string>)
    ensures forall i :: 0 <= i < |cards| && Counted(cards[i], column, exclude) ==>
      BeforeFirst(MinSort(cards, column, exclude)) <= cards[i].sortOrder
    ensures MinSort(cards, column, exclude).Some? && MinSort(cards, column, exclude).value > 0 ==>
      forall i :: 0 <= i < |cards| && Counted(cards[i], column, exclude) ==>
        BeforeFirst(MinSort(cards, column, exclude)) < cards[i].sortOrder
  {
  }

  // ---------------------------------------------------------------------------
  // Handlers
  // ---------------------------------------------------------------------------

  function BoardOf(cat: Catalog, inst: Card): Option<string> {
    if inst.column in cat.columns then Some(cat.columns[inst.column]) else None
  }

  function Unchanged(inst: Card, db: Tables): Effect {
    Effect(inst, db, None)
  }

  /**
    `_action_move_card`: to a different column of the same board, after its last card; a
    `column_id` that is not a UUID raises in the lookup.
  */
  function MoveCardEffect(cat: Catalog, config: Config, inst: Card, db: Tables): Effect {
    match Constraint(config, "column_id")
    case None => Unchanged(inst, db)
    case Some(c) =>
      match UuidKey(c)
      case Err(msg) => Effect(inst, db, Some(msg))
      case Ok(target) =>
        if target in cat.columns && BoardOf(cat, inst) == Some(cat.columns[target]) && target != inst.column then
          SaveEffect(db, inst.(column := target, sortOrder := AfterLast(MaxSort(db.cards, target, None))),
                     {ColumnField, SortOrderField})
        else Unchanged(inst, db)
  }

  /** `_action_move_to_top`. */
  function MoveToTopEffect(inst: Card, db: Tables): Effect {
    SaveEffect(db, inst.(sortOrder := BeforeFirst(MinSort(db.cards, inst.column, Some(inst.id)))), {SortOrderField})
  }

  /** `_action_move_to_bottom`. */
  function MoveToBottomEffect(inst: Card, db: Tables): Effect {
    SaveEffect(db, inst.(sortOrder := AfterLast(MaxSort(db.cards, inst.column, Some(inst.id)))), {SortOrderField})
  }

  /** `get_or_create(card=card, label=label)` for a label of the card's board; a non-UUID `label_id` raises. */
  function AddLabelEffect(cat: Catalog, config: Config, inst: Card, db: Tables): Effect {
    match Constraint(config, "label_id")
    case None => Unchanged(inst, db)
    case Some(l) =>
      match UuidKey(l)
      case Err(msg) => Effect(inst, db, Some(msg))
      case Ok(key) =>
        if key in cat.labels && BoardOf(cat, inst) == Some(cat.labels[key]) then
          Unchanged(inst, db.(labelLinks := db.labelLinks + {(inst.id, key)}))
        else Unchanged(inst, db)
  }

  /** `filter(card=card, label_id=label_id).delete()`; a non-UUID `label_id` raises. */
  function RemoveLabelEffect(config: Config, inst: Card, db: Tables): Effect {
    match Constraint(config, "label_id")
    case None => Unchanged(inst, db)
    case Some(l) =>
      match UuidKey(l)
      case Err(msg) => Effect(inst, db, Some(msg))
      case Ok(key) => Unchanged(inst, db.(labelLinks := db.labelLinks - {(inst.id, key)}))
  }

  function SetDueDateEffect(ctx: Context, config: Config, inst: Card, db: Tables): Effect {
    match PyInt(GetOr(config, "days_offset", JInt(3)))
    case Ok(days) => SaveEffect(db, inst.(dueDate := Some(ctx.now + days * Day)), {DueDateField})
    case Err(msg) => Effect(inst, db, Some(msg))
  }

  function AssignUserEffect(cat: Catalog, ctx: Context, config: Config, inst: Card, db: Tables): Effect {
    if Truthy(GetOr(config, "assign_triggered_by", JBool(false))) && ctx.triggeredBy.Some? then
      SaveEffect(db, inst.(assignedTo := ctx.triggeredBy), {AssignedToField})
    else
      match Constraint(config, "user_id")
      case Some(u) =>
        (match IntKey(u)
         case Err(msg) => Effect(inst, db, Some(msg))
         case Ok(key) =>
           if key in cat.users && cat.users[key] then SaveEffect(db, inst.(assignedTo := Some(key)), {AssignedToField})
           else Unchanged(inst, db))
      case None => Unchanged(inst, db)
  }

  /** `_execute_action`: the `if`/`elif` chain over the card action types; `add_checklist` and unknown types fall through. */
  function ApplyCardAction(cat: Catalog, ctx: Context, actionType: string, config: Config, inst: Card, db: Tables): (e: Effect)
    ensures e.raised.Some? ==> e.db == db
    ensures e.inst.id == inst.id
  {
    if actionType == "move_card" then MoveCardEffect(cat, config, inst, db)
    else if actionType == "move_to_top" then MoveToTopEffect(inst, db)
    else if actionType == "move_to_bottom" then MoveToBottomEffect(inst, db)
    else if actionType == "add_label" then AddLabelEffect(cat, config, inst, db)
    else if actionType == "remove_label" then RemoveLabelEffect(config, inst, db)
    else if actionType == "set_due_date" then SetDueDateEffect(ctx, config, inst, db)
    else if actionType == "clear_due_date" then SaveEffect(db, inst.(dueDate := None), {DueDateField})
    else if actionType == "assign_user" then AssignUserEffect(cat, ctx, config, inst, db)
    else if actionType == "unassign_user" then SaveEffect(db, inst.(assignedTo := None), {AssignedToField})
    else Unchanged(inst, db)
  }

  /** The row now stored for the instance. */
  predicate Stored(db: Tables, inst: Card) {
    forall i :: 0 <= i < |db.cards| && db.cards[i].id == inst.id ==> db.cards[i] == inst
  }

  /** Saving fields that carry all of a stored card's changes leaves the saved card stored. */
  lemma SaveKeepsStored(db: Tables, inst: Card, moved: Card, fields: set<CardField>)
    requires Stored(db, inst) && moved.id == inst.id && WriteCard(inst, moved, fields) == moved
    ensures Stored(db.(cards := UpdateRows(db.cards, moved, fields)), moved)
  {
  }

  /** A configured key that the UUID lookup cannot convert. */
  predicate MalformedUuid(config: Config, key: string) {
    key in config && Truthy(config[key]) && UuidKey(config[key]).Err?
  }

  /** The column a set, well-formed `column_id` names. */
  predicate NamesColumn(config: Config, target: string) {
    "column_id" in config && Truthy(config["column_id"]) && UuidKey(config["column_id"]) == Ok(target)
  }

  /**
    `move_card` raises exactly for a malformed `column_id`; otherwise it acts only on another column
    of the same board, whatever the spelling of its id, and places the card after that column's last card.
  */
  lemma MoveCardPlacesLast(cat: Catalog, config: Config, inst: Card, db: Tables)
    requires HasRow(db.cards, inst.id) && Stored(db, inst)
    ensures var e := MoveCardEffect(cat, config, inst, db);
      (e.raised.Some? <==> MalformedUuid(config, "column_id")) &&
      (e.raised.Some? ==> e.inst == inst && e.db == db) &&
      if (exists target :: NamesColumn(config, target) && target in cat.columns &&
            BoardOf(cat, inst) == Some(cat.columns[target]) && target != inst.column)
      then
        e.inst.column != inst.column && NamesColumn(config, e.inst.column) && Stored(e.db, e.inst) &&
        e.inst == inst.(column := e.inst.column, sortOrder := e.inst.sortOrder) &&
        forall i :: 0 <= i < |db.cards| && db.cards[i].column == e.inst.column ==> db.cards[i].sortOrder < e.inst.sortOrder
      else e.raised.None? ==> e == Unchanged(inst, db)
  {
    if "column_id" in config && Truthy(config["column_id"]) && UuidKey(config["column_id"]).Ok? {
      var target := UuidKey(config["column_id"]).value;
      assert NamesColumn(config, target);
      if target in cat.columns && BoardOf(cat, inst) == Some(cat.columns[target]) && target != inst.column {
        MoveCardToTarget(cat, config, inst, db, target);
      }
    }
  }

  /** A move to another column of the card's board saves the card after that column's last card. */
  lemma MoveCardToTarget(cat: Catalog, config: Config, inst: Card, db: Tables, target: string)
    requires HasRow(db.cards, inst.id) && Stored(db, inst)
    requires NamesColumn(config, target) && target in cat.columns
    requires BoardOf(cat, inst) == Some(cat.columns[target]) && target != inst.column
    ensures var e := MoveCardEffect(cat, config, inst, db);
      e.raised.None? && e.inst.column == target && Stored(e.db, e.inst) &&
      e.inst == inst.(column := target, sortOrder := e.inst.sortOrder) &&
      forall i :: 0 <= i < |db.cards| && db.cards[i].column == target ==> db.cards[i].sortOrder < e.inst.sortOrder
  {
    AfterLastIsPastEveryCard(db.cards, target, None);
    var moved := inst.(column := target, sortOrder := AfterLast(MaxSort(db.cards, target, None)));
    assert WriteCard(inst, moved, {ColumnField, SortOrderField}) == moved;
    SaveKeepsStored(db, inst, moved, {ColumnField, SortOrderField});
  }

  /** `move_to_top` gives a non-negative order at or before every other card of the column. */
  lemma MoveToTopIsFirst(inst: Card, db: Tables)
    requires HasRow(db.cards, inst.id) && Stored(db, inst)
    ensures var e := MoveToTopEffect(inst, db);
      e.raised.None? && Stored(e.db, e.inst) && e.inst == inst.(sortOrder := e.inst.sortOrder) &&
      forall i :: 0 <= i < |db.cards| && db.cards[i].column == inst.column && db.cards[i].id != inst.id ==>
        e.inst.sortOrder <= db.cards[i].sortOrder
  {
    BeforeFirstIsAtOrBeforeEveryCard(db.cards, inst.column, Some(inst.id));
    var moved := MoveToTopEffect(inst, db).inst;
    assert WriteCard(inst, moved, {SortOrderField}) == moved;
  }

  /** `move_to_bottom` gives an order strictly after every other card of the column. */
  lemma MoveToBottomIsLast(inst: Card, db: Tables)
    requires HasRow(db.cards, inst.id) && Stored(db, inst)
    ensures var e := MoveToBottomEffect(inst, db);
      e.raised.None? && Stored(e.db, e.inst) && e.inst == inst.(sortOrder := e.inst.sortOrder) &&
      forall i :: 0 <= i < |db.cards| && db.cards[i].column == inst.column && db.cards[i].id != inst.id ==>
        db.cards[i].sortOrder < e.inst.sortOrder
  {
    AfterLastIsPastEveryCard(db.cards, inst.column, Some(inst.id));
    var moved := MoveToBottomEffect(inst, db).inst;
    assert WriteCard(inst, moved, {SortOrderField}) == moved;
  }

  /** `add_label` raises exactly for a malformed `label_id`, is scoped to the card's board and is idempotent. */
  lemma CardAddLabelIdempotent(cat: Catalog, config: Config, inst: Card, db: Tables)
    ensures var e := AddLabelEffect(cat, config, inst, db);
      (e.raised.Some? <==> MalformedUuid(config, "label_id")) && e.inst == inst && e.db.cards == db.cards && db.labelLinks <= e.db.labelLinks &&
      (forall k, l :: (k, l) in e.db.labelLinks - db.labelLinks ==> k == inst.id && l in cat.labels && BoardOf(cat, inst) == Some(cat.labels[l])) &&
      AddLabelEffect(cat, config, inst, e.db) == e
  {
  }

  /** `unassign_user` clears the assignee of the card (the field is nullable on cards). */
  lemma UnassignClears(cat: Catalog, ctx: Context, config: Config, inst: Card, db: Tables)
    requires HasRow(db.cards, inst.id) && Stored(db, inst)
    ensures var e := ApplyCardAction(cat, ctx, "unassign_user", config, inst, db);
      e.raised.None? && e.inst == inst.(assignedTo := None) && Stored(e.db, e.inst)
  {
    assert WriteCard(inst, inst.(assignedTo := None), {AssignedToField}) == inst.(assignedTo := None);
  }

  /** `add_checklist` has a type but no branch: it does nothing, like any unknown type. */
  lemma AddChecklistIsNoOp(cat: Catalog, ctx: Context, config: Config, inst: Card, db: Tables)
    ensures ApplyCardAction(cat, ctx, "add_checklist", config, inst, db) == Unchanged(inst, db)
  {
  }

  // ---------------------------------------------------------------------------
  // Rules, triggers and buttons
  // ---------------------------------------------------------------------------

  datatype CardTrigger = CardCreated | CardMoved | CardUpdated | DueDateApproaching | DueDateReached
                       | DueDateOverdue | LabelAdded | LabelRemoved | ChecklistCompleted

  datatype CardAction = CardAction(actionType: string, config: Config, sortOrder: nat)

  datatype CardRule = CardRule(id: string, board: string, trigger: CardTrigger, triggerConfig: Config,
                               isActive: bool, createdAt: int, actions: seq<CardAction>)

  datatype CardButton = CardButton(id: string, board: string, isActive: bool, actions: seq<CardAction>)

  datatype LogStatus = Success | Failed
  datatype CardLog = CardLog(rule: string, card: string, status: LogStatus, message: string)

  const SuccessMessage := "Rule executed successfully"

  function ActionKey(a: CardAction): Ordering.Key { (a.sortOrder, 0) }
  function RuleKey(r: CardRule): Ordering.Key { (-r.createdAt, 0) }

  /** The trigger methods of the card engine, with their arguments. */
  datatype CardEvent =
    | Created
    | Moved(fromColumn: string, toColumn: string)
    | Updated
    | LabelAdd(labelId: string)
    | LabelRemove(labelId: string)

  function TriggerOf(ev: CardEvent): CardTrigger {
    match ev
    case Created => CardCreated
    case Moved(_, _) => CardMoved
    case Updated => CardUpdated
    case LabelAdd(_) => LabelAdded
    case LabelRemove(_) => LabelRemoved
  }

  /** The inline filters of the trigger methods. */
  predicate CardRuleMatches(config: Config, ev: CardEvent) {
    match ev
    case Moved(f, t) => ColumnMatches(config, f, t)
    case LabelAdd(l) => LabelMatches(config, l)
    case LabelRemove(l) => LabelMatches(config, l)
    case _ => true
  }

  /** The inline skip conditions of `trigger_card_moved` are exactly `TriggerFilter.column_matches`. */
  lemma MovedFilterIsColumnMatches(config: Config, fromColumn: string, toColumn: string)
    ensures CardRuleMatches(config, Moved(fromColumn, toColumn)) <==>
      !(Constraint(config, "to_column_id").Some? && toColumn != PyStr(config["to_column_id"])) &&
      !(Constraint(config, "from_column_id").Some? && fromColumn != PyStr(config["from_column_id"]))
  {
  }

  function SelectRules(rules: seq<CardRule>, board: string, trigger: CardTrigger): (r: seq<CardRule>)
    ensures forall x :: x in r <==> x in rules && x.board == board && x.trigger == trigger && x.isActive
  {
    if |rules| == 0 then []
    else if rules[0].board == board && rules[0].trigger == trigger && rules[0].isActive then
      [rules[0]] + SelectRules(rules[1..], board, trigger)
    else SelectRules(rules[1..], board, trigger)
  }

  /** The card rule query for a board and trigger type, newest first. */
  function CardRulesFor(rules: seq<CardRule>, board: string, trigger: CardTrigger): seq<CardRule> {
    Ordering.SortBy(SelectRules(rules, board, trigger), RuleKey)
  }

  /** The query returns exactly the board's active rules of the trigger type, newest first. */
  lemma CardRulesForSelects(rules: seq<CardRule>, board: string, trigger: CardTrigger)
    ensures forall x :: x in CardRulesFor(rules, board, trigger) <==>
      x in rules && x.board == board && x.trigger == trigger && x.isActive
    ensures forall i, j :: 0 <= i < j < |CardRulesFor(rules, board, trigger)| ==>
      CardRulesFor(rules, board, trigger)[i].createdAt >= CardRulesFor(rules, board, trigger)[j].createdAt
  {
    var sel := SelectRules(rules, board, trigger);
    var r := CardRulesFor(rules, board, trigger);
    forall x
      ensures x in r <==> x in rules && x.board == board && x.trigger == trigger && x.isActive
    {
      Ordering.SortByMembers(sel, RuleKey, x);
    }
    Ordering.SortByCorrect(sel, RuleKey);
    forall i, j | 0 <= i < j < |r|
      ensures r[i].createdAt >= r[j].createdAt
    {
      assert Ordering.KeyLe(RuleKey(r[i]), RuleKey(r[j]));
    }
  }

  function RunCardActions(cat: Catalog, ctx: Context, acts: seq<CardAction>, inst: Card, db: Tables): (e: Effect)
    ensures e.inst.id == inst.id
    decreases |acts|
  {
    if |acts| == 0 then Effect(inst, db, None)
    else
      var first := ApplyCardAction(cat, ctx, acts[0].actionType, acts[0].config, inst, db);
      if first.raised.Some? then first
      else RunCardActions(cat, ctx, acts[1..], first.inst, first.db)
  }

  datatype RuleOutcome = RuleOutcome(inst: Card, db: Tables, log: CardLog)

  /** `_execute_rule` of the card engine. */
  function RunCardRule(cat: Catalog, ctx: Context, rule: CardRule, inst: Card, db: Tables): (out: RuleOutcome)
    ensures out.log.rule == rule.id && out.log.card == inst.id && out.inst.id == inst.id
    ensures out.log.status == Failed ==> out.db == db
  {
    var e := RunCardActions(cat, ctx, Ordering.SortBy(rule.actions, ActionKey), inst, db);
    match e.raised
    case None => RuleOutcome(e.inst, e.db, CardLog(rule.id, inst.id, Success, SuccessMessage))
    case Some(msg) => RuleOutcome(e.inst, db, CardLog(rule.id, inst.id, Failed, msg))
  }

  datatype TriggerOutcome = TriggerOutcome(inst: Card, db: Tables, logs: seq<CardLog>)

  /** One iteration of a trigger loop: the rule runs when its filter holds. */
  function ConsiderCardRule(cat: Catalog, ctx: Context, rule: CardRule, ev: CardEvent, inst: Card, db: Tables): (r: TriggerOutcome)
    ensures r.inst.id == inst.id
    ensures CardRuleMatches(rule.triggerConfig, ev) ==>
      |r.logs| == 1 && r.logs[0].rule == rule.id && r.logs[0].card == inst.id
    ensures !CardRuleMatches(rule.triggerConfig, ev) ==> r.logs == [] && r.inst == inst && r.db == db
  {
    if !CardRuleMatches(rule.triggerConfig, ev) then TriggerOutcome(inst, db, [])
    else
      var out := RunCardRule(cat, ctx, rule, inst, db);
      TriggerOutcome(out.inst, out.db, [out.log])
  }

  /** A card trigger: every selected rule whose inline filter holds, in order. */
  function RunCardTrigger(cat: Catalog, ctx: Context, rules: seq<CardRule>, ev: CardEvent, inst: Card, db: Tables): TriggerOutcome
    decreases |rules|
  {
    if |rules| == 0 then TriggerOutcome(inst, db, [])
    else
      var step := ConsiderCardRule(cat, ctx, rules[0], ev, inst, db);
      var rest := RunCardTrigger(cat, ctx, rules[1..], ev, step.inst, step.db);
      TriggerOutcome(rest.inst, rest.db, step.logs + rest.logs)
  }

  function KeepMatching(rules: seq<CardRule>, ev: CardEvent): (r: seq<CardRule>)
    ensures forall x :: x in r <==> x in rules && CardRuleMatches(x.triggerConfig, ev)
  {
    if |rules| == 0 then []
    else if CardRuleMatches(rules[0].triggerConfig, ev) then [rules[0]] + KeepMatching(rules[1..], ev)
    else KeepMatching(rules[1..], ev)
  }

  /** `logs[i]` is the log of rule `rules[i]` about `card`, for every `i`. */
  predicate LogsFor(logs: seq<CardLog>, rules: seq<CardRule>, card: string) {
    |logs| == |rules| && forall i :: 0 <= i < |rules| ==> logs[i].rule == rules[i].id && logs[i].card == card
  }

  lemma LogsForCons(l: CardLog, logs: seq<CardLog>, r: CardRule, rules: seq<CardRule>, card: string)
    requires LogsFor(logs, rules, card) && l.rule == r.id && l.card == card
    ensures LogsFor([l] + logs, [r] + rules, card)
  {
    forall i | 0 < i < |rules| + 1
      ensures ([l] + logs)[i].rule == ([r] + rules)[i].id
    {
      assert ([l] + logs)[i] == logs[i - 1] && ([r] + rules)[i] == rules[i - 1];
    }
  }

  /** A card trigger logs exactly the rules whose filter holds, one log each, in query order. */
  lemma {:induction false} CardTriggerLogsMatchingRules(cat: Catalog, ctx: Context, rules: seq<CardRule>, ev: CardEvent, inst: Card, db: Tables)
    ensures var out := RunCardTrigger(cat, ctx, rules, ev, inst, db);
      LogsFor(out.logs, KeepMatching(rules, ev), inst.id) && out.inst.id == inst.id
  {
    if |rules| > 0 {
      var step := ConsiderCardRule(cat, ctx, rules[0], ev, inst, db);
      CardTriggerLogsMatchingRules(cat, ctx, rules[1..], ev, step.inst, step.db);
      var rest := RunCardTrigger(cat, ctx, rules[1..], ev, step.inst, step.db);
      assert RunCardTrigger(cat, ctx, rules, ev, inst, db).logs == step.logs + rest.logs;
      if CardRuleMatches(rules[0].triggerConfig, ev) {
        assert step.logs == [step.logs[0]];
        LogsForCons(step.logs[0], rest.logs, rules[0], KeepMatching(rules[1..], ev), inst.id);
      } else {
        assert step.logs + rest.logs == rest.logs;
      }
    }
  }

  /** What a trigger loop still produces after logging `prefix`. */
  function ContinueTrigger(cat: Catalog, ctx: Context, prefix: seq<CardLog>, rest: seq<CardRule>, ev: CardEvent, inst: Card, db: Tables): TriggerOutcome {
    var out := RunCardTrigger(cat, ctx, rest, ev, inst, db);
    TriggerOutcome(out.inst, out.db, prefix + out.logs)
  }

  lemma ContinueTriggerStep(cat: Catalog, ctx: Context, prefix: seq<CardLog>, rs: seq<CardRule>, i: int, ev: CardEvent, inst: Card, db: Tables)
    requires 0 <= i < |rs|
    ensures var step := ConsiderCardRule(cat, ctx, rs[i], ev, inst, db);
      ContinueTrigger(cat, ctx, prefix, rs[i..], ev, inst, db) ==
      ContinueTrigger(cat, ctx, prefix + step.logs, rs[i + 1..], ev, step.inst, step.db)
  {
    assert rs[i..][1..] == rs[i + 1..];
    var step := ConsiderCardRule(cat, ctx, rs[i], ev, inst, db);
    var out := RunCardTrigger(cat, ctx, rs[i + 1..], ev, step.inst, step.db);
    assert prefix + (step.logs + out.logs) == (prefix + step.logs) + out.logs;
  }

  datatype ButtonOutcome = ButtonOutcome(inst: Card, db: Tables, ok: bool)

  /**
    `execute_card_button`: `False` for a missing or inactive button or on an exception (after
    rollback), `True` otherwise; the button's board is not compared with the card's.
  */
  function RunCardButton(cat: Catalog, ctx: Context, buttons: map<string, CardButton>, buttonId: string, inst: Card, db: Tables): (out: ButtonOutcome)
    ensures !out.ok ==> out.db == db
    ensures out.ok ==> buttonId in buttons && buttons[buttonId].isActive
  {
    if buttonId !in buttons || !buttons[buttonId].isActive then ButtonOutcome(inst, db, false)
    else
      var e := RunCardActions(cat, ctx, Ordering.SortBy(buttons[buttonId].actions, ActionKey), inst, db);
      if e.raised.Some? then ButtonOutcome(e.inst, db, false) else ButtonOutcome(e.inst, e.db, true)
  }

  /** A button of another board still runs on the card. */
  lemma CardButtonIgnoresBoard(cat: Catalog, ctx: Context, button: CardButton, inst: Card, db: Tables)
    requires button.isActive && button.actions == []
    requires BoardOf(cat, inst) != Some(button.board)
    ensures RunCardButton(cat, ctx, map[button.id := button], button.id, inst, db).ok
  {
    assert Ordering.SortBy(button.actions, ActionKey) == [];
  }

  /** The view's response: a redirect after the move, an empty 400, or an exception (a 500). */
  datatype MoveReply = Redirect(logs: seq<CardLog>) | BadRequest(reason: string) | ServerError(message: string)

  datatype MoveOutcome = MoveOutcome(reply: MoveReply, db: Tables)

  const BlankColumnMessage := "column_id is required"
  const UnknownColumnMessage := "column not on this board"

  /** The card placed after the last card of `column`, as the view's `update` writes it. */
  function PlacedIn(card: Card, column: string, db: Tables): Card {
    card.(column := column, sortOrder := AfterLast(MaxSort(db.cards, column, None)))
  }

  /**
    `board_card_move`: a blank column id is refused, a column id that is not a UUID raises in the
    lookup, a column of another board is refused, the card's own column changes nothing, and any
    other column receives the card after its last card; then `card_moved` fires for the refreshed row.
  */
  function CardMove(cat: Catalog, rules: seq<CardRule>, ctx: Context, card: Card, columnId: string, db: Tables): MoveOutcome {
    var text := Strip(columnId);
    if text == "" then MoveOutcome(BadRequest(BlankColumnMessage), db)
    else
      match UuidKey(JStr(text))
      case Err(msg) => MoveOutcome(ServerError(msg), db)
      case Ok(target) =>
        if !(target in cat.columns && card.column in cat.columns && cat.columns[target] == cat.columns[card.column]) then
          MoveOutcome(BadRequest(UnknownColumnMessage), db)
        else if target == card.column then MoveOutcome(Redirect([]), db)
        else
          var moved := PlacedIn(card, target, db);
          var out := RunCardTrigger(cat, ctx, CardRulesFor(rules, cat.columns[target], CardMoved), Moved(card.column, target),
                                    moved, db.(cards := UpdateRows(db.cards, moved, {ColumnField, SortOrderField})));
          MoveOutcome(Redirect(out.logs), out.db)
  }

  /**
    Refusals and errors change nothing; a malformed column id raises rather than being refused, and
    the view redirects exactly for a well-formed id of a column on the card's board.
  */
  lemma CardMoveRefusals(cat: Catalog, rules: seq<CardRule>, ctx: Context, card: Card, columnId: string, db: Tables)
    ensures var text := Strip(columnId);
      var out := CardMove(cat, rules, ctx, card, columnId, db);
      (!out.reply.Redirect? ==> out.db == db) &&
      (out.reply.ServerError? <==> text != "" && UuidKey(JStr(text)).Err?) &&
      (out.reply.Redirect? <==>
        (text != "" && UuidKey(JStr(text)).Ok? &&
         var target := UuidKey(JStr(text)).value;
         target in cat.columns && card.column in cat.columns && cat.columns[target] == cat.columns[card.column]))
  {
  }

  /**
    A move to a column of the card's board, whatever the spelling of its id: the card's own column
    changes nothing; another column receives the card with an order past every card already there,
    no other row changes, and then `card_moved` fires from the old column to the new one and logs
    exactly the board's `card_moved` rules whose column filter holds.
  */
  lemma CardMovePlacement(cat: Catalog, rules: seq<CardRule>, ctx: Context, card: Card, columnId: string, db: Tables)
    requires Strip(columnId) != "" && UuidKey(JStr(Strip(columnId))).Ok?
    requires var target := UuidKey(JStr(Strip(columnId))).value;
      target in cat.columns && card.column in cat.columns && cat.columns[target] == cat.columns[card.column]
    ensures var target := UuidKey(JStr(Strip(columnId))).value;
      var out := CardMove(cat, rules, ctx, card, columnId, db);
      out.reply.Redirect? &&
      (target == card.column ==> out == MoveOutcome(Redirect([]), db)) &&
      (target != card.column ==>
        var moved := PlacedIn(card, target, db);
        var placed := db.(cards := UpdateRows(db.cards, moved, {ColumnField, SortOrderField}));
        (forall i :: 0 <= i < |db.cards| && db.cards[i].column == target ==> db.cards[i].sortOrder < moved.sortOrder) &&
        (HasRow(db.cards, card.id) && Stored(db, card) ==> Stored(placed, moved)) &&
        (forall i :: 0 <= i < |db.cards| && db.cards[i].id != card.id ==> placed.cards[i] == db.cards[i]) &&
        var fired := RunCardTrigger(cat, ctx, CardRulesFor(rules, cat.columns[target], CardMoved), Moved(card.column, target), moved, placed);
        out == MoveOutcome(Redirect(fired.logs), fired.db) &&
        LogsFor(out.reply.logs, KeepMatching(CardRulesFor(rules, cat.columns[target], CardMoved), Moved(card.column, target)), card.id))
  {
    var target := UuidKey(JStr(Strip(columnId))).value;
    if target != card.column {
      var moved := PlacedIn(card, target, db);
      var placed := db.(cards := UpdateRows(db.cards, moved, {ColumnField, SortOrderField}));
      AfterLastIsPastEveryCard(db.cards, target, None);
      assert WriteCard(card, moved, {ColumnField, SortOrderField}) == moved;
      CardTriggerLogsMatchingRules(cat, ctx, CardRulesFor(rules, cat.columns[target], CardMoved), Moved(card.column, target), moved, placed);
    }
  }

  // ---------------------------------------------------------------------------
  // The store
  // ---------------------------------------------------------------------------

  ghost predicate UniqueIds(cards: seq<Card>) {
    forall i, j :: 0 <= i < j < |cards| ==> cards[i].id != cards[j].id
  }

  class BoardStore {
    var cards: seq<Card>
    var labelLinks: set<(string, string)>
    var logs: seq<CardLog>
    const catalog: Catalog
    const rules: seq<CardRule>
    const buttons: map<string, CardButton>

    constructor (db: Tables, catalog: Catalog, rules: seq<CardRule>, buttons: map<string, CardButton>)
      ensures cards == db.cards && labelLinks == db.labelLinks && logs == []
      ensures this.catalog == catalog && this.rules == rules && this.buttons == buttons
    {
      cards := db.cards;
      labelLinks := db.labelLinks;
      logs := [];
      this.catalog := catalog;
      this.rules := rules;
      this.buttons := buttons;
    }

    function Db(): Tables
      reads this
    {
      Tables(cards, labelLinks)
    }

    /** The actions in one transaction: the tables are restored when one raises. */
    method RunAtomically(ctx: Context, acts: seq<CardAction>, inst: Card) returns (inst': Card, raised: Option<string>)
      modifies this
      ensures var e := RunCardActions(catalog, ctx, acts, inst, old(Db()));
        inst' == e.inst && raised == e.raised && Db() == (if raised.Some? then old(Db()) else e.db)
      ensures logs == old(logs)
    {
      var snapshot := Db();
      inst' := inst;
      raised := None;
      var i := 0;
      while i < |acts| && raised.None?
        invariant 0 <= i <= |acts|
        invariant logs == old(logs)
        invariant raised.None? ==>
          RunCardActions(catalog, ctx, acts, inst, snapshot) == RunCardActions(catalog, ctx, acts[i..], inst', Db())
        invariant raised.Some? ==>
          RunCardActions(catalog, ctx, acts, inst, snapshot) == Effect(inst', Db(), raised)
      {
        assert acts[i..][1..] == acts[i + 1..];
        var e := ApplyCardAction(catalog, ctx, acts[i].actionType, acts[i].config, inst', Db());
        cards := e.db.cards;
        labelLinks := e.db.labelLinks;
        inst' := e.inst;
        raised := e.raised;
        i := i + 1;
      }
      if raised.Some? {
        cards := snapshot.cards;
        labelLinks := snapshot.labelLinks;
      }
    }

    /** `_execute_rule`: the transaction, then one log written outside it. */
    method ExecuteRule(ctx: Context, rule: CardRule, inst: Card) returns (inst': Card, log: CardLog)
      modifies this
      ensures var out := RunCardRule(catalog, ctx, rule, inst, old(Db()));
        inst' == out.inst && Db() == out.db && log == out.log
      ensures logs == old(logs) + [log]
    {
      var raised;
      inst', raised := RunAtomically(ctx, Ordering.SortBy(rule.actions, ActionKey), inst);
      match raised {
        case None => log := CardLog(rule.id, inst.id, Success, SuccessMessage);
        case Some(msg) => log := CardLog(rule.id, inst.id, Failed, msg);
      }
      logs := logs + [log];
    }

    /** A trigger method of the card engine, for a card whose column is known. */
    method Trigger(ctx: Context, ev: CardEvent, inst: Card) returns (inst': Card, newLogs: seq<CardLog>)
      requires inst.column in catalog.columns
      modifies this
      ensures var out := RunCardTrigger(catalog, ctx, CardRulesFor(rules, catalog.columns[inst.column], TriggerOf(ev)), ev, inst, old(Db()));
        inst' == out.inst && Db() == out.db && newLogs == out.logs
      ensures logs == old(logs) + newLogs
    {
      var rs := CardRulesFor(rules, catalog.columns[inst.column], TriggerOf(ev));
      inst' := inst;
      newLogs := [];
      var i := 0;
      ghost var all := RunCardTrigger(catalog, ctx, rs, ev, inst, Db());
      assert rs[0..] == rs && [] + all.logs == all.logs;
      while i < |rs|
        invariant 0 <= i <= |rs|
        invariant logs == old(logs) + newLogs
        invariant RunCardTrigger(catalog, ctx, rs, ev, inst, old(Db())) ==
          ContinueTrigger(catalog, ctx, newLogs, rs[i..], ev, inst', Db())
      {
        ContinueTriggerStep(catalog, ctx, newLogs, rs, i, ev, inst', Db());
        var stepLogs;
        inst', stepLogs := ConsiderRule(ctx, rs[i], ev, inst');
        newLogs := newLogs + stepLogs;
        i := i + 1;
      }
      assert rs[i..] == [];
      assert newLogs + [] == newLogs;
    }

    /** The loop body of a trigger method for one rule. */
    method ConsiderRule(ctx: Context, rule: CardRule, ev: CardEvent, inst: Card) returns (inst': Card, stepLogs: seq<CardLog>)
      modifies this
      ensures var out := ConsiderCardRule(catalog, ctx, rule, ev, inst, old(Db()));
        inst' == out.inst && Db() == out.db && stepLogs == out.logs
      ensures logs == old(logs) + stepLogs
    {
      if CardRuleMatches(rule.triggerConfig, ev) {
        var log;
        inst', log := ExecuteRule(ctx, rule, inst);
        stepLogs := [log];
      } else {
        inst', stepLogs := inst, [];
      }
    }

    /** `execute_card_button`. */
    method ExecuteButton(ctx: Context, buttonId: string, inst: Card) returns (inst': Card, ok: bool)
      modifies this
      ensures var out := RunCardButton(catalog, ctx, buttons, buttonId, inst, old(Db()));
        inst' == out.inst && Db() == out.db && ok == out.ok
      ensures logs == old(logs)
    {
      if buttonId !in buttons || !buttons[buttonId].isActive {
        return inst, false;
      }
      var raised;
      inst', raised := RunAtomically(ctx, Ordering.SortBy(buttons[buttonId].actions, ActionKey), inst);
      ok := raised.None?;
    }

    /** `board_card_move` for the card with id `cardId`. */
    method MoveCard(ctx: Context, cardId: string, columnId: string) returns (reply: MoveReply)
      requires UniqueIds(cards)
      requires exists i :: 0 <= i < |cards| && cards[i].id == cardId && cards[i].column in catalog.columns
      modifies this
      ensures forall i | 0 <= i < |old(cards)| && old(cards)[i].id == cardId ::
        MoveOutcome(reply, Db()) == CardMove(catalog, rules, ctx, old(cards)[i], columnId, old(Db()))
      ensures logs == old(logs) + (if reply.Redirect? then reply.logs else [])
    {
      var i :| 0 <= i < |cards| && cards[i].id == cardId && cards[i].column in catalog.columns;
      var card := cards[i];
      assert forall k | 0 <= k < |cards| && cards[k].id == cardId :: k == i;
      var text := Strip(columnId);
      if text == "" {
        return BadRequest(BlankColumnMessage);
      }
      var key := UuidKey(JStr(text));
      if key.Err? {
        return ServerError(key.error);
      }
      var target := key.value;
      if !(target in catalog.columns && card.column in catalog.columns && catalog.columns[target] == catalog.columns[card.column]) {
        return BadRequest(UnknownColumnMessage);
      }
      if target == card.column {
        return Redirect([]);
      }
      var moved := PlacedIn(card, target, Db());
      cards := UpdateRows(cards, moved, {ColumnField, SortOrderField});
      var refreshed := cards[i];
      assert refreshed == moved;
      var _, newLogs := Trigger(ctx, Moved(card.column, target), refreshed);
      reply := Redirect(newLogs);
    }
  }
}
