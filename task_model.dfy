/**
  `TaskModel`: the rows of the task tables that the automation engines read and write
  (tasks, label assignments, rules with their actions, buttons, logs), the enumerations
  stored as strings, and `save(update_fields=...)` of a task row.
  Timestamps are integers counting microseconds; identifiers are the strings `str(pk)`.
*/
module TaskModel {
  import opened Wrappers
  import opened PyValues
  import Ordering

  /** One day, in microseconds (`timedelta(days=1)`). */
  const Day: int := 86_400_000_000

  datatype Status = Todo | InProgress | Done
  datatype Priority = Low | Medium | High

  function StatusName(s: Status): string {
    match s
    case Todo => "TODO"
    case InProgress => "IN_PROGRESS"
    case Done => "DONE"
  }

  /** Membership of a string in `dict(Task.Status.choices)`. */
  function ParseStatus(s: string): (r: Option<Status>)
    ensures r.Some? ==> StatusName(r.value) == s
  {
    if s == "TODO" then Some(Todo)
    else if s == "IN_PROGRESS" then Some(InProgress)
    else if s == "DONE" then Some(Done)
    else None
  }

  lemma ParseStatusName(s: Status)
    ensures ParseStatus(StatusName(s)) == Some(s)
  {
  }

  function PriorityName(p: Priority): string {
    match p
    case Low => "LOW"
    case Medium => "MEDIUM"
    case High => "HIGH"
  }

  /** Membership of a string in `dict(Task.Priority.choices)`. */
  function ParsePriority(s: string): (r: Option<Priority>)
    ensures r.Some? ==> PriorityName(r.value) == s
  {
    if s == "LOW" then Some(Low)
    else if s == "MEDIUM" then Some(Medium)
    else if s == "HIGH" then Some(High)
    else None
  }

  lemma ParsePriorityName(p: Priority)
    ensures ParsePriority(PriorityName(p)) == Some(p)
  {
  }

  /** A `Task` row, or the in-memory `Task` instance an engine holds. */
  datatype Task = Task(
    id: string,
    project: string,
    title: string,
    subtitle: string,
    description: Option<string>,
    status: Status,
    priority: Priority,
    dueDate: Option<int>,
    scheduledStart: Option<int>,
    durationMinutes: Option<int>,   // a PositiveIntegerField: negative values are refused on save
    ideaCard: Option<string>,
    assignedTo: string,
    trackedSeconds: nat,
    progress: nat,
    sortOrder: nat,
    isArchived: bool,
    archivedAt: Option<int>,
    archivedBy: Option<string>,
    recurrenceParent: Option<string>,
    createdAt: int)

  /** The task columns an automation handler names in `update_fields`. */
  datatype Field = StatusField | PriorityField | AssignedToField | DueDateField | ProjectField
                 | ScheduledStartField | DurationField | IsArchivedField | ArchivedAtField | ArchivedByField

  /** The stored row after `save(update_fields=fields)` of the instance `inst`: listed columns come from the instance. */
  function WriteFields(row: Task, inst: Task, fields: set<Field>): (r: Task)
    ensures r.id == row.id
    ensures fields == {} ==> r == row
  {
    row.(
      status := if StatusField in fields then inst.status else row.status,
      priority := if PriorityField in fields then inst.priority else row.priority,
      assignedTo := if AssignedToField in fields then inst.assignedTo else row.assignedTo,
      dueDate := if DueDateField in fields then inst.dueDate else row.dueDate,
      project := if ProjectField in fields then inst.project else row.project,
      scheduledStart := if ScheduledStartField in fields then inst.scheduledStart else row.scheduledStart,
      durationMinutes := if DurationField in fields then inst.durationMinutes else row.durationMinutes,
      isArchived := if IsArchivedField in fields then inst.isArchived else row.isArchived,
      archivedAt := if ArchivedAtField in fields then inst.archivedAt else row.archivedAt,
      archivedBy := if ArchivedByField in fields then inst.archivedBy else row.archivedBy)
  }

  /** The rows an automation rule may change, and which its transaction rolls back together. */
  datatype Tables = Tables(tasks: map<string, Task>, labelLinks: set<(string, string)>)

  const NoRowUpdated := "Save with update_fields did not affect any rows."
  const NegativeDuration := "CHECK constraint failed: duration_minutes >= 0"

  /** `task.save(update_fields=fields)`: the row must exist and a written duration must not be negative. */
  function Save(db: Tables, inst: Task, fields: set<Field>): (r: Result<Tables>)
    ensures r.Ok? <==> (inst.id in db.tasks &&
      !(DurationField in fields && inst.durationMinutes.Some? && inst.durationMinutes.value < 0))
    ensures r.Ok? ==> r.value == db.(tasks := db.tasks[inst.id := WriteFields(db.tasks[inst.id], inst, fields)])
  {
    if inst.id !in db.tasks then Err(NoRowUpdated)
    else if DurationField in fields && inst.durationMinutes.Some? && inst.durationMinutes.value < 0 then Err(NegativeDuration)
    else Ok(db.(tasks := db.tasks[inst.id := WriteFields(db.tasks[inst.id], inst, fields)]))
  }

  // ---------------------------------------------------------------------------
  // Action types and the action registry
  // ---------------------------------------------------------------------------

  datatype ActionType =
    | ChangeStatus | SetPriority | AssignUser | UnassignUser | AddLabel | RemoveLabel
    | SetDueDate | ClearDueDate | MoveToProject | SendNotification | PostComment
    | AddToCalendar | ArchiveTask

  function ActionTag(a: ActionType): string {
    match a
    case ChangeStatus => "change_status"
    case SetPriority => "set_priority"
    case AssignUser => "assign_user"
    case UnassignUser => "unassign_user"
    case AddLabel => "add_label"
    case RemoveLabel => "remove_label"
    case SetDueDate => "set_due_date"
    case ClearDueDate => "clear_due_date"
    case MoveToProject => "move_to_project"
    case SendNotification => "send_notification"
    case PostComment => "post_comment"
    case AddToCalendar => "add_to_calendar"
    case ArchiveTask => "archive_task"
  }

  /** The `if`/`elif` chain of the original engine: the first type whose tag equals `tag`. */
  function ChainDispatch(tag: string): Option<ActionType> {
    if tag == "change_status" then Some(ChangeStatus)
    else if tag == "set_priority" then Some(SetPriority)
    else if tag == "assign_user" then Some(AssignUser)
    else if tag == "unassign_user" then Some(UnassignUser)
    else if tag == "add_label" then Some(AddLabel)
    else if tag == "remove_label" then Some(RemoveLabel)
    else if tag == "set_due_date" then Some(SetDueDate)
    else if tag == "clear_due_date" then Some(ClearDueDate)
    else if tag == "move_to_project" then Some(MoveToProject)
    else if tag == "send_notification" then Some(SendNotification)
    else if tag == "post_comment" then Some(PostComment)
    else if tag == "add_to_calendar" then Some(AddToCalendar)
    else if tag == "archive_task" then Some(ArchiveTask)
    else None
  }

  /** `_build_action_registry` of the registry-based engine. */
  const Registry: map<string, ActionType> := map[
    "change_status" := ChangeStatus, "set_priority" := SetPriority,
    "assign_user" := AssignUser, "unassign_user" := UnassignUser,
    "add_label" := AddLabel, "remove_label" := RemoveLabel,
    "set_due_date" := SetDueDate, "clear_due_date" := ClearDueDate,
    "move_to_project" := MoveToProject, "send_notification" := SendNotification,
    "post_comment" := PostComment, "add_to_calendar" := AddToCalendar,
    "archive_task" := ArchiveTask]

  /** `self._action_registry.get(action.action_type)`. */
  function RegistryDispatch(tag: string): Option<ActionType> {
    if tag in Registry then Some(Registry[tag]) else None
  }

  /** Every one of the 13 action types has a registry entry under its own tag, and every entry is of that form. */
  lemma RegistryCoversEachTypeOnce()
    ensures forall a: ActionType :: ActionTag(a) in Registry && Registry[ActionTag(a)] == a
    ensures forall tag :: tag in Registry ==> ActionTag(Registry[tag]) == tag
  {
    forall a: ActionType
      ensures ActionTag(a) in Registry && Registry[ActionTag(a)] == a
    {
      match a
      case ChangeStatus =>
      case SetPriority =>
      case AssignUser =>
      case UnassignUser =>
      case AddLabel =>
      case RemoveLabel =>
      case SetDueDate =>
      case ClearDueDate =>
      case MoveToProject =>
      case SendNotification =>
      case PostComment =>
      case AddToCalendar =>
      case ArchiveTask =>
    }
  }

  /** The two engines dispatch every action-type string to the same handler, or to none. */
  lemma DispatchAgrees(tag: string)
    ensures ChainDispatch(tag) == RegistryDispatch(tag)
    ensures ChainDispatch(tag).Some? ==> ActionTag(ChainDispatch(tag).value) == tag
  {
  }

  // ---------------------------------------------------------------------------
  // Rules, actions, buttons and logs
  // ---------------------------------------------------------------------------

  datatype TriggerType =
    | TaskCreated | StatusChanged | TaskUpdated | DueDateApproaching | DueDateReached
    | DueDateOverdue | LabelAdded | LabelRemoved | AssignedToUser | PriorityChanged | TaskCompleted

  /** A `TaskAutomationAction` or `TaskButtonAction` row; `actionType` is the stored string. */
  datatype Action = Action(actionType: string, config: Config, sortOrder: nat)

  datatype Rule = Rule(
    id: string,
    organization: string,
    project: Option<string>,
    trigger: TriggerType,
    triggerConfig: Config,
    isActive: bool,
    createdAt: int,
    actions: seq<Action>)

  /** A `TaskButton` row with its display conditions; the two lists are stored JSON lists. */
  datatype Button = Button(
    id: string,
    organization: string,
    project: Option<string>,
    isActive: bool,
    actions: seq<Action>,
    showOnStatus: seq<Json>,
    showOnPriority: seq<Json>,
    showWhenHasLabel: Option<string>,
    hideWhenHasLabel: Option<string>)

  datatype LogStatus = Success | Failed
  datatype Log = Log(rule: string, task: string, status: LogStatus, message: string)

  const SuccessMessage := "Rule executed successfully"

  /** `ordering = ["sort_order"]` on actions. */
  function ActionKey(a: Action): Ordering.Key { (a.sortOrder, 0) }

  /** `ordering = ["-created_at"]` on rules. */
  function RuleKey(r: Rule): Ordering.Key { (-r.createdAt, 0) }

  /** `rule.actions.all()`: the rule's actions in ascending `sort_order`. */
  function OrderedActions(actions: seq<Action>): (r: seq<Action>)
  {
    Ordering.SortBy(actions, ActionKey)
  }

  /** Actions run in ascending `sort_order`, and every stored action runs exactly once. */
  lemma OrderedActionsAscending(actions: seq<Action>)
    ensures multiset(OrderedActions(actions)) == multiset(actions)
    ensures forall i, j :: 0 <= i < j < |OrderedActions(actions)| ==>
      OrderedActions(actions)[i].sortOrder <= OrderedActions(actions)[j].sortOrder
  {
    Ordering.SortByCorrect(actions, ActionKey);
    var r := OrderedActions(actions);
    forall i, j | 0 <= i < j < |r|
      ensures r[i].sortOrder <= r[j].sortOrder
    {
      assert Ordering.KeyLe(ActionKey(r[i]), ActionKey(r[j]));
    }
  }

  // ---------------------------------------------------------------------------
  // Button visibility
  // ---------------------------------------------------------------------------

  /** `name in json_list`: a stored list element equals a Python string only when it is that string. */
  predicate ListHas(list: seq<Json>, name: string) {
    JStr(name) in list
  }

  /** `TaskButton.should_show_for_task`: the if-chain of display conditions, in the source's order. */
  function ShouldShowForTask(button: Button, task: Task, labelLinks: set<(string, string)>): bool {
    if |button.showOnStatus| > 0 && !ListHas(button.showOnStatus, StatusName(task.status)) then false
    else if |button.showOnPriority| > 0 && !ListHas(button.showOnPriority, PriorityName(task.priority)) then false
    else if button.showWhenHasLabel.Some? && (task.id, button.showWhenHasLabel.value) !in labelLinks then false
    else if button.hideWhenHasLabel.Some? && (task.id, button.hideWhenHasLabel.value) in labelLinks then false
    else true
  }

  /** The button shows exactly when each of the four conditions holds; an empty list imposes nothing. */
  lemma ShouldShowIffAllConditions(button: Button, task: Task, labelLinks: set<(string, string)>)
    ensures ShouldShowForTask(button, task, labelLinks) <==>
      (button.showOnStatus == [] || JStr(StatusName(task.status)) in button.showOnStatus) &&
      (button.showOnPriority == [] || JStr(PriorityName(task.priority)) in button.showOnPriority) &&
      (button.showWhenHasLabel == None || (task.id, button.showWhenHasLabel.value) in labelLinks) &&
      (button.hideWhenHasLabel == None || (task.id, button.hideWhenHasLabel.value) !in labelLinks)
  {
  }

  /** A button with no display conditions shows on every task. */
  lemma UnconditionalButtonAlwaysShows(button: Button, task: Task, labelLinks: set<(string, string)>)
    requires button.showOnStatus == [] && button.showOnPriority == []
    requires button.showWhenHasLabel == None && button.hideWhenHasLabel == None
    ensures ShouldShowForTask(button, task, labelLinks)
  {
  }

  /** Requiring and hiding on the same label means the button never shows. */
  lemma SameLabelRequiredAndHiddenNeverShows(button: Button, task: Task, labelLinks: set<(string, string)>)
    requires button.showWhenHasLabel.Some? && button.showWhenHasLabel == button.hideWhenHasLabel
    ensures !ShouldShowForTask(button, task, labelLinks)
  {
  }

  /** The status list holds names, so a list of other JSON values hides the button on every status. */
  lemma StatusListWithoutNamesHides(button: Button, task: Task, labelLinks: set<(string, string)>)
    requires |button.showOnStatus| > 0
    requires forall j :: j in button.showOnStatus ==> !j.JStr?
    ensures !ShouldShowForTask(button, task, labelLinks)
  {
  }
}
