# Task board, automation and invoicing core — a Dafny model

This project models the deterministic core of a Django project-management application:

- the **automation rule engines**:
  - for tasks, both the `if`/`elif` engine and its registry-based twin;
  - for board cards;
  - their **trigger filters**;
- the **recurrence generator** that spawns the next task of a recurring chain, and the
  visibility predicate of task buttons;
- **column ordering** of the task board: dense renumbering, insertion at a position, moving and
  creating tasks;
- **time tracking**:
  - the humanized duration text;
  - the duration `tasks_schedule` stores;
  - the timer and the done-toggle over time entries;
- **workspace onboarding**: `slugify`, the unique-slug loop, workspace creation and `switch_org`;
- **view helpers**: `can_edit_task`, `task_event_style`, `_project_color_rgb`,
  `get_org_member_user`;
- **invoicing**:
  - invoice numbers `NNN-DD-MM-YYYY`;
  - item totals and the VAT totals with Python's half-even `quantize(Decimal('0.01'))`;
  - the indexed `item_*_N` form parser with its list padding;
  - the create and preview paths of the invoice form.

Conventions:

- Database tables are fields of classes (`TaskStore`, `BoardStore`, `ColumnStore`, `TimeStore`,
  `Workspaces`, `InvoiceStore`, `RecurrenceStore`).
- A transaction is a snapshot that is restored when an action raises.
- Exceptions are `Result`/`Option` values.
- Instants are integer microseconds.
- Money is integer cents, with exact decimals (`Dec(units, scale)`) wherever the code multiplies
  before rounding.
- JSON configuration values are modelled with Python's truthiness, `str()`, `int()` and `%`
  written out (module `PyValues`).

Loops of the source are methods with loops, each proved against a recursive specification
function. Properties relating several calls are lemmas about those functions.

Modules (one per file):

| module | what it models |
|---|---|
| `Wrappers` | `Option`, `Result`. |
| `PyValues` | JSON scalars, truthiness, `str`, `int`, `strip`, floor `%`. |
| `Ordering` | A stable sort by key (`order_by`). |
| `Calendar` | Civil dates and `relativedelta(months=…)`. |
| `TriggerFilter` | The static trigger predicates. |
| `TaskModel` | Task rows, `save(update_fields=…)`, the action dispatch tables, `should_show_for_task`. |
| `TaskHandlers` | The 13 task action handlers of both engines. |
| `TaskEngine` | Rule selection, execution, triggers and buttons for tasks. |
| `BoardEngine` | The card engine, `execute_card_button`, `board_card_move`. |
| `Recurrence` | `create_recurring_task`. |
| `ColumnOrder` | `normalize_column_order`, `insert_task_at_position`, `tasks_move`, `tasks_create`. |
| `TimeTracking` | `humanize_seconds`, `tasks_schedule`, `tasks_timer`, `tasks_toggle`. |
| `ViewUtils` | The view helpers. |
| `Onboarding` | Slugs, workspaces, `switch_org`. |
| `Decimals` | Decimal multiplication, half-even quantize, `Decimal(str)`. |
| `InvoiceNumbers` | Invoice number generation. |
| `InvoiceForm` | Form parsing, line and VAT totals. |
| `Invoices` | The invoice tables, `save`, `update_totals`, create and preview. |

Where the two copies of a view disagree (`web/views/*.py` and `web/views_backup.py`), the model
follows the file cited in its row.

## Model

| member | source | states |
|---|---|---|
| PyValues.PyMod | backend/apps/core/automation_base.py:219 | Python's `%`: the result takes the divisor's sign (in `[0,n)` or `(n,0]`), is 0 exactly when `n` divides `a`, and with the floored quotient rebuilds `a` (`a == n * (a // n) + a % n`) |
| PyValues.PyInt | backend/apps/projects/automation.py:431-435 | `int()` of a JSON value: an int is itself, a string parses iff `ParseInt` accepts it (surrounding `isspace()` blanks, a sign, digits with single underscores between them), `None` raises |
| PyValues.ParseIntInPlainDigits | backend/apps/projects/automation.py:431-435 | Plain digits with no sign or blank read back as their value, in base 10 and base 16 |
| PyValues.ParseFormatInt | backend/apps/web/views/invoices.py:144 | `int(str(n)) == n` for every integer: the parser reads back what `str` writes |
| PyValues.FormatIntInjective | backend/apps/web/views/invoices.py:144 | Different integers have different decimal texts |
| PyValues.FirstIndexIs | backend/apps/invoices/models.py:70 | The end of `split('-')[0]` is the unique position before which there is no `-` and at which there is one (or the end) |
| LookupKeys.IntKey | backend/apps/web/views/tasks.py:254-256 | A lookup by the integer user key (`user_id=…`) accepts exactly the values `int()` accepts, and finds the row under the canonical text of that integer |
| LookupKeys.IntKeyCanonical | backend/apps/web/views/tasks.py:256 | Every accepted spelling of an integer key converts to a canonical text that converts to itself |
| LookupKeys.IntKeyOfStoredText | backend/apps/web/views/utils.py:226 | A key written by `str(pk)`, and the int itself, find that row |
| LookupKeys.LeadingZeroFindsUser | backend/apps/web/views/utils.py:222-226 | `"05"` finds user 5 |
| LookupKeys.LettersAreNoUserKey | backend/apps/web/views/utils.py:222-226 | `"abc"` raises instead of finding nothing |
| LookupKeys.UuidKey | backend/apps/projects/automation.py:414-417 | A UUID lookup raises `ValidationError` with the field's message exactly on the values it cannot convert |
| LookupKeys.UuidRoundTrip | backend/apps/projects/automation.py:414-417 | The canonical text of a UUID reads back as that UUID |
| LookupKeys.UuidOtherSpellings | backend/apps/boards/automation.py:199-202 | The canonical text in braces, and the 32 digits without hyphens, name the same UUID |
| LookupKeys.UuidStringInjective | backend/apps/boards/automation.py:199-202 | Different UUIDs have different canonical texts |
| LookupKeys.UuidKeyCanonical | backend/apps/web/views_backup.py:622-624 | Every accepted value finds the row stored under the canonical text of some UUID, and that text converts to itself |
| LookupKeys.ShortTextIsNoUuid | backend/apps/web/views/tasks.py:280-283 | `"abc"` raises in a UUID lookup |
| Ordering.SortByCorrect | backend/apps/projects/models.py:163-164 | `order_by` yields a permutation of its input, sorted by the key |
| Ordering.SortByMembers | backend/apps/projects/models.py:163-164 | A row is in the ordered result iff it is in the input |
| Ordering.SortByDistinct | backend/apps/projects/models.py:163-164 | Ordering a list without repetitions yields one without repetitions |
| Calendar.AddMonthsToDate | backend/apps/projects/models.py:209-210 | `relativedelta(months=n)` yields a valid date in the month `n` months on, with the day clamped to that month's length |
| Calendar.AddMonthsKeepsDayWhenItFits | backend/apps/projects/models.py:209-210 | A month step keeps the day of the month whenever the target month has that day |
| Calendar.TwelveMonthsIsOneYear | backend/apps/projects/models.py:209-210 | Twelve months move to the same month of the next year, same day except 29 February |
| Calendar.EndOfMonthClamps | backend/apps/projects/models.py:209-210 | 31 January plus one month is the last day of February (28 or 29) |
| Calendar.CivilRoundTrip | backend/apps/projects/models.py:209-210 | Converting a valid date to its day number and back gives the same date |
| Calendar.CivilFromDaysValid | backend/apps/projects/models.py:209-210 | Every day number names a valid date (month 1..12, day within the month's length, 29 February only in a leap year) |
| Calendar.AddMonthsMovesDate | backend/apps/projects/models.py:209-210 | `instant + relativedelta(months=n)` lands on the calendar date `n` months on (day clamped), at the same time of day |
| TriggerFilter.StatusMatchesBothSet | backend/apps/core/automation_base.py:140-143 | With both keys set, it matches exactly the transition from → to |
| TriggerFilter.PriorityIgnoresOld | backend/apps/core/automation_base.py:159-164 | The old priority never matters; only an optional `to_priority` constrains the new one |
| TriggerFilter.DaysThresholdIsExact | backend/apps/core/automation_base.py:201-203 | Exact equality with `days_before`, 3 when absent |
| TriggerFilter.IntervalMatchesMultiples | backend/apps/core/automation_base.py:217-219 | Absent: always true; an integer `n ≠ 0`: true iff `n` divides the days overdue; `n = 0`: an error (`ZeroDivisionError`) |
| TriggerFilter.UnsetKeysMatchEverything | backend/apps/core/automation_base.py:117-187 | With no keys set, every filter (label, user, status, priority, column) matches every event |
| TriggerFilter.SettingKeyNarrows | backend/apps/core/automation_base.py:117-187 | Setting a key that was unset only narrows each filter: an event the stricter config accepts was accepted before |
| TriggerFilter.SetLabelAdmitsOne | backend/apps/core/automation_base.py:117-121 | A set `label_id` admits exactly one label id, the configured value's `str` |
| TriggerFilter.SetToStatusAdmitsOne | backend/apps/core/automation_base.py:136-144 | A set `to_status` admits at most one new status, whatever the old one |
| TriggerFilter.StatusSidesIndependent | backend/apps/core/automation_base.py:136-144 | The status filter holds iff its `to_status` half and its `from_status` half each hold on their own |
| TriggerFilter.SetColumnAdmitsOne | backend/apps/core/automation_base.py:179-187 | A set `to_column_id` admits one destination column, a set `from_column_id` one source column |
| TaskModel.ParseStatusName | backend/apps/projects/models.py:111-114 | Each status name is recognised as that status (choice membership) |
| TaskModel.ParsePriorityName | backend/apps/projects/models.py:116-119 | Each priority name is recognised as that priority |
| TaskModel.RegistryCoversEachTypeOnce | backend/apps/projects/automation_refactored.py:46-62 | Each of the 13 action types has exactly one registry entry, under its own tag, and no other entries exist |
| TaskModel.DispatchAgrees | backend/apps/projects/automation.py:335-365 | The `if`/`elif` chain and the registry dispatch every action-type string to the same handler, or to none |
| TaskModel.OrderedActionsAscending | backend/apps/projects/models.py:384-385 | A rule's actions run in ascending `sort_order`, each stored action exactly once |
| TaskModel.ShouldShowIffAllConditions | backend/apps/projects/models.py:461-481 | Shown iff the status list is empty or contains the status, likewise priority, the required label is linked and the hidden label is not |
| TaskModel.UnconditionalButtonAlwaysShows | backend/apps/projects/models.py:464-479 | A button with no conditions shows on every task |
| TaskModel.SameLabelRequiredAndHiddenNeverShows | backend/apps/projects/models.py:471-479 | Requiring and hiding the same label hides the button on every task |
| TaskModel.StatusListWithoutNamesHides | backend/apps/projects/models.py:464-465 | A non-empty status list holding no status name hides the button |
| TaskHandlers.ApplyAction | backend/apps/projects/automation.py:335-365 | In this model, which does not run the `post_save` receivers (see Left out), any action writes only the acting task's row and its label links; when it raises, the tables are as before |
| TaskHandlers.ChangeStatusOnlyValid | backend/apps/projects/automation.py:367-374 | A value that is not a status name changes nothing and raises nothing; a valid one sets only the status, in the instance and in its row |
| TaskHandlers.SetPriorityOnlyValid | backend/apps/projects/automation.py:376-383 | A value that is not a priority changes nothing; a valid one sets only the priority |
| TaskHandlers.AddLabelIdempotent | backend/apps/projects/automation.py:409-421 | `add_label` raises exactly when the set `label_id` is not a UUID; it changes only label links, never removes one, and twice equals once |
| TaskHandlers.AddLabelScopedToOrganization | backend/apps/projects/automation.py:409-421 | With a well-formed `label_id`, in any spelling `uuid.UUID` accepts, links exactly that label when it belongs to the task's organization, nothing otherwise |
| TaskHandlers.RemoveLabelDropsOneLink | backend/apps/projects/automation.py:423-429 | `remove_label` raises exactly when the set `label_id` is not a UUID; otherwise it removes just the task's link to that label; unset, it changes nothing |
| TaskHandlers.SetDueDateOffset | backend/apps/projects/automation.py:431-435 | Due date becomes now + `int(days_offset)` days, or `int()`'s error is raised with the table unchanged |
| TaskHandlers.ArchiveChainGuarded | backend/apps/projects/automation.py:481-487 | An archived task is left alone; otherwise archived at now by `triggered_by` |
| TaskHandlers.ArchiveRegisteredUnguarded | backend/apps/projects/automation_refactored.py:313-319 | Always archives at now; `archived_by` changes only when `triggered_by` is set |
| TaskHandlers.MoveToProjectVariantsAgree | backend/apps/projects/automation_refactored.py:281-294 | For every `project_id`, looked up as the project's UUID key: the registry variant also "moves" to the current project, which leaves the same instance and rows as the chain variant |
| TaskHandlers.MoveToUuidProject | backend/apps/projects/automation.py:442-453 | A `project_id` that is a project's UUID text, in the task's organization, moves the stored task there (the chain engine when it is another project) and raises nothing |
| TaskHandlers.AddToCalendarKeepsScheduled | backend/apps/projects/automation.py:469-479 | A task with a `scheduled_start` is never changed |
| TaskHandlers.AddToCalendarDefaults | backend/apps/projects/automation_refactored.py:305-311 | With no config: registry engine schedules at now, chain engine at now + 1 day, both for 60 minutes |
| TaskHandlers.AddToCalendarBadDuration | backend/apps/projects/automation.py:469-479 | A duration `int()` rejects raises after the start was assigned: rows unchanged, instance keeps the start |
| TaskHandlers.CalendarStart | backend/apps/projects/automation.py:471-473 | The chain engine starts at now + `days_offset` days, one day when the key is missing; the registry engine (automation_refactored.py:309) starts at now |
| TaskHandlers.UnknownActionIsNoOp | backend/apps/core/automation_base.py:84-88 | An action type neither engine knows changes nothing and raises nothing |
| TaskEngine.RulesForSelects | backend/apps/projects/automation.py:34-42 | The rule query returns exactly the rules of the org and trigger type, active, with null or equal project, ordered by non-increasing `created_at` |
| TaskEngine.RunRuleAllOrNothing | backend/apps/projects/automation.py:311-333 | A rule either commits all its actions with one SUCCESS log, or leaves the tables as they were with one FAILED log carrying the message |
| TaskEngine.EmptyRuleSucceeds | backend/apps/projects/automation.py:311-333 | A rule without actions logs SUCCESS and changes nothing |
| TaskEngine.RunRulesOneLogPerRule | backend/apps/core/automation_base.py:69-73 | `_execute_rules` yields one log per rule, in rule order, each about the acting task |
| TaskEngine.FilterRules | backend/apps/projects/automation_refactored.py:77-83 | The filter-first form keeps exactly the rules whose filter holds |
| TaskEngine.InlineMatchesFilterFirst | backend/apps/projects/automation.py:64-83 | While no filter raises, the inline loop and the filter-first form run the same rules with the same effects and logs |
| TaskEngine.FilterErrorRaisesInBothForms | backend/apps/projects/automation.py:277-301 | A raising filter makes both forms raise; the filter-first form has run nothing |
| TaskEngine.OverdueZeroDivisorFirst | backend/apps/projects/automation.py:277-301 | A first overdue rule with `trigger_every_n_days = 0` raises before any rule runs |
| TaskEngine.RegisteredAssignedRunsAll | backend/apps/projects/automation_refactored.py:115-120 | The registry engine's assignment trigger runs every selected rule regardless of `user_id` |
| TaskEngine.ChainAssignedSkipsOtherUser | backend/apps/projects/automation.py:188-199 | The chain engine skips a rule whose `user_id` is set and differs from the user |
| TaskEngine.ButtonCheckedResult | backend/apps/projects/automation.py:490-523 | `execute_task_button` is true iff the button exists, is active, is in scope and no action raises; false leaves the tables unchanged |
| TaskEngine.RunButtonUnchecked | backend/apps/projects/automation_refactored.py:327-341 | No scope check; an exception escapes with the tables rolled back, otherwise all actions are committed |
| TaskEngine.TaskStore.ExecuteRule | backend/apps/projects/automation.py:311-333 | Runs the actions in one transaction, restores the tables on an exception, and appends exactly one log outside it (as `RunRule`) |
| TaskEngine.TaskStore.ExecuteRules | backend/apps/core/automation_base.py:69-73 | The loop over rules yields the logs and tables of `RunRules` |
| TaskEngine.TaskStore.Trigger | backend/apps/projects/automation.py:46-301 | A trigger method: the selected rules, filtered inline (chain) or first (registry), run as `RunInline`/`RunFiltered` specify |
| TaskEngine.TaskStore.ExecuteButtonChecked | backend/apps/projects/automation.py:490-523 | The button method's result and tables are those of `RunButtonChecked` |
| TaskEngine.TaskStore.ExecuteButtonUnchecked | backend/apps/projects/automation_refactored.py:327-341 | The registry button's effect is that of `RunButtonUnchecked` |
| BoardEngine.AfterLastIsPastEveryCard | backend/apps/boards/automation.py:225-230 | `(max or 0) + 1` is strictly greater than every counted card's order |
| BoardEngine.BeforeFirstIsAtOrBeforeEveryCard | backend/apps/boards/automation.py:216-221 | `max(0, (min or 1) - 1)` is non-negative and at most every counted card's order |
| BoardEngine.MoveCardPlacesLast | backend/apps/boards/automation.py:194-212 | `move_card` raises exactly when `column_id` is not a UUID, leaving all as it was; it moves only to another column of the card's board, changing only the card's column and order, placed after every card there; otherwise nothing changes |
| BoardEngine.MoveToTopIsFirst | backend/apps/boards/automation.py:214-221 | `move_to_top` gives a non-negative order at or before every other card of the column |
| BoardEngine.MoveToBottomIsLast | backend/apps/boards/automation.py:223-230 | `move_to_bottom` gives an order strictly after every other card of the column |
| BoardEngine.CardAddLabelIdempotent | backend/apps/boards/automation.py:232-244 | Raises exactly when `label_id` is not a UUID; only adds links, each for this card and a label of its board; twice equals once |
| BoardEngine.UnassignClears | backend/apps/boards/automation.py:282-285 | `unassign_user` clears the card's assignee |
| BoardEngine.AddChecklistIsNoOp | backend/apps/boards/automation.py:166-192 | `add_checklist` falls through the chain and changes nothing |
| BoardEngine.MovedFilterIsColumnMatches | backend/apps/boards/automation.py:62-81 | The inline skips of `trigger_card_moved` are exactly `column_matches` |
| BoardEngine.CardRulesForSelects | backend/apps/boards/automation.py:39-47 | The card rule query returns exactly the board's active rules of the trigger type, ordered by non-increasing `created_at` |
| BoardEngine.CardTriggerLogsMatchingRules | backend/apps/boards/automation.py:49-81 | A card trigger logs exactly the rules whose filter holds, one log each, in query order |
| BoardEngine.ConsiderCardRule | backend/apps/boards/automation.py:62-81 | A matching rule runs and leaves exactly one log naming the rule and the card; a non-matching rule changes nothing and logs nothing |
| BoardEngine.CardButtonIgnoresBoard | backend/apps/boards/automation.py:300-322 | `execute_card_button` runs a button of another board on the card (no scope check) |
| BoardEngine.CardMoveRefusals | backend/apps/web/views_backup.py:618-629 | `board_card_move`: refusals and errors change nothing; a column id that is not a UUID raises in the lookup; the view redirects exactly for a well-formed id of a column on the card's board |
| BoardEngine.CardMovePlacement | backend/apps/web/views_backup.py:628-648 | The card's own column changes nothing; another column of its board gets the card with an order past every card there, no other row changes, and `card_moved` from the old column to the new logs exactly the matching rules |
| BoardEngine.BoardStore.ExecuteRule | backend/apps/boards/automation.py:144-164 | The card rule runs in one transaction and appends one log, as `RunCardRule` |
| BoardEngine.BoardStore.Trigger | backend/apps/boards/automation.py:49-81 | The trigger loop yields the logs and tables of `RunCardTrigger` |
| BoardEngine.BoardStore.ExecuteButton | backend/apps/boards/automation.py:300-322 | Result and tables are those of `RunCardButton` |
| BoardEngine.BoardStore.MoveCard | backend/apps/web/views_backup.py:598-648 | The view's reply and tables are those of `CardMove`, and the log table grows by exactly the logs of the `card_moved` trigger on a redirect |
| Recurrence.SuccessorNeedsDoneAndRecurring | backend/apps/projects/models.py:189 | A successor appears only for a DONE task with recurring settings switched on |
| Recurrence.SuccessorGuards | backend/apps/projects/models.py:192-212 | No successor after the end date, at the max count, without a base date, or for an unknown frequency |
| Recurrence.SuccessorDate | backend/apps/projects/models.py:200-210 | The next date is the due date (else the scheduled start) plus interval days or weeks; for MONTHLY it is the calendar date `interval` months on, day clamped to the month, at the same time of day |
| Recurrence.SuccessorShape | backend/apps/projects/models.py:215-237 | The successor copies title, subtitle, description, priority, duration and assignee, is TODO with progress 0, gets dates only where the original had them; settings copy the chain with the chain root |
| Recurrence.AsWrittenMaxOccurrencesNeverReached | backend/apps/projects/models.py:194-197 | As written, a spawn never raises the count the guard reads, so the guard passes again |
| Recurrence.AsWrittenSpawnsPastMaxOfOne | backend/apps/projects/models.py:194-227 | A chain with max 1 spawns twice |
| Recurrence.CorrectedSpawnsStayWithinMax | backend/apps/projects/models.py:194-197 | With the child linked to the root, each spawn adds one to the count and the count stays within the max |
| Recurrence.CorrectedStopsAtMax | backend/apps/projects/models.py:194-197 | With the child linked to the root, no successor appears once the count reaches the max |
| Recurrence.RecurrenceStore.OnTaskSaved | backend/apps/projects/models.py:188-237 | The receiver stores exactly the successor and settings `Successor` describes, or nothing |
| ColumnOrder.ColumnOrderCorrect | backend/apps/web/views/tasks.py:48-52 | The column query returns exactly the column's rows, sorted by (`sort_order`, `-created_at`), without repeated ids |
| ColumnOrder.RenumberSpec | backend/apps/web/views/tasks.py:77-78 | Renumbering gives each listed task its index and leaves every other row alone |
| ColumnOrder.MismatchedMembers | backend/apps/web/views/tasks.py:54-56 | The normalizing loop writes exactly the rows whose order differs from their index |
| ColumnOrder.NormalizeYieldsDenseOrder | backend/apps/web/views/tasks.py:46-56 | After normalizing, the column's tasks have orders 0..n-1 in column order; rows outside the column and all other fields are unchanged |
| ColumnOrder.RemoveFirstSpec | backend/apps/web/views/tasks.py:71-72 | `list.remove` drops the first occurrence only |
| ColumnOrder.PlaceAtSpec | backend/apps/web/views/tasks.py:71-75 | The task lands at the clamped position; the others keep their relative order; no repetitions |
| ColumnOrder.InsertPlacesTask | backend/apps/web/views/tasks.py:59-78 | After insertion the task has the clamped index, the others their index in the new order, and no row outside the order changes |
| ColumnOrder.MoveEventsSpec | backend/apps/web/views_backup.py:2103-2110 | status_changed fires iff the status changed; task_completed iff it changed into DONE |
| ColumnOrder.CreateDueDateRange | backend/apps/web/views/tasks.py:259-277 | With a valid title, project and assignee: an unparsable due date is refused, a parsed one is refused iff it lies outside the project's period, an accepted task keeps it, and a blank assignee means the creator |
| ColumnOrder.CreateIdeaCardCheck | backend/apps/web/views/tasks.py:279-287 | A blank idea card gives a task without one; a malformed id raises; a well-formed id is accepted iff the card is on a board of the organization, and the task then links it; otherwise "not found" |
| ColumnOrder.CreatedTaskLeadsTodo | backend/apps/web/views/tasks.py:289-305 | A created task is in the organization's TODO column and, newer than every task there, keeps order 0 after normalization while every other TODO task comes after it |
| ColumnOrder.NormalizedIsDense | backend/apps/web/views/tasks.py:46-56 | Normalizing changes only orders, keeps ids unique, and leaves the column's n tasks with distinct orders below n |
| ColumnOrder.ConsecutiveOrders | backend/apps/web/views/tasks.py:48-56 | A column sorted by order whose n orders are distinct and below n has orders exactly 0..n-1 |
| ColumnOrder.MovedRowsDense | backend/apps/web/views_backup.py:2082-2110 | After a move, the destination column is dense, and so is the source column when the status changed |
| ColumnOrder.MovedRowsPlacesTask | backend/apps/web/views_backup.py:2082-2110 | After a move the task sits at the requested position clamped to the destination column |
| ColumnOrder.ColumnStore.NormalizeColumnOrder | backend/apps/web/views/tasks.py:46-56 | The rows become the dense renumbering of the column and the written ids are exactly the mismatched ones |
| ColumnOrder.ColumnStore.InsertTaskAtPosition | backend/apps/web/views/tasks.py:59-78 | The rows become the renumbering along the placed id list |
| ColumnOrder.ColumnStore.WriteOrder | backend/apps/web/views/tasks.py:77-78 | The loop's rows equal `Renumber` along the order |
| ColumnOrder.ColumnStore.MoveTask | backend/apps/web/views_backup.py:2082-2110 | An unknown status changes nothing; otherwise the rows become `MovedRows` (status, placement, normalization of the new column and, if the status changed, of the old one), both columns are dense, and the events to fire are returned |
| ColumnOrder.ColumnStore.CreateTask | backend/apps/web/views/tasks.py:231-310 | The outcome is `CheckCreate`'s, which looks the project up by its UUID key and the assignee by the integer user key; a refusal or raised lookup stores nothing; otherwise the TODO task is appended and the TODO column normalized, a link row is stored iff a link URL was given, and `task_created` is the trigger to fire |
| TimeTracking.Pad2 | backend/apps/web/views/utils.py:84 | `{m:02d}` is two digits |
| TimeTracking.HumanizeRoundTrip | backend/apps/web/views/utils.py:79-85 | For non-negative seconds the text reads back as `s // 60` whole minutes, in the `{h}h {mm}m` or `{m}m` form by whether an hour is reached |
| TimeTracking.HumanizeNothing | backend/apps/web/views/utils.py:79 | `None` and 0 both give "0m" |
| TimeTracking.HumanizeNegativeFloors | backend/apps/web/views/utils.py:80-82 | Floor division: -30 seconds gives "59m" |
| TimeTracking.ScheduleRoundsUpToMinutes | backend/apps/web/views_backup.py:1966-1969 | With an end: `max(1, ceil(seconds / 60))` minutes |
| TimeTracking.ScheduleFallbacks | backend/apps/web/views_backup.py:1970-1977 | Without an end: the posted integer, else a truthy stored duration, else 60 |
| TimeTracking.ScheduleSetsDueToStart | backend/apps/web/views_backup.py:1979-1983 | The due date equals the scheduled start; only the three columns change |
| TimeTracking.ElapsedIsWholeSeconds | backend/apps/web/views_backup.py:2287-2288 | The elapsed time is the truncated whole seconds, never negative |
| TimeTracking.LatestOpenIsLatest | backend/apps/web/views_backup.py:2272-2278 | The entry the timer picks is open, of this user and task, and started no earlier than any other such entry |
| TimeTracking.SumTrackedUpdate | backend/apps/web/views_backup.py:2289-2296 | Replacing an entry changes a task's tracked sum by the difference of the two entries |
| TimeTracking.ToggleClosesEveryEntry | backend/apps/web/views_backup.py:2191-2206 | After the done-toggle no entry of the task is open; other tasks' entries are untouched |
| TimeTracking.TimeStore.Timer | backend/apps/web/views_backup.py:2280-2297 | Without an open entry: TODO → IN_PROGRESS and a new entry; otherwise the latest open entry stops and its elapsed seconds go to it and to the task; `tracked_seconds` stays the sum of the entries |
| TimeTracking.TimeStore.Toggle | backend/apps/web/views_backup.py:2175-2206 | DONE ↔ TODO; on DONE every open entry is closed and the sum of elapsed seconds is added to the task; a tracked total that was the sum of the task's entries stays so |
| TimeTracking.TimeStore.CloseOpenEntries | backend/apps/web/views_backup.py:2193-2204 | The loop's entries and total are `CloseAllOpen` and `TotalOpenElapsed` |
| ViewUtils.CanEditTaskIff | backend/apps/web/views/utils.py:29-50 | True iff there is an active org and a membership, and the role is OWNER/ADMIN, or the user created the idea card, or is the assignee |
| ViewUtils.MemberNeedsAssignmentOrAuthorship | backend/apps/web/views/utils.py:43-50 | A plain member who is neither assignee nor card author cannot edit |
| ViewUtils.TaskEventStyleThreeWay | backend/apps/web/views/utils.py:98-114 | IN_PROGRESS and DONE get their own styles; every other status gets the default |
| ViewUtils.StyleTablesDistinguishStatuses | backend/apps/web/views/utils.py:98-114 | In both style tables the three styles differ |
| ViewUtils.Lower | backend/apps/web/views/utils.py:130 | `lower()` keeps length and maps each ASCII capital to its small letter |
| ViewUtils.ProjectColorFromPalette | backend/apps/web/views/utils.py:117-131 | The colour is always a palette entry: the normalized key's when known, indigo otherwise |
| ViewUtils.ProjectColorNormalizes | backend/apps/web/views/utils.py:130-131 | " Sky " and "SKY" give sky blue; no colour gives indigo |
| ViewUtils.OrgMemberUserIff | backend/apps/web/views/utils.py:216-226 | Raises iff the stripped id is non-blank and not an integer; a user is returned iff the id parses and its canonical key is a member of the org and an active user; the returned key parses to the same integer |
| Onboarding.Clean | backend/apps/web/views/onboarding.py:24 | Dropping `[^\w\s-]` leaves only word characters and separators |
| Onboarding.Collapse | backend/apps/web/views/onboarding.py:24 | Runs of `[-\s]` become a single `-` |
| Onboarding.Slugify | backend/apps/web/views/onboarding.py:24 | `slugify` yields a slug: lower-case word characters and single inner hyphens, no leading or trailing `-`/`_` |
| Onboarding.BaseSlug | backend/apps/web/views/onboarding.py:24 | `slugify(name) or "workspace"` is a non-empty slug, the slug itself when non-empty |
| Onboarding.PunctuationFallsBack | backend/apps/web/views/onboarding.py:24 | A name of punctuation only falls back to "workspace" |
| Onboarding.BlankBecomesHyphen | backend/apps/web/views/onboarding.py:24 | "A b" is lower-cased and its blank becomes a hyphen: "a-b" |
| Onboarding.TrimmedIsSlug | backend/apps/web/views/onboarding.py:24 | Cleaned, collapsed text with `-` and `_` stripped from both ends is a slug: slug characters, no `--`, no leading or trailing hyphen |
| Onboarding.NotTriedYet | backend/apps/web/views/onboarding.py:26-29 | The candidate of attempt `idx` differs from every candidate tried before it, so the loop never repeats a slug |
| Onboarding.CandidateInjective | backend/apps/web/views/onboarding.py:26-29 | Different attempts try different slugs |
| Onboarding.UniqueSlug | backend/apps/web/views/onboarding.py:24-29 | The slug is the first candidate base, base-2, base-3, … not taken |
| Onboarding.FreeBaseIsKept | backend/apps/web/views/onboarding.py:24-29 | A free base slug is used unchanged; otherwise a numbered one is |
| Onboarding.AddKeepsSlugsUnique | backend/apps/web/views/onboarding.py:27-31 | Creating an org under a new id with the chosen slug keeps slugs unique |
| Onboarding.Workspaces.CreateWorkspace | backend/apps/web/views/onboarding.py:54-74 | A blank name creates nothing; otherwise the org with the first free slug, an OWNER membership, and the session's active org |
| Onboarding.Workspaces.AddOrganization | backend/apps/web/views/onboarding.py:70-74 | Inserts the organization under a fresh id with a slug no other organization has, adds the new OWNER membership (which did not exist before), sets the active org, and keeps slugs unique and every membership pointing at an existing org |
| Onboarding.Workspaces.OnboardingPost | backend/apps/web/views/onboarding.py:15-35 | A user who already has an active org is redirected and nothing changes; otherwise exactly as workspace creation: a blank name changes nothing, any other name adds one org with that name and the first free slug, the OWNER membership and the session's active org |
| Onboarding.Workspaces.SwitchOrg | backend/apps/web/views/onboarding.py:80-88 | The session switches iff the org exists and the user is a member of it |
| Onboarding.CreateThenSwitch | backend/apps/web/views/onboarding.py:31-35 | From any workspace table, the creator of a new workspace can switch to it afterwards, and it is then the active org |
| Decimals.Mul | backend/apps/invoices/models.py:111 | Decimal multiplication is exact: the scales add up |
| Decimals.RoundHalfEven | backend/apps/invoices/models.py:111 | The quotient rounded to within half a unit, even on a tie |
| Decimals.RoundHalfEvenUnique | backend/apps/invoices/models.py:111 | Those two properties determine the rounding |
| Decimals.Cents | backend/apps/invoices/models.py:111 | `quantize(Decimal('0.01'))` is within half a cent, even on a tie |
| Decimals.CentsExact | backend/apps/invoices/models.py:111 | A value with at most two decimals is kept exactly |
| Decimals.CentsHalfEvenExamples | backend/apps/invoices/models.py:111 | 0.125 → 0.12, 0.135 → 0.14, -0.125 → -0.12 |
| Decimals.ParseDecimalOfInt | backend/apps/web/views/invoices.py:189-190 | `Decimal(str(n))` is `n` with no decimals |
| Decimals.ParseDecimalOfCents | backend/apps/web/views/invoices.py:189-190 | `Decimal("w.cc")` is `w*100 + cc` cents |
| InvoiceNumbers.ZeroPad | backend/apps/invoices/models.py:79 | `{n:03d}`: at least three characters, zero-padded, the digits of `n` |
| InvoiceNumbers.InvoiceNumberRoundTrip | backend/apps/invoices/models.py:70-79 | `int(number.split('-')[0])` of a generated number is its counter |
| InvoiceNumbers.LexMax | backend/apps/invoices/models.py:59-62 | `order_by('-invoice_number').first()` is a greatest element in string order |
| InvoiceNumbers.LexLessTotal | backend/apps/invoices/models.py:62 | String order is total on distinct strings |
| InvoiceNumbers.SameDay | backend/apps/invoices/models.py:59-62 | The filter keeps exactly the org's numbers ending with today's suffix |
| InvoiceNumbers.AsWrittenRepeatsAfter999 | backend/apps/invoices/models.py:59-79 | As written, with 999 and 1000 already issued today the next number is "1000-…" again |
| InvoiceNumbers.GenerateIsFresh | backend/apps/invoices/models.py:53-79 | The corrected generator's number ends with today's suffix and is not among the org's numbers |
| InvoiceNumbers.FirstOfTheDay | backend/apps/invoices/models.py:64-77 | With no number today the counter is 1 |
| InvoiceForm.KeyIndexExample | backend/apps/web/views/invoices.py:144 | `int(key.split("_")[-1])` reads "item_quantity_12" as 12 and rejects "item_quantity_x" |
| InvoiceForm.Put | backend/apps/web/views/invoices.py:145-147 | After padding, index `i` (negative: from the end) holds the value and the rest is kept; an index out of range is an `IndexError` |
| InvoiceForm.StoreAt | backend/apps/web/views/invoices.py:145-147 | The padding loop and indexed assignment compute `Put` |
| InvoiceForm.ParseItemFields | backend/apps/web/views/invoices.py:141-165 | The parsing loop computes `ParseFields` over the posted pairs in order |
| InvoiceForm.StepStoresAtIndex | backend/apps/web/views/invoices.py:142-149 | An `item_description_N` field with a valid index lands at N; the other lists are unchanged |
| InvoiceForm.OtherKeysIgnored | backend/apps/web/views/invoices.py:141-165 | A key without an item prefix changes nothing |
| InvoiceForm.PadAll | backend/apps/web/views/invoices.py:174-177 | The three lists get the length of the longest, their prefixes kept and blanks appended |
| InvoiceForm.PaddedRowsAreAll | backend/apps/web/views/invoices.py:174-183 | After padding, `zip` visits every index of every list |
| InvoiceForm.RowAt | backend/apps/web/views/invoices.py:183-201 | A row is skipped iff its stripped description is blank; a kept row has position index + 1, the stripped description and the rounded product as total |
| InvoiceForm.BlankQuantityAndPrice | backend/apps/web/views/invoices.py:187-190 | Blank quantity means 1, blank price 0 |
| InvoiceForm.KeptRowsListed | backend/apps/web/views/invoices.py:183-201 | Every kept row's line appears among the lines |
| InvoiceForm.KeptLinesFromRows | backend/apps/web/views/invoices.py:183-201 | Every line has a position in 1..n and is the outcome of the row at that position |
| InvoiceForm.KeptLinesIncrease | backend/apps/web/views/invoices.py:183-201 | Line positions strictly increase, so lines keep the form's row order and no row is listed twice |
| InvoiceForm.AsWrittenFailsExactlyOnInvalidRows | backend/apps/web/views/invoices.py:186-221 | As written, the view fails iff some described row has an unparsable amount; otherwise it yields the same lines |
| InvoiceForm.NonNumericQuantity | backend/apps/web/views/invoices.py:186-221 | Quantity "abc": the request fails as written; the corrected parser skips the row |
| InvoiceForm.ComputeLines | backend/apps/web/views/invoices.py:180-201 | The row loop yields the kept lines and their sum as subtotal |
| InvoiceForm.TotalsOf | backend/apps/invoices/models.py:87-89 | VAT is `subtotal × rate / 100` to within half a cent, even on a tie; total = subtotal + VAT |
| InvoiceForm.ZeroRateNoVat | backend/apps/invoices/models.py:88-89 | A rate of 0 adds no VAT |
| InvoiceForm.NineteenPercentExamples | backend/apps/invoices/models.py:88-89 | 19 % of 10.00 is 1.90; 19 % of 0.05 rounds to 0.01 |
| Invoices.ItemOf | backend/apps/invoices/models.py:110-111 | A saved item's total is the rounded product of quantity and unit price |
| Invoices.ItemsTotalAppend | backend/apps/invoices/models.py:84-87 | The per-invoice sum over two item lists is the sum of their sums |
| Invoices.ItemsTotalNone | backend/apps/invoices/models.py:87 | An invoice with no items sums to 0 |
| Invoices.ItemsOfTotal | backend/apps/invoices/models.py:84-87 | The items saved for the lines add up to the lines' subtotal |
| Invoices.CreatedItemsTotal | backend/apps/web/views/invoices.py:205-226 | A new invoice's items sum to the subtotal of the form's lines |
| Invoices.FormLinesRounded | backend/apps/web/views/invoices.py:191-192 | Every line of the form carries the rounded product as its total |
| Invoices.FormTotals | backend/apps/web/views/invoices.py:228-233 | The form's subtotal is the sum of the line totals and total = subtotal + VAT |
| Invoices.OrgNumbers | backend/apps/invoices/models.py:59-61 | Exactly the numbers of the organization's invoices |
| Invoices.SaveKeepsGivenNumber | backend/apps/invoices/models.py:46-49 | A given number is kept; an empty one is replaced by a fresh number with today's suffix |
| Invoices.InvoiceStore.Save | backend/apps/invoices/models.py:46-49 | Numbers only an empty invoice number; a number already in the table is an integrity error and stores nothing; otherwise the invoice is appended |
| Invoices.InvoiceStore.AddItem | backend/apps/invoices/models.py:110-111 | Appends the item with its rounded total |
| Invoices.InvoiceStore.UpdateTotals | backend/apps/invoices/models.py:81-90 | The invoice's subtotal, VAT and total become `TotalsOf` of its items' sum; nothing else changes |
| Invoices.InvoiceStore.SaveLines | backend/apps/web/views/invoices.py:205-218 | One item per line, in order |
| Invoices.InvoiceStore.CreateInvoice | backend/apps/web/views/invoices.py:133-226 | Succeeds exactly when the generated number is not in the table yet, else fails with the unique-constraint error and changes nothing; on success saves the invoice with that number, one item per kept line, and totals equal to the form's totals |
| Invoices.InvoiceStore.Preview | backend/apps/web/views/invoices.py:129-233 | Stores nothing; returns the number the invoice would get, the form's lines and the form's totals |
| Invoices.PreviewMatchesCreation | backend/apps/web/views/invoices.py:224-233 | In any store, a preview and a creation from the same form show the same number, subtotal, VAT and total, and the creation succeeds exactly when the previewed number is not taken |

## Left out

- HTTP and UI glue is not modelled: request parsing beyond the fields named above, redirects, 400/403/404 responses, templates, messages, HTMX headers, forms, serializers, admin, URL configuration, settings, migrations, middleware, tenancy helpers.
- The request's active organization is an input: it is `None` exactly when the user has no membership.
- The clock is an integer parameter (`now`, `today`).
- `timedelta.total_seconds()` floats are modelled as integer microseconds truncated to whole seconds.
- Float conversions are not modelled: the rgba alpha strings, and `float(total)` in the preview's item list.
- Date and datetime parsing of form input (`parse_date`, `parse_datetime`) is not modelled: parsed values are parameters.
- `Calendar.AddMonths`: instants are UTC microseconds. For an aware datetime in a zone with daylight saving, `relativedelta` keeps the local wall-clock time and the UTC offset may change across the step; that shift is not modelled.
- `Calendar.AddMonthsToDate`: dates are unbounded integers. `datetime` only spans the years 1 to 9999, so `relativedelta` raises `OverflowError` (or `ValueError`) for a result outside them; the model returns the date past year 9999.
- `Recurrence.SuccessorDate`: for the same reason, a next date outside the years 1 to 9999 is returned here, where the receiver at backend/apps/projects/models.py:200-210 raises out of the save.
- `TaskHandlers.SetDueDateOffset`: `timedelta(days=n)` raises `OverflowError` for `|n| > 999999999`, and `now + timedelta(...)` raises outside the years 1 to 9999. Neither range is modelled: every integer offset sets the due date and logs SUCCESS. The same holds for the board engine's `set_due_date`.
- `TaskHandlers.CalendarStart`: the chain engine's `now + timedelta(days=…)` has the same range limits, which are not modelled.
- `TimeTracking.ScheduleFallbacks`: the upper width of the `PositiveIntegerField` (2147483647 on PostgreSQL, none on SQLite) is database-dependent and not modelled; only the lower bound, a negative duration, is refused.
- `Onboarding.Workspaces.CreateWorkspace` (and `OnboardingPost`): the 255-character width of `Organization.name` and `slug` (backend/apps/tenants/models.py:10-11) is not checked; a longer name, or a `base-N` slug grown past 255 characters, is refused by PostgreSQL (SQLite does not enforce the width) but not by the model.
- `slugify`'s Unicode NFKD step is reduced to ASCII: characters outside ASCII are dropped.
- Decimal parsing covers only the plain notation: an optional sign, digits, and one optional point. Exponents, `NaN`, `Infinity`, underscores and the 28-digit context precision are not modelled.
- `DecimalField(max_digits, decimal_places)` limits are not enforced. This includes the `except Exception: continue` around `InvoiceItem.objects.create`, which only such database errors would reach.
- Invoice fields other than the organization, number, VAT rate and totals are not modelled: recipient, dates, company, PDF template.
- The VAT rate is a parameter; the form path leaves it at the model default 0.00.
- `Invoices.InvoiceStore.Save`: the table-wide uniqueness of `invoice_number` is as declared on the field. A number the generator draws for one organization but that another organization already holds is reported as an integrity error. Per-company uniqueness constraints of later schema versions are not part of this model.
- Sending notifications and posting comments only write to the log, so those actions are no-ops here.
- Logging, e-mail, PDF generation and file uploads are not modelled.
- Concurrency and lost updates between simultaneous requests are not modelled.
- Calendar views and the project event styles are not modelled, beyond `task_event_style` and `_project_color_rgb`.
- `TaskHandlers.SaveEffect`: in the source every `Task.save()` runs the `post_save` receiver `create_recurring_task` (backend/apps/projects/models.py:187-237), which may create a successor task and its settings. Here a save writes only the saved row; the receiver is modelled on its own by `Recurrence.RecurrenceStore.OnTaskSaved` and is not composed after the saves of the operations below.
- `TaskHandlers.ApplyAction`: an action that saves the task to DONE (`change_status`) does not run the recurrence receiver afterwards, so the successor it would create is missing from the resulting tables.
- `TaskHandlers.ChangeStatusOnlyValid`: states the row after the status save only, without the recurrence receiver's successor.
- `ColumnOrder.ColumnStore.MoveTask`: the status save inside the transaction does not run the recurrence receiver; the status_changed and task_completed triggers are returned as events for `TaskEngine` rather than run.
- `TimeTracking.TimeStore.Toggle`: the status save does not run the recurrence receiver, and the status_changed/task_completed triggers and the two column normalizations of the view are not run here (they are modelled in `TaskEngine` and `ColumnOrder`).
- `PyValues.PyInt`: `int()` also accepts non-ASCII decimal digits (for example Arabic-Indic or full-width digits); `ParseInt` accepts ASCII digits only, so such text is modelled as a `ValueError`.
- `LookupKeys.UuidKey`: `uuid.UUID(hex=…)` parses with `int(…, 16)`, which also accepts non-ASCII decimal digits; the model accepts ASCII hexadecimal digits only.
- `PyValues.PyStr`: JSON configuration values are null, booleans, integers and strings. Floats, lists and objects are not modelled, so their `str()`, truthiness and `int()` are not either.
- `ViewUtils.Lower`: `str.lower()` is modelled for ASCII capitals only; other letters are kept as they are.
- `Recurrence.RecurrenceStore.OnTaskSaved` follows the corrected generator (see Findings). The as-written behaviour is stated by the two `AsWritten…` lemmas.
- `InvoiceNumbers.Generate` (used by the invoice store) takes the numeric maximum of the same-day counters rather than the string maximum (see Findings).
- `Invoices.InvoiceStore.CreateInvoice` skips a row whose amount `Decimal` rejects, rather than failing the request (see Findings).
- The item loop of `Invoices.InvoiceStore.CreateInvoice` runs after all lines are computed, not interleaved with them. The order of the items and the totals are the same.

## Findings

| source | as written | input that shows it | evidently intended | confidence | as-written member | corrected member |
|---|---|---|---|---|---|---|
| backend/apps/projects/models.py:194-197 | the max-occurrence guard counts tasks whose `recurrence_parent` is the chain root, but the generator never sets that field on the task it creates | a DAILY chain with `recurrence_max_occurrences = 1` and no children: completing the task twice spawns two successors | spawns are counted, so a chain stops after the maximum | high, not executed | Recurrence.AsWrittenSpawnsPastMaxOfOne | Recurrence.CorrectedStopsAtMax |
| backend/apps/invoices/models.py:59-77 | the next counter is 1 + the counter of the greatest same-day number in string order | same-day numbers "999-01-01-2026" and "1000-01-01-2026": "999-…" is greatest as a string, so "1000-01-01-2026" is generated again | the next counter exceeds every same-day counter, so the number is fresh | high, not executed | InvoiceNumbers.AsWrittenRepeatsAfter999 | InvoiceNumbers.GenerateIsFresh |
| backend/apps/web/views/invoices.py:186-221 | a row's amounts go through `Decimal(...)` inside `except (ValueError, TypeError)`, but `Decimal("abc")` raises `decimal.InvalidOperation`, which is neither | description "Work", quantity "abc", price "10": the request fails after the invoice was already saved | an unparsable row is skipped like the other row errors | medium, not executed | InvoiceForm.NonNumericQuantity | InvoiceForm.ComputeLines |
