# Real-estate CRM boards in Dafny

This project models the two kanban boards of a small real-estate CRM web app
and proves properties of them:

- **The lead pipeline.** Leads move through six stages: new, contacted,
  qualified, proposal, won and lost. The Leads page (`src/pages/Leads.jsx`)
  and the home page's board (`src/components/MainFeature.jsx`) share the same
  engine:
  - a case-insensitive search on first name, last name and e-mail, plus a
    status filter;
  - one column per stage;
  - adding a lead from a validated form, whose budget is read with
    `parseInt(budget) || 0`;
  - re-staging by drag and drop or from the detail view, which stamps
    `lastContact`.

  The Leads page also deletes leads and colours each stage's badge. It
  defines `updateLead` and the detail view's `handleSaveEdit`, and both are
  modelled, but no control on the page calls `handleSaveEdit`: the detail
  view's edit button only toggles `isEditing`. They are dead code.
- **The task board.** The Tasks page (`src/pages/Tasks.jsx`) has four columns
  (todo, in-progress, review, done) and filters by search, status and
  priority. Every update applies the `completedAt` rule:
  - a task moved into "done" is stamped with the clock;
  - a task already done keeps its stamp when told "done" again;
  - every other update clears the stamp, including an edit that carries no
    status.

  So "a completion time only on a done task" holds after every handler,
  while "a completion time exactly when done" is lost by editing a done task.

  Tasks are added from a form that refuses a blank title, and deleted after a
  confirmation.

The model is mixed, like the source:

- Modules `Text`, `JsNumber`, `Board`, `LeadPipeline` and `TaskModel` hold
  the pure logic:
  - JavaScript's `toLowerCase`/`includes`/`trim`/`parseInt`;
  - `Array.prototype.filter`/`map` as a board of columns;
  - the record-building and list-updating expressions of each handler.
- Three classes hold each page's React state as fields:
  - `LeadsPage.Leads`
  - `HomePipeline.MainFeature`
  - `TasksPage.Tasks`

  Each handler becomes a method that reassigns those fields the way the
  page's state setters do.

Effects outside the program become inputs or fields:

- The clock (`new Date()`, `Date.now()`) is a parameter `now` in
  milliseconds. The new record's id (`Date.now().toString()`) is a parameter
  `newId`.
- The user's answer to `window.confirm` is a parameter `confirmed`.
- The task id read from the drag data is a parameter of `Drop`.
- Toasts are appended to a `notices` field.
- The search term and the filters are parameters of the filter functions.

Statuses, priorities and colours are strings, as in the source, so unknown
values take the source's fallbacks.

## Model

| member | source | states |
|---|---|---|
| Text.Lower | src/pages/Leads.jsx:136-138 | `toLowerCase` keeps the length and lower-cases each character (ASCII letters only) |
| Text.LowerIdempotent | src/pages/Tasks.jsx:89-91 | lower-casing twice is lower-casing once, so lower-casing the term and the field agree |
| Text.IncludesIff | src/pages/Leads.jsx:136-138 | `includes` holds exactly when the needle occurs at some offset of the haystack |
| Text.Includes | src/pages/Leads.jsx:136-138 | a string is found only in a string at least as long |
| Text.Matches | src/pages/Leads.jsx:136-138 | the case-insensitive test holds exactly when the lower-cased term occurs at some offset of the lower-cased field |
| Text.MatchesIgnoresCase | src/pages/Tasks.jsx:89-91 | a search gives the same answer whether or not the term or the field was lower-cased first |
| Text.IncludesEmpty | src/pages/Leads.jsx:136-138 | every string includes the empty string, so an empty search matches everything |
| Text.TrimStart | src/pages/Tasks.jsx:358 | drops exactly the leading JavaScript white space: the dropped part is all spaces, the rest starts with a non-space |
| Text.TrimEnd | src/pages/Tasks.jsx:358 | drops exactly the trailing JavaScript white space |
| Text.Trim | src/pages/Tasks.jsx:358 | `trim` leaves a prefix of `trimStart`'s result (itself a suffix of the input) that neither starts nor ends with white space and is followed only by white space |
| Text.BlankIff | src/pages/Tasks.jsx:358 | `s.trim()` is empty exactly when every character of s is white space |
| JsNumber.DigitRun | src/pages/Leads.jsx:505 | `parseInt` reads the longest run of digits: the run is all digits and stops at a non-digit or the end |
| JsNumber.Magnitude | src/pages/Leads.jsx:505 | the unsigned reading of a numeral, with the `0x` prefix switching to base 16, is never negative |
| JsNumber.Decimal | src/pages/Leads.jsx:505 | a decimal numeral is non-empty, all digits, with no leading zero |
| JsNumber.DecimalValue | src/pages/Leads.jsx:505 | reading back a decimal numeral gives its number |
| JsNumber.DigitRunStopsAt | src/pages/Leads.jsx:505 | a digit run followed by a non-digit is read to its end and no further |
| JsNumber.ParseInt | src/pages/Leads.jsx:505 | `parseInt(s)`, stated in `JsNumber.ParseIntSign` and `JsNumber.ParseIntOfDecimal`: blank text is NaN, a decimal numeral reads as its signed value |
| JsNumber.ParseIntOrZero | src/pages/Leads.jsx:505 | `parseInt(s) \|\| 0`, stated in `JsNumber.ParseIntSign`: NaN becomes 0 and any other reading is kept |
| JsNumber.ParseIntOfDecimal | src/pages/Leads.jsx:505 | `parseInt` of an optionally signed decimal numeral followed by a non-numeral tail (".50", "e5") returns the signed number |
| JsNumber.PlainNumeral | src/pages/Leads.jsx:505 | an unsigned decimal numeral with a non-numeral tail reads as its number |
| JsNumber.NegativeNumeral | src/pages/Leads.jsx:505 | a minus sign, a decimal numeral and a non-numeral tail read as the negated number |
| JsNumber.ParseIntSign | src/pages/Leads.jsx:505 | blank text reads as NaN; a negative reading needs a minus sign first after the leading blanks; `\|\| 0` turns only NaN and zero into 0, so a negative budget must be typed with a minus |
| JsNumber.Unsigned | src/pages/Leads.jsx:505 | `parseInt` strips at most one leading sign |
| JsNumber.PlainDigits | src/pages/Leads.jsx:505 | with no sign and no leading blank, `parseInt` is the unsigned reading |
| JsNumber.NegatedDigits | src/pages/Leads.jsx:505 | a minus sign right before the digits negates the reading |
| JsNumber.MagnitudeWithoutDigit | src/pages/Leads.jsx:505 | text that does not start with a digit reads as NaN |
| JsNumber.MagnitudeOfDecimal | src/pages/Leads.jsx:505 | the unsigned reading of a decimal numeral with a non-digit tail is its number |
| JsNumber.BudgetOfNumeral | src/pages/Leads.jsx:505 | `parseInt(budget) \|\| 0` of a plain decimal entry is that number |
| JsNumber.BudgetWithoutDigits | src/pages/Leads.jsx:505 | an entry with no digit, in particular the empty field, gives budget 0 |
| JsNumber.NegativeBudget | src/pages/Leads.jsx:505 | a budget typed as "-" and a positive numeral becomes that negative number |
| Board.Select | src/pages/Leads.jsx:135-141 | `filter` returns only elements of the list that pass, and every element that passes |
| Board.SelectIsSubsequence | src/pages/Leads.jsx:135-141 | `filter` keeps the list's order |
| Board.SelectCounts | src/pages/Leads.jsx:181 | `filter` keeps every copy of a passing element and none of a failing one |
| Board.SelectAll | src/pages/Leads.jsx:135-141 | a filter every element passes returns the list unchanged |
| Board.SelectSame | src/pages/Leads.jsx:135-141 | filters that agree on every element give the same list |
| Board.SelectSplit | src/pages/Leads.jsx:143-145 | filtering by a disjoint "or" is the sum of the two filters, as multisets |
| Board.Column | src/pages/Leads.jsx:143-145 | a column holds exactly the filtered records with that status |
| Board.ColumnsPartition | src/pages/Leads.jsx:339-362 | with distinct stages the columns together hold each staged record exactly as often as the list does |
| Board.ColumnSizesAddUp | src/pages/Leads.jsx:339-362 | the column sizes add up to the number of staged records |
| Board.ExactlyOneColumn | src/pages/Leads.jsx:339-362 | a staged record shows in exactly one column |
| Board.Remove | src/pages/Leads.jsx:179-185 | a delete leaves no record with the id and keeps every record without it |
| Board.RemoveKeepsOthers | src/pages/Tasks.jsx:131-138 | a delete keeps every other record as often as before, in order |
| Board.RemoveUnknownId | src/pages/Leads.jsx:179-185 | deleting an id no record carries leaves the list unchanged |
| Board.UpdateWhere | src/pages/Leads.jsx:162-166 | `map` with an id test keeps the length, rewrites every hit and keeps every other record |
| Board.UpdateWithoutHit | src/pages/Leads.jsx:162-166 | with no hit the list is returned unchanged |
| Board.UpdateTwice | src/pages/Leads.jsx:162-166 | two rewrites of the same records compose into one |
| LeadPipeline.StagesDistinct | src/pages/Leads.jsx:16-23 | the six stage ids are pairwise different |
| LeadPipeline.FilteredLeads | src/pages/Leads.jsx:135-141 | a lead is shown exactly when its first name, last name or e-mail contains the term (ignoring case) and the filter is "all" or its status |
| LeadPipeline.FilteredKeepsOrder | src/pages/Leads.jsx:135-141 | the filtered leads keep the list's order |
| LeadPipeline.EmptySearchShowsAll | src/components/MainFeature.jsx:94-100 | an empty search with the filter on "all" shows every lead, in order |
| LeadPipeline.LeadsByStatus | src/pages/Leads.jsx:143-145 | a stage's column holds exactly the filtered leads in that stage |
| LeadPipeline.PipelinePartition | src/components/MainFeature.jsx:221-243 | the six columns partition the filtered leads that sit in a stage, and their counts add up |
| LeadPipeline.LeadInOneColumn | src/pages/Leads.jsx:339-362 | a filtered, staged lead appears in exactly one column |
| LeadPipeline.NewLead | src/pages/Leads.jsx:147-159 | a new lead starts in "new" with "Agent Demo", the given id, both stamps at the clock, and every field of the draft (names, e-mail, phone, source, preferences, budget, notes) |
| LeadPipeline.SubmitLeadForm | src/pages/Leads.jsx:497-507 | the form is refused, with "Please fill in required fields", exactly when the first name, last name or e-mail is empty; otherwise it submits the fields with budget `parseInt(budget) \|\| 0` |
| LeadPipeline.SubmittedLeadScenario | src/components/MainFeature.jsx:371-381 | a complete form with a numeric budget yields a "new" lead with that budget |
| LeadPipeline.BlankNamesAccepted | src/pages/Leads.jsx:497-507 | first and last names made only of white space are accepted next to a well-formed e-mail address and kept as typed, because the form does not trim |
| LeadPipeline.IntendedBudget | src/pages/Leads.jsx:505 | a budget is a non-negative amount: the code's reading when that is not negative, and 0 otherwise |
| LeadPipeline.SubmitLeadFormIntended | src/pages/Leads.jsx:497-507 | the submission with a non-negative budget refuses exactly the forms the code refuses and otherwise submits the same draft with a budget that is never negative |
| LeadPipeline.IntendedBudgetAgrees | src/pages/Leads.jsx:505 | the non-negative budget equals the code's on every entry with no leading minus, and "-n" gives -n in the code but 0 in the non-negative reading |
| LeadPipeline.WithStatus | src/pages/Leads.jsx:161-168 | every lead with the id takes the new status and `lastContact` = clock; the others, the length and the order are unchanged |
| LeadPipeline.Ids | src/pages/Leads.jsx:161-168 | the id list has one entry per lead, in order |
| LeadPipeline.WithStatusKeepsIds | src/components/MainFeature.jsx:120-127 | a status change neither adds, removes nor reorders leads |
| LeadPipeline.WithStatusUnknownId | src/pages/Leads.jsx:161-168 | an unknown id leaves the list unchanged |
| LeadPipeline.WithStatusMovesCard | src/pages/Leads.jsx:197-203 | after a drop every lead with the id is in the target column and in no other |
| LeadPipeline.WithStatusIdempotent | src/pages/Leads.jsx:161-168 | setting the same status twice equals setting it once at the later time |
| LeadPipeline.WithStatusKeepsContactOrder | src/pages/Leads.jsx:161-168 | a status change with a clock that has not gone back keeps `lastContact >= createdAt` |
| LeadPipeline.AddKeepsContactOrder | src/pages/Leads.jsx:147-159 | adding a lead keeps `lastContact >= createdAt` |
| LeadPipeline.Overlay | src/pages/Leads.jsx:170-177 | `{...lead, ...data, lastContact}`: every one of the thirteen fields is the patch's value when the patch has that key and the lead's otherwise, except `lastContact`, which is the clock |
| LeadPipeline.OverlayFullPatch | src/pages/Leads.jsx:761-765 | saving a whole record (as the unreachable `handleSaveEdit` would) replaces the lead by it, except that `lastContact` is the clock |
| LeadPipeline.OverlayPartial | src/pages/Leads.jsx:170-177 | an empty update only stamps the lead; a status-only update is a status change |
| LeadPipeline.Edited | src/pages/Leads.jsx:170-177 | every lead with the id is overlaid and stamped; the others are kept |
| LeadPipeline.SaveSnapshotRestoresIt | src/pages/Leads.jsx:749-765 | were `handleSaveEdit` called, saving the detail view's snapshot would undo a status change made from the view since it opened |
| LeadPipeline.EditKeepsContactOrder | src/pages/Leads.jsx:170-177 | an edit keeps `lastContact >= createdAt` unless it moves `createdAt` past the clock |
| LeadPipeline.Removed | src/pages/Leads.jsx:179-185 | a delete keeps only leads that were in the list and lack the id, and keeps `lastContact >= createdAt` and "created before the clock" |
| LeadPipeline.BadgeClasses | src/pages/Leads.jsx:214-224 | a badge's classes start with "bg-" followed by the whole hue |
| LeadPipeline.StatusColor | src/pages/Leads.jsx:214-224 | each stage gets the classes of its own hue (blue, yellow, purple, orange, green, red); any other status that is not an inherited property name gets the classes of "new" |
| LeadPipeline.StatusColorsDistinct | src/pages/Leads.jsx:214-224 | the six stages have six different badges |
| LeadPipeline.SeedIsWellFormed | src/pages/Leads.jsx:28-133 | the five sample leads, and the home board's three (src/components/MainFeature.jsx:28-92), are staged, have distinct ids, and were not contacted before they were created |
| LeadsPage.Leads.constructor | src/pages/Leads.jsx:9-14 | the page starts with the seed, nothing selected or dragged, no toast |
| LeadsPage.Leads.AddNewLead | src/pages/Leads.jsx:147-159 | appends the new lead, raises "New lead added successfully!", keeps `lastContact >= createdAt` |
| LeadsPage.Leads.UpdateLeadStatus | src/pages/Leads.jsx:161-168 | re-stages by id and always raises "Lead status updated!" |
| LeadsPage.Leads.UpdateLead | src/pages/Leads.jsx:170-177 | edits by id and raises "Lead updated successfully!"; only `handleSaveEdit` calls it, and no control calls that |
| LeadsPage.Leads.DeleteLead | src/pages/Leads.jsx:179-185 | on confirmation removes the id, closes the detail view and raises "Lead deleted successfully!"; otherwise nothing changes |
| LeadsPage.Leads.SelectLead | src/pages/Leads.jsx:374 | clicking a card opens its detail view |
| LeadsPage.Leads.CloseDetail | src/pages/Leads.jsx:463 | closing the detail view clears the selection |
| LeadsPage.Leads.DragStart | src/pages/Leads.jsx:187-190 | remembers the dragged lead |
| LeadsPage.Leads.Drop | src/pages/Leads.jsx:197-203 | re-stages the dragged lead only when its stage differs from the column's; a drop on its own column changes nothing; the drag is cleared |
| LeadsPage.Leads.SubmitAddLead | src/pages/Leads.jsx:497-507 | an incomplete form raises the error toast only; a complete one adds the converted lead |
| LeadsPage.Leads.SaveEdit | src/pages/Leads.jsx:761-765 | `handleSaveEdit`, which no control on the page calls: it would write the snapshot back over the lead's id and raise the update toast twice |
| HomePipeline.MainFeature.constructor | src/components/MainFeature.jsx:8-13 | the board starts with the seed, nothing selected or dragged, no toast |
| HomePipeline.MainFeature.AddNewLead | src/components/MainFeature.jsx:106-118 | appends the new lead and raises the success toast |
| HomePipeline.MainFeature.UpdateLeadStatus | src/components/MainFeature.jsx:120-127 | re-stages by id and always raises "Lead status updated!" |
| HomePipeline.MainFeature.SelectLead | src/components/MainFeature.jsx:254 | clicking a card opens its detail view |
| HomePipeline.MainFeature.CloseDetail | src/components/MainFeature.jsx:341 | closing the detail view clears the selection |
| HomePipeline.MainFeature.DragStart | src/components/MainFeature.jsx:129-132 | remembers the dragged lead |
| HomePipeline.MainFeature.Drop | src/components/MainFeature.jsx:139-145 | re-stages the dragged lead only when its stage differs; the drag is cleared |
| HomePipeline.MainFeature.SubmitAddLead | src/components/MainFeature.jsx:371-381 | an incomplete form raises the error toast only; a complete one adds the converted lead |
| TaskModel.StatusesDistinct | src/pages/Tasks.jsx:7-12 | the four status ids are pairwise different |
| TaskModel.FilteredTasks | src/pages/Tasks.jsx:88-95 | a task is shown exactly when its title, description or non-empty related lead contains the term (ignoring case) and both the status and the priority filter pass it |
| TaskModel.FilteredKeepsOrder | src/pages/Tasks.jsx:88-95 | the filtered tasks keep the list's order |
| TaskModel.EmptySearchShowsAll | src/pages/Tasks.jsx:88-95 | an empty search with both filters on "all" shows every task |
| TaskModel.TasksByStatus | src/pages/Tasks.jsx:97-99 | a column holds exactly the filtered tasks with that status |
| TaskModel.BoardPartition | src/pages/Tasks.jsx:243-249 | the four columns partition the filtered tasks whose status is a column, and their counts add up |
| TaskModel.TaskInOneColumn | src/pages/Tasks.jsx:243-249 | a task with one of the four statuses appears in exactly one column |
| TaskModel.CompletedAt | src/pages/Tasks.jsx:120-124 | stamped with the clock on entering "done", kept when "done" again, cleared by any update that does not say "done" |
| TaskModel.Applied | src/pages/Tasks.jsx:117-125 | each of title, description, type, priority, status, related lead and due date is the update's value when it has that key and the task's otherwise; id, assignee and creation time stay; `completedAt` follows the rule |
| TaskModel.Updated | src/pages/Tasks.jsx:114-129 | every task with the id is updated by the rule; the others, the length and the order are kept |
| TaskModel.StatusPatch | src/pages/Tasks.jsx:140-142 | `updateTaskStatus` sends an update whose only key is the status |
| TaskModel.FormPatch | src/pages/Tasks.jsx:303-306 | the edit form sends every form field and no status |
| TaskModel.WithStatus | src/pages/Tasks.jsx:140-142 | every task with the id takes the status and the rule's `completedAt` and keeps every other field; the others, the length and the order are kept |
| TaskModel.ConsistentStampsOnlyWhenDone | src/pages/Tasks.jsx:114-129 | "a completion time exactly when done" implies "a completion time only when done" |
| TaskModel.UpdateKeepsStampOnlyWhenDone | src/pages/Tasks.jsx:114-129 | every update, with or without a status, edits included, keeps "a completion time only when done" |
| TaskModel.StatusUpdateKeepsConsistency | src/pages/Tasks.jsx:114-129 | an update that carries a status keeps "a completion time exactly when done" |
| TaskModel.WithStatusKeepsConsistency | src/pages/Tasks.jsx:140-142 | a status change, and so every drop, keeps "a completion time exactly when done" |
| TaskModel.EditClearsCompletion | src/pages/Tasks.jsx:303-306 | editing a done task through the form keeps it done but clears its completion time |
| TaskModel.CompletedAtIntended | src/pages/Tasks.jsx:120-124 | the rule that keeps "a completion time exactly when done": an update without a status keeps the completion time; one with a status follows the code's rule |
| TaskModel.AppliedIntended | src/pages/Tasks.jsx:117-125 | the update with the stamp-keeping rule: the same fields as the code, and an update without a status keeps both status and completion time |
| TaskModel.UpdatedIntended | src/pages/Tasks.jsx:114-129 | every task with the id is updated with the stamp-keeping rule; the others, the length and the order are kept |
| TaskModel.IntendedUpdateKeepsConsistency | src/pages/Tasks.jsx:114-129 | with the stamp-keeping rule every update, edits included, keeps "a completion time exactly when done" |
| TaskModel.IntendedAgreesOnStatusUpdates | src/pages/Tasks.jsx:114-129 | the stamp-keeping rule and the code agree on every update that carries a status |
| TaskModel.IntendedEditKeepsStamp | src/pages/Tasks.jsx:303-306 | with the stamp-keeping rule, editing a done task keeps it done and keeps its completion time |
| TaskModel.DoneThenTodo | src/pages/Tasks.jsx:120-124 | marking a task done stamps it, and moving it back to "todo" clears the stamp |
| TaskModel.DoneAgainKeepsStamp | src/pages/Tasks.jsx:120-124 | re-marking a done task done changes nothing |
| TaskModel.DropOnOwnColumnIsNoop | src/pages/Tasks.jsx:152-156 | when only done tasks carry a completion time, dropping a task on its own column leaves the list unchanged |
| TaskModel.UnknownIdUnchanged | src/pages/Tasks.jsx:114-129 | an update of an unknown id leaves the list unchanged |
| TaskModel.NewTask | src/pages/Tasks.jsx:101-112 | a new task starts in "todo" with "Agent Demo", the given id, created at the clock, with no completion time, and the form's title, description, type, priority, related lead and due date |
| TaskModel.AddKeepsConsistency | src/pages/Tasks.jsx:101-112 | adding a task keeps "a completion time exactly when done" |
| TaskModel.AddKeepsStampOnlyWhenDone | src/pages/Tasks.jsx:101-112 | adding a task keeps "a completion time only when done" |
| TaskModel.Removed | src/pages/Tasks.jsx:131-138 | a delete keeps only tasks that were in the list and lack the id, and keeps both completion invariants |
| TaskModel.Find | src/pages/Tasks.jsx:152-156 | the first task with the id: it sits at some position with no earlier task carrying the id; none exactly when no task has the id |
| TaskModel.SubmitTaskForm | src/pages/Tasks.jsx:356-366 | the form is refused, with "Please enter a task title", exactly when the trimmed title is empty |
| TaskModel.TitleRefusedIffBlank | src/pages/Tasks.jsx:356-366 | the form is refused exactly when every character of the title is white space |
| TaskModel.OrElse | src/pages/Tasks.jsx:347-354 | `value \|\| fallback` is the value when it is non-empty and the fallback when it is empty |
| TaskModel.Prefill | src/pages/Tasks.jsx:346-354 | a new task's form starts empty with "Follow-up" and "medium"; an edited task's form is never missing a type or a priority |
| TaskModel.UntouchedEditRoundTrip | src/pages/Tasks.jsx:303-306 | saving the edit form untouched keeps the task's text, type, priority and status, clears its completion time, and makes a missing related lead "" |
| TaskModel.PriorityColor | src/pages/Tasks.jsx:158-161 | low is gray, medium blue, high orange, urgent red, and an unknown priority gray |
| TaskModel.SeedIsConsistent | src/pages/Tasks.jsx:23-76 | the sample tasks have a completion time exactly when done (so only when done), and each sits in a column |
| TasksPage.Tasks.constructor | src/pages/Tasks.jsx:79-86 | the page starts with the seed, no dialog open and no toast |
| TasksPage.Tasks.AddNewTask | src/pages/Tasks.jsx:101-112 | appends the new task, raises "Task created successfully!", keeps both completion invariants |
| TasksPage.Tasks.UpdateTask | src/pages/Tasks.jsx:114-129 | updates by id with the completion rule and always raises "Task updated successfully!"; keeps "a completion time only when done" for every update, and "exactly when done" for one with a status |
| TasksPage.Tasks.UpdateTaskStatus | src/pages/Tasks.jsx:140-142 | a status-only update, which keeps both completion invariants |
| TasksPage.Tasks.DeleteTask | src/pages/Tasks.jsx:131-138 | on confirmation removes the id, raises "Task deleted successfully!" and closes the detail view; otherwise nothing changes; both completion invariants are kept |
| TasksPage.Tasks.Drop | src/pages/Tasks.jsx:152-156 | re-stages the dragged id with no check of its current status, so every drop raises the update toast; both completion invariants are kept |
| TasksPage.Tasks.GuardedDrop | src/pages/Tasks.jsx:152-156 | the drop guarded as the lead boards' is, so a re-dropped card is not reported as updated (src/pages/Leads.jsx:197-203): on the task's own column, or for an unknown id, the tasks and the toasts stay unchanged; otherwise it is a status change with its toast |
| TasksPage.Tasks.OpenDetail | src/pages/Tasks.jsx:258-261 | clicking a card opens its detail view |
| TasksPage.Tasks.CloseDetail | src/pages/Tasks.jsx:325-328 | closing the detail view clears the selection |
| TasksPage.Tasks.ChangeStatusFromDetail | src/pages/Tasks.jsx:335-338 | re-stages the task and patches only the status of the view's copy; keeps "a completion time only when done" |
| TasksPage.Tasks.OpenNewForm | src/pages/Tasks.jsx:183 | opens the form on no task |
| TasksPage.Tasks.EditFromDetail | src/pages/Tasks.jsx:329-333 | swaps the detail view for the form on that task |
| TasksPage.Tasks.CancelForm | src/pages/Tasks.jsx:312-315 | closes the form and forgets the edited task |
| TasksPage.Tasks.Refuse | src/pages/Tasks.jsx:358-361 | a refused form raises the error toast and changes nothing else |
| TasksPage.Tasks.SaveForm | src/pages/Tasks.jsx:303-311 | valid fields update the edited task, or become a new task when none is edited, and the form closes; "a completion time only when done" is kept |
| TasksPage.Tasks.SubmitForm | src/pages/Tasks.jsx:303-311 | a blank title raises the error toast and keeps the form open; otherwise the fields update the edited task or become a new task, and the form closes; "a completion time only when done" is kept |

## Code and intent differ

Each item below names the member that models the code as written, which
the page classes use, and the member that models the evidently intended rule.

- A lead's budget can be negative. `parseInt("-5") || 0` is -5, and the
  form does not reject it (`JsNumber.NegativeBudget`,
  `LeadPipeline.SubmitLeadForm`). A budget is an amount of money and
  never negative: `LeadPipeline.IntendedBudget` and
  `LeadPipeline.SubmitLeadFormIntended` read a negative entry as 0, and
  `LeadPipeline.IntendedBudgetAgrees` shows where the two differ.
- Editing a task through the form clears `completedAt`, even on a task that
  stays done. The form's update carries no `status`, so the rule's "not
  done" branch applies (`TaskModel.EditClearsCompletion`). "A completion time
  exactly when done" therefore holds across status changes, additions and
  deletions but not across edits; the weaker "a completion time only when
  done" holds across every handler (`TaskModel.UpdateKeepsStampOnlyWhenDone`).
  The evidently intended rule leaves the stamp alone on an update without
  a status (`TaskModel.CompletedAtIntended`, `TaskModel.UpdatedIntended`);
  with it the two-way invariant survives edits too
  (`TaskModel.IntendedUpdateKeepsConsistency`,
  `TaskModel.IntendedEditKeepsStamp`).
- The Leads page's detail view would save the lead as it was when the view
  opened, reverting a status changed from the view in the meantime
  (`LeadPipeline.SaveSnapshotRestoresIt`). `handleSaveEdit` is not wired to
  any control, so this cannot happen on the page as written.
- The Tasks page raises the update toast on every drop, even on the
  column the task is already in (`TasksPage.Tasks.Drop`). The lead boards
  raise none in that case. `TasksPage.Tasks.GuardedDrop` is the drop with
  the lead boards' guard: on the task's own column it changes neither the
  tasks nor the toasts.

## Left out

- Rendering, animation, icons, layout and the Reports page: these are not
  part of this model.
- The modal flags `showAddLead` (both lead boards) and the Leads page's
  `isEditing`: they only decide what is drawn. The task form's
  `showTaskForm` and `editingTask` are modelled.
- `handleDragOver` and `dataTransfer.effectAllowed`/`dropEffect`: browser
  hints with no effect on state.
- Date formatting and the due-date helpers (`formatDueDate`, `isOverdue`,
  `isDueToday`, `format(..., 'MMM d')`): these read the calendar in the
  local time zone. Due dates are plain millisecond values here.
- The task form's date round trip (`format(dueDate, 'yyyy-MM-dd')`, then
  `new Date(...)`): it is a parameter (`dueDay`, `TaskForm.dueDate`).
- `Intl.NumberFormat` currency display, and `window.open` for phone and
  e-mail with their info toasts: foreign calls that produce no model state.
- Text.Lower: covers ASCII letters only. Other letters whose
  `toLowerCase` changes them are left as they are.
- JsNumber.ParseInt: works on exact integers. Numerals beyond 2^53 lose
  precision in JavaScript, and the "Infinity" of very long numerals is not
  modelled.
- The bedroom and bathroom selects: they offer 1 to 6 and 1 to 5 and read
  the chosen option with `parseInt`, which gives that number. The
  preference counts are taken as given integers.
- Seed times: `Date.now()` at module load is a parameter `loaded` of
  `TaskModel.SeedTasks`. The leads' `new Date('2024-01-dd')` dates are UTC
  midnights.
- The search term and the filter selections: they are inputs of the filter
  functions, not fields of the page classes.
- Uniqueness of ids generated from the clock is not assumed. Every handler
  acts on all records with the given id, as `map` and `filter` do.
- LeadPipeline.StatusColor: a status that is a property name every
  JavaScript object inherits (`LeadPipeline.InheritedKeys`: "constructor",
  "toString", "__proto__" and the like) finds a built-in function or object
  in the colour table, not a class string. The model gives such a status
  the classes of "new", and the contract promises nothing for those names.
- LeadPipeline.NewLead: `createdAt` and `lastContact` come from two
  `new Date()` calls (src/pages/Leads.jsx:153-154,
  src/components/MainFeature.jsx:112-113), which may differ by a
  millisecond. The model reads the clock once, as `now`, for both. The id,
  a third clock read, is the separate parameter `newId`.
- TaskModel.NewTask: the id (`Date.now()`) and `createdAt` (`new Date()`)
  are two clock reads. They are independent parameters here, so the model
  does not tie the id to the creation time.
- LeadPipeline.SubmitLeadForm: the browser's own checks before `onSubmit`
  are not modelled. These are `required` on the names and e-mail
  (src/pages/Leads.jsx:538, 552, 569; src/components/MainFeature.jsx:411,
  424, 440), `type="email"` (src/pages/Leads.jsx:564;
  src/components/MainFeature.jsx:436) and `type="number"` on the budget
  (src/pages/Leads.jsx:610; src/components/MainFeature.jsx:479). The model
  therefore accepts forms the browser blocks, such as a malformed e-mail
  address, and budget text a number field cannot hold.
- TaskModel.SubmitTaskForm: likewise, the title's `required`
  (src/pages/Tasks.jsx:395) is not modelled. It blocks only the empty
  title, which the trim check refuses anyway.
