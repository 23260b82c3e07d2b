/**
  The task board engine of the Tasks page (src/pages/Tasks.jsx): the task
  record, the search/status/priority filter, the four status columns, the
  `completedAt` rule applied on every update, and the task form's check.
  Timestamps are milliseconds since the epoch; `now` is the clock's value
  when a handler runs.
*/
module TaskModel {
  import opened Common
  import Text
  import Board

  datatype Task = Task(
    id: string,
    title: string,
    description: string,
    kind: string,
    priority: string,
    status: string,
    assignedTo: string,
    relatedLead: Option<string>,
    dueDate: int,
    createdAt: int,
    completedAt: Option<int>)

  /** What the task form submits: its fields, with the due date already read as a timestamp. */
  datatype TaskForm = TaskForm(
    title: string,
    description: string,
    kind: string,
    priority: string,
    relatedLead: string,
    dueDate: int)

  /** The keys an update object carries (`None`: the key is absent). */
  datatype TaskPatch = TaskPatch(
    title: Option<string>,
    description: Option<string>,
    kind: Option<string>,
    priority: Option<string>,
    status: Option<string>,
    relatedLead: Option<string>,
    dueDate: Option<int>)

  /** The board's columns, in display order (`taskStatuses[*].id`). */
  const Statuses: seq<string> := ["todo", "in-progress", "review", "done"]

  /** The priority levels (`priorityLevels[*].value`). */
  const Priorities: seq<string> := ["low", "medium", "high", "urgent"]

  const Done: string := "done"
  const DefaultAssignee: string := "Agent Demo"
  const AllValues: string := "all"

  function TaskStatus(t: Task): string
  {
    t.status
  }

  lemma StatusesDistinct()
    ensures Board.Distinct(Statuses)
  {
  }

  // ---------------------------------------------------------------- filter

  /**
    The search box matches the title, the description, or the related lead
    when there is a non-empty one, ignoring case.
  */
  predicate MatchesSearch(t: Task, term: string)
  {
    || Text.Matches(t.title, term)
    || Text.Matches(t.description, term)
    || (t.relatedLead.Some? && t.relatedLead.value != [] && Text.Matches(t.relatedLead.value, term))
  }

  /** A categorical filter: "all" passes everything, any other value only itself. */
  predicate MatchesChoice(value: string, filter: string)
  {
    filter == AllValues || value == filter
  }

  function Visible(term: string, statusFilter: string, priorityFilter: string): Task -> bool
  {
    t => MatchesSearch(t, term) && MatchesChoice(t.status, statusFilter) && MatchesChoice(t.priority, priorityFilter)
  }

  /** `filteredTasks`: the tasks the search, the status filter and the priority filter all let through. */
  function FilteredTasks(tasks: seq<Task>, term: string, statusFilter: string, priorityFilter: string): (r: seq<Task>)
    ensures |r| <= |tasks|
    ensures forall i :: 0 <= i < |r| ==>
      (&& r[i] in tasks && MatchesSearch(r[i], term)
       && MatchesChoice(r[i].status, statusFilter) && MatchesChoice(r[i].priority, priorityFilter))
    ensures forall i :: 0 <= i < |tasks| ==>
      ((&& MatchesSearch(tasks[i], term)
        && MatchesChoice(tasks[i].status, statusFilter) && MatchesChoice(tasks[i].priority, priorityFilter))
       ==> tasks[i] in r)
  {
    Board.Select(tasks, Visible(term, statusFilter, priorityFilter))
  }

  /** The filtered list keeps the order of the task list. */
  lemma FilteredKeepsOrder(tasks: seq<Task>, term: string, statusFilter: string, priorityFilter: string)
    ensures Board.IsSubsequence(FilteredTasks(tasks, term, statusFilter, priorityFilter), tasks)
  {
    Board.SelectIsSubsequence(tasks, Visible(term, statusFilter, priorityFilter));
  }

  /** An empty search with both filters on "all" shows every task, in order. */
  lemma EmptySearchShowsAll(tasks: seq<Task>)
    ensures FilteredTasks(tasks, "", AllValues, AllValues) == tasks
  {
    forall i | 0 <= i < |tasks| ensures Visible("", AllValues, AllValues)(tasks[i]) {
      Text.IncludesEmpty(Text.Lower(tasks[i].title));
    }
    Board.SelectAll(tasks, Visible("", AllValues, AllValues));
  }

  // ---------------------------------------------------------------- columns

  /** `getTasksByStatus(status)`: the filtered tasks with that status, in filtered order. */
  function TasksByStatus(filtered: seq<Task>, status: string): (r: seq<Task>)
    ensures forall i :: 0 <= i < |r| ==> r[i] in filtered && r[i].status == status
    ensures forall i :: 0 <= i < |filtered| && filtered[i].status == status ==> filtered[i] in r
  {
    Board.Column(filtered, TaskStatus, status)
  }

  /** The four columns together hold exactly the filtered tasks whose status is a column, as often as listed. */
  lemma BoardPartition(tasks: seq<Task>, term: string, statusFilter: string, priorityFilter: string)
    ensures var f := FilteredTasks(tasks, term, statusFilter, priorityFilter);
      && multiset(Board.Columns(f, TaskStatus, Statuses)) == multiset(Board.Select(f, Board.InStages(TaskStatus, Statuses)))
      && |Board.Columns(f, TaskStatus, Statuses)| == |Board.Select(f, Board.InStages(TaskStatus, Statuses))|
  {
    StatusesDistinct();
    var f := FilteredTasks(tasks, term, statusFilter, priorityFilter);
    Board.ColumnsPartition(f, TaskStatus, Statuses);
    Board.ColumnSizesAddUp(f, TaskStatus, Statuses);
  }

  /** A filtered task whose status is one of the four sits in exactly one column. */
  lemma TaskInOneColumn(filtered: seq<Task>, t: Task)
    requires t in filtered && t.status in Statuses
    ensures |set k | 0 <= k < |Statuses| && t in TasksByStatus(filtered, Statuses[k])| == 1
  {
    var k :| 0 <= k < |Statuses| && Statuses[k] == t.status;
    assert t in TasksByStatus(filtered, Statuses[k]) by {
      var j :| 0 <= j < |filtered| && filtered[j] == t;
    }
    assert (set k' | 0 <= k' < |Statuses| && t in TasksByStatus(filtered, Statuses[k'])) == {k};
  }

  // ---------------------------------------------------------------- completion stamp

  /**
    The `completedAt` an update leaves on a matching task: stamped with the
    clock when the update moves it into "done", kept when it was already
    done and the update says "done" again, and cleared whenever the update
    does not say "done", including when it carries no status at all.
  */
  function CompletedAt(t: Task, newStatus: Option<string>, now: int): (r: Option<int>)
    ensures newStatus == Some(Done) && t.status != Done ==> r == Some(now)
    ensures newStatus == Some(Done) && t.status == Done ==> r == t.completedAt
    ensures newStatus != Some(Done) ==> r == None
  {
    if newStatus == Some(Done) && t.status != Done then Some(now)
    else if newStatus != Some(Done) then None
    else t.completedAt
  }

  function Pick<T>(o: Option<T>, current: T): T
  {
    match o
    case Some(v) => v
    case None => current
  }

  /** `{ ...task, ...data, completedAt: <rule> }`. */
  function Applied(t: Task, p: TaskPatch, now: int): (r: Task)
    ensures r.title == Pick(p.title, t.title) && r.description == Pick(p.description, t.description)
    ensures r.kind == Pick(p.kind, t.kind) && r.priority == Pick(p.priority, t.priority)
    ensures r.status == Pick(p.status, t.status) && r.dueDate == Pick(p.dueDate, t.dueDate)
    ensures p.relatedLead.Some? ==> r.relatedLead == p.relatedLead
    ensures p.relatedLead.None? ==> r.relatedLead == t.relatedLead
    ensures r.id == t.id && r.assignedTo == t.assignedTo && r.createdAt == t.createdAt
    ensures r.completedAt == CompletedAt(t, p.status, now)
  {
    t.(title := Pick(p.title, t.title), description := Pick(p.description, t.description),
       kind := Pick(p.kind, t.kind), priority := Pick(p.priority, t.priority),
       status := Pick(p.status, t.status),
       relatedLead := if p.relatedLead.Some? then p.relatedLead else t.relatedLead,
       dueDate := Pick(p.dueDate, t.dueDate), completedAt := CompletedAt(t, p.status, now))
  }

  function HasId(id: string): Task -> bool
  {
    (t: Task) => t.id == id
  }

  /** `updateTask`'s list: every task with the id gets the patch and the completion rule; the rest are kept. */
  function Updated(tasks: seq<Task>, id: string, p: TaskPatch, now: int): (r: seq<Task>)
    ensures |r| == |tasks|
    ensures forall i :: 0 <= i < |tasks| ==> r[i] == if tasks[i].id == id then Applied(tasks[i], p, now) else tasks[i]
  {
    Board.UpdateWhere(tasks, HasId(id), (t: Task) => Applied(t, p, now))
  }

  /** The update object `updateTaskStatus` builds: `{ status }`. */
  function StatusPatch(status: string): (p: TaskPatch)
    ensures p.status == Some(status)
    ensures p.title.None? && p.description.None? && p.kind.None? && p.priority.None?
    ensures p.relatedLead.None? && p.dueDate.None?
  {
    TaskPatch(None, None, None, None, Some(status), None, None)
  }

  /** What the edit form submits as an update: every form field, but no status. */
  function FormPatch(form: TaskForm): (p: TaskPatch)
    ensures p.status.None?
    ensures p.title == Some(form.title) && p.description == Some(form.description)
    ensures p.kind == Some(form.kind) && p.priority == Some(form.priority)
    ensures p.relatedLead == Some(form.relatedLead) && p.dueDate == Some(form.dueDate)
  {
    TaskPatch(Some(form.title), Some(form.description), Some(form.kind), Some(form.priority), None,
              Some(form.relatedLead), Some(form.dueDate))
  }

  /** `updateTaskStatus(id, status)`. */
  function WithStatus(tasks: seq<Task>, id: string, status: string, now: int): (r: seq<Task>)
    ensures |r| == |tasks|
    ensures forall i :: 0 <= i < |tasks| && tasks[i].id != id ==> r[i] == tasks[i]
    ensures forall i :: 0 <= i < |tasks| && tasks[i].id == id ==>
      r[i] == tasks[i].(status := status, completedAt := CompletedAt(tasks[i], Some(status), now))
  {
    Updated(tasks, id, StatusPatch(status), now)
  }

  /** Every task carries a completion time exactly when it is done. */
  predicate CompletionConsistent(tasks: seq<Task>)
  {
    forall i :: 0 <= i < |tasks| ==> (tasks[i].completedAt.Some? <==> tasks[i].status == Done)
  }

  /**
    The weaker, one-way invariant: a task carries a completion time only
    when it is done. Unlike the two-way one it survives every handler,
    edits included.
  */
  predicate StampOnlyWhenDone(tasks: seq<Task>)
  {
    forall i :: 0 <= i < |tasks| && tasks[i].completedAt.Some? ==> tasks[i].status == Done
  }

  /** The two-way invariant implies the one-way one. */
  lemma ConsistentStampsOnlyWhenDone(tasks: seq<Task>)
    requires CompletionConsistent(tasks)
    ensures StampOnlyWhenDone(tasks)
  {
  }

  /** Every update, with or without a status (so every drop and every edit), keeps stamps on done tasks only. */
  lemma UpdateKeepsStampOnlyWhenDone(tasks: seq<Task>, id: string, p: TaskPatch, now: int)
    requires StampOnlyWhenDone(tasks)
    ensures StampOnlyWhenDone(Updated(tasks, id, p, now))
  {
    var r := Updated(tasks, id, p, now);
    forall i | 0 <= i < |tasks| && r[i].completedAt.Some? ensures r[i].status == Done {
      if tasks[i].id == id {
        assert p.status == Some(Done);
      }
    }
  }

  /** Any update that carries a status keeps "completion time exactly when done". */
  lemma StatusUpdateKeepsConsistency(tasks: seq<Task>, id: string, p: TaskPatch, now: int)
    requires CompletionConsistent(tasks)
    requires p.status.Some?
    ensures CompletionConsistent(Updated(tasks, id, p, now))
  {
    var r := Updated(tasks, id, p, now);
    forall i | 0 <= i < |tasks| ensures r[i].completedAt.Some? <==> r[i].status == Done {
      if tasks[i].id == id {
        assert r[i].status == p.status.value;
      }
    }
  }

  /** In particular `updateTaskStatus`, and so every drop, keeps it. */
  lemma WithStatusKeepsConsistency(tasks: seq<Task>, id: string, status: string, now: int)
    requires CompletionConsistent(tasks)
    ensures CompletionConsistent(WithStatus(tasks, id, status, now))
  {
    StatusUpdateKeepsConsistency(tasks, id, StatusPatch(status), now);
  }

  /**
    The edit form's update carries no status, so it keeps a done task done
    but clears its completion time: the consistency above does not survive
    an edit of a done task.
  */
  lemma EditClearsCompletion(tasks: seq<Task>, id: string, form: TaskForm, now: int, i: nat)
    requires i < |tasks| && tasks[i].id == id && tasks[i].status == Done
    ensures var r := Updated(tasks, id, FormPatch(form), now);
      r[i].status == Done && r[i].completedAt == None && !CompletionConsistent(r)
  {
    var r := Updated(tasks, id, FormPatch(form), now);
    assert !(r[i].completedAt.Some? <==> r[i].status == Done);
  }

  /**
    The completion rule that keeps "a completion time exactly when done"
    across every operation: an update without a status leaves the
    completion time alone; one with a status follows the rule above.
  */
  function CompletedAtIntended(t: Task, newStatus: Option<string>, now: int): (r: Option<int>)
    ensures newStatus.None? ==> r == t.completedAt
    ensures newStatus.Some? ==> r == CompletedAt(t, newStatus, now)
  {
    if newStatus.None? then t.completedAt else CompletedAt(t, newStatus, now)
  }

  /** The update as intended: the patch as in `Applied`, with the intended completion rule. */
  function AppliedIntended(t: Task, p: TaskPatch, now: int): (r: Task)
    ensures r == Applied(t, p, now).(completedAt := CompletedAtIntended(t, p.status, now))
    ensures p.status.None? ==> r.completedAt == t.completedAt && r.status == t.status
  {
    Applied(t, p, now).(completedAt := CompletedAtIntended(t, p.status, now))
  }

  function UpdatedIntended(tasks: seq<Task>, id: string, p: TaskPatch, now: int): (r: seq<Task>)
    ensures |r| == |tasks|
    ensures forall i :: 0 <= i < |tasks| ==> r[i] == if tasks[i].id == id then AppliedIntended(tasks[i], p, now) else tasks[i]
  {
    Board.UpdateWhere(tasks, HasId(id), (t: Task) => AppliedIntended(t, p, now))
  }

  /** With the intended rule every update, edits included, keeps "completion time exactly when done". */
  lemma IntendedUpdateKeepsConsistency(tasks: seq<Task>, id: string, p: TaskPatch, now: int)
    requires CompletionConsistent(tasks)
    ensures CompletionConsistent(UpdatedIntended(tasks, id, p, now))
  {
    var r := UpdatedIntended(tasks, id, p, now);
    forall i | 0 <= i < |tasks| ensures r[i].completedAt.Some? <==> r[i].status == Done {
      if tasks[i].id == id && p.status.Some? {
        assert r[i].status == p.status.value;
      }
    }
  }

  /** The intended rule differs from the code only on updates without a status, that is, on edits. */
  lemma IntendedAgreesOnStatusUpdates(tasks: seq<Task>, id: string, p: TaskPatch, now: int)
    requires p.status.Some?
    ensures UpdatedIntended(tasks, id, p, now) == Updated(tasks, id, p, now)
  {
    var a, b := UpdatedIntended(tasks, id, p, now), Updated(tasks, id, p, now);
    forall i | 0 <= i < |tasks| ensures a[i] == b[i] {
    }
  }

  /** Under the intended rule, editing a done task keeps it done and keeps its completion time. */
  lemma IntendedEditKeepsStamp(tasks: seq<Task>, id: string, form: TaskForm, now: int, i: nat)
    requires i < |tasks| && tasks[i].id == id && tasks[i].status == Done
    ensures var r := UpdatedIntended(tasks, id, FormPatch(form), now);
      r[i].status == Done && r[i].completedAt == tasks[i].completedAt
  {
  }

  /** Marking a task done and then back to "todo" stamps it and then clears the stamp. */
  lemma DoneThenTodo(tasks: seq<Task>, id: string, t1: int, t2: int, i: nat)
    requires i < |tasks| && tasks[i].id == id && tasks[i].status != Done
    ensures WithStatus(tasks, id, Done, t1)[i].completedAt == Some(t1)
    ensures WithStatus(WithStatus(tasks, id, Done, t1), id, "todo", t2)[i].completedAt == None
    ensures WithStatus(WithStatus(tasks, id, Done, t1), id, "todo", t2)[i].status == "todo"
  {
  }

  /** Re-marking a done task done keeps its original completion time. */
  lemma DoneAgainKeepsStamp(tasks: seq<Task>, id: string, now: int, i: nat)
    requires i < |tasks| && tasks[i].id == id && tasks[i].status == Done
    ensures WithStatus(tasks, id, Done, now)[i] == tasks[i]
  {
  }

  /**
    Dropping tasks into the column they already sit in changes nothing when
    only done tasks carry a completion time (the page still raises its toast).
  */
  lemma DropOnOwnColumnIsNoop(tasks: seq<Task>, id: string, status: string, now: int)
    requires StampOnlyWhenDone(tasks)
    requires forall i :: 0 <= i < |tasks| && tasks[i].id == id ==> tasks[i].status == status
    ensures WithStatus(tasks, id, status, now) == tasks
  {
    var r := WithStatus(tasks, id, status, now);
    forall i | 0 <= i < |tasks| ensures r[i] == tasks[i] {
      if tasks[i].id == id && status != Done {
        assert tasks[i].completedAt == None;
      }
    }
  }

  /** An id no task carries (the drop of an unknown or empty id) leaves the list unchanged. */
  lemma UnknownIdUnchanged(tasks: seq<Task>, id: string, p: TaskPatch, now: int)
    requires forall i :: 0 <= i < |tasks| ==> tasks[i].id != id
    ensures Updated(tasks, id, p, now) == tasks
  {
  }

  // ---------------------------------------------------------------- creation and deletion

  /** `addNewTask`'s record: the form's fields, then the forced status, assignee and stamps. */
  function NewTask(form: TaskForm, id: string, now: int): (t: Task)
    ensures t.status == "todo" && t.assignedTo == DefaultAssignee
    ensures t.createdAt == now && t.completedAt == None && t.id == id
    ensures t.title == form.title && t.description == form.description && t.kind == form.kind
    ensures t.priority == form.priority && t.relatedLead == Some(form.relatedLead) && t.dueDate == form.dueDate
  {
    Task(id, form.title, form.description, form.kind, form.priority, "todo", DefaultAssignee,
         Some(form.relatedLead), form.dueDate, now, None)
  }

  /** Appending a new task keeps stamps on done tasks only. */
  lemma AddKeepsStampOnlyWhenDone(tasks: seq<Task>, form: TaskForm, id: string, now: int)
    requires StampOnlyWhenDone(tasks)
    ensures StampOnlyWhenDone(tasks + [NewTask(form, id, now)])
  {
  }

  /** Appending a new task keeps "completion time exactly when done". */
  lemma AddKeepsConsistency(tasks: seq<Task>, form: TaskForm, id: string, now: int)
    requires CompletionConsistent(tasks)
    ensures CompletionConsistent(tasks + [NewTask(form, id, now)])
  {
  }

  function TaskId(t: Task): string
  {
    t.id
  }

  /** `deleteTask`'s list: every task with the id goes, the rest stay in order. */
  function Removed(tasks: seq<Task>, id: string): (r: seq<Task>)
    ensures forall i :: 0 <= i < |r| ==> r[i] in tasks && r[i].id != id
    ensures CompletionConsistent(tasks) ==> CompletionConsistent(r)
    ensures StampOnlyWhenDone(tasks) ==> StampOnlyWhenDone(r)
  {
    Board.Remove(tasks, TaskId, id)
  }

  /** The task with the id that comes first in the list, if any. */
  function Find(tasks: seq<Task>, id: string): (r: Option<Task>)
    ensures r.None? <==> forall i :: 0 <= i < |tasks| ==> tasks[i].id != id
    ensures r.Some? ==> r.value in tasks && r.value.id == id
    ensures r.Some? ==>
      exists k :: 0 <= k < |tasks| && tasks[k] == r.value && forall j :: 0 <= j < k ==> tasks[j].id != id
  {
    if tasks == [] then None
    else if tasks[0].id == id then Some(tasks[0])
    else Find(tasks[1..], id)
  }

  // ---------------------------------------------------------------- form and colours

  const TitleMessage: string := "Please enter a task title"

  /** `TaskForm.handleSubmit`: a title that is blank after trimming is refused. */
  function SubmitTaskForm(form: TaskForm): (r: Result<TaskForm>)
    ensures r.Err? <==> Text.Trim(form.title) == []
    ensures r.Err? ==> r.message == TitleMessage
    ensures r.Ok? ==> r.value == form
  {
    if Text.Trim(form.title) == [] then Err(TitleMessage) else Ok(form)
  }

  /** The task form is refused exactly when every character of the title is white space. */
  lemma TitleRefusedIffBlank(form: TaskForm)
    ensures SubmitTaskForm(form).Err? <==> forall i :: 0 <= i < |form.title| ==> Text.IsSpace(form.title[i])
  {
    Text.BlankIff(form.title);
  }

  /** `value || fallback` on a string: the empty string is falsy. */
  function OrElse(value: string, fallback: string): (r: string)
    ensures r != [] || fallback == []
    ensures value != [] ==> r == value
    ensures value == [] ==> r == fallback
  {
    if value == [] then fallback else value
  }

  /**
    The form's initial fields: the edited task's own values, or the defaults
    ("Follow-up", "medium", no title, no related lead) for a new task and for
    any of the task's fields that is empty. `dueDay` is the due date the date
    input shows, read back as a time (the edited task's day, or today's).
  */
  function Prefill(editing: Option<Task>, dueDay: int): (f: TaskForm)
    ensures editing.None? ==> f == TaskForm("", "", "Follow-up", "medium", "", dueDay)
    ensures f.kind != [] && f.priority != []
  {
    match editing
    case None => TaskForm("", "", "Follow-up", "medium", "", dueDay)
    case Some(t) =>
      TaskForm(t.title, t.description, OrElse(t.kind, "Follow-up"), OrElse(t.priority, "medium"),
               if t.relatedLead.Some? then t.relatedLead.value else "", dueDay)
  }

  /**
    Saving the edit form untouched keeps the task's text fields, priority,
    type and status, but clears a done task's completion time and turns a
    missing related lead into an empty one.
  */
  lemma UntouchedEditRoundTrip(t: Task, dueDay: int, now: int)
    requires t.kind != [] && t.priority != []
    ensures var r := Applied(t, FormPatch(Prefill(Some(t), dueDay)), now);
      && r.title == t.title && r.description == t.description && r.kind == t.kind
      && r.priority == t.priority && r.status == t.status && r.dueDate == dueDay
      && r.completedAt == None
      && r.relatedLead == (if t.relatedLead.Some? then t.relatedLead else Some(""))
  {
  }

  /** `getPriorityColor`: the colour of the priority level, "gray" for an unknown priority. */
  function PriorityColor(priority: string): (r: string)
    ensures priority == "low" ==> r == "gray"
    ensures priority == "medium" ==> r == "blue"
    ensures priority == "high" ==> r == "orange"
    ensures priority == "urgent" ==> r == "red"
    ensures priority !in Priorities ==> r == "gray"
    ensures r in ["gray", "blue", "orange", "red"]
  {
    if priority == "low" then "gray"
    else if priority == "medium" then "blue"
    else if priority == "high" then "orange"
    else if priority == "urgent" then "red"
    else "gray"
  }

  // ---------------------------------------------------------------- seed data

  const Hour: int := 60 * 60 * 1000
  const Day: int := 24 * Hour

  /** The sample tasks, with their times relative to the moment the page module loads. */
  function SeedTasks(loaded: int): seq<Task>
  {
    [ Task("1", "Follow up with Sarah Johnson", "Call to discuss property viewing schedule", "Follow-up",
           "high", "todo", DefaultAssignee, Some("Sarah Johnson"), loaded + Day, loaded, None),
      Task("2", "Property viewing - Downtown Condo", "Show Michael Chen the 2BR condo on Main Street",
           "Property Viewing", "medium", "in-progress", DefaultAssignee, Some("Michael Chen"),
           loaded + 2 * Day, loaded - Day, None),
      Task("3", "Prepare listing documentation", "Compile all necessary documents for the Riverside property",
           "Documentation", "medium", "review", DefaultAssignee, None, loaded + 3 * Day, loaded - 2 * Day, None),
      Task("4", "Send welcome email to Emily Rodriguez", "Send new client welcome package and next steps", "Email",
           "low", Done, DefaultAssignee, Some("Emily Rodriguez"), loaded - Day, loaded - 3 * Day,
           Some(loaded - 12 * Hour)) ]
  }

  /** The sample tasks start consistent, each in one of the four columns. */
  lemma SeedIsConsistent(loaded: int)
    ensures CompletionConsistent(SeedTasks(loaded)) && StampOnlyWhenDone(SeedTasks(loaded))
    ensures forall i :: 0 <= i < |SeedTasks(loaded)| ==> SeedTasks(loaded)[i].status in Statuses
  {
  }
}
