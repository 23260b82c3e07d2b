/**
  The state of the Tasks page (src/pages/Tasks.jsx) and its handlers: the
  task list, the task open in the detail view, the task being edited in the
  form, which of the two dialogs is showing, and the toasts raised so far.
*/
module TasksPage {
  import opened Common
  import opened TaskModel

  const TaskCreated: Notice := Notice(Success, "Task created successfully!")
  const TaskUpdated: Notice := Notice(Success, "Task updated successfully!")
  const TaskDeleted: Notice := Notice(Success, "Task deleted successfully!")

  class Tasks {
    var tasks: seq<Task>
    var selected: Option<Task>
    var showDetail: bool
    var editing: Option<Task>
    var showForm: bool
    var notices: seq<Notice>

    /** The page mounts with the given sample tasks, no dialog open and no toast. */
    constructor (seed: seq<Task>)
      ensures tasks == seed && selected == None && !showDetail && editing == None && !showForm && notices == []
    {
      tasks := seed;
      selected := None;
      showDetail := false;
      editing := None;
      showForm := false;
      notices := [];
    }

    /** `addNewTask`: appends the new "todo" task after all others and reports success. */
    method AddNewTask(form: TaskForm, newId: string, now: int)
      modifies this
      ensures tasks == old(tasks) + [NewTask(form, newId, now)]
      ensures notices == old(notices) + [TaskCreated]
      ensures selected == old(selected) && showDetail == old(showDetail)
      ensures editing == old(editing) && showForm == old(showForm)
      ensures CompletionConsistent(old(tasks)) ==> CompletionConsistent(tasks)
      ensures StampOnlyWhenDone(old(tasks)) ==> StampOnlyWhenDone(tasks)
    {
      if CompletionConsistent(tasks) {
        AddKeepsConsistency(tasks, form, newId, now);
      }
      if StampOnlyWhenDone(tasks) {
        AddKeepsStampOnlyWhenDone(tasks, form, newId, now);
      }
      tasks := tasks + [NewTask(form, newId, now)];
      notices := notices + [TaskCreated];
    }

    /**
      `updateTask`: applies the update and the completion rule to every task
      with the id; the toast is raised even when no task has the id.
    */
    method UpdateTask(id: string, patch: TaskPatch, now: int)
      modifies this
      ensures tasks == Updated(old(tasks), id, patch, now)
      ensures notices == old(notices) + [TaskUpdated]
      ensures selected == old(selected) && showDetail == old(showDetail)
      ensures editing == old(editing) && showForm == old(showForm)
      ensures CompletionConsistent(old(tasks)) && patch.status.Some? ==> CompletionConsistent(tasks)
      ensures StampOnlyWhenDone(old(tasks)) ==> StampOnlyWhenDone(tasks)
    {
      if CompletionConsistent(tasks) && patch.status.Some? {
        StatusUpdateKeepsConsistency(tasks, id, patch, now);
      }
      if StampOnlyWhenDone(tasks) {
        UpdateKeepsStampOnlyWhenDone(tasks, id, patch, now);
      }
      tasks := Updated(tasks, id, patch, now);
      notices := notices + [TaskUpdated];
    }

    /** `updateTaskStatus`: an update that carries only the new status. */
    method UpdateTaskStatus(id: string, status: string, now: int)
      modifies this
      ensures tasks == WithStatus(old(tasks), id, status, now)
      ensures notices == old(notices) + [TaskUpdated]
      ensures selected == old(selected) && showDetail == old(showDetail)
      ensures editing == old(editing) && showForm == old(showForm)
      ensures CompletionConsistent(old(tasks)) ==> CompletionConsistent(tasks)
      ensures StampOnlyWhenDone(old(tasks)) ==> StampOnlyWhenDone(tasks)
    {
      UpdateTask(id, StatusPatch(status), now);
    }

    /**
      `deleteTask`: only when the user confirms, removes every task with the
      id, reports success and closes the detail view; otherwise nothing happens.
    */
    method DeleteTask(id: string, confirmed: bool)
      modifies this
      ensures confirmed ==> && tasks == Removed(old(tasks), id) && notices == old(notices) + [TaskDeleted]
                            && !showDetail && selected == None
      ensures !confirmed ==> && tasks == old(tasks) && notices == old(notices)
                             && showDetail == old(showDetail) && selected == old(selected)
      ensures editing == old(editing) && showForm == old(showForm)
      ensures CompletionConsistent(old(tasks)) ==> CompletionConsistent(tasks)
      ensures StampOnlyWhenDone(old(tasks)) ==> StampOnlyWhenDone(tasks)
    {
      if confirmed {
        tasks := Removed(tasks, id);
        notices := notices + [TaskDeleted];
        showDetail := false;
        selected := None;
      }
    }

    /**
      `handleDrop`: the id read from the drag data is re-staged into the
      column dropped on, with no check of its current status, so every drop
      raises the update toast.
    */
    method Drop(draggedId: string, status: string, now: int)
      modifies this
      ensures tasks == WithStatus(old(tasks), draggedId, status, now)
      ensures notices == old(notices) + [TaskUpdated]
      ensures selected == old(selected) && showDetail == old(showDetail)
      ensures editing == old(editing) && showForm == old(showForm)
      ensures CompletionConsistent(old(tasks)) ==> CompletionConsistent(tasks)
      ensures StampOnlyWhenDone(old(tasks)) ==> StampOnlyWhenDone(tasks)
    {
      UpdateTaskStatus(draggedId, status, now);
    }

    /**
      The drop guarded as on the Leads page, so that re-dropping a card is not
      reported as an update: a drop
      onto the column the dragged task already sits in (or of an id no task
      carries) changes nothing and raises no toast.
    */
    method GuardedDrop(draggedId: string, status: string, now: int)
      modifies this
      ensures Find(old(tasks), draggedId).None? || Find(old(tasks), draggedId).value.status == status ==>
        tasks == old(tasks) && notices == old(notices)
      ensures Find(old(tasks), draggedId).Some? && Find(old(tasks), draggedId).value.status != status ==>
        tasks == WithStatus(old(tasks), draggedId, status, now) && notices == old(notices) + [TaskUpdated]
      ensures selected == old(selected) && showDetail == old(showDetail)
      ensures editing == old(editing) && showForm == old(showForm)
      ensures CompletionConsistent(old(tasks)) ==> CompletionConsistent(tasks)
      ensures StampOnlyWhenDone(old(tasks)) ==> StampOnlyWhenDone(tasks)
    {
      match Find(tasks, draggedId)
      case Some(t) =>
        if t.status != status {
          UpdateTaskStatus(draggedId, status, now);
        }
      case None =>
    }

    /** Clicking a card opens the detail view on a copy of that task. */
    method OpenDetail(task: Task)
      modifies this
      ensures selected == Some(task) && showDetail
      ensures tasks == old(tasks) && notices == old(notices) && editing == old(editing) && showForm == old(showForm)
    {
      selected := Some(task);
      showDetail := true;
    }

    /** The detail view's close button. */
    method CloseDetail()
      modifies this
      ensures selected == None && !showDetail
      ensures tasks == old(tasks) && notices == old(notices) && editing == old(editing) && showForm == old(showForm)
    {
      selected := None;
      showDetail := false;
    }

    /**
      The detail view's status selector: re-stages the task, then patches the
      view's own copy with the new status only (its completion time is not
      refreshed there).
    */
    method ChangeStatusFromDetail(id: string, status: string, now: int)
      requires selected.Some?
      modifies this
      ensures tasks == WithStatus(old(tasks), id, status, now)
      ensures notices == old(notices) + [TaskUpdated]
      ensures selected == Some(old(selected).value.(status := status))
      ensures showDetail == old(showDetail) && editing == old(editing) && showForm == old(showForm)
      ensures CompletionConsistent(old(tasks)) ==> CompletionConsistent(tasks)
      ensures StampOnlyWhenDone(old(tasks)) ==> StampOnlyWhenDone(tasks)
    {
      UpdateTaskStatus(id, status, now);
      selected := Some(selected.value.(status := status));
    }

    /** The "New Task" button opens an empty form. */
    method OpenNewForm()
      modifies this
      ensures showForm && editing == old(editing)
      ensures tasks == old(tasks) && notices == old(notices) && selected == old(selected) && showDetail == old(showDetail)
    {
      showForm := true;
    }

    /** The detail view's edit button swaps the detail view for the form on that task. */
    method EditFromDetail(task: Task)
      modifies this
      ensures editing == Some(task) && showForm && !showDetail
      ensures tasks == old(tasks) && notices == old(notices) && selected == old(selected)
    {
      editing := Some(task);
      showForm := true;
      showDetail := false;
    }

    /** The form's cancel button. */
    method CancelForm()
      modifies this
      ensures editing == None && !showForm
      ensures tasks == old(tasks) && notices == old(notices) && selected == old(selected) && showDetail == old(showDetail)
    {
      editing := None;
      showForm := false;
    }

    /** `toast.error(message)`: the form stays as it is. */
    method Refuse(message: string)
      modifies this
      ensures notices == old(notices) + [Notice(Error, message)]
      ensures tasks == old(tasks) && editing == old(editing) && showForm == old(showForm)
      ensures selected == old(selected) && showDetail == old(showDetail)
    {
      notices := notices + [Notice(Error, message)];
    }

    /**
      The form's `onSubmit` with fields that passed the title check: they
      update the task being edited (without a status, so a done task loses
      its completion time) or become a new task, and the form closes.
    */
    method SaveForm(fields: TaskForm, newId: string, now: int)
      modifies this
      ensures old(editing).Some? ==>
        && tasks == Updated(old(tasks), old(editing).value.id, FormPatch(fields), now)
        && notices == old(notices) + [TaskUpdated]
      ensures old(editing).None? ==>
        && tasks == old(tasks) + [NewTask(fields, newId, now)]
        && notices == old(notices) + [TaskCreated]
      ensures editing == None && !showForm
      ensures selected == old(selected) && showDetail == old(showDetail)
      ensures StampOnlyWhenDone(old(tasks)) ==> StampOnlyWhenDone(tasks)
    {
      if editing.Some? {
        UpdateTask(editing.value.id, FormPatch(fields), now);
      } else {
        AddNewTask(fields, newId, now);
      }
      showForm := false;
      editing := None;
    }

    /**
      `TaskForm.handleSubmit` wired to the page: a blank title raises the
      error toast and leaves the form open; otherwise the fields are saved.
    */
    method SubmitForm(form: TaskForm, newId: string, now: int)
      modifies this
      ensures SubmitTaskForm(form).Err? ==>
        && tasks == old(tasks) && notices == old(notices) + [Notice(Error, TitleMessage)]
        && editing == old(editing) && showForm == old(showForm)
      ensures SubmitTaskForm(form).Ok? && old(editing).Some? ==>
        && tasks == Updated(old(tasks), old(editing).value.id, FormPatch(form), now)
        && notices == old(notices) + [TaskUpdated]
      ensures SubmitTaskForm(form).Ok? && old(editing).None? ==>
        && tasks == old(tasks) + [NewTask(form, newId, now)]
        && notices == old(notices) + [TaskCreated]
      ensures SubmitTaskForm(form).Ok? ==> editing == None && !showForm
      ensures selected == old(selected) && showDetail == old(showDetail)
      ensures StampOnlyWhenDone(old(tasks)) ==> StampOnlyWhenDone(tasks)
    {
      match SubmitTaskForm(form)
      case Err(message) =>
        Refuse(message);
      case Ok(fields) =>
        SaveForm(fields, newId, now);
    }
  }
}
