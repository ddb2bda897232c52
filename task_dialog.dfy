/** The create/edit task form: when it opens it is prefilled from the task
    being edited or reset, and its submit sends the form to the task store as
    an update or a creation, closing only when the store call returns. */
module TaskDialog {
  import opened JsBuiltins
  import opened Types
  import opened ActivityService
  import TaskService
  import AuthService
  import UseTaskStore

  /** The chosen assignee as the list the store expects: none for "". */
  function AssigneeList(assigneeId: Id): (r: seq<Id>)
    ensures |r| <= 1
    ensures r == [] <==> assigneeId == ""
    ensures r != [] ==> r[0] == assigneeId
  {
    if assigneeId == "" then [] else [assigneeId]
  }

  /** The assignee field prefilled from a task: its first assignee, or "". */
  function FirstAssignee(t: Task): Id {
    if |t.assigneeIds| > 0 then t.assigneeIds[0] else ""
  }

  /** The date field prefilled from a task: the text before the first 'T'. */
  function DateField(dueDate: string): (r: string)
    ensures 'T' !in r && |r| <= |dueDate| && r == dueDate[..|r|]
    ensures |r| < |dueDate| ==> dueDate[|r|] == 'T'
  {
    FirstSegment(dueDate, 'T')
  }

  /** Editing a task and submitting its assignee unchanged gives back the
      task's assignees, whenever it has at most one, non-empty, assignee (as
      every task the service reads has). */
  lemma AssigneeRoundTrip(t: Task)
    requires |t.assigneeIds| <= 1
    requires forall i :: 0 <= i < |t.assigneeIds| ==> t.assigneeIds[i] != ""
    ensures AssigneeList(FirstAssignee(t)) == t.assigneeIds
  {
  }

  /** Every task the service reads survives that round trip. */
  lemma FetchedAssigneeRoundTrip(row: TaskService.TaskRow)
    ensures AssigneeList(FirstAssignee(TaskService.FetchedTask(row))) == TaskService.FetchedTask(row).assigneeIds
  {
    TaskService.AtMostOneAssignee(row);
  }

  /** The update an edit submits: title, description, priority, the due date
      and the assignee list, but no status. */
  function EditPatch(title: string, description: string, priority: string, dueIso: string, assigneeId: Id): (r: TaskService.TaskPatch)
    ensures r.status.None? && r.title == Some(title) && r.description == Some(description)
    ensures r.priority == Some(priority) && r.dueDate == Some(dueIso)
    ensures r.assigneeIds == Some(AssigneeList(assigneeId))
  {
    TaskService.TaskPatch(Some(title), Some(description), None, Some(priority), Some(dueIso), Some(AssigneeList(assigneeId)))
  }

  /** A closed dialog renders nothing. */
  predicate Renders(isOpen: bool) {
    isOpen
  }

  class Form {
    var title: string
    var description: string
    var priority: string
    var dueDate: string
    var assigneeId: Id
    var users: seq<User>

    constructor ()
      ensures title == "" && description == "" && priority == TaskPriority.Medium.Name()
      ensures dueDate == "" && assigneeId == "" && users == []
    {
      title, description, priority, dueDate, assigneeId, users := "", "", TaskPriority.Medium.Name(), "", "", [];
    }

    /** The effect run when `isOpen` or the task changes: nothing while
        closed; when open, the user list is (re)loaded and the fields are
        prefilled from the task being edited, or reset with priority MEDIUM. */
    method OpenEffect(isOpen: bool, taskToEdit: Option<Task>, usersReply: Option<seq<AuthService.Profile>>)
      modifies this
      ensures !isOpen ==> title == old(title) && description == old(description) && priority == old(priority)
                          && dueDate == old(dueDate) && assigneeId == old(assigneeId) && users == old(users)
      ensures isOpen ==> users == AuthService.GetAllUsers(usersReply)
      ensures isOpen && taskToEdit.Some? ==>
                var t := taskToEdit.value;
                title == t.title && description == t.description && priority == t.priority
                && dueDate == DateField(t.dueDate) && assigneeId == FirstAssignee(t)
      ensures isOpen && taskToEdit.None? ==>
                title == "" && description == "" && priority == TaskPriority.Medium.Name()
                && dueDate == "" && assigneeId == ""
    {
      if isOpen {
        users := AuthService.GetAllUsers(usersReply);
        match taskToEdit {
          case Some(t) =>
            title, description, priority := t.title, t.description, t.priority;
            dueDate := DateField(t.dueDate);
            assigneeId := FirstAssignee(t);
          case None =>
            title, description, priority := "", "", TaskPriority.Medium.Name();
            dueDate, assigneeId := "", "";
        }
      }
    }

    /** `handleSubmit`. Without a user nothing happens. `dueIso` is the due
        date converted to ISO form, `None` when the conversion throws, which
        keeps the dialog open and calls nothing. An edit updates the task as
        the current user and always closes, the store swallowing its
        failures; a creation makes the current user the creator and closes
        only when the store call does not throw. */
    method HandleSubmit(user: Option<User>, taskToEdit: Option<Task>, dueIso: Option<string>,
                        store: UseTaskStore.TaskStore, feed: ActivityFeed,
                        reply: Option<TaskService.TaskRow>,
                        refetched: Option<seq<TaskService.TaskRow>>, refetchedLogs: seq<ActivityLog>)
      returns (closed: bool)
      modifies store, feed
      ensures user.None? || dueIso.None? ==>
                !closed && feed.entries == old(feed.entries)
                && store.tasks == old(store.tasks) && store.logs == old(store.logs)
                && store.isLoading == old(store.isLoading)
      ensures user.Some? && dueIso.Some? && taskToEdit.Some? ==>
                var step := TaskService.UpdateTask(taskToEdit.value.id,
                              EditPatch(title, description, priority, dueIso.value, assigneeId), user.value.id, reply);
                closed && feed.entries == old(feed.entries) + step.logged
                && store.tasks == (if step.result.Fulfilled? then TaskService.GetTasks(refetched) else old(store.tasks))
                && store.logs == (if step.result.Fulfilled? then refetchedLogs else old(store.logs))
                && store.isLoading == (if step.result.Fulfilled? then false else old(store.isLoading))
      ensures user.Some? && dueIso.Some? && taskToEdit.None? ==>
                var step := TaskService.CreateTask(title, description, user.value.id, priority, dueIso.value,
                                                   AssigneeList(assigneeId), reply);
                (closed <==> step.result.Fulfilled?)
                && feed.entries == old(feed.entries) + step.logged
                && store.tasks == (if closed then TaskService.GetTasks(refetched) else old(store.tasks))
                && store.logs == (if closed then refetchedLogs else old(store.logs))
                && !store.isLoading
    {
      if user.None? || dueIso.None? {
        return false;
      }
      match taskToEdit {
        case Some(t) =>
          store.UpdateTask(t.id, EditPatch(title, description, priority, dueIso.value, assigneeId), user.value.id,
                           feed, reply, refetched, refetchedLogs);
          closed := true;
        case None =>
          var outcome := store.CreateTask(title, description, priority, dueIso.value, user.value.id,
                                          AssigneeList(assigneeId), feed, reply, refetched, refetchedLogs);
          closed := outcome.Fulfilled?;
      }
    }
  }
}
