/** The task service: it maps rows of the `tasks` table to `Task` values,
    shapes inserts and partial updates, and asks the activity service to
    record one entry per successful mutation. The database is an oracle: each
    operation receives the row (or rows) the database answered with, `None`
    standing for an error or a missing result. */
module TaskService {
  import opened JsBuiltins
  import opened Types
  import opened ActivityService

  /** A row of the `tasks` table as the database returns it. */
  datatype TaskRow = TaskRow(
    id: Id,
    title: string,
    description: string,
    status: string,
    priority: string,
    createdBy: Id,
    assignedTo: Option<Id>,
    createdAt: string,
    updatedAt: string)

  /** The outcome of a service call together with the activity entries it
      asked to record before settling. */
  datatype ServiceStep<+T> = ServiceStep(result: Settled<T>, logged: seq<LogEntry>)

  // ---------------------------------------------------------------------
  // Row to Task

  /** `assigned_to ? [assigned_to] : []`. */
  function AssigneesOf(row: TaskRow): seq<Id> {
    if Truthy(row.assignedTo) then [row.assignedTo.value] else []
  }

  /** The mapping `getTasks` applies: status and priority are copied as the
      database spells them, and the due date is the row's `updated_at`. */
  function FetchedTask(row: TaskRow): Task {
    Task(row.id, row.title, row.description, row.status, row.priority,
         AssigneesOf(row), row.createdBy, row.updatedAt, row.createdAt, row.updatedAt)
  }

  /** The mapping `createTask` and `updateTask` apply to the row they get
      back: status and priority are upper-cased, and the due date is the
      row's `created_at`. */
  function ReturnedTask(row: TaskRow): Task {
    Task(row.id, row.title, row.description, ToUpper(row.status), ToUpper(row.priority),
         AssigneesOf(row), row.createdBy, row.createdAt, row.createdAt, row.updatedAt)
  }

  /** Every mapped task has at most one assignee: the row's `assigned_to`
      when it is set and not empty, and none otherwise. */
  lemma AtMostOneAssignee(row: TaskRow)
    ensures |FetchedTask(row).assigneeIds| <= 1 && |ReturnedTask(row).assigneeIds| <= 1
    ensures FetchedTask(row).assigneeIds == ReturnedTask(row).assigneeIds
    ensures Truthy(row.assignedTo) ==> FetchedTask(row).assigneeIds == [row.assignedTo.value]
    ensures !Truthy(row.assignedTo) <==> FetchedTask(row).assigneeIds == []
  {
  }

  /** `getTasks`: the empty list when the query failed or returned no data,
      otherwise one task per row, in the database's order. */
  function GetTasks(reply: Option<seq<TaskRow>>): (r: seq<Task>)
    ensures reply.None? ==> r == []
    ensures reply.Some? ==> |r| == |reply.value|
    ensures reply.Some? ==> forall i :: 0 <= i < |r| ==> r[i] == FetchedTask(reply.value[i])
  {
    match reply
    case None => []
    case Some(rows) => seq(|rows|, i requires 0 <= i < |rows| => FetchedTask(rows[i]))
  }

  /** No task read by `getTasks` has more than one assignee. */
  lemma GetTasksSingleAssignee(reply: Option<seq<TaskRow>>)
    ensures forall t :: t in GetTasks(reply) ==> |t.assigneeIds| <= 1
  {
    var r := GetTasks(reply);
    forall t | t in r ensures |t.assigneeIds| <= 1 {
      var i :| 0 <= i < |r| && r[i] == t;
      AtMostOneAssignee(reply.value[i]);
    }
  }

  // ---------------------------------------------------------------------
  // createTask

  /** The values `createTask` inserts. */
  datatype NewTaskRow = NewTaskRow(
    title: string,
    description: string,
    status: string,
    priority: string,
    createdBy: Id,
    assignedTo: Option<Id>)

  /** The insert: status `PENDING`, the priority lower-cased, and as assignee
      `assigneeIds[0] || null`, so later assignees are dropped and an empty
      first id becomes null. The due date is not written. */
  function InsertFor(title: string, description: string, creatorId: Id, priority: string,
                     assigneeIds: seq<Id>): (r: NewTaskRow)
    ensures r.status == TaskStatus.Pending.Name()
    ensures r.createdBy == creatorId && r.title == title && r.description == description
    ensures |r.priority| == |priority| && forall i :: 0 <= i < |priority| ==> r.priority[i] == LowerChar(priority[i])
    ensures r.assignedTo.Some? <==> |assigneeIds| > 0 && assigneeIds[0] != ""
    ensures r.assignedTo.Some? ==> r.assignedTo.value == assigneeIds[0]
  {
    NewTaskRow(title, description, "PENDING", ToLower(priority), creatorId,
               if |assigneeIds| > 0 && assigneeIds[0] != "" then Some(assigneeIds[0]) else None)
  }

  /** The row the database returns when it stores `ins` verbatim. */
  function Stored(ins: NewTaskRow, id: Id, createdAt: string, updatedAt: string): TaskRow {
    TaskRow(id, ins.title, ins.description, ins.status, ins.priority, ins.createdBy,
            ins.assignedTo, createdAt, updatedAt)
  }

  function CreatedMessage(title: string): string {
    "created task \"" + title + "\""
  }

  /** `createTask`: the insert either fails ("Failed to create task", nothing
      logged) or yields the new task, after which one "created task" entry is
      recorded for the creator. */
  function CreateTask(title: string, description: string, creatorId: Id, priority: string,
                      dueDate: string, assigneeIds: seq<Id>, inserted: Option<TaskRow>): (r: ServiceStep<Task>)
    ensures inserted.None? ==> r.result == Rejected("Failed to create task") && r.logged == []
    ensures inserted.Some? ==> r.result == Fulfilled(ReturnedTask(inserted.value))
    ensures inserted.Some? ==> r.logged == [LogEntry(creatorId, CreatedMessage(title), Some(inserted.value.id))]
  {
    match inserted
    case None => ServiceStep(Rejected("Failed to create task"), [])
    case Some(data) =>
      var newTask := ReturnedTask(data);
      ServiceStep(Fulfilled(newTask), [LogEntry(creatorId, CreatedMessage(title), Some(newTask.id))])
  }

  /** Round trip of a create: when the database stores the insert verbatim,
      the returned task has status PENDING, the requested priority in its
      canonical spelling, the creator, and at most the first requested
      assignee; exactly one entry is logged. */
  lemma CreateRoundTrip(title: string, description: string, creatorId: Id, p: TaskPriority,
                        dueDate: string, assigneeIds: seq<Id>, id: Id, createdAt: string, updatedAt: string)
    ensures var row := Stored(InsertFor(title, description, creatorId, p.Name(), assigneeIds), id, createdAt, updatedAt);
            var step := CreateTask(title, description, creatorId, p.Name(), dueDate, assigneeIds, Some(row));
            && step.result.Fulfilled?
            && step.result.value.status == TaskStatus.Pending.Name()
            && step.result.value.priority == p.Name()
            && step.result.value.creatorId == creatorId
            && step.result.value.title == title
            && step.result.value.assigneeIds == (if |assigneeIds| > 0 && assigneeIds[0] != "" then [assigneeIds[0]] else [])
            && |step.logged| == 1
  {
    UpperOfLower(p.Name());
    UpperOfLower(TaskStatus.Pending.Name());
  }

  // ---------------------------------------------------------------------
  // updateTask

  /** `Partial<Task>` as the callers use it: the fields they may set. */
  datatype TaskPatch = TaskPatch(
    title: Option<string>,
    description: Option<string>,
    status: Option<string>,
    priority: Option<string>,
    dueDate: Option<string>,
    assigneeIds: Option<seq<Id>>)

  /** The column values an update writes; `None` leaves a column alone. */
  datatype DbUpdate = DbUpdate(
    title: Option<string>,
    description: Option<string>,
    status: Option<string>,
    priority: Option<string>,
    assignedTo: Option<Id>,
    updatedAt: string)

  /** The `dbUpdates` builder: each of title, description, status and
      priority only when truthy (status and priority lower-cased), the first
      assignee only for a non-empty list, and always `updated_at`. */
  function BuildUpdate(updates: TaskPatch, now: string): DbUpdate {
    DbUpdate(
      if Truthy(updates.title) then updates.title else None,
      if Truthy(updates.description) then updates.description else None,
      if Truthy(updates.status) then Some(ToLower(updates.status.value)) else None,
      if Truthy(updates.priority) then Some(ToLower(updates.priority.value)) else None,
      if updates.assigneeIds.Some? && |updates.assigneeIds.value| > 0 then Some(updates.assigneeIds.value[0]) else None,
      now)
  }

  /** What writing `u` to a row does: every column `u` sets takes its value. */
  function ApplyUpdate(row: TaskRow, u: DbUpdate): TaskRow {
    row.(title := u.title.GetOr(row.title),
         description := u.description.GetOr(row.description),
         status := u.status.GetOr(row.status),
         priority := u.priority.GetOr(row.priority),
         assignedTo := if u.assignedTo.Some? then u.assignedTo else row.assignedTo,
         updatedAt := u.updatedAt)
  }

  /** An update changes only what the caller gave a truthy value: an empty
      string is not written, a non-empty assignee list assigns its first id,
      an empty one does not unassign, the
      due date is never written, and `updated_at` always is. */
  lemma UpdateWritesOnlyTruthy(row: TaskRow, updates: TaskPatch, now: string)
    ensures var r := ApplyUpdate(row, BuildUpdate(updates, now));
            && r.title == (if Truthy(updates.title) then updates.title.value else row.title)
            && r.description == (if Truthy(updates.description) then updates.description.value else row.description)
            && r.status == (if Truthy(updates.status) then ToLower(updates.status.value) else row.status)
            && r.priority == (if Truthy(updates.priority) then ToLower(updates.priority.value) else row.priority)
            && (updates.assigneeIds.None? || updates.assigneeIds.value == [] ==> r.assignedTo == row.assignedTo)
            && (updates.assigneeIds.Some? && |updates.assigneeIds.value| > 0 ==>
                  r.assignedTo == Some(updates.assigneeIds.value[0]))
            && r.updatedAt == now
            && r.id == row.id && r.createdBy == row.createdBy && r.createdAt == row.createdAt
  {
  }

  /** The patch a status change sends reads back, after the update, as the
      chosen status in its canonical spelling. */
  lemma StatusChangeRoundTrip(row: TaskRow, s: TaskStatus, now: string, taskId: Id, userId: Id)
    ensures var patch := TaskPatch(None, None, Some(s.Name()), None, None, None);
            var stored := ApplyUpdate(row, BuildUpdate(patch, now));
            && ReturnedTask(stored).status == s.Name()
            && UpdateTask(taskId, patch, userId, Some(stored)).result.value.status == s.Name()
  {
    UpperOfLower(s.Name());
  }

  function StatusMessage(title: string, status: string): string {
    "changed status of \"" + title + "\" to " + status
  }

  function UpdatedMessage(title: string): string {
    "updated task \"" + title + "\""
  }

  /** `updateTask`: a failed update throws "Failed to update task" and logs
      nothing; a successful one returns the mapped row and logs one entry. */
  function UpdateTask(taskId: Id, updates: TaskPatch, userId: Id, updated: Option<TaskRow>): (r: ServiceStep<Task>)
    ensures r.result.Fulfilled? <==> updated.Some?
    ensures r.result.Fulfilled? ==> r.result.value == ReturnedTask(updated.value) && |r.logged| == 1
    ensures r.result.Rejected? ==> r.result.reason == "Failed to update task" && r.logged == []
  {
    match updated
    case None => ServiceStep(Rejected("Failed to update task"), [])
    case Some(data) =>
      var action := if Truthy(updates.status) then StatusMessage(data.title, updates.status.value)
                    else UpdatedMessage(data.title);
      ServiceStep(Fulfilled(ReturnedTask(data)), [LogEntry(userId, action, Some(taskId))])
  }

  /** A successful update logs exactly one entry, by the acting user and
      about the task: the status message when the patch carries a status,
      else the generic one. A failed update logs nothing. */
  lemma UpdateLogsExactlyOne(taskId: Id, updates: TaskPatch, userId: Id, updated: Option<TaskRow>)
    ensures var step := UpdateTask(taskId, updates, userId, updated);
            && (step.result.Fulfilled? <==> updated.Some?)
            && (step.result.Rejected? ==> step.logged == [])
            && (step.result.Fulfilled? ==>
                  && |step.logged| == 1
                  && step.logged[0].userId == userId
                  && step.logged[0].taskId == Some(taskId)
                  && (Truthy(updates.status) ==> step.logged[0].action == StatusMessage(updated.value.title, updates.status.value))
                  && (!Truthy(updates.status) ==> step.logged[0].action == UpdatedMessage(updated.value.title)))
  {
  }

  /** The two messages are never confused: a status change is never logged
      as a plain update. */
  lemma MessagesDiffer(t1: string, s: string, t2: string)
    ensures StatusMessage(t1, s) != UpdatedMessage(t2)
  {
    assert StatusMessage(t1, s)[0] == 'c';
    assert UpdatedMessage(t2)[0] == 'u';
  }

  // ---------------------------------------------------------------------
  // deleteTask

  function DeletedMessage(title: string): string {
    "deleted task \"" + title + "\""
  }

  /** `deleteTask`: the delete is issued whatever the title lookup gave, and
      a "deleted task" entry is recorded only when the lookup found the row. */
  function DeleteTask(taskId: Id, userId: Id, foundTitle: Option<string>): (logged: seq<LogEntry>)
    ensures foundTitle.None? <==> logged == []
    ensures foundTitle.Some? ==> logged == [LogEntry(userId, DeletedMessage(foundTitle.value), Some(taskId))]
  {
    match foundTitle
    case None => []
    case Some(title) => [LogEntry(userId, DeletedMessage(title), Some(taskId))]
  }
}
