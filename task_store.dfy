/** The client-side task store: the task list, the activity log as last
    fetched, and a loading flag. Each action runs its service call and then
    overwrites fields of the store. Replies of the database and of the
    activity service arrive as parameters. */
module UseTaskStore {
  import opened JsBuiltins
  import opened Types
  import opened ActivityService
  import TaskService

  /** `tasks.filter(t => t.id !== taskId)`. */
  function RemoveTask(tasks: seq<Task>, taskId: Id): seq<Task> {
    Filter(tasks, (t: Task) => t.id != taskId)
  }

  /** Removing a task by id drops every task with that id and keeps every
      other task, as often as it occurred and in its original order. */
  lemma RemoveTaskSpec(tasks: seq<Task>, taskId: Id)
    ensures forall t :: t in RemoveTask(tasks, taskId) ==> t.id != taskId
    ensures forall t :: t in tasks && t.id != taskId ==> t in RemoveTask(tasks, taskId)
    ensures forall t: Task :: t.id != taskId ==> multiset(RemoveTask(tasks, taskId))[t] == multiset(tasks)[t]
    ensures IsSubsequence(RemoveTask(tasks, taskId), tasks)
  {
    FilterSpec(tasks, (t: Task) => t.id != taskId);
  }

  /** Removing an id no task carries changes nothing. */
  lemma RemoveAbsentTask(tasks: seq<Task>, taskId: Id)
    requires forall i :: 0 <= i < |tasks| ==> tasks[i].id != taskId
    ensures RemoveTask(tasks, taskId) == tasks
  {
    FilterAll(tasks, (t: Task) => t.id != taskId);
  }

  class TaskStore {
    var tasks: seq<Task>
    var logs: seq<ActivityLog>
    var isLoading: bool

    constructor ()
      ensures tasks == [] && logs == [] && !isLoading
    {
      tasks := [];
      logs := [];
      isLoading := false;
    }

    /** `fetchTasks`: the list becomes what `getTasks` returns; loading is
        off afterwards. */
    method FetchTasks(reply: Option<seq<TaskService.TaskRow>>)
      modifies this
      ensures tasks == TaskService.GetTasks(reply)
      ensures logs == old(logs) && !isLoading
    {
      isLoading := true;
      tasks := TaskService.GetTasks(reply);
      isLoading := false;
    }

    /** `fetchLogs`: the log becomes what the activity service returns. */
    method FetchLogs(fetched: seq<ActivityLog>)
      modifies this
      ensures logs == fetched
      ensures tasks == old(tasks) && isLoading == old(isLoading)
    {
      logs := fetched;
    }

    /** `createTask`: the service is called with the creator as its creator
        argument; on success the tasks and then the logs are refetched; a
        failure propagates and leaves both lists alone. Loading is off at the
        end on both paths. */
    method CreateTask(title: string, description: string, priority: string, dueDate: string,
                      creatorId: Id, assigneeIds: seq<Id>, feed: ActivityFeed,
                      inserted: Option<TaskService.TaskRow>,
                      refetched: Option<seq<TaskService.TaskRow>>, refetchedLogs: seq<ActivityLog>)
      returns (outcome: Settled<()>)
      modifies this, feed
      ensures var step := TaskService.CreateTask(title, description, creatorId, priority, dueDate, assigneeIds, inserted);
              && feed.entries == old(feed.entries) + step.logged
              && (outcome.Fulfilled? <==> step.result.Fulfilled?)
              && (outcome.Rejected? ==> outcome.reason == step.result.reason)
              && tasks == (if outcome.Fulfilled? then TaskService.GetTasks(refetched) else old(tasks))
              && logs == (if outcome.Fulfilled? then refetchedLogs else old(logs))
      ensures !isLoading
    {
      isLoading := true;
      var step := TaskService.CreateTask(title, description, creatorId, priority, dueDate, assigneeIds, inserted);
      feed.Append(step.logged);
      match step.result {
        case Rejected(reason) =>
          outcome := Rejected(reason);
        case Fulfilled(_) =>
          FetchTasks(refetched);
          FetchLogs(refetchedLogs);
          outcome := Fulfilled(());
      }
      isLoading := false;
    }

    /** `updateTask`: on success the tasks and the logs are refetched; a
        failure is swallowed and nothing in the store changes. The loading
        flag is not touched by the action itself, only by the refetch. */
    method UpdateTask(taskId: Id, updates: TaskService.TaskPatch, userId: Id, feed: ActivityFeed,
                      updated: Option<TaskService.TaskRow>,
                      refetched: Option<seq<TaskService.TaskRow>>, refetchedLogs: seq<ActivityLog>)
      modifies this, feed
      ensures var step := TaskService.UpdateTask(taskId, updates, userId, updated);
              && feed.entries == old(feed.entries) + step.logged
              && tasks == (if step.result.Fulfilled? then TaskService.GetTasks(refetched) else old(tasks))
              && logs == (if step.result.Fulfilled? then refetchedLogs else old(logs))
              && isLoading == (if step.result.Fulfilled? then false else old(isLoading))
    {
      var step := TaskService.UpdateTask(taskId, updates, userId, updated);
      feed.Append(step.logged);
      if step.result.Fulfilled? {
        FetchTasks(refetched);
        FetchLogs(refetchedLogs);
      }
    }

    /** `deleteTask`: after the service call the task is removed locally
        (no refetch of tasks) and the logs are refetched. When the call
        rejects (a failure of the network or of the activity service, both
        outside this model) the error is swallowed and nothing changes. */
    method DeleteTask(taskId: Id, userId: Id, feed: ActivityFeed,
                      foundTitle: Option<string>, serviceFailed: bool, refetchedLogs: seq<ActivityLog>)
      modifies this, feed
      ensures feed.entries == old(feed.entries) + (if serviceFailed then [] else TaskService.DeleteTask(taskId, userId, foundTitle))
      ensures tasks == (if serviceFailed then old(tasks) else RemoveTask(old(tasks), taskId))
      ensures logs == (if serviceFailed then old(logs) else refetchedLogs)
      ensures isLoading == old(isLoading)
    {
      if !serviceFailed {
        feed.Append(TaskService.DeleteTask(taskId, userId, foundTitle));
        tasks := RemoveTask(tasks, taskId);
        FetchLogs(refetchedLogs);
      }
    }
  }
}
