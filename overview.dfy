/** The dashboard overview: the user's own and pending tasks, the BOSS
    figure of active tasks, the recent-activity slice and its author labels. */
module Overview {
  import opened JsBuiltins
  import opened Types
  import TaskList
  import TaskService
  import AuthService

  /** `myTasks`: the tasks whose assignees include `user?.id || ""`. Being
      the creator does not count, and BOSS gets no exemption. */
  function MyTasks(tasks: seq<Task>, user: Option<User>): seq<Task> {
    Filter(tasks, (t: Task) => Assigned(user, t))
  }

  predicate Assigned(user: Option<User>, t: Task) {
    TaskList.ActingId(user) in t.assigneeIds
  }

  predicate IsOpen(t: Task) {
    t.status == TaskStatus.Pending.Name() || t.status == TaskStatus.InProgress.Name()
  }

  /** `pendingTasks`: the user's tasks whose status is PENDING or IN_PROGRESS. */
  function PendingTasks(tasks: seq<Task>, user: Option<User>): seq<Task> {
    Filter(MyTasks(tasks, user), IsOpen)
  }

  /** A task is one of mine exactly when I am among its assignees, whatever
      my role and whoever created it. */
  lemma MyTasksSpec(tasks: seq<Task>, u: User)
    ensures forall t :: t in MyTasks(tasks, Some(u)) <==> t in tasks && u.id in t.assigneeIds
    ensures IsSubsequence(MyTasks(tasks, Some(u)), tasks)
  {
    FilterSpec(tasks, (t: Task) => Assigned(Some(u), t));
  }

  /** The pending tasks are the user's tasks that are PENDING or IN_PROGRESS,
      in list order; none is COMPLETED. */
  lemma PendingTasksSpec(tasks: seq<Task>, user: Option<User>)
    ensures forall t :: t in PendingTasks(tasks, user) <==> t in tasks && Assigned(user, t) && IsOpen(t)
    ensures IsSubsequence(PendingTasks(tasks, user), MyTasks(tasks, user))
    ensures forall t :: t in PendingTasks(tasks, user) ==> t.status != TaskStatus.Completed.Name()
  {
    FilterSpec(tasks, (t: Task) => Assigned(user, t));
    FilterSpec(MyTasks(tasks, user), IsOpen);
  }

  predicate IsActive(t: Task) {
    t.status != TaskStatus.Completed.Name()
  }

  predicate IsCompleted(t: Task) {
    t.status == TaskStatus.Completed.Name()
  }

  /** "Total Active Tasks": the number of tasks not COMPLETED. */
  function ActiveCount(tasks: seq<Task>): (r: nat)
    ensures r <= |tasks|
  {
    |Filter(tasks, IsActive)|
  }

  /** The active figure and the number of COMPLETED tasks add up to the
      whole list. */
  lemma ActiveCountSplits(tasks: seq<Task>)
    ensures ActiveCount(tasks) + |Filter(tasks, IsCompleted)| == |tasks|
  {
    FilterPartition(tasks, IsActive, IsCompleted);
  }

  /** Every open task counts as active, so a user's pending figure never
      exceeds the active figure. */
  lemma PendingWithinActive(tasks: seq<Task>, user: Option<User>)
    ensures |PendingTasks(tasks, user)| <= ActiveCount(tasks)
  {
    FilterTwiceMonotone(tasks, (t: Task) => Assigned(user, t), IsOpen, IsActive);
  }

  /** A task marked COMPLETED through an update is stored as "completed";
      once the list is refetched it still counts among the active tasks,
      although it no longer counts as pending. */
  lemma CompletedRowCountsActive(row: TaskService.TaskRow, now: string)
    ensures var patch := TaskService.TaskPatch(None, None, Some(TaskStatus.Completed.Name()), None, None, None);
            var stored := TaskService.ApplyUpdate(row, TaskService.BuildUpdate(patch, now));
            var fetched := TaskService.GetTasks(Some([stored]));
            && |fetched| == 1
            && ActiveCount(fetched) == 1
            && !IsOpen(fetched[0])
  {
    var patch := TaskService.TaskPatch(None, None, Some(TaskStatus.Completed.Name()), None, None, None);
    var stored := TaskService.ApplyUpdate(row, TaskService.BuildUpdate(patch, now));
    assert stored.status[0] == 'c';
    var fetched := TaskService.GetTasks(Some([stored]));
    FilterAll(fetched, IsActive);
  }

  /** "Recent Activity": the first five log entries, in list order. */
  function RecentActivity(logs: seq<ActivityLog>): (r: seq<ActivityLog>)
    ensures |r| == if |logs| < 5 then |logs| else 5
    ensures r == logs[..|r|]
  {
    Take(logs, 5)
  }

  /** A non-BOSS user's "My Tasks" card: the first three pending tasks. */
  function TaskPreview(tasks: seq<Task>, user: Option<User>): (r: seq<Task>)
    ensures |r| == if |PendingTasks(tasks, user)| < 3 then |PendingTasks(tasks, user)| else 3
    ensures r == PendingTasks(tasks, user)[..|r|]
  {
    Take(PendingTasks(tasks, user), 3)
  }

  /** The "Review Requests" action is shown to BOSS when requests wait. */
  predicate ShowsReviewRequests(u: User, pendingCount: nat) {
    u.role == RoleBoss && pendingCount > 0
  }

  /** The figure behind the button is the length of `getPendingUsers`'
      answer: the button appears only for BOSS while some account awaits
      approval, and never when the query failed. */
  lemma ReviewRequestsNeedPendingRows(u: User, data: Option<seq<AuthService.Profile>>)
    ensures ShowsReviewRequests(u, |AuthService.GetPendingUsers(data)|)
            <==> u.role == RoleBoss && data.Some? && |data.value| > 0
  {
  }

  /** The author label of a log entry: "You" for the current user, else
      "User " and the first four characters of the author's id. */
  function AuthorLabel(log: ActivityLog, u: User): (r: string)
    ensures r == "You" <==> log.userId == u.id
    ensures log.userId != u.id ==> |r| == 5 + (if |log.userId| < 4 then |log.userId| else 4)
    ensures log.userId != u.id ==> r[..5] == "User " && r[5..] == log.userId[..|r| - 5]
  {
    if log.userId == u.id then "You" else "User " + Take(log.userId, 4)
  }
}
