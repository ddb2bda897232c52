/** The task list page: which tasks a signed-in user sees (a role rule
    combined with a search box and status and priority selectors), who is
    offered the delete button, and the page's own dialog state. */
module TaskList {
  import opened JsBuiltins
  import opened Types
  import opened ActivityService
  import TaskService
  import UseTaskStore

  /** The sentinel both selectors use for "no restriction". */
  const All: string := "ALL"

  /** `user?.id || ""`: the id the page acts and matches with. */
  function ActingId(user: Option<User>): Id {
    if user.Some? then user.value.id else ""
  }

  predicate IsBoss(user: Option<User>) {
    user.Some? && user.value.role == RoleBoss
  }

  /** The role rule: BOSS skips it; anyone else (a missing user included)
      needs to be an assignee or the creator. */
  predicate RoleAllows(user: Option<User>, t: Task) {
    IsBoss(user) || ActingId(user) in t.assigneeIds || (user.Some? && t.creatorId == user.value.id)
  }

  /** An empty search matches everything; otherwise the lower-cased term
      must occur in the lower-cased title or description. */
  predicate SearchMatches(search: string, t: Task) {
    search == "" ||
    Includes(ToLower(t.title), ToLower(search)) ||
    Includes(ToLower(t.description), ToLower(search))
  }

  predicate StatusMatches(filterStatus: string, t: Task) {
    filterStatus == All || t.status == filterStatus
  }

  predicate PriorityMatches(filterPriority: string, t: Task) {
    filterPriority == All || t.priority == filterPriority
  }

  predicate Keep(user: Option<User>, search: string, filterStatus: string, filterPriority: string, t: Task) {
    RoleAllows(user, t) && SearchMatches(search, t) &&
    StatusMatches(filterStatus, t) && PriorityMatches(filterPriority, t)
  }

  /** `filteredTasks`: one stable filter over the store's task list. */
  function FilteredTasks(user: Option<User>, tasks: seq<Task>, search: string,
                         filterStatus: string, filterPriority: string): (r: seq<Task>)
    ensures |r| <= |tasks|
    ensures forall i :: 0 <= i < |r| ==> RoleAllows(user, r[i]) && SearchMatches(search, r[i])
    ensures forall i :: 0 <= i < |r| ==> StatusMatches(filterStatus, r[i]) && PriorityMatches(filterPriority, r[i])
  {
    Filter(tasks, (t: Task) => Keep(user, search, filterStatus, filterPriority, t))
  }

  /** The result holds exactly the tasks passing all four rules, each as
      often as in the input and in the input's order. */
  lemma FilteredTasksSpec(user: Option<User>, tasks: seq<Task>, search: string,
                          filterStatus: string, filterPriority: string)
    ensures var r := FilteredTasks(user, tasks, search, filterStatus, filterPriority);
            && IsSubsequence(r, tasks)
            && (forall t :: t in r <==> t in tasks && Keep(user, search, filterStatus, filterPriority, t))
            && (forall t: Task :: Keep(user, search, filterStatus, filterPriority, t) ==> multiset(r)[t] == multiset(tasks)[t])
  {
    FilterSpec(tasks, (t: Task) => Keep(user, search, filterStatus, filterPriority, t));
  }

  /** A user who is not BOSS sees a task only as assignee or creator. */
  lemma NonBossSeesOwnTasks(u: User, tasks: seq<Task>, search: string, filterStatus: string,
                            filterPriority: string, t: Task)
    requires u.role != RoleBoss
    requires t in FilteredTasks(Some(u), tasks, search, filterStatus, filterPriority)
    ensures u.id in t.assigneeIds || u.id == t.creatorId
  {
    FilteredTasksSpec(Some(u), tasks, search, filterStatus, filterPriority);
  }

  /** For BOSS the role rule is skipped: only search, status and priority
      decide. */
  lemma BossSkipsRoleRule(u: User, tasks: seq<Task>, search: string, filterStatus: string,
                          filterPriority: string, t: Task)
    requires u.role == RoleBoss && t in tasks
    ensures t in FilteredTasks(Some(u), tasks, search, filterStatus, filterPriority) <==>
              SearchMatches(search, t) && StatusMatches(filterStatus, t) && PriorityMatches(filterPriority, t)
  {
    FilteredTasksSpec(Some(u), tasks, search, filterStatus, filterPriority);
  }

  /** BOSS with both selectors on ALL and an empty search sees the list
      unchanged. */
  lemma BossUnfilteredIsIdentity(u: User, tasks: seq<Task>)
    requires u.role == RoleBoss
    ensures FilteredTasks(Some(u), tasks, "", All, All) == tasks
  {
    FilterAll(tasks, (t: Task) => Keep(Some(u), "", All, All, t));
  }

  /** Any user with both selectors on ALL and an empty search sees exactly
      the tasks the role rule allows, in order. */
  lemma UnfilteredIsRoleView(user: Option<User>, tasks: seq<Task>)
    ensures FilteredTasks(user, tasks, "", All, All) == Filter(tasks, (t: Task) => RoleAllows(user, t))
  {
    var p := (t: Task) => Keep(user, "", All, All, t);
    var q := (t: Task) => RoleAllows(user, t);
    assert forall t :: p(t) == q(t);
    FilterSame(tasks, p, q);
  }

  /** The search and the two selectors, without the role rule. */
  predicate Narrows(search: string, filterStatus: string, filterPriority: string, t: Task) {
    SearchMatches(search, t) && StatusMatches(filterStatus, t) && PriorityMatches(filterPriority, t)
  }

  /** The page's one filter is the role view narrowed by the search and the
      two selectors, so what the search and the selectors leave is always a
      part of the role view, in its order. */
  lemma FilteredIsNarrowedRoleView(user: Option<User>, tasks: seq<Task>, search: string,
                                   filterStatus: string, filterPriority: string)
    ensures var view := Filter(tasks, (t: Task) => RoleAllows(user, t));
            && FilteredTasks(user, tasks, search, filterStatus, filterPriority)
               == Filter(view, (t: Task) => Narrows(search, filterStatus, filterPriority, t))
            && IsSubsequence(FilteredTasks(user, tasks, search, filterStatus, filterPriority), view)
  {
    var role := (t: Task) => RoleAllows(user, t);
    var narrow := (t: Task) => Narrows(search, filterStatus, filterPriority, t);
    var keep := (t: Task) => Keep(user, search, filterStatus, filterPriority, t);
    FilterFusion(tasks, role, narrow, keep);
    FilterSpec(Filter(tasks, role), narrow);
  }

  /** The search ignores case: upper-casing or lower-casing the term does not
      change what it matches. */
  lemma SearchIgnoresCase(search: string, t: Task)
    ensures SearchMatches(ToUpper(search), t) == SearchMatches(search, t)
    ensures SearchMatches(ToLower(search), t) == SearchMatches(search, t)
  {
    LowerIgnoresCase(search);
  }

  /** A search term that occurs in the title, in any mix of case, keeps the
      task. */
  lemma TitleHitMatches(search: string, t: Task, i: int)
    requires OccursAt(ToLower(t.title), ToLower(search), i)
    ensures SearchMatches(search, t)
  {
  }

  /** A needle whose first character never occurs in the text is not
      included in it. */
  lemma AbsentFirstCharNoMatch(hay: string, needle: string)
    requires |needle| > 0 && needle[0] !in hay
    ensures !Includes(hay, needle)
  {
  }

  /** Lower-casing a text without `c` in either case leaves it without `c`. */
  lemma LowerAvoids(s: string, c: char)
    requires 'a' <= c <= 'z' && c !in s && UpperChar(c) !in s
    ensures c !in ToLower(s)
  {
    forall i | 0 <= i < |s| ensures ToLower(s)[i] != c {
      assert s[i] != c && s[i] != UpperChar(c);
    }
  }

  /** "patrol" occurs at the start of "Patrol Sector A" once lower-cased. */
  lemma PatrolInTitle()
    ensures Includes(ToLower("Patrol Sector A"), ToLower("patrol"))
  {
    var low := ToLower("Patrol Sector A");
    assert ToLower("patrol") == "patrol";
    assert low[..6] == "patrol";
    assert OccursAt(low, "patrol", 0);
  }

  /** "patrol" does not occur in "Inventory Check", in any case. */
  lemma PatrolNotInTitle()
    ensures !Includes(ToLower("Inventory Check"), ToLower("patrol"))
  {
    var title := "Inventory Check";
    assert ToLower("patrol") == "patrol";
    assert 'p' !in title && 'P' !in title;
    LowerAvoids(title, 'p');
    AbsentFirstCharNoMatch(ToLower(title), "patrol");
  }

  /** "patrol" matches a task titled "Patrol Sector A" and no task titled
      "Inventory Check" with an empty description. */
  lemma PatrolMatches(t1: Task, t2: Task)
    requires t1.title == "Patrol Sector A"
    requires t2.title == "Inventory Check" && t2.description == ""
    ensures SearchMatches("patrol", t1) && !SearchMatches("patrol", t2)
  {
    PatrolInTitle();
    PatrolNotInTitle();
    AbsentFirstCharNoMatch(ToLower(t2.description), ToLower("patrol"));
  }

  /** Example: for BOSS, "patrol" finds "Patrol Sector A" but not
      "Inventory Check" (whose description is empty). */
  lemma PatrolExample(u: User, t1: Task, t2: Task)
    requires u.role == RoleBoss
    requires t1.title == "Patrol Sector A"
    requires t2.title == "Inventory Check" && t2.description == ""
    ensures FilteredTasks(Some(u), [t1, t2], "patrol", All, All) == [t1]
  {
    PatrolMatches(t1, t2);
    var p := (t: Task) => Keep(Some(u), "patrol", All, All, t);
    assert p(t1) && !p(t2);
    assert [t1, t2][1..] == [t2];
    assert Filter([t2], p) == [];
  }

  /** `user?.role === "BOSS" || user?.id === task.creatorId`. */
  predicate CanDelete(user: Option<User>, t: Task) {
    IsBoss(user) || (user.Some? && user.value.id == t.creatorId)
  }

  /** Whoever is offered delete also passes the role rule; an assignee who is
      neither BOSS nor the creator passes the role rule but is not offered
      delete. */
  lemma DeleteNarrowerThanView(user: Option<User>, t: Task)
    ensures CanDelete(user, t) ==> RoleAllows(user, t)
    ensures (user.Some? && user.value.role != RoleBoss && user.value.id in t.assigneeIds && user.value.id != t.creatorId)
            ==> RoleAllows(user, t) && !CanDelete(user, t)
  {
  }

  /** BOSS passes the role rule and is offered delete on every task. */
  lemma BossUnrestricted(u: User, t: Task)
    requires u.role == RoleBoss
    ensures RoleAllows(Some(u), t) && CanDelete(Some(u), t)
  {
  }

  /** A consequence of `getTasks` copying the database spelling: a task the
      service inserted with a priority (stored lower-cased) is, once fetched,
      dropped by the priority selector set to that same priority. */
  lemma FetchedPriorityMissesSelector(u: User, p: TaskPriority, title: string, description: string,
                                      creatorId: Id, assigneeIds: seq<Id>, id: Id, createdAt: string)
    requires u.role == RoleBoss
    ensures var ins := TaskService.InsertFor(title, description, creatorId, p.Name(), assigneeIds);
            var fetched := TaskService.GetTasks(Some([TaskService.Stored(ins, id, createdAt, createdAt)]));
            && |fetched| == 1
            && fetched[0].priority != p.Name()
            && FilteredTasks(Some(u), fetched, "", All, p.Name()) == []
  {
    var ins := TaskService.InsertFor(title, description, creatorId, p.Name(), assigneeIds);
    assert ins.priority[0] != p.Name()[0];
    var fetched := TaskService.GetTasks(Some([TaskService.Stored(ins, id, createdAt, createdAt)]));
    assert fetched[0].priority == ins.priority;
    FilterNone(fetched, (t: Task) => Keep(Some(u), "", All, p.Name(), t));
  }

  /** The page's own state: whether the task dialog is open, and the task
      it edits. */
  class TasksPage {
    var isDialogOpen: bool
    var editingTask: Option<Task>

    constructor ()
      ensures !isDialogOpen && editingTask == None
    {
      isDialogOpen := false;
      editingTask := None;
    }

    /** `handleEdit`: open the dialog on `task`. */
    method HandleEdit(task: Task)
      modifies this
      ensures isDialogOpen && editingTask == Some(task)
    {
      editingTask := Some(task);
      isDialogOpen := true;
    }

    /** `handleCreate`: open the dialog with no task to edit. */
    method HandleCreate()
      modifies this
      ensures isDialogOpen && editingTask == None
    {
      editingTask := None;
      isDialogOpen := true;
    }

    /** The dialog's `onClose`: close it, keeping the last edited task. */
    method CloseDialog()
      modifies this
      ensures !isDialogOpen && editingTask == old(editingTask)
    {
      isDialogOpen := false;
    }

    /** `handleDelete`: after the confirmation (`confirmed`, the user's
        answer) the store deletes on behalf of `user?.id || ""`. */
    method HandleDelete(store: UseTaskStore.TaskStore, feed: ActivityFeed, user: Option<User>, taskId: Id,
                        confirmed: bool, foundTitle: Option<string>, serviceFailed: bool,
                        refetchedLogs: seq<ActivityLog>)
      modifies store, feed
      ensures var deleted := confirmed && !serviceFailed;
              && store.tasks == (if deleted then UseTaskStore.RemoveTask(old(store.tasks), taskId) else old(store.tasks))
              && store.logs == (if deleted then refetchedLogs else old(store.logs))
              && feed.entries == old(feed.entries) + (if deleted then TaskService.DeleteTask(taskId, ActingId(user), foundTitle) else [])
              && store.isLoading == old(store.isLoading)
    {
      if confirmed {
        store.DeleteTask(taskId, ActingId(user), feed, foundTitle, serviceFailed, refetchedLogs);
      }
    }

    /** `handleStatusChange`: the store updates only the status, on behalf of
        `user?.id || ""`. */
    method HandleStatusChange(store: UseTaskStore.TaskStore, feed: ActivityFeed, user: Option<User>,
                              taskId: Id, newStatus: TaskStatus, updated: Option<TaskService.TaskRow>,
                              refetched: Option<seq<TaskService.TaskRow>>, refetchedLogs: seq<ActivityLog>)
      modifies store, feed
      ensures var patch := TaskService.TaskPatch(None, None, Some(newStatus.Name()), None, None, None);
              var step := TaskService.UpdateTask(taskId, patch, ActingId(user), updated);
              && feed.entries == old(feed.entries) + step.logged
              && store.tasks == (if updated.Some? then TaskService.GetTasks(refetched) else old(store.tasks))
              && store.logs == (if updated.Some? then refetchedLogs else old(store.logs))
              && store.isLoading == (if updated.Some? then false else old(store.isLoading))
    {
      var patch := TaskService.TaskPatch(None, None, Some(newStatus.Name()), None, None, None);
      store.UpdateTask(taskId, patch, ActingId(user), feed, updated, refetched, refetchedLogs);
    }
  }
}
