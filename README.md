# Task board: decision logic in Dafny

This project models the rules of a small task-management web application for a team with a BOSS and its USERs, who register, are approved, log in, and create, assign, update and delete tasks while an activity log records what happened. The backend (an authentication provider, a `tasks` table, a `profiles` table) and the activity service are oracles. Every operation receives the answer they gave as a parameter:

- `Option` for a row or a list that may be missing;
- `Settled` for a call that may throw.

The model covers:

- **Records** (`types.dfy`): the user, task and activity-log records and the three enumerations.
- **Task service** (`task_service.dfy`): row-to-task mapping, the insert a creation sends, the partial update an edit sends, and the one activity entry each mutation records.
- **Client stores** (`task_store.dfy`, `auth_store.dfy`): the task store and the session store, as classes whose actions overwrite their fields.
- **Authentication service** (`auth_service.dfy`): the login approval gate, the two role mappings, registration, the user listings and approval.
- **Screens and components**:
  - the task list's visibility filter and delete rule (`task_list.dfy`);
  - the dashboard overview's derived figures (`overview.dfy`);
  - the first-login password dialog (`change_password_dialog.dfy`);
  - the approvals screen (`approvals_page.dfy`);
  - the notification bell (`notification_bell.dfy`);
  - the dashboard frame (`dashboard_layout.dfy`);
  - the create/edit task form (`task_dialog.dfy`).

The methods of the two stores, the tasks page, the approvals page and the task form are proved against the service functions: their contracts state the new state in terms of what those functions return. The notification bell, the dashboard frame and the password dialog's validation rest on pure functions of their own, and `UseAuthStore.AuthStore.ChangePassword` takes the provider's answer directly. Lemmas state what the functions promise: visibility, round trips, which entries are logged, and the gate.

`js_builtins.dfy` holds the JavaScript built-ins the rules are written with, each with its own proved contract:

- truthiness and `||`;
- ASCII `toLowerCase`/`toUpperCase`;
- `includes`;
- `filter`, with lemmas on subsequence, multiplicity, fusion and monotonicity;
- `slice(0, n)`;
- the two `split` idioms.

Quirks of the code are modelled as written. Lemmas show their consequences:

- `createTask` stores the status as "PENDING" and the priority in lower case. `updateTask` stores a changed status and priority in lower case. `getTasks` copies both as stored. So a fetched task escapes the upper-case priority selector (`TaskList.FetchedPriorityMissesSelector`), and a task marked COMPLETED through a status change still counts as active (`Overview.CompletedRowCountsActive`). A newly created task keeps "PENDING" and passes that status selector.
- Login and the user listing spell "admin" differently (`AuthService.RoleSpellingMismatch`).
- A restored session skips the approval gate (`AuthService.RestoredSessionSkipsGate`, `AuthService.RestoredPendingAdminIsBoss`).
- A missing profile row leaves the session open (`AuthService.MissingProfileKeepsSession`).
- `approveUser` discards the update's error, so a refused update is still reported as an approval, while the reloaded list keeps offering the account (`ApprovalsPage.Approvals.HandleApprove`, `AuthService.UnappliedApprovalKeepsPending`).

## Model

| member | source | states |
|---|---|---|
| Types.UserRole.Name | src/types/index.ts:2 | every role is spelled BOSS, USER or PENDING |
| Types.TaskStatus.Name | src/types/index.ts:16 | every status is spelled PENDING, IN_PROGRESS or COMPLETED, in upper case |
| Types.TaskPriority.Name | src/types/index.ts:17 | every priority is spelled HIGH, MEDIUM or LOW, in upper case |
| Types.ParseStatus | src/types/index.ts:16 | a string is a status exactly when it is one of the three names, and reads back as the enum of that name |
| Types.ParsePriority | src/types/index.ts:17 | a string is a priority exactly when it is one of the three names, and reads back as the enum of that name |
| Types.EnumNamesExact | src/types/index.ts:2-17 | the role names are distinct, and parsing inverts the status and priority names |
| ActivityService.ActivityFeed.constructor | src/services/taskService.ts:69 | the activity feed starts empty |
| ActivityService.ActivityFeed.Append | src/services/taskService.ts:69 | logging appends the entries after all earlier ones and changes nothing else |
| TaskService.AtMostOneAssignee | src/services/taskService.ts:22 | a mapped task has `[assigned_to]` as assignees when that is set and non-empty, else none, so never more than one; create and fetch agree |
| TaskService.GetTasks | src/services/taskService.ts:7-27 | a failed query gives the empty list; otherwise one task per row in row order, status and priority as stored, due date from `updated_at` |
| TaskService.GetTasksSingleAssignee | src/services/taskService.ts:13-27 | no fetched task has more than one assignee |
| TaskService.InsertFor | src/services/taskService.ts:41-49 | the insert has status PENDING, the lower-cased priority, the creator, and the first requested assignee exactly when it is non-empty |
| TaskService.CreateTask | src/services/taskService.ts:53-70 | a failed insert throws "Failed to create task" and logs nothing; a successful one returns the upper-cased row and logs one "created task" entry for the creator |
| TaskService.CreateRoundTrip | src/services/taskService.ts:44-62 | a stored insert reads back with status PENDING, the requested priority in canonical spelling, the creator, the title and at most the first assignee; one entry is logged |
| TaskService.UpdateWritesOnlyTruthy | src/services/taskService.ts:75-82 | an update writes only truthy title, description, status and priority (status and priority lower-cased); a non-empty assignee list writes its first id; an empty or absent list does not unassign; the due date is never written; `updated_at` always is |
| TaskService.UpdateTask | src/services/taskService.ts:73-114 | an update succeeds exactly when the database returned the row; success returns that row with status and priority upper-cased and logs one entry; failure throws "Failed to update task" and logs nothing |
| TaskService.StatusChangeRoundTrip | src/services/taskService.ts:78-97 | a status written lower-cased reads back, in the task `updateTask` returns, as the same enum name |
| TaskService.UpdateLogsExactlyOne | src/services/taskService.ts:91-111 | a failed update throws and logs nothing; a successful one logs exactly one entry by the user about the task: the status message when a status was given, else the update message |
| TaskService.MessagesDiffer | src/services/taskService.ts:107-111 | the status-change message is never the generic update message |
| TaskService.DeleteTask | src/services/taskService.ts:116-124 | a "deleted task" entry is logged exactly when the title lookup found the row |
| UseTaskStore.RemoveTaskSpec | src/store/useTaskStore.ts:59 | local removal drops every task with the id and keeps every other task, as often as before and in order |
| UseTaskStore.RemoveAbsentTask | src/store/useTaskStore.ts:59 | removing an id no task has leaves the list unchanged |
| UseTaskStore.TaskStore.constructor | src/store/useTaskStore.ts:19-21 | the store starts with no tasks, no logs and not loading |
| UseTaskStore.TaskStore.FetchTasks | src/store/useTaskStore.ts:23-31 | the tasks become what `getTasks` returns, the logs are kept, and loading ends false |
| UseTaskStore.TaskStore.FetchLogs | src/store/useTaskStore.ts:66-69 | the logs become the activity service's answer and nothing else changes |
| UseTaskStore.TaskStore.CreateTask | src/store/useTaskStore.ts:33-42 | the service is called with the creator id; on success tasks and logs are refetched; on failure the error propagates with both lists kept; loading ends false on both paths |
| UseTaskStore.TaskStore.UpdateTask | src/store/useTaskStore.ts:44-53 | on success tasks and logs are refetched; a failure is swallowed and nothing in the store changes |
| UseTaskStore.TaskStore.DeleteTask | src/store/useTaskStore.ts:55-64 | after the service call the task is removed locally and only the logs are refetched; a failure is swallowed and nothing changes |
| TaskList.FilteredTasksSpec | src/app/dashboard/tasks/page.tsx:58-79 | the list holds exactly the tasks passing the role rule, search, status and priority, each as often as in the input and in input order |
| TaskList.NonBossSeesOwnTasks | src/app/dashboard/tasks/page.tsx:60-64 | a user who is not BOSS sees a task only as an assignee or its creator |
| TaskList.BossSkipsRoleRule | src/app/dashboard/tasks/page.tsx:60 | for BOSS a task is listed exactly when search, status and priority accept it |
| TaskList.BossUnfilteredIsIdentity | src/app/dashboard/tasks/page.tsx:58-79 | BOSS with both selectors on ALL and an empty search sees the list unchanged |
| TaskList.UnfilteredIsRoleView | src/app/dashboard/tasks/page.tsx:58-79 | with both selectors on ALL and an empty search, any user sees exactly the tasks the role rule allows |
| TaskList.FilteredTasks | src/app/dashboard/tasks/page.tsx:58-79 | every listed task passes the role rule, the search and both selectors, and the list is no longer than the store's |
| TaskList.FilteredIsNarrowedRoleView | src/app/dashboard/tasks/page.tsx:58-79 | the listed tasks are the role view filtered by the search and the selectors, so they are always a subsequence of the role view |
| TaskList.SearchIgnoresCase | src/app/dashboard/tasks/page.tsx:67-70 | changing the case of the search term changes nothing |
| TaskList.TitleHitMatches | src/app/dashboard/tasks/page.tsx:68-69 | a term found in the lower-cased title keeps the task |
| TaskList.PatrolExample | src/app/dashboard/tasks/page.tsx:67-70 | the search "patrol" keeps "Patrol Sector A" and drops "Inventory Check" |
| TaskList.DeleteNarrowerThanView | src/app/dashboard/tasks/page.tsx:163 | whoever may delete a task may see it; an assignee who is neither BOSS nor creator sees it but may not delete it |
| TaskList.CanDelete | src/app/dashboard/tasks/page.tsx:163 | the delete button is offered to BOSS and to the task's creator |
| TaskList.BossUnrestricted | src/app/dashboard/tasks/page.tsx:163 | BOSS sees and may delete every task |
| TaskList.FetchedPriorityMissesSelector | src/app/dashboard/tasks/page.tsx:76 | a created task, once fetched, is dropped by the selector set to its own priority |
| TaskList.TasksPage.constructor | src/app/dashboard/tasks/page.tsx:25-26 | the dialog starts closed with no task to edit |
| TaskList.TasksPage.HandleEdit | src/app/dashboard/tasks/page.tsx:37-40 | editing opens the dialog on the task |
| TaskList.TasksPage.HandleCreate | src/app/dashboard/tasks/page.tsx:42-45 | creating opens the dialog with no task |
| TaskList.TasksPage.CloseDialog | src/app/dashboard/tasks/page.tsx:25 | closing the dialog keeps the last edited task |
| TaskList.TasksPage.HandleDelete | src/app/dashboard/tasks/page.tsx:47-51 | a confirmed delete runs the store's delete on behalf of the user's id, or the empty id without a user; an unconfirmed one changes nothing |
| TaskList.TasksPage.HandleStatusChange | src/app/dashboard/tasks/page.tsx:53-55 | a status change sends a patch holding only the status, on behalf of the user's id, or the empty id without a user; on success both lists are refetched and loading ends, on failure the store is left as it was |
| Overview.MyTasksSpec | src/app/dashboard/page.tsx:47 | a task is one of mine exactly when my id is among its assignees, whatever my role or who created it |
| Overview.PendingTasksSpec | src/app/dashboard/page.tsx:48 | the pending tasks are exactly my tasks with status PENDING or IN_PROGRESS, in order, and none is COMPLETED |
| Overview.ActiveCountSplits | src/app/dashboard/page.tsx:81 | active tasks and COMPLETED tasks add up to all tasks |
| Overview.ActiveCount | src/app/dashboard/page.tsx:81 | the active figure counts the tasks not COMPLETED and never exceeds the number of tasks |
| Overview.PendingWithinActive | src/app/dashboard/page.tsx:48-95 | the pending figure never exceeds the active figure |
| Overview.CompletedRowCountsActive | src/app/dashboard/page.tsx:81 | a task marked COMPLETED and refetched still counts as active, though no longer as pending |
| Overview.RecentActivity | src/app/dashboard/page.tsx:110 | recent activity is the first min(5, n) log entries in order |
| Overview.ShowsReviewRequests | src/app/dashboard/page.tsx:56-69 | the Review Requests button is shown to BOSS while the pending figure is above zero |
| Overview.ReviewRequestsNeedPendingRows | src/app/dashboard/page.tsx:37-69 | with the figure taken from `getPendingUsers`, the button shows exactly for BOSS when the query returned at least one row, never after a failed query |
| Overview.TaskPreview | src/app/dashboard/page.tsx:154 | the preview is the first min(3, n) pending tasks in order |
| Overview.AuthorLabel | src/app/dashboard/page.tsx:116 | the label is "You" exactly for the current user, else "User " followed by the first four characters of the id |
| AuthService.SessionRole | src/services/authService.ts:40 | a role that upper-cases to ADMIN is BOSS, anything else USER, never PENDING |
| AuthService.ListedRole | src/services/authService.ts:118 | exactly the role "admin" is BOSS, anything else USER, never PENDING |
| AuthService.DisplayName | src/services/authService.ts:38 | the name is the metadata name, else the username, else "User", never empty |
| AuthService.LoginOutcomes | src/services/authService.ts:10-46 | login gives null exactly when sign-in fails or there is no profile; it refuses with "Account is pending approval." exactly when the gate fails; it yields a user exactly when the gate passes; the session stays open except after a refusal or a failed sign-in |
| AuthService.Login | src/services/authService.ts:10-46 | the session is open only after a sign-in; a returned user has the signed-in id and a profile that passes the approval gate |
| AuthService.LoginUser | src/services/authService.ts:35-43 | a logged-in user has the provider's id and the display name, is BOSS exactly for an ADMIN role in any case, is never PENDING, and is not on a first login |
| AuthService.AdminBypassesGate | src/services/authService.ts:30 | the role "admin" passes the gate whatever its status, and logs in as BOSS |
| AuthService.RoleSpellingMismatch | src/services/authService.ts:30-118 | an active "ADMIN" profile logs in as BOSS but is listed as USER; a pending "Admin" profile would map to BOSS but is refused |
| AuthService.Register | src/services/authService.ts:52-88 | a provider error is rethrown; a missing user throws "Registration failed"; otherwise the user is PENDING, on a first login, with the given name and email |
| AuthService.GetPendingUsers | src/services/authService.ts:90-107 | a failed query gives none; otherwise one PENDING first-login user per row, in row order |
| AuthService.GetAllUsers | src/services/authService.ts:109-121 | a failed query gives none; otherwise one user per row, BOSS exactly for the role "admin", never PENDING or on a first login |
| AuthService.GetCurrentUser | src/services/authService.ts:123-141 | no session gives null; otherwise the session's user, BOSS exactly when the profile's role upper-cases to ADMIN, never PENDING |
| AuthService.LoginAgreesWithCurrentUser | src/services/authService.ts:35-140 | on the same records login and session restore give the same id, name, username and role |
| AuthService.RestoredSessionSkipsGate | src/services/authService.ts:123-141 | an account refused at login is restored from its session with its mapped role, never PENDING |
| AuthService.RestoredPendingAdminIsBoss | src/services/authService.ts:30-138 | a pending profile spelled "ADMIN" is refused at login but restored as BOSS |
| AuthService.MissingProfileKeepsSession | src/services/authService.ts:28 | with no profile row, login yields no user but does not sign out, and the session restores as a USER |
| AuthService.ApproveUser | src/services/authService.ts:144-149 | approval sets status "active" on the rows with that id and leaves every other row as it was |
| AuthService.ApprovalUnlocksLogin | src/services/authService.ts:144-149 | after approval the account passes the login gate, is not among the pending rows, and is among the active rows |
| AuthService.ApprovalTouchesOneAccount | src/services/authService.ts:147-148 | approval leaves every other account's row unchanged |
| AuthService.ProfilesTable.constructor | src/services/authService.ts:144-149 | the profiles table starts with the given rows |
| AuthService.ProfilesTable.Approve | src/services/authService.ts:144-149 | approving writes the approval into the table; an update the database refuses returns normally, because its error is discarded, and leaves the table as it was |
| AuthService.PendingListExcludesApproved | src/services/authService.ts:90-106 | the pending list read after an approval never contains the approved account |
| AuthService.UnappliedApprovalKeepsPending | src/services/authService.ts:90-106 | an account still awaiting approval in the table is offered by the pending list read from it, as after a refused update |
| UseAuthStore.AfterPasswordChange | src/store/useAuthStore.ts:81 | the first-login flag is cleared exactly when the id is the current user's; otherwise the user is kept |
| UseAuthStore.PasswordChangeSettles | src/store/useAuthStore.ts:81 | after a change for the current user the flag is off, and a second change leaves the user as it is |
| UseAuthStore.AuthStore.constructor | src/store/useAuthStore.ts:22-24 | the session starts with no user, loading, and no error |
| UseAuthStore.AuthStore.CheckSession | src/store/useAuthStore.ts:26-38 | the user becomes what `getCurrentUser` makes of the session and profile, present exactly with a session; a throw keeps the user; loading ends false |
| UseAuthStore.AuthStore.Login | src/store/useAuthStore.ts:40-57 | it returns true and stores the user exactly when the service `login` returns one; a null answer sets "Invalid credentials or pending approval"; a throw, including the service's refusal of an unapproved account, sets "Login failed"; both keep the user; the error is cleared first; loading ends false |
| UseAuthStore.AuthStore.Logout | src/store/useAuthStore.ts:59-62 | after `signOut` returns the user is emptied; a throw propagates and leaves the user; nothing else changes |
| UseAuthStore.AuthStore.Register | src/store/useAuthStore.ts:64-74 | the error is cleared; a failure of the service `register` sets "Registration failed" and propagates its reason, which happens exactly when the provider gives no user id; the user is not stored; loading ends false |
| UseAuthStore.AuthStore.ChangePassword | src/store/useAuthStore.ts:76-86 | a successful change clears the first-login flag of the current user with that id; a failure propagates and changes nothing; loading ends false |
| ChangePasswordDialog.SubmitError | src/components/change-password-dialog.tsx:20-28 | entries that differ report the mismatch; matching entries under six characters report the length; matching entries of six or more pass |
| ChangePasswordDialog.MismatchReportedFirst | src/components/change-password-dialog.tsx:20-28 | a short mismatched password reports the mismatch, not the length |
| ChangePasswordDialog.Shown | src/components/change-password-dialog.tsx:14 | the dialog renders only for a user on a first login |
| ChangePasswordDialog.PasswordDialog.constructor | src/components/change-password-dialog.tsx:10-12 | both entries and the error start empty |
| ChangePasswordDialog.PasswordDialog.HandleSubmit | src/components/change-password-dialog.tsx:16-38 | the store is asked to change the password exactly when validation passes, else the validation message is shown and the store is untouched; a failed change shows "Failed to update password"; a successful one hides the dialog |
| ApprovalsPage.Approvals.constructor | src/app/dashboard/approvals/page.tsx:14-15 | the page starts with no pending users and no confirmation |
| ApprovalsPage.Approvals.ShowsConfirmation | src/app/dashboard/approvals/page.tsx:40 | the confirmation view is shown exactly while an approved name is held |
| ApprovalsPage.Approvals.LoadPending | src/app/dashboard/approvals/page.tsx:25-28 | the list becomes what `getPendingUsers` returns |
| ApprovalsPage.Approvals.RunGate | src/app/dashboard/approvals/page.tsx:17-23 | a logged-in user who is not BOSS is sent to /dashboard and the list is not loaded; otherwise the list is loaded |
| ApprovalsPage.Approvals.HandleApprove | src/app/dashboard/approvals/page.tsx:30-38 | an approval that returns shows the approved name and reloads the list; when the update took effect the reloaded list lacks the account; when its discarded error means it did not, the table is unchanged and the reloaded list still offers an account that was awaiting approval; a throw changes nothing; it touches no activity feed |
| ApprovalsPage.Approvals.Done | src/app/dashboard/approvals/page.tsx:56 | Done dismisses the confirmation |
| NotificationBell.UnreadCountSpec | src/components/notification-bell.tsx:27-28 | the unread count is at most the number of entries, and is zero exactly when no entry is later than the read time |
| NotificationBell.UnreadCountFalls | src/components/notification-bell.tsx:27-34 | a later read time never raises the unread count |
| NotificationBell.PanelAuthor | src/components/notification-bell.tsx:55 | an entry is labelled "You" exactly when it is the current user's, else "User" |
| NotificationBell.PanelEntries | src/components/notification-bell.tsx:52 | the panel lists the first min(10, n) entries in order |
| NotificationBell.Bell.constructor | src/components/notification-bell.tsx:13-15 | the bell starts closed with nothing unread, read as of mount time |
| NotificationBell.Bell.Recompute | src/components/notification-bell.tsx:25-29 | the unread count becomes the number of entries later than the read time |
| NotificationBell.Bell.ShowsBadge | src/components/notification-bell.tsx:43 | the red dot is shown exactly while the unread count is above zero |
| NotificationBell.Bell.HandleOpen | src/components/notification-bell.tsx:31-37 | opening marks everything read as of now with count 0; closing only closes |
| NotificationBell.Bell.OpenThenRecompute | src/components/notification-bell.tsx:25-37 | after opening at time now, a log with nothing later than now leaves the count at 0 and no badge |
| DashboardLayout.VisibleNavByRole | src/app/dashboard/layout.tsx:56-93 | BOSS sees Overview, Approvals and Tasks; USER sees Overview and Tasks; PENDING sees nothing |
| DashboardLayout.ApprovalsOnlyForBoss | src/app/dashboard/layout.tsx:67 | Approvals is shown exactly to BOSS |
| DashboardLayout.AtMostOneActive | src/app/dashboard/layout.tsx:94 | the hrefs differ, so at most one entry is highlighted |
| DashboardLayout.HeaderTitle | src/app/dashboard/layout.tsx:182 | the title is the text after the last '/'; it is "Dashboard" exactly when that text is empty, that is for an empty path or one ending in '/'; it is never empty and never holds a '/' |
| DashboardLayout.TasksPageTitle | src/app/dashboard/layout.tsx:182 | the tasks page is titled "tasks" |
| DashboardLayout.TrailingSlashTitle | src/app/dashboard/layout.tsx:182 | a path ending in '/' is titled "Dashboard" |
| DashboardLayout.RedirectTarget | src/app/dashboard/layout.tsx:38-42 | the layout redirects to /login exactly when loading is over and there is no user |
| DashboardLayout.RedirectOnlyBehindSpinner | src/app/dashboard/layout.tsx:38-50 | when it redirects, only the spinner is shown; when the frame is shown, there is a user and no redirect |
| DashboardLayout.ToggledTheme | src/app/dashboard/layout.tsx:52-54 | "dark" becomes "light" and anything else becomes "dark" |
| DashboardLayout.ToggleTwice | src/app/dashboard/layout.tsx:52-54 | toggling twice restores "dark" or "light" |
| DashboardLayout.Layout.constructor | src/app/dashboard/layout.tsx:31-32 | the layout starts with the given theme and the sidebar closed |
| DashboardLayout.Layout.ToggleTheme | src/app/dashboard/layout.tsx:52-54 | the theme becomes the toggled theme and the sidebar is unchanged |
| DashboardLayout.Layout.OpenSidebar | src/app/dashboard/layout.tsx:178 | the menu button opens the sidebar |
| DashboardLayout.Layout.FollowMobileLink | src/app/dashboard/layout.tsx:153 | following a mobile link closes the sidebar |
| TaskDialog.AssigneeList | src/components/task-dialog.tsx:70 | the assignee list is empty exactly for "", else the one chosen id |
| TaskDialog.Renders | src/components/task-dialog.tsx:88 | a closed dialog renders nothing |
| TaskDialog.DateField | src/components/task-dialog.tsx:46 | the date field is the longest prefix without 'T' |
| TaskDialog.AssigneeRoundTrip | src/components/task-dialog.tsx:47-70 | a task with at most one non-empty assignee submits its assignees unchanged |
| TaskDialog.FetchedAssigneeRoundTrip | src/components/task-dialog.tsx:47-70 | every fetched task submits its assignees unchanged |
| TaskDialog.EditPatch | src/components/task-dialog.tsx:65-71 | an edit sends title, description, priority, due date and assignee list, never a status |
| TaskDialog.Form.constructor | src/components/task-dialog.tsx:29-35 | the form starts empty with priority MEDIUM |
| TaskDialog.Form.OpenEffect | src/components/task-dialog.tsx:37-56 | when open, the users are loaded and the fields are prefilled from the edited task or reset with priority MEDIUM; when closed, nothing changes |
| TaskDialog.Form.HandleSubmit | src/components/task-dialog.tsx:59-86 | with no user or an unparsable date nothing happens; an edit updates as the current user and always closes, refetching both lists and ending loading on success and leaving the store as it was on failure; a create makes the current user the creator, closes exactly when the store call returns, refetches both lists then, and ends loading either way |

## Left out

- **Backend queries.** Supabase calls (`signInWithPassword`, `signUp`, `getSession`, `updateUser`, `signOut`, and the table `select`/`insert`/`update`/`delete`) are replaced by their answers as parameters.
  - The table filters of the two user listings are modelled (`AuthService.PendingRows`, `AuthService.ActiveRows`), as is the status write of approval.
  - Ordering, row-level security and the SQL trigger that creates profiles are not modelled.
- **src/lib/storage.ts** is not part of this model: local storage, JSON and a timer are I/O.
- **The activity service** is not part of this model beyond recording entries: `ActivityService.ActivityFeed` appends what the application asks to log. `fetchLogs` receives the service's answer as a parameter.
- **Clocks and dates.** `Date.now`, `toISOString`, `getTime` and the locale formatting are left out.
  - An activity timestamp is an integer (the source declares an ISO string and compares its `getTime` value).
  - Dates are opaque strings.
  - The ISO conversion of the form's due date is a parameter that is absent when the conversion throws.
- **Polling.** The bell's ten-second polling timer is left out: a fetch is an external event.
- **Case mapping** is ASCII only. JavaScript's full Unicode `toLowerCase`/`toUpperCase` and UTF-16 string lengths (the six-character password rule, `slice(0, 4)`) are not modelled.
- **Rendering.** JSX, CSS classes (including the header's `capitalize`), icons and the `next-themes` provider are left out. The confirmation prompt before a delete is a parameter. Router navigation is a returned path.
- **The dashboard's pending-count effect**, with its dynamic import and nested session check, is async plumbing and left out. `Overview.ShowsReviewRequests` takes the count as a parameter.
- **Concurrency.** Concurrent store actions do not interleave in the model. Unawaited calls (`loadPending` after an approval, `getAllUsers` when the form opens) complete in place.
- **Unmodelled fields.** The `attachments` and `avatarUrl` fields are left out, and so is the `password` field `changePassword` copies into the stored user. A null `role` in a profile row is not modelled.
- **Login's console output** and the store's `getPendingUsers` pass-through are left out. The latter is `AuthService.GetPendingUsers`.
- UseTaskStore.TaskStore.DeleteTask: whether the delete throws is a parameter, because a throw can only come from the network or the activity service, which are outside the model.
- UseAuthStore.AuthStore.Logout: whether `signOut` throws is a parameter, as is a throw of the network or client library in `CheckSession` and `Login`, because the client library is outside the model.
- UseTaskStore.TaskStore.FetchTasks: `getTasks` never throws in the model, because the source maps every query error to the empty list and only a network failure could throw.
