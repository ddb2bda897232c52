/** The application's records: users with a role, tasks with a status and a
    priority, and activity-log entries. */
module Types {
  import opened JsBuiltins

  /** Identifiers of users, tasks and log entries are opaque strings. */
  type Id = string

  /** The three roles; `Name` is the spelling the application compares with. */
  datatype UserRole = RoleBoss | RoleUser | RolePending {
    function Name(): (r: string)
      ensures r in RoleNames
    {
      match this
      case RoleBoss => "BOSS"
      case RoleUser => "USER"
      case RolePending => "PENDING"
    }
  }

  const RoleNames: set<string> := {"BOSS", "USER", "PENDING"}

  datatype TaskStatus = Pending | InProgress | Completed {
    function Name(): (r: string)
      ensures r in StatusNames && NoLowerLetters(r)
    {
      match this
      case Pending => "PENDING"
      case InProgress => "IN_PROGRESS"
      case Completed => "COMPLETED"
    }
  }

  const StatusNames: set<string> := {"PENDING", "IN_PROGRESS", "COMPLETED"}

  datatype TaskPriority = High | Medium | Low {
    function Name(): (r: string)
      ensures r in PriorityNames && NoLowerLetters(r)
    {
      match this
      case High => "HIGH"
      case Medium => "MEDIUM"
      case Low => "LOW"
    }
  }

  const PriorityNames: set<string> := {"HIGH", "MEDIUM", "LOW"}

  /** Reads a status spelling back into the enum; only the canonical
      spellings are accepted. */
  function ParseStatus(s: string): (r: Option<TaskStatus>)
    ensures r.Some? <==> s in StatusNames
    ensures r.Some? ==> r.value.Name() == s
  {
    if s == "PENDING" then Some(Pending)
    else if s == "IN_PROGRESS" then Some(InProgress)
    else if s == "COMPLETED" then Some(Completed)
    else None
  }

  /** Reads a priority spelling back into the enum. */
  function ParsePriority(s: string): (r: Option<TaskPriority>)
    ensures r.Some? <==> s in PriorityNames
    ensures r.Some? ==> r.value.Name() == s
  {
    if s == "HIGH" then Some(High)
    else if s == "MEDIUM" then Some(Medium)
    else if s == "LOW" then Some(Low)
    else None
  }

  /** Each enum is exactly its set of names: `Name` is one-to-one and
      `ParseX` inverts it. */
  lemma EnumNamesExact(r1: UserRole, r2: UserRole, s: TaskStatus, p: TaskPriority)
    ensures r1.Name() == r2.Name() ==> r1 == r2
    ensures ParseStatus(s.Name()) == Some(s)
    ensures ParsePriority(p.Name()) == Some(p)
  {
  }

  /** A user of the application. `email`, `username` and `createdAt` may be
      absent; the password is held by the authentication provider only.
      `username` is declared a string, but the user listings copy the
      profile's nullable `username` column as it is, so it may be null. */
  datatype User = User(
    id: Id,
    name: string,
    email: Option<string>,
    username: Option<string>,
    role: UserRole,
    isFirstLogin: bool,
    createdAt: Option<string>)

  /** A task. Its declared status and priority types are the enums above,
      but the value held is whatever spelling the database returned, so they
      are kept as strings. There is one creator and a list of assignees,
      which may be empty. Dates are opaque ISO strings. */
  datatype Task = Task(
    id: Id,
    title: string,
    description: string,
    status: string,
    priority: string,
    assigneeIds: seq<Id>,
    creatorId: Id,
    dueDate: string,
    createdAt: string,
    updatedAt: string)

  /** An activity-log entry: `userId`, `action` and `timestamp` are always
      present, `taskId` and `details` are optional. The timestamp is kept as
      the millisecond count the views compare. */
  datatype ActivityLog = ActivityLog(
    id: Id,
    taskId: Option<Id>,
    userId: Id,
    action: string,
    timestamp: int,
    details: Option<string>)
}
