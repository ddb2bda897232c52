/** The authentication service: the login gate on the account's approval
    status, the construction of `User` values from an authentication record
    and a `profiles` row, registration, the two user listings and approval.
    The authentication provider and the `profiles` table are oracles: each
    operation receives what they answered. */
module AuthService {
  import opened JsBuiltins
  import opened Types

  /** The authentication provider's user record. */
  datatype AuthUser = AuthUser(id: Id, email: Option<string>, metadataName: Option<string>, createdAt: string)

  /** A row of the `profiles` table; `role` and `status` are stored in lower
      case by the application ("admin", "user"; "pending", "active"). */
  datatype Profile = Profile(id: Id, username: Option<string>, role: string, status: string)

  /** What `login` settles to, and whether the provider's session is left
      open afterwards. */
  datatype LoginStep = LoginStep(result: Settled<Option<User>>, sessionOpen: bool)

  const PendingApproval := "Account is pending approval."
  const RegistrationFailed := "Registration failed"

  /** The role mapping of `login` and `getCurrentUser`: a role that
      upper-cases to "ADMIN" is BOSS, anything else USER. */
  function SessionRole(role: string): (r: UserRole)
    ensures r != RolePending
    ensures r == RoleBoss <==> ToUpper(role) == "ADMIN"
  {
    if ToUpper(role) == "ADMIN" then RoleBoss else RoleUser
  }

  /** The role mapping of `getAllUsers`: only the exact spelling "admin" is
      BOSS. */
  function ListedRole(role: string): (r: UserRole)
    ensures r != RolePending
    ensures r == RoleBoss <==> role == "admin"
  {
    if role == "admin" then RoleBoss else RoleUser
  }

  /** The login gate: an account passes when its role is "admin" or its
      status is "active". */
  predicate PassesGate(p: Profile) {
    p.role == "admin" || p.status == "active"
  }

  /** The display name: the provider's metadata name, else the profile's
      username, else "User". */
  function DisplayName(metadataName: Option<string>, username: Option<string>): (r: string)
    ensures r != ""
    ensures Truthy(metadataName) ==> r == metadataName.value
    ensures !Truthy(metadataName) && Truthy(username) ==> r == username.value
    ensures !Truthy(metadataName) && !Truthy(username) ==> r == "User"
  {
    OrElse(metadataName, OrElse(username, "User"))
  }

  /** `login`: a failed sign-in yields null; a missing profile row yields
      null without signing out; an unapproved non-admin account is signed
      out and refused; otherwise the user is built from both records. */
  function Login(signIn: Option<AuthUser>, profile: Option<Profile>): (r: LoginStep)
    ensures r.sessionOpen ==> signIn.Some?
    ensures r.result.Fulfilled? && r.result.value.Some? ==>
              signIn.Some? && profile.Some? && PassesGate(profile.value) && r.result.value.value.id == signIn.value.id
  {
    match signIn
    case None => LoginStep(Fulfilled(None), false)
    case Some(au) =>
      match profile
      case None => LoginStep(Fulfilled(None), true)
      case Some(p) =>
        if !PassesGate(p) then LoginStep(Rejected(PendingApproval), false)
        else
          var u := User(au.id, DisplayName(au.metadataName, p.username), Some(OrElse(au.email, "")),
                        Some(OrElse(p.username, "")), SessionRole(p.role), false, Some(au.createdAt));
          LoginStep(Fulfilled(Some(u)), true)
  }

  /** The three outcomes of `login`, each with its exact condition. */
  lemma LoginOutcomes(signIn: Option<AuthUser>, profile: Option<Profile>)
    ensures var step := Login(signIn, profile);
            && (step.result == Fulfilled(None) <==> signIn.None? || profile.None?)
            && (step.result == Rejected(PendingApproval) <==> signIn.Some? && profile.Some? && !PassesGate(profile.value))
            && (step.result.Rejected? ==> step.result.reason == PendingApproval)
            && ((step.result.Fulfilled? && step.result.value.Some?) <==> signIn.Some? && profile.Some? && PassesGate(profile.value))
            && (step.sessionOpen <==> signIn.Some? && (profile.None? || PassesGate(profile.value)))
  {
  }

  /** A logged-in user is BOSS or USER, never PENDING, is not on a first
      login, and carries the provider's id and the display name. */
  lemma LoginUser(au: AuthUser, p: Profile)
    requires PassesGate(p)
    ensures var step := Login(Some(au), Some(p));
            && step.result.Fulfilled? && step.result.value.Some?
            && var u := step.result.value.value;
            && u.id == au.id
            && u.role != RolePending
            && (u.role == RoleBoss <==> ToUpper(p.role) == "ADMIN")
            && !u.isFirstLogin
            && u.name == DisplayName(au.metadataName, p.username)
  {
  }

  /** The role "admin" passes the gate whatever the status, and logs in as
      BOSS. */
  lemma AdminBypassesGate(au: AuthUser, p: Profile)
    requires p.role == "admin"
    ensures Login(Some(au), Some(p)).result.Fulfilled?
    ensures Login(Some(au), Some(p)).result.value.Some?
    ensures Login(Some(au), Some(p)).result.value.value.role == RoleBoss
  {
    assert ToUpper(p.role) == "ADMIN";
  }

  /** The two role mappings disagree on an admin role not spelled in lower
      case: an active "ADMIN" profile logs in as BOSS but is listed as USER.
      A pending "Admin" profile is refused at login although its role would
      map to BOSS. */
  lemma RoleSpellingMismatch(au: AuthUser, id: Id, username: Option<string>)
    ensures var p := Profile(id, username, "ADMIN", "active");
            && Login(Some(au), Some(p)).result == Fulfilled(Some(Login(Some(au), Some(p)).result.value.value))
            && Login(Some(au), Some(p)).result.value.value.role == RoleBoss
            && ListedRole(p.role) == RoleUser
    ensures var q := Profile(id, username, "Admin", "pending");
            && SessionRole(q.role) == RoleBoss
            && Login(Some(au), Some(q)).result == Rejected(PendingApproval)
  {
    assert ToUpper("ADMIN") == "ADMIN";
    assert ToUpper("Admin") == "ADMIN";
    assert "ADMIN" != "admin" by { assert "ADMIN"[0] != "admin"[0]; }
    assert "Admin" != "admin" by { assert "Admin"[0] != "admin"[0]; }
  }

  /** `register`: a provider error is rethrown as is, a missing user record
      throws "Registration failed", and otherwise the new user is PENDING and
      on a first login. `now` is the creation time the service reads. */
  function Register(name: string, email: string, signUp: Settled<Option<Id>>, now: string): (r: Settled<User>)
    ensures signUp.Rejected? ==> r == Rejected(signUp.reason)
    ensures signUp == Fulfilled(None) ==> r == Rejected(RegistrationFailed)
    ensures r.Fulfilled? <==> signUp.Fulfilled? && signUp.value.Some?
    ensures r.Fulfilled? ==> r.value.id == signUp.value.value && r.value.name == name
                             && r.value.email == Some(email)
                             && r.value.role == RolePending && r.value.isFirstLogin
  {
    match signUp
    case Rejected(e) => Rejected(e)
    case Fulfilled(None) => Rejected(RegistrationFailed)
    case Fulfilled(Some(id)) => Fulfilled(User(id, name, Some(email), Some(""), RolePending, true, Some(now)))
  }

  /** The rows `getPendingUsers` asks for: status "pending" and role not
      "admin". */
  function PendingRows(table: seq<Profile>): seq<Profile> {
    Filter(table, AwaitsApproval)
  }

  predicate AwaitsApproval(p: Profile) {
    p.status == "pending" && p.role != "admin"
  }

  /** The rows `getAllUsers` asks for: status "active". */
  function ActiveRows(table: seq<Profile>): seq<Profile> {
    Filter(table, (p: Profile) => p.status == "active")
  }

  function PendingUser(p: Profile): User {
    User(p.id, OrElse(p.username, "User"), Some(""), p.username, RolePending, true, None)
  }

  function ListedUser(p: Profile): User {
    User(p.id, OrElse(p.username, "User"), Some(""), p.username, ListedRole(p.role), false, None)
  }

  /** `getPendingUsers`: no rows when the query failed, else one PENDING
      first-login user per row, in row order. */
  function GetPendingUsers(data: Option<seq<Profile>>): (r: seq<User>)
    ensures data.None? ==> r == []
    ensures data.Some? ==> |r| == |data.value|
    ensures data.Some? ==> forall i :: 0 <= i < |r| ==> r[i].id == data.value[i].id
    ensures forall u :: u in r ==> u.role == RolePending && u.isFirstLogin
  {
    match data
    case None => []
    case Some(rows) => seq(|rows|, i requires 0 <= i < |rows| => PendingUser(rows[i]))
  }

  /** `getAllUsers`: no rows when the query failed, else one user per row,
      BOSS exactly for the role "admin", none on a first login. */
  function GetAllUsers(data: Option<seq<Profile>>): (r: seq<User>)
    ensures data.None? ==> r == []
    ensures data.Some? ==> |r| == |data.value|
    ensures data.Some? ==> forall i :: 0 <= i < |r| ==>
              r[i].id == data.value[i].id && (r[i].role == RoleBoss <==> data.value[i].role == "admin")
    ensures forall u :: u in r ==> u.role != RolePending && !u.isFirstLogin
  {
    match data
    case None => []
    case Some(rows) => seq(|rows|, i requires 0 <= i < |rows| => ListedUser(rows[i]))
  }

  /** `getCurrentUser`: null without a session; otherwise a user built from
      the session and the profile row if there is one. Unlike `login` it
      applies no approval gate. */
  function GetCurrentUser(session: Option<AuthUser>, profile: Option<Profile>): (r: Option<User>)
    ensures r.None? <==> session.None?
    ensures r.Some? ==> r.value.id == session.value.id && !r.value.isFirstLogin
                        && r.value.role != RolePending
                        && (r.value.role == RoleBoss <==> profile.Some? && ToUpper(profile.value.role) == "ADMIN")
  {
    match session
    case None => None
    case Some(au) =>
      var username := if profile.Some? then profile.value.username else None;
      var role := if profile.Some? then SessionRole(profile.value.role) else RoleUser;
      Some(User(au.id, DisplayName(au.metadataName, username), au.email, Some(OrElse(username, "")),
                role, false, None))
  }

  /** On the same records, `login` and `getCurrentUser` give the same id,
      name, username and role. */
  lemma LoginAgreesWithCurrentUser(au: AuthUser, p: Profile)
    requires PassesGate(p)
    ensures var logged := Login(Some(au), Some(p)).result.value.value;
            var current := GetCurrentUser(Some(au), Some(p)).value;
            logged.id == current.id && logged.name == current.name
            && logged.username == current.username && logged.role == current.role
  {
  }

  /** A session restored for an unapproved account yields a user with the
      role the profile maps to, never PENDING: the approval gate is applied
      only by `login`. */
  lemma RestoredSessionSkipsGate(au: AuthUser, p: Profile)
    requires !PassesGate(p)
    ensures Login(Some(au), Some(p)).result == Rejected(PendingApproval)
    ensures GetCurrentUser(Some(au), Some(p)).Some?
    ensures GetCurrentUser(Some(au), Some(p)).value.role == SessionRole(p.role) != RolePending
  {
  }

  /** In particular an unapproved profile whose role is spelled "ADMIN" is
      refused at login but restored as BOSS. */
  lemma RestoredPendingAdminIsBoss(au: AuthUser, id: Id, username: Option<string>)
    ensures var p := Profile(id, username, "ADMIN", "pending");
            && Login(Some(au), Some(p)).result == Rejected(PendingApproval)
            && GetCurrentUser(Some(au), Some(p)).value.role == RoleBoss
  {
    assert ToUpper("ADMIN") == "ADMIN";
    assert "ADMIN" != "admin" by { assert "ADMIN"[0] != "admin"[0]; }
    assert "pending" != "active" by { assert "pending"[0] != "active"[0]; }
  }

  /** When the profile row is missing, `login` reports no user but leaves
      the session open, and restoring that session yields a USER. */
  lemma MissingProfileKeepsSession(au: AuthUser)
    ensures Login(Some(au), None) == LoginStep(Fulfilled(None), true)
    ensures GetCurrentUser(Some(au), None).Some?
    ensures GetCurrentUser(Some(au), None).value.role == RoleUser
  {
  }

  /** `approveUser`: every row with the given id gets status "active". It
      takes no caller and checks no role. */
  function ApproveUser(table: seq<Profile>, userId: Id): (r: seq<Profile>)
    ensures |r| == |table|
    ensures forall i :: 0 <= i < |r| ==>
              if table[i].id == userId then r[i] == table[i].(status := "active") else r[i] == table[i]
  {
    seq(|table|, i requires 0 <= i < |table| => if table[i].id == userId then table[i].(status := "active") else table[i])
  }

  /** After approval the account passes the login gate, no longer appears
      among the pending rows, and appears among the active rows; its role is
      unchanged. */
  lemma {:induction false} ApprovalUnlocksLogin(table: seq<Profile>, userId: Id)
    ensures forall p :: p in ApproveUser(table, userId) && p.id == userId ==> PassesGate(p)
    ensures forall p :: p in PendingRows(ApproveUser(table, userId)) ==> p.id != userId
    ensures forall i :: 0 <= i < |table| && table[i].id == userId ==>
              table[i].(status := "active") in ActiveRows(ApproveUser(table, userId))
  {
    var approved := ApproveUser(table, userId);
    FilterSpec(approved, AwaitsApproval);
    FilterSpec(approved, (p: Profile) => p.status == "active");
    forall i | 0 <= i < |table| && table[i].id == userId
      ensures table[i].(status := "active") in ActiveRows(approved)
    {
      assert approved[i] == table[i].(status := "active");
    }
  }

  /** Approval leaves every other account's row as it was. */
  lemma ApprovalTouchesOneAccount(table: seq<Profile>, userId: Id, other: Id)
    requires other != userId
    ensures forall i :: 0 <= i < |table| && table[i].id == other ==> ApproveUser(table, userId)[i] == table[i]
  {
  }

  /** The `profiles` table as the approval screen writes and reads it. */
  class ProfilesTable {
    var rows: seq<Profile>

    constructor (rows: seq<Profile>)
      ensures this.rows == rows
    {
      this.rows := rows;
    }

    /** `approveUser(userId)` issued against the table. The update's
        returned error is discarded, so an update the database refuses
        returns normally and leaves the rows as they were. */
    method Approve(userId: Id, updateErrored: bool)
      modifies this
      ensures rows == if updateErrored then old(rows) else ApproveUser(old(rows), userId)
    {
      if !updateErrored {
        rows := ApproveUser(rows, userId);
      }
    }
  }

  /** A user listed as pending after an approval is never the approved
      account. */
  lemma PendingListExcludesApproved(table: seq<Profile>, userId: Id)
    ensures forall u :: u in GetPendingUsers(Some(PendingRows(ApproveUser(table, userId)))) ==> u.id != userId
  {
    var rows := PendingRows(ApproveUser(table, userId));
    ApprovalUnlocksLogin(table, userId);
    forall u | u in GetPendingUsers(Some(rows))
      ensures u.id != userId
    {
      var i :| 0 <= i < |GetPendingUsers(Some(rows))| && GetPendingUsers(Some(rows))[i] == u;
      assert rows[i] in rows;
    }
  }

  /** An account still awaiting approval in the table stays in the pending
      list read from it: after an update whose error was discarded the list
      still offers the account. */
  lemma UnappliedApprovalKeepsPending(table: seq<Profile>, userId: Id)
    requires exists p :: p in table && p.id == userId && AwaitsApproval(p)
    ensures exists u :: u in GetPendingUsers(Some(PendingRows(table))) && u.id == userId
  {
    var p :| p in table && p.id == userId && AwaitsApproval(p);
    var rows := PendingRows(table);
    FilterSpec(table, AwaitsApproval);
    var i :| 0 <= i < |rows| && rows[i] == p;
    var users := GetPendingUsers(Some(rows));
    assert users[i] in users && users[i].id == userId;
  }
}
