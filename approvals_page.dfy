/** The approvals screen: a gate that sends any logged-in user who is not
    BOSS back to the dashboard, the list of accounts awaiting approval, and
    the confirmation shown after an approval. */
module ApprovalsPage {
  import opened JsBuiltins
  import opened Types
  import AuthService

  const DashboardPath := "/dashboard"

  /** The gate redirects a logged-in user who is not BOSS; a BOSS, and a
      user not known yet, stay on the page. */
  predicate Redirects(user: Option<User>) {
    user.Some? && user.value.role != RoleBoss
  }

  /** What `getPendingUsers` answers against the table: nothing when the
      query fails, else the pending rows. */
  function PendingReply(table: seq<AuthService.Profile>, queryFailed: bool): Option<seq<AuthService.Profile>> {
    if queryFailed then None else Some(AuthService.PendingRows(table))
  }

  class Approvals {
    var pendingUsers: seq<User>
    /** The name shown in the confirmation, `approvedCreds.name`. */
    var approvedName: Option<string>

    constructor ()
      ensures pendingUsers == [] && approvedName.None?
    {
      pendingUsers, approvedName := [], None;
    }

    /** The confirmation view is shown exactly while a name is held. */
    predicate ShowsConfirmation()
      reads this
    {
      approvedName.Some?
    }

    /** `loadPending`: the list becomes what `getPendingUsers` returns. */
    method LoadPending(table: AuthService.ProfilesTable, queryFailed: bool)
      modifies this
      ensures pendingUsers == AuthService.GetPendingUsers(PendingReply(table.rows, queryFailed))
      ensures approvedName == old(approvedName)
    {
      pendingUsers := AuthService.GetPendingUsers(PendingReply(table.rows, queryFailed));
    }

    /** The effect run for the current user: a redirect to the dashboard for
        a logged-in non-BOSS user, with the list left alone; otherwise the
        list is loaded. */
    method RunGate(user: Option<User>, table: AuthService.ProfilesTable, queryFailed: bool)
      returns (redirect: Option<string>)
      modifies this
      ensures redirect == (if Redirects(user) then Some(DashboardPath) else None)
      ensures pendingUsers == (if Redirects(user) then old(pendingUsers)
                               else AuthService.GetPendingUsers(PendingReply(table.rows, queryFailed)))
      ensures approvedName == old(approvedName)
    {
      if Redirects(user) {
        return Some(DashboardPath);
      }
      redirect := None;
      LoadPending(table, queryFailed);
    }

    /** `handleApprove`: `approveUser` is awaited, then the confirmation
        holds the approved name and the list is reloaded. `approveUser`
        discards the update's error, so a refused update is reported as an
        approval too: the table is unchanged and the reloaded list still
        offers the account. A throw is swallowed and changes nothing. No
        activity is recorded and the caller's role is not checked here. */
    method HandleApprove(table: AuthService.ProfilesTable, userId: Id, name: string,
                         approveThrew: bool, updateErrored: bool, reloadFailed: bool)
      modifies this, table
      ensures table.rows == (if approveThrew || updateErrored then old(table.rows)
                             else AuthService.ApproveUser(old(table.rows), userId))
      ensures approvedName == (if approveThrew then old(approvedName) else Some(name))
      ensures pendingUsers == (if approveThrew then old(pendingUsers)
                               else AuthService.GetPendingUsers(PendingReply(table.rows, reloadFailed)))
      ensures !approveThrew && !updateErrored ==> forall u :: u in pendingUsers ==> u.id != userId
      ensures !approveThrew && updateErrored && !reloadFailed
              && (exists p :: p in old(table.rows) && p.id == userId && AuthService.AwaitsApproval(p))
              ==> exists u :: u in pendingUsers && u.id == userId
    {
      if !approveThrew {
        table.Approve(userId, updateErrored);
        approvedName := Some(name);
        LoadPending(table, reloadFailed);
        if updateErrored {
          if !reloadFailed && exists p :: p in table.rows && p.id == userId && AuthService.AwaitsApproval(p) {
            AuthService.UnappliedApprovalKeepsPending(table.rows, userId);
          }
        } else {
          AuthService.PendingListExcludesApproved(old(table.rows), userId);
        }
      }
    }

    /** "Done" dismisses the confirmation. */
    method Done()
      modifies this
      ensures approvedName.None? && pendingUsers == old(pendingUsers)
    {
      approvedName := None;
    }
  }
}
