/** The first-login password dialog: it is shown only while the current
    user is on a first login, and its submit validates the two entries in a
    fixed order before asking the session store to change the password. */
module ChangePasswordDialog {
  import opened JsBuiltins
  import opened Types
  import UseAuthStore

  const Mismatch := "Passwords do not match"
  const TooShort := "Password must be at least 6 characters"
  const UpdateFailed := "Failed to update password"
  const MinLength := 6

  /** The dialog renders only while the current user is on a first login. */
  predicate Shown(user: Option<User>) {
    user.Some? && user.value.isFirstLogin
  }

  /** The validation of a submit: a mismatch is reported before a short
      password, and a matching password of at least six characters passes. */
  function SubmitError(newPassword: string, confirmPassword: string): (r: Option<string>)
    ensures r == Some(Mismatch) <==> newPassword != confirmPassword
    ensures r == Some(TooShort) <==> newPassword == confirmPassword && |newPassword| < MinLength
    ensures r.None? <==> newPassword == confirmPassword && |newPassword| >= MinLength
  {
    if newPassword != confirmPassword then Some(Mismatch)
    else if |newPassword| < MinLength then Some(TooShort)
    else None
  }

  /** A short password typed differently twice reports the mismatch. */
  lemma MismatchReportedFirst(newPassword: string, confirmPassword: string)
    requires newPassword != confirmPassword && |newPassword| < MinLength
    ensures SubmitError(newPassword, confirmPassword) == Some(Mismatch)
  {
    assert Mismatch != TooShort by { assert Mismatch[8] != TooShort[8]; }
  }

  class PasswordDialog {
    var newPassword: string
    var confirmPassword: string
    var error: string

    constructor ()
      ensures newPassword == "" && confirmPassword == "" && error == ""
    {
      newPassword, confirmPassword, error := "", "", "";
    }

    /** `handleSubmit`: the error is cleared, the entries are validated, and
        only valid entries reach the store's `changePassword` with the
        current user's id; its failure is reported as "Failed to update
        password". A successful change hides the dialog. */
    method HandleSubmit(store: UseAuthStore.AuthStore, reply: Settled<()>) returns (attempted: bool)
      requires Shown(store.user)
      modifies this, store
      ensures attempted <==> SubmitError(newPassword, confirmPassword).None?
      ensures newPassword == old(newPassword) && confirmPassword == old(confirmPassword)
      ensures !attempted ==> error == SubmitError(newPassword, confirmPassword).value
      ensures !attempted ==> store.user == old(store.user) && store.isLoading == old(store.isLoading)
                             && store.error == old(store.error)
      ensures attempted ==> error == (if reply.Fulfilled? then "" else UpdateFailed)
      ensures attempted ==> store.user == (if reply.Fulfilled? then Some(old(store.user).value.(isFirstLogin := false))
                                           else old(store.user))
      ensures attempted ==> store.error == old(store.error) && !store.isLoading
      ensures attempted && reply.Fulfilled? ==> !Shown(store.user)
    {
      error := "";
      var invalid := SubmitError(newPassword, confirmPassword);
      if invalid.Some? {
        error := invalid.value;
        return false;
      }
      attempted := true;
      var outcome := store.ChangePassword(store.user.value.id, reply);
      if outcome.Rejected? {
        error := UpdateFailed;
      }
    }
  }
}
