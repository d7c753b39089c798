/** The reset-password form: its two ordered checks and the submission that
    ends on the confirmation screen. The simulated delay is dropped: the part
    of the submission after it is its own method. */
module ResetPasswordView {
  import opened Wrappers

  const MismatchMessage := "两次输入的密码不一致"
  const TooShortMessage := "密码长度至少为 6 位"
  const MinPasswordLength := 6

  /** The checks of `handleSubmit`, in order: the confirmation must equal the
      password, then the password needs at least six characters. `None` means
      the form is accepted. */
  function ValidateReset(password: string, confirm: string): (r: Option<string>)
    ensures password != confirm ==> r == Some(MismatchMessage)
    ensures password == confirm && |password| < MinPasswordLength ==> r == Some(TooShortMessage)
    ensures r.None? <==> password == confirm && |password| >= MinPasswordLength
  {
    if password != confirm then Some(MismatchMessage)
    else if |password| < MinPasswordLength then Some(TooShortMessage)
    else None
  }

  /** The mismatch check comes first: a mismatched pair is reported as such
      even when the password is also too short. */
  lemma MismatchReportedBeforeLength(password: string, confirm: string)
    requires password != confirm && |password| < MinPasswordLength
    ensures ValidateReset(password, confirm) != Some(TooShortMessage)
  {
  }

  class ResetForm {
    var password: string
    var confirmPassword: string
    var loading: bool
    var success: bool
    var error: string

    constructor ()
      ensures password == "" && confirmPassword == "" && !loading && !success && error == ""
    {
      password, confirmPassword := "", "";
      loading, success, error := false, false, "";
    }

    /** The confirmation screen replaces the form once `success` is set. */
    predicate ShowsConfirmation()
      reads this
    {
      success
    }

    /** `handleSubmit` up to the delay: the previous error is cleared, a
        failed check sets its message and stops; when both checks pass
        loading starts. */
    method Submit() returns (started: bool)
      modifies this
      ensures started <==> ValidateReset(old(password), old(confirmPassword)).None?
      ensures error == ValidateReset(old(password), old(confirmPassword)).GetOr("")
      ensures loading == (started || old(loading))
      ensures success == old(success)
      ensures password == old(password) && confirmPassword == old(confirmPassword)
    {
      error := "";
      var check := ValidateReset(password, confirmPassword);
      if check.Some? {
        error := check.value;
        return false;
      }
      loading := true;
      started := true;
    }

    /** The rest of `handleSubmit` after the delay: success is set, which
        switches to the confirmation screen, and loading ends. */
    method CompleteSubmit()
      modifies this
      ensures success && ShowsConfirmation() && !loading
      ensures error == old(error) && password == old(password) && confirmPassword == old(confirmPassword)
    {
      success := true;
      loading := false;
    }
  }
}
