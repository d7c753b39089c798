/** The registration form: its three ordered checks and the submission that
    leads to the sign-in page. The simulated delay is dropped: the part of
    the submission after it is its own method. */
module RegisterView {
  import opened Wrappers
  import ResetPasswordView

  const TermsMessage := "请阅读并同意服务条款和隐私政策"
  const LoginPath := "/login"

  /** The checks of `handleSubmit`, in order: matching confirmation, at least
      six characters, accepted terms. `None` means the form is accepted. */
  function ValidateRegistration(password: string, confirm: string, agreeTerms: bool): (r: Option<string>)
    ensures password != confirm ==> r == Some(ResetPasswordView.MismatchMessage)
    ensures password == confirm && |password| < ResetPasswordView.MinPasswordLength ==>
      r == Some(ResetPasswordView.TooShortMessage)
    ensures password == confirm && |password| >= ResetPasswordView.MinPasswordLength && !agreeTerms ==>
      r == Some(TermsMessage)
    ensures r.None? <==> password == confirm && |password| >= ResetPasswordView.MinPasswordLength && agreeTerms
  {
    if password != confirm then Some(ResetPasswordView.MismatchMessage)
    else if |password| < ResetPasswordView.MinPasswordLength then Some(ResetPasswordView.TooShortMessage)
    else if !agreeTerms then Some(TermsMessage)
    else None
  }

  /** Registration runs the reset form's two checks and then the terms check:
      with the terms accepted the two forms agree, and without them every
      password the reset form accepts is refused for the terms alone. */
  lemma RegistrationExtendsReset(password: string, confirm: string, agreeTerms: bool)
    ensures agreeTerms ==> ValidateRegistration(password, confirm, agreeTerms) == ResetPasswordView.ValidateReset(password, confirm)
    ensures !agreeTerms ==> (ValidateRegistration(password, confirm, agreeTerms) ==
      if ResetPasswordView.ValidateReset(password, confirm).Some? then ResetPasswordView.ValidateReset(password, confirm)
      else Some(TermsMessage))
  {
  }

  class RegisterForm {
    var name: string
    var email: string
    var password: string
    var confirmPassword: string
    var agreeTerms: bool
    var loading: bool
    var error: string

    constructor ()
      ensures name == "" && email == "" && password == "" && confirmPassword == ""
      ensures !agreeTerms && !loading && error == ""
    {
      name, email, password, confirmPassword := "", "", "", "";
      agreeTerms, loading, error := false, false, "";
    }

    /** `handleSubmit` up to the delay: the previous error is cleared, the
        first failed check sets its message and stops; when all three pass
        loading starts. */
    method Submit() returns (started: bool)
      modifies this
      ensures started <==> ValidateRegistration(old(password), old(confirmPassword), old(agreeTerms)).None?
      ensures error == ValidateRegistration(old(password), old(confirmPassword), old(agreeTerms)).GetOr("")
      ensures loading == (started || old(loading))
      ensures name == old(name) && email == old(email) && password == old(password)
      ensures confirmPassword == old(confirmPassword) && agreeTerms == old(agreeTerms)
    {
      error := "";
      var check := ValidateRegistration(password, confirmPassword, agreeTerms);
      if check.Some? {
        error := check.value;
        return false;
      }
      loading := true;
      started := true;
    }

    /** The rest of `handleSubmit` after the delay: loading ends and the
        browser is sent to the sign-in page. */
    method CompleteSubmit() returns (route: string)
      modifies this
      ensures route == LoginPath && !loading
      ensures error == old(error) && name == old(name) && email == old(email)
      ensures password == old(password) && confirmPassword == old(confirmPassword) && agreeTerms == old(agreeTerms)
    {
      loading := false;
      route := LoginPath;
    }
  }
}
