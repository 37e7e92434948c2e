/**
  The password-reset page: the link check when the page opens, the form's
  two fields, the guards that run before any request, and how the page
  reacts to the server's answer.
*/
module ResetPage {
  import opened Wrappers
  import opened Text
  import opened Web

  datatype Form = Form(password: string, confirmPassword: string)

  datatype Field = Password | ConfirmPassword

  datatype Page = Page(
    form: Form,
    isLoading: bool,
    isValidToken: bool,
    isResetSuccessful: bool,
    userId: Option<string>,
    token: Option<string>)

  /** The page before the link is read. */
  const Initial := Page(Form("", ""), false, true, false, None, None)

  /** A query parameter counts as given when present and non-empty. */
  predicate Given(param: Option<string>) {
    param.Some? && param.value != ""
  }

  const InvalidLinkMessage := "Invalid reset link. Please request a new password reset."

  datatype Opened = Opened(page: Page, toast: Option<Toast>)

  /**
    Opening the page with the link's `id` and `token` parameters: both must
    be given; otherwise the link is marked invalid, an error is shown and
    neither value is kept.
  */
  function Open(id: Option<string>, token: Option<string>): (o: Opened)
    ensures o.page.isValidToken <==> Given(id) && Given(token)
    ensures o.page.isValidToken ==> o.page.userId == id && o.page.token == token && o.toast.None?
    ensures !o.page.isValidToken ==> (o.page.userId.None? && o.page.token.None?
      && o.toast == Some(ErrorText(InvalidLinkMessage)))
    ensures o.page.form == Form("", "") && !o.page.isLoading && !o.page.isResetSuccessful
  {
    if !Given(id) || !Given(token) then Opened(Initial.(isValidToken := false), Some(ErrorText(InvalidLinkMessage)))
    else Opened(Initial.(userId := id, token := token), None)
  }

  /** Editing one field of the form; everything else stays as it was. */
  function Change(p: Page, field: Field, value: string): (r: Page)
    ensures field == Password ==> r.form.password == value && r.form.confirmPassword == p.form.confirmPassword
    ensures field == ConfirmPassword ==> r.form.confirmPassword == value && r.form.password == p.form.password
    ensures r.(form := p.form) == p
  {
    match field
    case Password => p.(form := p.form.(password := value))
    case ConfirmPassword => p.(form := p.form.(confirmPassword := value))
  }

  const MismatchMessage := "Passwords do not match!"
  const TooShortMessage := "Password must be at least 6 characters long!"
  const MinimumLength := 6

  /**
    The checks before a request, in order: the two entries must agree, then
    the password must be at least six UTF-16 code units long.
  */
  function Guard(f: Form): (e: Option<string>)
    ensures e.None? <==> f.password == f.confirmPassword && Utf16Length(f.password) >= MinimumLength
    ensures f.password != f.confirmPassword ==> e == Some(MismatchMessage)
    ensures f.password == f.confirmPassword && Utf16Length(f.password) < MinimumLength ==> e == Some(TooShortMessage)
  {
    if f.password != f.confirmPassword then Some(MismatchMessage)
    else if Utf16Length(f.password) < MinimumLength then Some(TooShortMessage)
    else None
  }

  /** The request body: the link's id and token and the new password; the confirmation is not sent. */
  datatype Payload = Payload(id: Option<string>, token: Option<string>, password: string)

  const DoneMessage := "Password reset successful! You can now log in with your new password."
  const FailedMessage := "Failed to reset password. Please try again."
  const ExpiredLinkMessage := "Invalid or expired reset link. Please request a new one."
  const LaterMessage := "An error occurred. Please try again later."

  /**
    The notice for a settled request: success only for a body whose
    `success` is exactly `true`; otherwise the server's message when it
    sent a truthy one, else a fallback that depends on how the request failed.
  */
  function Notice(result: HttpResult): (t: Toast)
    ensures t.kind == SuccessToast <==> result.Answered? && Succeeded(result.data)
    ensures result.Answered? && !Succeeded(result.data) ==>
      t.content == (if Truthy(result.data.message) then result.data.message else Str(FailedMessage))
    ensures result.Rejected? && result.response.Some? && Truthy(result.response.value.data.message) ==>
      t.content == result.response.value.data.message
    ensures result.Rejected? && result.response.Some? && !Truthy(result.response.value.data.message) ==>
      t.content == Str(if result.response.value.status == 400 then ExpiredLinkMessage else LaterMessage)
    ensures result.Rejected? && result.response.None? ==> t.content == Str(LaterMessage)
  {
    match result
    case Answered(data) =>
      if Succeeded(data) then Toast(SuccessToast, Str(DoneMessage))
      else Toast(ErrorToast, Or(data.message, Str(FailedMessage)))
    case Rejected(None) => ErrorText(LaterMessage)
    case Rejected(Some(resp)) =>
      if Truthy(resp.data.message) then Toast(ErrorToast, resp.data.message)
      else if resp.status == 400 then ErrorText(ExpiredLinkMessage)
      else ErrorText(LaterMessage)
  }

  /**
    Whether the page shows the form: it shows the invalid-link card
    instead when the link was incomplete, and the success card after a
    reset went through, and neither card has a submit handler.
  */
  predicate HasForm(p: Page) {
    p.isValidToken && !p.isResetSuccessful
  }

  /** A submission: the page afterwards, the request sent if any, and the notice shown. */
  datatype Submitted = Submitted(page: Page, request: Option<Payload>, toast: Toast)

  /**
    Submitting the form, which only a page showing it can do; `result` is
    how the request settles if one is sent.
    A failed guard shows its message, sends nothing and changes nothing.
    Otherwise exactly the link's id and token and the password are sent,
    the page is marked successful only on an explicit success, and loading
    ends whatever the outcome.
  */
  function Submit(p: Page, result: HttpResult): (r: Submitted)
    requires HasForm(p)
    ensures Guard(p.form).Some? ==> r.page == p && r.request.None? && r.toast == ErrorText(Guard(p.form).value)
    ensures Guard(p.form).None? ==> (r.request == Some(Payload(p.userId, p.token, p.form.password))
      && !r.page.isLoading && r.toast == Notice(result))
    ensures r.page.isResetSuccessful <==>
      p.isResetSuccessful || (r.request.Some? && result.Answered? && Succeeded(result.data))
    ensures r.page.form == p.form && r.page.userId == p.userId && r.page.token == p.token
      && r.page.isValidToken == p.isValidToken
  {
    match Guard(p.form)
    case Some(e) => Submitted(p, None, ErrorText(e))
    case None =>
      var sent := Payload(p.userId, p.token, p.form.password);
      var done := result.Answered? && Succeeded(result.data);
      Submitted(p.(isLoading := false, isResetSuccessful := p.isResetSuccessful || done), Some(sent), Notice(result))
  }

  /** The form is shown after opening exactly when the link carried both parameters. */
  lemma FormShownIffLinkGiven(id: Option<string>, token: Option<string>)
    ensures HasForm(Open(id, token).page) <==> Given(id) && Given(token)
  {
  }

  /**
    On a page opened from a complete link, matching entries of six or more
    units send exactly the link's id and token with the new password.
  */
  lemma OpenedLinkSends(id: Option<string>, token: Option<string>, pw: string, result: HttpResult)
    requires Given(id) && Given(token)
    requires Utf16Length(pw) >= MinimumLength
    ensures var p := Change(Change(Open(id, token).page, Password, pw), ConfirmPassword, pw);
      HasForm(p) && Submit(p, result).request == Some(Payload(id, token, pw))
  {
  }

  /** After a submission the form stays exactly when no request was sent or the reset did not succeed. */
  lemma SuccessHidesForm(p: Page, result: HttpResult)
    requires HasForm(p)
    ensures var r := Submit(p, result);
      HasForm(r.page) <==> !(r.request.Some? && result.Answered? && Succeeded(result.data))
  {
  }

  /** Entering the same new password in both fields, typed in either order, lets the request through. */
  lemma MatchingEntriesSend(p: Page, pw: string, result: HttpResult)
    requires HasForm(p)
    requires Utf16Length(pw) >= MinimumLength
    ensures Submit(Change(Change(p, Password, pw), ConfirmPassword, pw), result).request.Some?
    ensures Submit(Change(Change(p, ConfirmPassword, pw), Password, pw), result).request.value.password == pw
  {
  }

  /** Mismatched entries are reported as a mismatch even when the password is also too short. */
  lemma MismatchReportedFirst(p: Page, result: HttpResult)
    requires HasForm(p)
    requires p.form == Form("abc", "abd")
    ensures Submit(p, result) == Submitted(p, None, ErrorText(MismatchMessage))
  {
  }

  /** Edits to different fields commute; the later of two edits to one field wins. */
  lemma ChangesCommute(p: Page, a: Field, x: string, b: Field, y: string)
    ensures a != b ==> Change(Change(p, a, x), b, y) == Change(Change(p, b, y), a, x)
    ensures Change(Change(p, a, x), a, y) == Change(p, a, y)
  {
  }
}
