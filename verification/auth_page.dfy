/**
  The sign-in page: one form in login or register mode, the request each
  mode sends, and what the page keeps and shows after the server answers.
*/
module AuthPage {
  import opened Wrappers
  import opened Web

  datatype Form = Form(email: string, username: string, password: string, confirmPassword: string)

  datatype Field = Email | Username | Password | ConfirmPassword

  datatype Page = Page(isLogin: bool, form: Form)

  const Initial := Page(true, Form("", "", "", ""))

  /** The two requests the page sends: the login body and the registration body. */
  datatype Request = LoginBody(email: string, password: string) | RegisterBody(username: string, email: string, password: string)

  /** What the page leaves behind: notices shown, values saved in local storage, and a navigation. */
  datatype Effects = Effects(toasts: seq<Toast>, savedToken: Option<Json>, savedUser: Option<Json>, navigate: Option<string>)

  const NoEffects := Effects([], None, None, None)

  datatype Step = Step(page: Page, request: Option<Request>, effects: Effects)

  /** Editing one field of the form; everything else stays as it was. */
  function Change(p: Page, field: Field, value: string): (r: Page)
    ensures r.isLogin == p.isLogin
    ensures field == Email ==> r.form == p.form.(email := value)
    ensures field == Username ==> r.form == p.form.(username := value)
    ensures field == Password ==> r.form == p.form.(password := value)
    ensures field == ConfirmPassword ==> r.form == p.form.(confirmPassword := value)
  {
    match field
    case Email => p.(form := p.form.(email := value))
    case Username => p.(form := p.form.(username := value))
    case Password => p.(form := p.form.(password := value))
    case ConfirmPassword => p.(form := p.form.(confirmPassword := value))
  }

  /**
    Logging in with `result` as the settled request. An explicit success
    saves the token and the user and goes to the game; any other answer
    shows the server's message; a failed request has no effect at all.
  */
  function Login(p: Page, email: string, password: string, result: HttpResult): (s: Step)
    ensures s.page == p && s.request == Some(LoginBody(email, password))
    ensures (result.Answered? && Succeeded(result.data)) <==> s.effects.navigate.Some?
    ensures s.effects.navigate.Some? ==> s.effects == Effects([Toast(SuccessToast, result.data.message)],
      Some(result.data.token), Some(result.data.user), Some("/game"))
    ensures s.effects.navigate.None? ==> s.effects.savedToken.None? && s.effects.savedUser.None?
    ensures result.Answered? && !Succeeded(result.data) ==> s.effects.toasts == [Toast(ErrorToast, result.data.message)]
    ensures result.Rejected? ==> s.effects == NoEffects
  {
    var sent := Some(LoginBody(email, password));
    match result
    case Rejected(_) => Step(p, sent, NoEffects)
    case Answered(data) =>
      if Succeeded(data) then
        Step(p, sent, Effects([Toast(SuccessToast, data.message)], Some(data.token), Some(data.user), Some("/game")))
      else Step(p, sent, Effects([Toast(ErrorToast, data.message)], None, None, None))
  }

  const MismatchMessage := "Passwords do not match !"
  const LoginPrompt := " Please log in to continue."

  /**
    Registering the form `f` with `result` as the settled request. Unequal
    passwords show an error and send nothing. Otherwise the username,
    email and password are sent; an explicit success keeps only the email,
    clears the rest and switches to login mode; any other answer shows the
    server's message; a failed request changes nothing.
  */
  function Register(p: Page, f: Form, result: HttpResult): (s: Step)
    ensures f.password != f.confirmPassword ==>
      s == Step(p, None, Effects([ErrorText(MismatchMessage)], None, None, None))
    ensures f.password == f.confirmPassword ==> s.request == Some(RegisterBody(f.username, f.email, f.password))
    ensures s.effects.savedToken.None? && s.effects.savedUser.None? && s.effects.navigate.None?
    ensures !(s.request.Some? && result.Answered? && Succeeded(result.data)) ==> s.page == p
    ensures s.request.Some? && result.Answered? && Succeeded(result.data) ==>
      s.page == Page(true, Form(f.email, "", "", ""))
      && s.effects.toasts == [Toast(SuccessToast, Str(Render(result.data.message) + LoginPrompt))]
    ensures s.request.Some? && result.Answered? && !Succeeded(result.data) ==>
      s.effects.toasts == [Toast(ErrorToast, result.data.message)]
    ensures s.request.Some? && result.Rejected? ==> s.effects == NoEffects
  {
    if f.password != f.confirmPassword then Step(p, None, Effects([ErrorText(MismatchMessage)], None, None, None))
    else
      var sent := Some(RegisterBody(f.username, f.email, f.password));
      match result
      case Rejected(_) => Step(p, sent, NoEffects)
      case Answered(data) =>
        if Succeeded(data) then
          Step(Page(true, Form(f.email, "", "", "")), sent,
               Effects([Toast(SuccessToast, Str(Render(data.message) + LoginPrompt))], None, None, None))
        else Step(p, sent, Effects([Toast(ErrorToast, data.message)], None, None, None))
  }

  /** Submitting: login mode sends the email and password, register mode the whole form. */
  function Submit(p: Page, result: HttpResult): (s: Step)
    ensures p.isLogin ==> s.request == Some(LoginBody(p.form.email, p.form.password))
    ensures !p.isLogin && p.form.password == p.form.confirmPassword ==>
      s.request == Some(RegisterBody(p.form.username, p.form.email, p.form.password))
    ensures !p.isLogin && p.form.password != p.form.confirmPassword ==> s.request.None?
    ensures s.request.None? ==> s.page == p
  {
    if p.isLogin then Login(p, p.form.email, p.form.password, result)
    else Register(p, p.form, result)
  }

  /** Toggling between login and register mode; the form is kept. */
  function Toggle(p: Page): (r: Page)
    ensures r.isLogin != p.isLogin && r.form == p.form
  {
    p.(isLogin := !p.isLogin)
  }

  /** After a successful registration, submitting again logs in with the registered email. */
  lemma RegisterThenLogin(p: Page, registered: HttpResult, password: string, login: HttpResult)
    requires !p.isLogin && p.form.password == p.form.confirmPassword
    requires registered.Answered? && Succeeded(registered.data)
    ensures var q := Submit(p, registered).page;
      Submit(Change(q, Password, password), login).request == Some(LoginBody(p.form.email, password))
  {
  }

  /** A login answered without an explicit `true` never saves a token, even when `success` is truthy. */
  lemma TruthyIsNotSuccess(p: Page)
    ensures var data := Body(Str("yes"), Str("ok"), Str("t"), Object);
      Truthy(data.success) && Login(p, "a@b.c", "pw", Answered(data)).effects.savedToken.None?
  {
  }
}
