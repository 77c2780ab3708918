/**
  Signing in and out: the reset-password and forgot-password pages, the login page's
  submit guard, the authentication context's session state (login, logout,
  start-up and the balance fetch) and the route guard that protects the pages behind
  the login.
*/
module Auth {
  import opened Wrappers
  import opened Text
  import EmailRules

  // ---------------------------------------------------------------------------------------
  // Reset password

  /** The shortest password the reset page accepts. */
  const MinPasswordLength := 6

  /** What a reset submit does: stop at the first failed check, or send the reset request. */
  datatype ResetAttempt =
    | PasswordsDiffer
    | PasswordTooShort
    | TokenMissing
    | ResetSent(email: string, password: string, token: string)

  /** The checks in their order: confirmation, then length, then a non-blank token. */
  function SubmitReset(email: string, token: string, password: string, confirmation: string): (r: ResetAttempt)
    ensures r.PasswordsDiffer? <==> password != confirmation
    ensures r.PasswordTooShort? <==> password == confirmation && |password| < MinPasswordLength
    ensures r.TokenMissing? <==> password == confirmation && |password| >= MinPasswordLength && Blank(token)
    ensures r.ResetSent? ==> r == ResetSent(email, password, token)
  {
    if password != confirmation then PasswordsDiffer
    else if |password| < MinPasswordLength then PasswordTooShort
    else if Blank(token) then TokenMissing
    else ResetSent(email, password, token)
  }

  /** A reset request goes out exactly when all three checks pass, whatever the order of failures. */
  lemma ResetSentIffValid(email: string, token: string, password: string, confirmation: string)
    ensures SubmitReset(email, token, password, confirmation).ResetSent? <==>
      password == confirmation && |password| >= MinPasswordLength && !Blank(token)
    ensures SubmitReset(email, token, password, confirmation).ResetSent? ==> |Trim(token)| > 0
  {
  }

  /** The reset page on mount: an e-mail saved by the forgot-password page is used, otherwise it sends the user back there. */
  datatype ResetMount = UseEmail(email: string) | BackToForgotPassword

  function MountReset(savedEmail: Option<string>): (r: ResetMount)
    ensures r.UseEmail? <==> savedEmail.Some? && savedEmail.value != []
    ensures r.UseEmail? ==> r.email == savedEmail.value
  {
    if savedEmail.Some? && savedEmail.value != [] then UseEmail(savedEmail.value) else BackToForgotPassword
  }

  // ---------------------------------------------------------------------------------------
  // Answers of the API

  /** An API call's outcome; a failure may carry the server's `response.data.message`. */
  datatype ApiAnswer = Succeeded | Failed(serverMessage: Option<string>)

  const ResetFailedMessage := "Token inválido ou expirado. Solicite um novo token."
  const ForgotFailedMessage := "Email não encontrado em nossa base de dados."
  const LoginFailedMessage := "Credenciais inválidas. Verifique seu email e senha."
  /** The login page's e-mail error. */
  const InvalidEmailMessage := "Por favor, insira um e-mail válido."
  /** The forgot-password page's toast for a rejected address, spelled differently from the login page's. */
  const ForgotInvalidEmailMessage := "Por favor, insira um email válido."

  /** What a page does once its request has answered. */
  datatype Effects = Effects(navigateTo: Option<string>, storedResetEmail: Option<string>, error: Option<string>, isLoading: bool)

  /** The reset page after its request: on success it forgets the saved e-mail and goes to the login. */
  function ResetAnswered(answer: ApiAnswer, savedEmail: Option<string>): (r: Effects)
    ensures !r.isLoading
    ensures answer.Succeeded? ==> r.navigateTo == Some("/login") && r.storedResetEmail.None? && r.error.None?
    ensures answer.Failed? ==>
      (r.navigateTo.None? && r.storedResetEmail == savedEmail && r.error == Some(TextOr(answer.serverMessage, ResetFailedMessage)))
  {
    match answer
    case Succeeded => Effects(Some("/login"), None, None, false)
    case Failed(m) => Effects(None, savedEmail, Some(TextOr(m, ResetFailedMessage)), false)
  }

  // ---------------------------------------------------------------------------------------
  // Forgot password and login pages

  /** The forgot-password page's submit: no request for an address the login pattern rejects. */
  function SubmitForgot(email: string, answer: ApiAnswer, savedEmail: Option<string>): (r: Effects)
    ensures !EmailRules.LoginEmail(email) ==> r == Effects(None, savedEmail, Some(ForgotInvalidEmailMessage), false)
    ensures EmailRules.LoginEmail(email) && answer.Succeeded? ==> r == Effects(Some("/reset-password"), Some(email), None, false)
    ensures EmailRules.LoginEmail(email) && answer.Failed? ==>
      r == Effects(None, savedEmail, Some(TextOr(answer.serverMessage, ForgotFailedMessage)), false)
  {
    if !EmailRules.LoginEmail(email) then Effects(None, savedEmail, Some(ForgotInvalidEmailMessage), false)
    else
      match answer
      case Succeeded => Effects(Some("/reset-password"), Some(email), None, false)
      case Failed(m) => Effects(None, savedEmail, Some(TextOr(m, ForgotFailedMessage)), false)
  }

  /** After a successful forgot-password request, the reset page finds the validated address. */
  lemma ForgotThenReset(email: string, savedEmail: Option<string>)
    requires EmailRules.LoginEmail(email)
    ensures MountReset(SubmitForgot(email, Succeeded, savedEmail).storedResetEmail) == UseEmail(email)
  {
  }

  /** The login page after a submit: its e-mail error, and the credentials handed to `login` if any. */
  datatype LoginPage = LoginPage(emailError: string, loginCall: Option<(string, string)>)

  function SubmitLogin(email: string, password: string): (r: LoginPage)
    ensures r.loginCall.Some? <==> EmailRules.LoginEmail(email)
    ensures r.loginCall.Some? ==> r.emailError == [] && r.loginCall.value == (email, password)
    ensures r.loginCall.None? ==> r.emailError == InvalidEmailMessage
  {
    if EmailRules.LoginEmail(email) then LoginPage([], Some((email, password)))
    else LoginPage(InvalidEmailMessage, None)
  }

  /** Both pages accept the same addresses: an address good enough to log in with can ask for a reset, and no other. */
  lemma LoginAndForgotAgree(email: string, password: string, savedEmail: Option<string>)
    ensures SubmitLogin(email, password).loginCall.Some? <==> SubmitForgot(email, Succeeded, savedEmail).navigateTo.Some?
  {
  }

  // ---------------------------------------------------------------------------------------
  // The authentication context

  /** The signed-in user, with the two admin flags (a missing `permission_admin` is false). */
  datatype AuthUser = AuthUser(name: string, email: string, isAdmin: bool, permissionAdmin: bool)

  /** The browser storage the context reads and clears. */
  datatype Storage = Storage(user: Option<AuthUser>, resetEmail: Option<string>, apiUrl: Option<string>)

  const EmptyStorage := Storage(None, None, None)

  datatype AuthState = AuthState(user: Option<AuthUser>, balance: Option<int>, isLoading: bool, error: Option<string>)

  const InitialAuth := AuthState(None, None, true, None)

  /** `isAuthenticated: !!user`. */
  predicate IsAuthenticated(s: AuthState) {
    s.user.Some?
  }

  /** The balance service's answer. */
  datatype BalanceAnswer = Balance(total: int) | BalanceFailed

  /**
    `fetchBalance`: nothing when neither the storage nor the closure's `user` holds a user;
    otherwise the fetched balance, or 0 when the fetch fails.
  */
  function FetchBalance(storageHasUser: bool, closureUser: Option<AuthUser>, answer: BalanceAnswer, balance: Option<int>): (r: Option<int>)
    ensures !storageHasUser && closureUser.None? ==> r == balance
    ensures (storageHasUser || closureUser.Some?) && answer.BalanceFailed? ==> r == Some(0)
    ensures (storageHasUser || closureUser.Some?) && answer.Balance? ==> r == Some(answer.total)
  {
    if !storageHasUser && closureUser.None? then balance
    else
      match answer
      case Balance(total) => Some(total)
      case BalanceFailed => Some(0)
  }

  /** The session check's answer at start-up. */
  datatype CheckAnswer = CheckFailed | Checked(authenticated: bool, sessionUser: Option<AuthUser>)

  /**
    Start-up: a live session's user, else a stored user, is signed in and the balance is
    fetched; the balance fetch runs in the first render's closure, where `user` is still null.
  */
  function Init(storage: Storage, check: CheckAnswer, balance: BalanceAnswer): (r: AuthState)
    ensures !r.isLoading
    ensures check.Checked? && check.authenticated && check.sessionUser.Some? ==> r.user == check.sessionUser
    ensures check.Checked? && !(check.authenticated && check.sessionUser.Some?) ==> r.user == storage.user
    ensures check.CheckFailed? ==> r == InitialAuth.(isLoading := false)
    ensures r.balance.Some? ==> storage.user.Some?
  {
    match check
    case CheckFailed => InitialAuth.(isLoading := false)
    case Checked(authenticated, sessionUser) =>
      if authenticated && sessionUser.Some? then
        AuthState(sessionUser, FetchBalance(storage.user.Some?, None, balance, None), false, None)
      else if storage.user.Some? then
        AuthState(storage.user, FetchBalance(true, None, balance, None), false, None)
      else
        InitialAuth.(isLoading := false)
  }

  /** Start-up never leaves the route guard on its spinner. */
  lemma InitEndsLoading(storage: Storage, check: CheckAnswer, balance: BalanceAnswer, path: string)
    ensures RouteDecision(Init(storage, check, balance), path) != Spinner
  {
  }

  /**
    A user signed in by the server's session, with nothing in the storage, never gets a
    balance at start-up: the guard in `fetchBalance` sees an empty storage and a null user.
  */
  lemma SessionUserWithoutStorageGetsNoBalance(u: AuthUser, balance: BalanceAnswer)
    ensures IsAuthenticated(Init(EmptyStorage, Checked(true, Some(u)), balance))
    ensures Init(EmptyStorage, Checked(true, Some(u)), balance).balance.None?
  {
  }

  /** Start-up with the balance fetched for the user just signed in. */
  function InitFixed(storage: Storage, check: CheckAnswer, balance: BalanceAnswer): (r: AuthState)
    ensures r.user == Init(storage, check, balance).user && !r.isLoading
    ensures IsAuthenticated(r) <==> r.balance.Some?
  {
    var s := Init(storage, check, balance);
    s.(balance := FetchBalance(false, s.user, balance, None))
  }

  /** The fix changes only the session-without-storage case: with a stored user both start-ups agree. */
  lemma InitFixedAgreesWithStoredUser(storage: Storage, check: CheckAnswer, balance: BalanceAnswer)
    requires storage.user.Some?
    ensures InitFixed(storage, check, balance) == Init(storage, check, balance)
  {
  }

  /** Where a successful login goes: the admin area for either admin flag, else the dashboard. */
  function LoginTarget(u: AuthUser): (r: string)
    ensures r == "/admin" <==> u.isAdmin || u.permissionAdmin
    ensures r == "/admin" || r == "/dashboard"
  {
    if u.isAdmin || u.permissionAdmin then "/admin" else "/dashboard"
  }

  /** The login call's outcome: the user from the session check after logging in, or a failure. */
  datatype LoginAnswer = LoggedIn(user: AuthUser) | LoginFailed(serverMessage: Option<string>)

  datatype LoginResult = LoginResult(state: AuthState, storage: Storage, navigateTo: Option<string>)

  /**
    `login`: on success the user is set and stored, the balance fetched and the user sent to
    their area; on failure only the error changes. Loading ends either way.
  */
  function Login(s: AuthState, storage: Storage, answer: LoginAnswer, balance: BalanceAnswer): (r: LoginResult)
    ensures !r.state.isLoading
    ensures answer.LoggedIn? ==>
      && r.state.user == Some(answer.user)
      && r.storage == storage.(user := Some(answer.user))
      && r.state.balance.Some?
      && r.state.error.None?
      && r.navigateTo == Some(LoginTarget(answer.user))
    ensures answer.LoginFailed? ==>
      && r.state == s.(isLoading := false, error := Some(TextOr(answer.serverMessage, LoginFailedMessage)))
      && r.storage == storage
      && r.navigateTo.None?
  {
    match answer
    case LoggedIn(u) =>
      var stored := storage.(user := Some(u));
      var b := FetchBalance(stored.user.Some?, s.user, balance, s.balance);
      LoginResult(AuthState(Some(u), b, false, None), stored, Some(LoginTarget(u)))
    case LoginFailed(m) =>
      LoginResult(s.(isLoading := false, error := Some(TextOr(m, LoginFailedMessage))), storage, None)
  }

  /** `logout`: whatever the server answers, the user and balance are cleared, the storage emptied, and the login shown. */
  function Logout(s: AuthState): (r: LoginResult)
    ensures !IsAuthenticated(r.state) && r.state.balance.None? && !r.state.isLoading
    ensures r.state.error == s.error
    ensures r.storage == EmptyStorage
    ensures r.navigateTo == Some("/login")
  {
    LoginResult(s.(user := None, balance := None, isLoading := false), EmptyStorage, Some("/login"))
  }

  // ---------------------------------------------------------------------------------------
  // The route guard

  datatype Decision = Spinner | ToLogin | ToDashboard | ShowPage

  /** ProtectedRoute: spinner while loading, login when signed out, dashboard for non-admins in the admin area. */
  function RouteDecision(s: AuthState, path: string): (r: Decision)
    ensures r == Spinner <==> s.isLoading
    ensures r == ToLogin <==> !s.isLoading && !IsAuthenticated(s)
    ensures r == ToDashboard <==> !s.isLoading && IsAuthenticated(s) && StartsWith(path, "/admin") && !s.user.value.isAdmin
  {
    if s.isLoading then Spinner
    else if !IsAuthenticated(s) then ToLogin
    else if StartsWith(path, "/admin") && !s.user.value.isAdmin then ToDashboard
    else ShowPage
  }

  /** After logging out every protected page sends the user to the login. */
  lemma LogoutGuardsEveryPage(s: AuthState, path: string)
    ensures RouteDecision(Logout(s).state, path) == ToLogin
  {
  }

  /** After a successful login the user's own target page is shown when the user is a full admin or not an admin at all. */
  lemma LoginTargetShown(s: AuthState, storage: Storage, u: AuthUser, balance: BalanceAnswer)
    requires u.isAdmin || !u.permissionAdmin
    ensures var r := Login(s, storage, LoggedIn(u), balance);
      RouteDecision(r.state, r.navigateTo.value) == ShowPage
  {
    var target := LoginTarget(u);
    if !u.isAdmin {
      assert target == "/dashboard";
      assert !StartsWith(target, "/admin") by { assert target[1] != "/admin"[1]; }
    }
  }

  /**
    The route guard reads only `isAdmin`: a user with just `permission_admin` is sent to
    the admin area by the login and turned back to the dashboard by the guard.
  */
  lemma PermissionAdminTurnedBack(s: AuthState, storage: Storage, u: AuthUser, balance: BalanceAnswer)
    requires !u.isAdmin && u.permissionAdmin
    ensures var r := Login(s, storage, LoggedIn(u), balance);
      r.navigateTo == Some("/admin") && RouteDecision(r.state, "/admin") == ToDashboard
  {
  }
}
