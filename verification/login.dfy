/** `LoginViewController`: prefilling the form from the remembered name and
    what a login writes to the session. */
module LoginViewController {
  import opened Common
  import opened CoreDataManager
  import opened UserManager

  datatype LoginError = CredentialsRequired | InvalidCredentials

  function Message(e: LoginError): string
  {
    match e
    case CredentialsRequired => "Username and password are required"
    case InvalidCredentials => "Invalid username or password"
  }

  /** The two failures read differently. */
  lemma MessagesDistinct(a: LoginError, b: LoginError)
    ensures Message(a) == Message(b) ==> a == b
  {
  }

  datatype LoginOutcome = LoggedIn(user: User) | LoginFailed(error: LoginError)

  /** The name to prefill, if any; the remember-me switch is turned on exactly
      when one is returned. Both a saved name and a set `rememberMe` flag are
      needed. */
  function CheckSavedCredentials(d: Defaults): (prefill: Option<string>)
    ensures prefill.Some? <==> SavedUsernameKey in d && d[SavedUsernameKey].Text?
                               && RememberMeKey in d && d[RememberMeKey] == Flag(true)
    ensures prefill.Some? ==> d[SavedUsernameKey] == Text(prefill.value)
  {
    match StringFor(d, SavedUsernameKey)
    case Some(name) => if BoolFor(d, RememberMeKey) then Some(name) else None
    case None => None
  }

  /** The remember-me keys a successful login writes: the switch state, and
      the typed name stored or removed according to it. */
  function RememberChoice(d: Defaults, username: string, rememberMeOn: bool): (e: Defaults)
    ensures BoolFor(e, RememberMeKey) == rememberMeOn && RememberMeKey in e
    ensures rememberMeOn ==> StringFor(e, SavedUsernameKey) == Some(username)
    ensures !rememberMeOn ==> SavedUsernameKey !in e
    ensures AgreeOutside(d, e, {RememberMeKey, SavedUsernameKey})
  {
    var d1 := d[RememberMeKey := Flag(rememberMeOn)];
    if rememberMeOn then d1[SavedUsernameKey := Text(username)] else d1 - {SavedUsernameKey}
  }

  /** An empty field, or credentials that match no user, leave the session
      and defaults as they were. On success the user is cached and the login
      is saved, so `isLoggedIn` and `currentUsername` are written whatever
      the switch says. */
  function LoginButtonTapped(st: Store, s: Session, username: string, password: string, rememberMeOn: bool, fetchOk: bool)
    : (r: (Session, LoginOutcome))
    ensures r.1.LoginFailed? ==> r.0 == s
    ensures r.1 == LoginFailed(CredentialsRequired) <==> username == [] || password == []
    ensures r.1.LoggedIn? <==> username != [] && password != [] && fetchOk
                               && exists u :: u in st.users && u.username == username && u.password == password
    ensures r.1.LoggedIn? ==>
              && r.1.user in st.users && r.1.user.username == username && r.1.user.password == password
              && r.0.currentUser == Some(r.1.user)
              && IsUserLoggedIn(r.0)
              && StringFor(r.0.defaults, CurrentUsernameKey) == Some(username)
              && BoolFor(r.0.defaults, RememberMeKey) == rememberMeOn
              && StringFor(r.0.defaults, SavedUsernameKey) == (if rememberMeOn then Some(username) else None)
              && AgreeOutside(s.defaults, r.0.defaults,
                              {IsLoggedInKey, CurrentUsernameKey, RememberMeKey, SavedUsernameKey})
  {
    if username == [] || password == [] then (s, LoginFailed(CredentialsRequired))
    else
      match AuthenticateUser(st, username, password, fetchOk)
      case None => (s, LoginFailed(InvalidCredentials))
      case Some(user) =>
        var d := RememberChoice(s.defaults, username, rememberMeOn);
        (SaveUserLogin(Session(Some(user), d)), LoggedIn(user))
  }

  /** After a successful login the next login screen prefills the typed name
      exactly when the switch was on. */
  lemma LoginThenPrefill(st: Store, s: Session, username: string, password: string, rememberMeOn: bool, fetchOk: bool)
    requires LoginButtonTapped(st, s, username, password, rememberMeOn, fetchOk).1.LoggedIn?
    ensures CheckSavedCredentials(LoginButtonTapped(st, s, username, password, rememberMeOn, fetchOk).0.defaults)
         == (if rememberMeOn then Some(username) else None)
  {
  }

  /** Logout does not clear the remembered name: the prefill survives it. */
  lemma PrefillSurvivesLogout(s: Session)
    ensures CheckSavedCredentials(Logout(s).defaults) == CheckSavedCredentials(s.defaults)
  {
    var d := Logout(s).defaults;
    assert StringFor(d, SavedUsernameKey) == StringFor(s.defaults, SavedUsernameKey);
    assert BoolFor(d, RememberMeKey) == BoolFor(s.defaults, RememberMeKey);
  }
}
