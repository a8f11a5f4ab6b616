/** `UserManager`: the in-memory current user plus the login keys it keeps
    in `UserDefaults`. The defaults are a map from key to stored value and
    survive a relaunch; `currentUser` does not. */
module UserManager {
  import opened Common
  import opened CoreDataManager

  /** A value stored in `UserDefaults`. The application writes each key with
      one kind of value only. */
  datatype Value = Flag(flag: bool) | Text(text: string)

  type Defaults = map<string, Value>

  const IsLoggedInKey := "isLoggedIn"
  const CurrentUsernameKey := "currentUsername"
  const RememberMeKey := "rememberMe"
  const SavedUsernameKey := "savedUsername"

  /** `UserDefaults.bool(forKey:)`: false when the key is absent. */
  function BoolFor(d: Defaults, key: string): bool
  {
    key in d && d[key].Flag? && d[key].flag
  }

  /** `UserDefaults.string(forKey:)`: None when the key is absent. */
  function StringFor(d: Defaults, key: string): Option<string>
  {
    if key in d && d[key].Text? then Some(d[key].text) else None
  }

  /** `d` and `e` agree on every key outside `keys`. */
  ghost predicate AgreeOutside(d: Defaults, e: Defaults, keys: set<string>)
  {
    forall k :: k !in keys ==> (k in d <==> k in e) && (k in d ==> d[k] == e[k])
  }

  /** The singleton's state: the cached user and the defaults. */
  datatype Session = Session(currentUser: Option<User>, defaults: Defaults)

  /** The persisted login flag, false when it was never written. */
  function IsUserLoggedIn(s: Session): (loggedIn: bool)
    ensures loggedIn <==> IsLoggedInKey in s.defaults && s.defaults[IsLoggedInKey] == Flag(true)
    ensures IsLoggedInKey !in s.defaults ==> !loggedIn
  {
    BoolFor(s.defaults, IsLoggedInKey)
  }

  /** Persists the login: the flag always, the cached user's name only when
      a user is cached. */
  function SaveUserLogin(s: Session): (r: Session)
    ensures r.currentUser == s.currentUser
    ensures IsUserLoggedIn(r)
    ensures s.currentUser.Some? ==> StringFor(r.defaults, CurrentUsernameKey) == Some(s.currentUser.value.username)
    ensures AgreeOutside(s.defaults, r.defaults,
                         if s.currentUser.Some? then {IsLoggedInKey, CurrentUsernameKey} else {IsLoggedInKey})
  {
    var d := s.defaults[IsLoggedInKey := Flag(true)];
    match s.currentUser
    case Some(user) => Session(s.currentUser, d[CurrentUsernameKey := Text(user.username)])
    case None => Session(s.currentUser, d)
  }

  /** Forgets the cached user, writes the flag false and removes the stored
      name. `rememberMe` and `savedUsername` are left as they are. */
  function Logout(s: Session): (r: Session)
    ensures r.currentUser.None?
    ensures !IsUserLoggedIn(r) && IsLoggedInKey in r.defaults
    ensures CurrentUsernameKey !in r.defaults
    ensures AgreeOutside(s.defaults, r.defaults, {IsLoggedInKey, CurrentUsernameKey})
  {
    Session(None, (s.defaults - {CurrentUsernameKey})[IsLoggedInKey := Flag(false)])
  }

  /** The cached user if there is one. Otherwise the first stored user whose
      name is the persisted `currentUsername`, which is then cached. Never
      reads `isLoggedIn` and never writes a key. */
  function GetCurrentUser(s: Session, st: Store, fetchOk: bool): (r: (Session, Option<User>))
    ensures r.0.defaults == s.defaults
    ensures s.currentUser.Some? ==> r == (s, s.currentUser)
    ensures r.1.Some? ==> r.0.currentUser == r.1
    ensures r.1.None? ==> r.0 == s
    ensures s.currentUser.None? ==>
              (r.1.Some? <==> fetchOk && StringFor(s.defaults, CurrentUsernameKey).Some?
                              && exists u :: u in st.users && u.username == StringFor(s.defaults, CurrentUsernameKey).value)
    ensures s.currentUser.None? && r.1.Some? ==>
              r.1.value in st.users && Some(r.1.value.username) == StringFor(s.defaults, CurrentUsernameKey)
  {
    if s.currentUser.Some? then (s, s.currentUser)
    else
      match StringFor(s.defaults, CurrentUsernameKey)
      case None => (s, None)
      case Some(name) =>
        if !fetchOk then (s, None)
        else
          match FirstUser(st.users, (u: User) => u.username == name)
          case Some(user) => (s.(currentUser := Some(user)), Some(user))
          case None => (s, None)
  }

  /** What `getCurrentUser` returns does not depend on `isLoggedIn`. */
  lemma GetCurrentUserIgnoresLoginFlag(s: Session, st: Store, fetchOk: bool, flag: Value)
    ensures GetCurrentUser(s.(defaults := s.defaults[IsLoggedInKey := flag]), st, fetchOk).1
         == GetCurrentUser(s, st, fetchOk).1
  {
    var s' := s.(defaults := s.defaults[IsLoggedInKey := flag]);
    assert StringFor(s'.defaults, CurrentUsernameKey) == StringFor(s.defaults, CurrentUsernameKey);
  }

  /** Right after logout no user can be resolved, whatever the store holds. */
  lemma LogoutThenNoCurrentUser(s: Session, st: Store, fetchOk: bool)
    ensures GetCurrentUser(Logout(s), st, fetchOk).1 == None
  {
  }
}
