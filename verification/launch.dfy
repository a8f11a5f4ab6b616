/** `SceneDelegate.scene(_:willConnectTo:options:)`: which screen the
    application starts on. */
module SceneDelegate {
  import opened Common
  import opened CoreDataManager
  import opened UserManager

  datatype Screen = LoginScreen | OrdersScreen

  /** Without the persisted login flag the login screen is shown and no user
      is looked up. With it, the orders screen is shown when a user can be
      restored and the login screen otherwise; the flag is not cleared in
      that case. No defaults key is written on any path. */
  function WillConnect(st: Store, s: Session, fetchOk: bool): (r: (Session, Screen))
    ensures r.0.defaults == s.defaults
    ensures !IsUserLoggedIn(s) ==> r == (s, LoginScreen)
    ensures r.1 == OrdersScreen <==> IsUserLoggedIn(s) && GetCurrentUser(s, st, fetchOk).1.Some?
    ensures r.1 == OrdersScreen ==> r.0.currentUser == GetCurrentUser(s, st, fetchOk).1
    ensures r.1 == LoginScreen ==> r.0 == s
  {
    if !IsUserLoggedIn(s) then (s, LoginScreen)
    else
      var (s', restored) := GetCurrentUser(s, st, fetchOk);
      match restored
      case Some(user) => (s'.(currentUser := Some(user)), OrdersScreen)
      case None => (s', LoginScreen)
  }
}
