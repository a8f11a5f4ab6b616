/** Properties that span several screens: the account, session and order
    lifecycles end to end, and the places where a screen's checks differ
    from the `Validator` rules. */
module Scenarios {
  import opened Common
  import opened Text
  import opened CoreDataManager
  import opened UserManager
  import opened RegisterViewController
  import opened LoginViewController
  import opened OrderDetailViewController
  import opened OrdersViewController
  import opened SceneDelegate

  /** After logout no user can be restored: neither in the running process
      nor after a relaunch, the orders screen is unreachable without a new
      login. */
  lemma LogoutPreventsRestore(st: Store, s: Session, fetchOk: bool)
    ensures GetCurrentUser(Logout(s), st, fetchOk).1.None?
    ensures WillConnect(st, Logout(s), fetchOk).1 == LoginScreen
    ensures WillConnect(st, Session(None, Logout(s).defaults), fetchOk).1 == LoginScreen
  {
  }

  /** A successful login is restored on the next launch whatever the
      remember-me switch said, because the username is always persisted. */
  lemma {:induction false} LoginRestoredAfterRelaunch(st: Store, s: Session, username: string, password: string,
                                                      rememberMeOn: bool)
    requires LoginButtonTapped(st, s, username, password, rememberMeOn, true).1.LoggedIn?
    ensures var d := LoginButtonTapped(st, s, username, password, rememberMeOn, true).0.defaults;
            var r := WillConnect(st, Session(None, d), true);
            r.1 == OrdersScreen && r.0.currentUser.Some? && r.0.currentUser.value.username == username
  {
    var (s1, out) := LoginButtonTapped(st, s, username, password, rememberMeOn, true);
    var relaunched := Session(None, s1.defaults);
    assert out.user in st.users && out.user.username == username;
    var g := GetCurrentUser(relaunched, st, true);
    assert g.1.Some?;
  }

  /** Registering and then logging in with the same credentials succeeds,
      and the user logged in carries the registered name. */
  lemma {:induction false} RegisterThenLogin(st: Store, s: Session, username: string, password: string,
                                             rememberMeOn: bool, io: Io)
    requires RegisterButtonTapped(st, username, password, password, io).1 == Registered
    ensures var st' := RegisterButtonTapped(st, username, password, password, io).0;
            var r := LoginButtonTapped(st', s, username, password, rememberMeOn, true);
            r.1.LoggedIn? && r.1.user.username == username
  {
    var st' := RegisterButtonTapped(st, username, password, password, io).0;
    RegisteredCanAuthenticate(st, username, password, password, io);
    var u := AuthenticateUser(st', username, password, true).value;
    assert u in st'.users && u.username == username && u.password == password;
  }

  /** Registering a name a second time is refused, whatever the password. */
  lemma {:induction false} SecondRegistrationRejected(st: Store, username: string, password: string,
                                                      password2: string, io: Io, io2: Io)
    requires RegisterButtonTapped(st, username, password, password, io).1 == Registered
    requires password2 != [] && io2.fetchOk
    ensures var st' := RegisterButtonTapped(st, username, password, password, io).0;
            RegisterButtonTapped(st', username, password2, password2, io2) == (st', RegisterOutcome.Rejected(UsernameExists))
  {
    var st' := RegisterButtonTapped(st, username, password, password, io).0;
    assert st'.users[|st.users|] in st'.users;
  }

  /** A new order saved from a form with no blank field and a non-negative
      total shows up in the list fetched by `didSaveOrder`. */
  lemma {:induction false} SavedOrderIsListed(st: Store, s: Session, form: OrderForm, parse: string -> Option<real>)
    requires s.currentUser.Some?
    requires Filled(form)
    requires parse(Trim(form.total)).Some? && parse(Trim(form.total)).value >= 0.0
    ensures var r := SaveButtonTapped(st, s.currentUser, None, form, parse, true);
            && r.1 == Saved
            && |r.0.orders| == |st.orders| + 1
            && r.0.orders[|st.orders|] in DidSaveOrder(r.0, s, true)
  {
    FilledFieldsSurviveTrim(form);
    AcceptedIff(form, parse);
    var st' := SaveButtonTapped(st, s.currentUser, None, form, parse, true).0;
    assert st'.orders[|st.orders|] in st'.orders;
  }

  /** A confirmed and saved deletion takes the order off the refetched list,
      and leaves the rest of the user's orders on it. */
  lemma {:induction false} DeletedOrderIsUnlisted(st: Store, s: Session, orders: seq<Order>, order: Order)
    requires s.currentUser.Some?
    ensures var r := DeleteOrderAlert(st, s, orders, order, Delete, true, true);
            && order !in r.1
            && forall o :: o in st.orders && o.owner == s.currentUser.value.id && o.id != order.id ==> o in r.1
  {
  }
}
