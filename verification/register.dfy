/** `RegisterViewController.registerButtonTapped`: the checks the screen
    makes before it creates an account. It has no access to the session, so
    registration leaves `currentUser` and every defaults key alone. */
module RegisterViewController {
  import opened Common
  import opened CoreDataManager
  import Validator

  datatype RegisterError =
    | UsernameRequired
    | PasswordRequired
    | ConfirmationRequired
    | PasswordsDoNotMatch
    | UsernameExists
    | CreateFailed

  /** The text the error label shows. */
  function Message(e: RegisterError): string
  {
    match e
    case UsernameRequired => "Username is required"
    case PasswordRequired => "Password is required"
    case ConfirmationRequired => "Please confirm your password"
    case PasswordsDoNotMatch => "Passwords do not match"
    case UsernameExists => "Username already exists"
    case CreateFailed => "Failed to create account. Please try again."
  }

  /** Each error has its own text, so the label tells the user which check
      failed. */
  lemma MessagesDistinct(a: RegisterError, b: RegisterError)
    ensures Message(a) == Message(b) ==> a == b
  {
  }

  datatype RegisterOutcome = Registered | Rejected(error: RegisterError)

  /** The screen's input checks, in order, before any store access:
      non-empty username, password and confirmation, then equal passwords. */
  function CheckInput(username: string, password: string, confirmPassword: string): (r: Option<RegisterError>)
    ensures r == Some(UsernameRequired) <==> username == []
    ensures r == Some(PasswordRequired) <==> username != [] && password == []
    ensures r == Some(ConfirmationRequired) <==> username != [] && password != [] && confirmPassword == []
    ensures r == Some(PasswordsDoNotMatch) <==>
              username != [] && password != [] && confirmPassword != [] && password != confirmPassword
    ensures r.None? <==> username != [] && password != [] && password == confirmPassword
  {
    if username == [] then Some(UsernameRequired)
    else if password == [] then Some(PasswordRequired)
    else if confirmPassword == [] then Some(ConfirmationRequired)
    else if password != confirmPassword then Some(PasswordsDoNotMatch)
    else None
  }

  /** The first failing check is reported and the store is left alone; after
      the input checks the username is looked up, and only a free username
      reaches `createUser`. A failed save still leaves the new user in the
      context, since nothing rolls it back. */
  function RegisterButtonTapped(st: Store, username: string, password: string, confirmPassword: string, io: Io)
    : (r: (Store, RegisterOutcome))
    ensures CheckInput(username, password, confirmPassword).Some? ==>
              r == (st, Rejected(CheckInput(username, password, confirmPassword).value))
    ensures r.1 == Rejected(UsernameExists) <==>
              CheckInput(username, password, confirmPassword).None? && IsUsernameTaken(st, username, io.fetchOk)
    ensures r.1.Rejected? && r.1.error != CreateFailed ==> r.0 == st
    ensures r.1 == Registered <==>
              CheckInput(username, password, confirmPassword).None? && !IsUsernameTaken(st, username, io.fetchOk) && io.saveOk
    ensures r.1 == Registered || r.1 == Rejected(CreateFailed) ==>
              r.0 == CreateUser(st, username, password, io.saveOk).0
  {
    match CheckInput(username, password, confirmPassword)
    case Some(e) => (st, Rejected(e))
    case None =>
      if IsUsernameTaken(st, username, io.fetchOk) then (st, Rejected(UsernameExists))
      else
        var (st', created) := CreateUser(st, username, password, io.saveOk);
        (st', if created then Registered else Rejected(CreateFailed))
  }

  /** A password that differs from its confirmation is refused with the
      store unchanged. */
  lemma MismatchLeavesStore(st: Store, username: string, password: string, confirmPassword: string, io: Io)
    requires username != [] && password != [] && confirmPassword != [] && password != confirmPassword
    ensures RegisterButtonTapped(st, username, password, confirmPassword, io) == (st, Rejected(PasswordsDoNotMatch))
  {
  }

  /** When the username lookup works, registration keeps usernames unique. */
  lemma {:induction false} RegisterKeepsUsernamesUnique(st: Store, username: string, password: string, confirmPassword: string, io: Io)
    requires UniqueUsernames(st.users)
    requires io.fetchOk
    ensures UniqueUsernames(RegisterButtonTapped(st, username, password, confirmPassword, io).0.users)
  {
    var r := RegisterButtonTapped(st, username, password, confirmPassword, io);
    if r.0 != st {
      var users := r.0.users;
      assert users == st.users + [users[|st.users|]];
      forall i | 0 <= i < |st.users| ensures st.users[i].username != username {
        assert st.users[i] in st.users;
      }
    }
  }

  /** When the username lookup fails, a taken username is stored a second
      time: `createUser` itself never checks. */
  lemma FailedLookupAllowsDuplicate()
    ensures var st := Store([User(0, "alice", "secret1", false)], [], 1);
            var r := RegisterButtonTapped(st, "alice", "other", "other", Io(false, true));
            r.1 == Registered && !UniqueUsernames(r.0.users)
  {
    var st := Store([User(0, "alice", "secret1", false)], [], 1);
    var r := RegisterButtonTapped(st, "alice", "other", "other", Io(false, true));
    assert r.0.users[0].username == r.0.users[1].username;
  }

  /** An account that was created can be authenticated with the same
      credentials. */
  lemma RegisteredCanAuthenticate(st: Store, username: string, password: string, confirmPassword: string, io: Io)
    requires RegisterButtonTapped(st, username, password, confirmPassword, io).1 == Registered
    ensures AuthenticateUser(RegisterButtonTapped(st, username, password, confirmPassword, io).0,
                             username, password, true).Some?
  {
    var st' := RegisterButtonTapped(st, username, password, confirmPassword, io).0;
    assert st'.users[|st.users|] in st'.users;
  }

  /** Only non-emptiness is enforced: one-character credentials that the
      validator's length rules reject are accepted. */
  lemma ShortCredentialsAccepted()
    ensures RegisterButtonTapped(EmptyStore, "a", "b", "b", Io(true, true)).1 == Registered
    ensures !Validator.IsValidUsername("a") && !Validator.IsValidPassword("b")
  {
  }

  /** The screen's checks are weaker than the validator's rules: credentials
      the validator accepts always pass them. */
  lemma ValidatorCredentialsPassChecks(username: string, password: string, confirmPassword: string)
    ensures Validator.IsValidUsername(username) && Validator.IsValidPassword(password)
            && Validator.DoPasswordsMatch(password, confirmPassword)
            ==> CheckInput(username, password, confirmPassword).None?
  {
  }
}
