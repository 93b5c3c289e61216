/** Logging in, registering and logging out. A form field that is missing
    and one that is empty are both the empty string here, which is all
    `string.IsNullOrEmpty` distinguishes. */
module Auth {
  import opened Optional
  import opened Store
  import opened Access
  import ChatHub
  import HubProperties

  datatype AuthError =
    | MissingFields
    | WrongCredentials
    | PasswordMismatch
    | PasswordTooShort
    | UsernameTaken
    | EmailTaken

  /** What the browser is shown: a form with an error or none, the login
      form with the registration notice, or a redirect. */
  datatype Page =
    | LoginView(error: Option<AuthError>)
    | RegisterView(error: Option<AuthError>)
    | Registered
    | ToChat
    | ToLogin

  datatype AuthStep = AuthStep(page: Page, session: Session, db: Db)

  const MinPasswordLength := 6

  /** `Login()` and `Register()` on GET: a signed-in user goes to the chat. */
  function LoginForm(s: Session): (p: Page)
    ensures p == ToChat <==> IsAuthenticated(s)
    ensures p != ToChat ==> p == LoginView(None)
  {
    if IsAuthenticated(s) then ToChat else LoginView(None)
  }

  function RegisterForm(s: Session): (p: Page)
    ensures p == ToChat <==> IsAuthenticated(s)
    ensures p != ToChat ==> p == RegisterView(None)
  {
    if IsAuthenticated(s) then ToChat else RegisterView(None)
  }

  /** The user row a login form names: the username and the digest of the
      password both match. */
  predicate Matches(u: User, username: string, password: string) {
    u.username == username && u.passwordHash == Sha256(password)
  }

  /** `Login(username, password)` on POST. When several rows match, any of
      them is taken. The user is marked online and its id stored in the
      session. */
  method Login(db: Db, s: Session, username: string, password: string, now: Time) returns (r: AuthStep)
    ensures username == [] || password == [] ==> r == AuthStep(LoginView(Some(MissingFields)), s, db)
    ensures r.page == ToChat <==>
      username != [] && password != [] && exists id :: id in db.users && Matches(db.users[id], username, password)
    ensures r.page != ToChat ==> r.session == s && r.db == db
    ensures r.page != ToChat && username != [] && password != [] ==> r.page == LoginView(Some(WrongCredentials))
    ensures r.page == ToChat ==>
      && r.session.userId.Some?
      && var id := r.session.userId.value;
         && id in db.users && Matches(db.users[id], username, password)
         && r.db == SetPresence(db, id, true, now)
         && r.db.users[id].isOnline
  {
    if username == [] || password == [] {
      return AuthStep(LoginView(Some(MissingFields)), s, db);
    }
    if id :| id in db.users && Matches(db.users[id], username, password) {
      r := AuthStep(ToChat, Session(Some(id)), SetPresence(db, id, true, now));
    } else {
      r := AuthStep(LoginView(Some(WrongCredentials)), s, db);
    }
  }

  /** In a valid store a username and password identify at most one user,
      so the row a login takes is determined. */
  lemma CredentialsIdentifyOneUser(db: Db, username: string, password: string, a: UserId, b: UserId)
    requires Valid(db)
    requires a in db.users && Matches(db.users[a], username, password)
    requires b in db.users && Matches(db.users[b], username, password)
    ensures a == b
  {
  }

  /** The row registration inserts: the full name and the default avatar
      filled in, offline, never seen. */
  function NewUser(username: string, email: string, password: string, fullName: string, now: Time): User {
    User(username, email, Sha256(password), Some(fullName), Some(DefaultAvatar), false, None, now)
  }

  predicate UsernameTakenIn(db: Db, username: string) {
    exists id :: id in db.users && db.users[id].username == username
  }

  predicate EmailTakenIn(db: Db, email: string) {
    exists id :: id in db.users && db.users[id].email == email
  }

  /** `Register(username, email, password, confirmPassword, fullName)` on
      POST, checking in order: every field filled in, the confirmation
      equal, the password long enough, the username and then the email not
      taken. */
  function Register(db: Db, s: Session, username: string, email: string, password: string,
                    confirm: string, fullName: string, now: Time): (r: AuthStep)
    ensures r.session == s
    ensures r.page == RegisterView(Some(MissingFields)) <==>
      username == [] || email == [] || password == [] || fullName == []
    ensures r.page == RegisterView(Some(PasswordMismatch)) <==>
      username != [] && email != [] && password != [] && fullName != [] && password != confirm
    ensures r.page == RegisterView(Some(PasswordTooShort)) <==>
      && username != [] && email != [] && password != [] && fullName != []
      && password == confirm && |password| < MinPasswordLength
    ensures r.page == RegisterView(Some(UsernameTaken)) <==>
      && username != [] && email != [] && password != [] && fullName != []
      && password == confirm && |password| >= MinPasswordLength
      && UsernameTakenIn(db, username)
    ensures r.page == RegisterView(Some(EmailTaken)) <==>
      && username != [] && email != [] && password != [] && fullName != []
      && password == confirm && |password| >= MinPasswordLength
      && !UsernameTakenIn(db, username) && EmailTakenIn(db, email)
    ensures r.page != Registered ==> r.page.RegisterView? && r.db == db
    ensures r.page == Registered <==>
      && username != [] && email != [] && password != [] && fullName != []
      && password == confirm && |password| >= MinPasswordLength
      && !UsernameTakenIn(db, username) && !EmailTakenIn(db, email)
    ensures r.page == Registered ==>
      && r.db.users == db.users[db.nextUserId := NewUser(username, email, password, fullName, now)]
      && r.db.nextUserId == db.nextUserId + 1
      && r.db.(users := db.users, nextUserId := db.nextUserId) == db
  {
    if username == [] || email == [] || password == [] || fullName == [] then AuthStep(RegisterView(Some(MissingFields)), s, db)
    else if password != confirm then AuthStep(RegisterView(Some(PasswordMismatch)), s, db)
    else if |password| < MinPasswordLength then AuthStep(RegisterView(Some(PasswordTooShort)), s, db)
    else if UsernameTakenIn(db, username) then AuthStep(RegisterView(Some(UsernameTaken)), s, db)
    else if EmailTakenIn(db, email) then AuthStep(RegisterView(Some(EmailTaken)), s, db)
    else
      AuthStep(Registered, s, db.(users := db.users[db.nextUserId := NewUser(username, email, password, fullName, now)],
                                  nextUserId := db.nextUserId + 1))
  }

  /** Registering keeps the store valid: the new identity is unused and the
      username and email checks keep both indexes unique. */
  lemma {:induction false} RegisterKeepsValid(db: Db, s: Session, username: string, email: string, password: string,
                                              confirm: string, fullName: string, now: Time)
    requires Valid(db)
    ensures Valid(Register(db, s, username, email, password, confirm, fullName, now).db)
  {
    var r := Register(db, s, username, email, password, confirm, fullName, now);
    if r.page == Registered {
      var u := NewUser(username, email, password, fullName, now);
      assert forall v :: v in db.users ==> db.users[v].username != u.username && db.users[v].email != u.email;
      InsertUserKeepsUnique(db, u);
      InsertUserKeepsRest(db, u);
      assert r.db == InsertUser(db, u);
    }
  }

  /** The store with `u` saved under the next user identity. */
  function InsertUser(db: Db, u: User): Db {
    db.(users := db.users[db.nextUserId := u], nextUserId := db.nextUserId + 1)
  }

  lemma {:induction false} InsertUserKeepsUnique(db: Db, u: User)
    requires UsersUnique(db) && IdentitiesFresh(db)
    requires forall v :: v in db.users ==> db.users[v].username != u.username && db.users[v].email != u.email
    ensures UsersUnique(InsertUser(db, u))
  {
    var r := InsertUser(db, u);
    var n := db.nextUserId;
    assert n !in db.users;
    forall a, b | a in r.users && b in r.users && r.users[a].username == r.users[b].username
      ensures a == b
    {
      if a != n && b != n {
        assert db.users[a].username == db.users[b].username;
      }
    }
    forall a, b | a in r.users && b in r.users && r.users[a].email == r.users[b].email
      ensures a == b
    {
      if a != n && b != n {
        assert db.users[a].email == db.users[b].email;
      }
    }
  }

  lemma {:induction false} InsertUserKeepsRest(db: Db, u: User)
    requires Valid(db)
    ensures var r := InsertUser(db, u);
      IdentitiesFresh(r) && ForeignKeys(r) && UserRefs(r) && MessageFlagsAgree(r) && FriendsSymmetric(r) && RequestsAgree(r)
  {
    var r := InsertUser(db, u);
    assert db.users.Keys <= r.users.Keys;
  }

  /** After a registration the new user is the one and only row their
      username and password match, so logging in with them finds it. */
  lemma {:induction false} RegisteredUserCanLogIn(db: Db, s: Session, username: string, email: string, password: string,
                                                  confirm: string, fullName: string, now: Time)
    requires Valid(db)
    requires Register(db, s, username, email, password, confirm, fullName, now).page == Registered
    ensures var r := Register(db, s, username, email, password, confirm, fullName, now);
      forall id :: id in r.db.users && Matches(r.db.users[id], username, password) <==> id == db.nextUserId
  {
    var r := Register(db, s, username, email, password, confirm, fullName, now);
    assert forall v :: v in db.users ==> db.users[v].username != username;
    assert forall v :: v in db.users ==> r.db.users[v] == db.users[v];
  }

  /** `Logout()`: a signed-in user with a row is marked offline; the
      session is cleared either way. */
  function Logout(db: Db, s: Session, now: Time): (r: AuthStep)
    ensures r.page == ToLogin && r.session == Session(None)
    ensures !IsAuthenticated(r.session)
    ensures s.userId.None? ==> r.db == db
    ensures s.userId.Some? ==> r.db == SetPresence(db, s.userId.value, false, now)
    ensures s.userId.Some? && s.userId.value in db.users ==> !r.db.users[s.userId.value].isOnline
  {
    match s.userId
    case None => AuthStep(ToLogin, Session(None), db)
    case Some(id) => AuthStep(ToLogin, Session(None), SetPresence(db, id, false, now))
  }

  /** Logging in and out sets the online flag without a hub connection, so
      the flag and the hub's registry can disagree: a user who logs in but
      has not connected is online without a connection, and one who logs
      out with a tab still connected is offline with one. */
  lemma LoginAndLogoutBypassTheHub(db: Db, hub: ChatHub.Hub, u: UserId, now: Time)
    requires u in db.users
    ensures u !in hub.registry ==> !HubProperties.PresenceAgrees(SetPresence(db, u, true, now), hub)
    ensures u in hub.registry ==> !HubProperties.PresenceAgrees(Logout(db, Session(Some(u)), now).db, hub)
  {
  }
}
