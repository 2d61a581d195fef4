/** User accounts: registration (`registerUser`) and login (`loginUser`). */
module Accounts {
  import opened Common
  import opened Records

  /** The registration body. An absent text field is "", which the schema's
      `required` treats like an empty one; the password alone is optional,
      since an absent password and an empty one take different paths. */
  datatype RegisterForm = RegisterForm(name: string, username: string, email: string, password: Option<string>)

  datatype Registered = Registered(response: Response, echo: Option<(string, string)>, store: Store)

  /** Usernames and emails are unique among users (the duplicate check of
      registration), and so are names (their unique index). */
  predicate UniqueAccounts(users: seq<User>) {
    forall i, j :: 0 <= i < j < |users| ==>
      && users[i].username != users[j].username
      && users[i].email != users[j].email
      && users[i].name != users[j].name
  }

  predicate Taken(users: seq<User>, form: RegisterForm) {
    exists u :: u in users && (u.username == form.username || u.email == form.email)
  }

  predicate NameTaken(users: seq<User>, name: string) {
    exists u :: u in users && u.name == name
  }

  /** `POST /register`. The duplicate query covers username and email only;
      a repeated name passes it and is then refused by the unique index on
      `name` when saving, which surfaces as a server error. A missing
      password fails when hashing and an empty name, username or email at
      schema validation. An empty password is hashed like any other and
      accepted. The stored password is the salted hash, never the plain
      text. */
  function RegisterUser(store: Store, form: RegisterForm, kdf: (string, string) -> string,
                        salt: string, freshId: string, now: int): (r: Registered)
    requires forall u :: u in store.users ==> u.id != freshId
    ensures r.response.code == 400 <==> Taken(store.users, form)
    ensures r.response.code == 400 ==> r.response.message == "Username or email already exists"
    ensures r.response.code == 201 <==>
      && !Taken(store.users, form)
      && form.name != "" && form.username != "" && form.email != "" && form.password.Some?
      && !NameTaken(store.users, form.name)
    ensures r.response.code in {201, 400, 500}
    ensures r.response.code != 201 ==> r.store == store && r.echo.None?
    ensures r.response.code == 201 ==>
      && r.echo == Some((form.username, form.email))
      && |r.store.users| == |store.users| + 1
      && r.store.users[..|store.users|] == store.users
      && r.store == store.(users := r.store.users)
      && var u := r.store.users[|store.users|];
         && u.id == freshId && u.name == form.name && u.username == form.username && u.email == form.email
         && u.password == Hash(kdf, salt, form.password.value)
         && Verify(kdf, form.password.value, u.password)
  {
    if Taken(store.users, form) then
      Registered(Response(400, "Username or email already exists"), None, store)
    else if form.name == "" || form.username == "" || form.email == "" || form.password.None?
         || NameTaken(store.users, form.name) then
      Registered(Response(500, "Server error during registration"), None, store)
    else
      var user := User(freshId, form.name, form.username, form.email, Hash(kdf, salt, form.password.value), "", now);
      Registered(Response(201, "User registered successfully"), Some((form.username, form.email)),
                 store.(users := store.users + [user]))
  }

  /** Registration keeps usernames, emails and names unique. */
  lemma RegisterKeepsAccountsUnique(store: Store, form: RegisterForm, kdf: (string, string) -> string,
                                    salt: string, freshId: string, now: int)
    requires forall u :: u in store.users ==> u.id != freshId
    requires UniqueAccounts(store.users)
    ensures UniqueAccounts(RegisterUser(store, form, kdf, salt, freshId, now).store.users)
  {
    var r := RegisterUser(store, form, kdf, salt, freshId, now);
    if r.response.code == 201 {
      var users := r.store.users;
      var n := |store.users|;
      forall i, j | 0 <= i < j < |users|
        ensures users[i].username != users[j].username && users[i].email != users[j].email
             && users[i].name != users[j].name
      {
        if j == n {
          assert users[i] == store.users[i];
          assert store.users[i] in store.users;
        } else {
          assert users[i] == store.users[i] && users[j] == store.users[j];
        }
      }
    }
  }

  /** A second registration with the same email is refused. */
  lemma SecondRegistrationWithSameEmailFails(store: Store, a: RegisterForm, b: RegisterForm,
                                            kdf: (string, string) -> string, salt: string,
                                            id1: string, id2: string, now: int)
    requires forall u :: u in store.users ==> u.id != id1
    requires RegisterUser(store, a, kdf, salt, id1, now).response.code == 201
    requires b.email == a.email
    requires forall u :: u in RegisterUser(store, a, kdf, salt, id1, now).store.users ==> u.id != id2
    ensures RegisterUser(RegisterUser(store, a, kdf, salt, id1, now).store, b, kdf, salt, id2, now).response
         == Response(400, "Username or email already exists")
  {
    var s1 := RegisterUser(store, a, kdf, salt, id1, now).store;
    assert s1.users[|store.users|] in s1.users;
  }

  // ---------------------------------------------------------------------
  // Login

  datatype LoggedIn = LoggedIn(response: Response, username: Option<string>, cookie: Option<Cookie>)

  const BadCredentials := Response(400, "Invalid email or password")

  /** `User.findOne({ email })`: the position of the first user with the email. */
  function FindByEmail(users: seq<User>, email: string): (r: Option<nat>)
    ensures r.None? <==> forall u :: u in users ==> u.email != email
    ensures r.Some? ==> r.value < |users| && users[r.value].email == email
    ensures r.Some? ==> forall j :: 0 <= j < r.value ==> users[j].email != email
  {
    FindFirst(users, (u: User) => u.email == email)
  }

  const LoginError := Response(500, "Server error during login")

  /** The user the login query finds. `findOne({ email: undefined })` drops
      the undefined condition and matches every user, so a login without
      an email finds the first stored user, if any. */
  function LoginMatch(users: seq<User>, email: Option<string>): (r: Option<nat>)
    ensures email.Some? ==> r == FindByEmail(users, email.value)
    ensures email.None? ==> (r.Some? <==> |users| > 0) && (r.Some? ==> r.value == 0)
  {
    match email
    case Some(e) => FindByEmail(users, e)
    case None => if |users| > 0 then Some(0) else None
  }

  /** `POST /login`. Login reads the users and returns no store: it cannot
      modify one. An unknown email and a wrong password give the same 400;
      a matched user with no password at all makes the comparison throw,
      which answers 500. Without an email the query matches the first
      stored user. Success sets the signed `auth` cookie to the user's id
      and answers with the username only. */
  function LoginUser(users: seq<User>, email: Option<string>, password: Option<string>,
                     kdf: (string, string) -> string): (r: LoggedIn)
    ensures email.Some? ==> (r.response.code == 200 <==>
      exists i :: 0 <= i < |users| && users[i].email == email.value
              && password.Some? && Verify(kdf, password.value, users[i].password)
              && forall j :: 0 <= j < i ==> users[j].email != email.value)
    ensures email.None? ==> (r.response.code == 200 <==>
      |users| > 0 && password.Some? && Verify(kdf, password.value, users[0].password))
    ensures r.response.code == 500 <==>
      password.None? && (if email.Some? then exists u :: u in users && u.email == email.value else |users| > 0)
    ensures r.response.code == 500 ==> r == LoggedIn(LoginError, None, None)
    ensures r.response.code !in {200, 500} ==> r == LoggedIn(BadCredentials, None, None)
    ensures r.response.code == 200 ==>
      && LoginMatch(users, email).Some?
      && var u := users[LoginMatch(users, email).value];
         && Verify(kdf, password.value, u.password)
         && r.cookie == Some(AuthCookie(u.id)) && r.username == Some(u.username)
  {
    match LoginMatch(users, email)
    case None => LoggedIn(BadCredentials, None, None)
    case Some(i) =>
      if password.None? then LoggedIn(LoginError, None, None)
      else if !Verify(kdf, password.value, users[i].password) then LoggedIn(BadCredentials, None, None)
      else LoggedIn(Response(200, "Login successful"), Some(users[i].username), Some(AuthCookie(users[i].id)))
  }

  /** With unique emails, login succeeds exactly for a stored email whose
      password verifies, and the cookie names that user. */
  lemma LoginSucceedsIffCredentialsMatch(users: seq<User>, email: string, password: string,
                                         kdf: (string, string) -> string)
    requires UniqueAccounts(users)
    ensures LoginUser(users, Some(email), Some(password), kdf).response.code == 200 <==>
      exists u :: u in users && u.email == email && Verify(kdf, password, u.password)
  {
    if u :| u in users && u.email == email && Verify(kdf, password, u.password) {
      var i :| 0 <= i < |users| && users[i] == u;
      forall j | 0 <= j < i ensures users[j].email != email {
      }
    }
  }

  /** When a password is given, a missing account and a wrong password are
      indistinguishable to the caller. */
  lemma LoginFailuresIndistinguishable(users1: seq<User>, users2: seq<User>, email: string,
                                       password: string, kdf: (string, string) -> string)
    requires forall u :: u in users1 ==> u.email != email
    requires forall u :: u in users2 && u.email == email ==> !Verify(kdf, password, u.password)
    ensures LoginUser(users1, Some(email), Some(password), kdf) == LoginUser(users2, Some(email), Some(password), kdf)
  {
  }

  /** Without a password the two failures differ: an unknown email is the
      400 and a known one the 500, so the answer tells whether an account
      with that email exists. */
  lemma MissingPasswordRevealsAccount(users: seq<User>, email: string, kdf: (string, string) -> string)
    ensures LoginUser(users, Some(email), None, kdf).response.code == 400
            <==> forall u :: u in users ==> u.email != email
    ensures LoginUser(users, Some(email), None, kdf).response.code == 500
            <==> exists u :: u in users && u.email == email
  {
  }

  /** A freshly registered user can log in with the password just chosen. */
  lemma RegisteredUserCanLogIn(store: Store, form: RegisterForm, kdf: (string, string) -> string,
                               salt: string, freshId: string, now: int)
    requires forall u :: u in store.users ==> u.id != freshId
    requires RegisterUser(store, form, kdf, salt, freshId, now).response.code == 201
    ensures var r := LoginUser(RegisterUser(store, form, kdf, salt, freshId, now).store.users,
                               Some(form.email), form.password, kdf);
            r.response.code == 200 && r.cookie == Some(AuthCookie(freshId)) && r.username == Some(form.username)
  {
    var users := RegisterUser(store, form, kdf, salt, freshId, now).store.users;
    var n := |store.users|;
    forall j | 0 <= j < n ensures users[j].email != form.email {
      assert users[j] == store.users[j] && store.users[j] in store.users;
    }
    assert FindByEmail(users, form.email) == Some(n);
  }

  /** Registration accepts an empty password: it is hashed and the account
      can log in with it. */
  lemma EmptyPasswordAccepted(store: Store, form: RegisterForm, kdf: (string, string) -> string,
                              salt: string, freshId: string, now: int)
    requires forall u :: u in store.users ==> u.id != freshId
    requires form.password == Some("")
    requires form.name != "" && form.username != "" && form.email != ""
    requires !Taken(store.users, form) && !NameTaken(store.users, form.name)
    ensures RegisterUser(store, form, kdf, salt, freshId, now).response.code == 201
    ensures LoginUser(RegisterUser(store, form, kdf, salt, freshId, now).store.users,
                      Some(form.email), Some(""), kdf).response.code == 200
  {
    RegisteredUserCanLogIn(store, form, kdf, salt, freshId, now);
  }

  /** A login without an email is checked against the first stored user:
      the right password for that user logs in as that user. */
  lemma MissingEmailLogsInAsFirstUser(users: seq<User>, password: string, kdf: (string, string) -> string)
    requires |users| > 0 && Verify(kdf, password, users[0].password)
    ensures var r := LoginUser(users, None, Some(password), kdf);
            r.response.code == 200 && r.cookie == Some(AuthCookie(users[0].id))
            && r.username == Some(users[0].username)
  {
  }
}
