/** Registration and login: the required-field checks, the uniqueness of email and
    username, the password check, and the two cookies a signed-in browser holds. Password
    hashing and comparison are parameters; token signing is represented by the claims
    the token carries. */
module Auth {
  import opened Common
  import opened Documents

  /** Both cookies live for seven days, in seconds; the token expires with them. */
  const SessionSeconds: int := 60 * 60 * 24 * 7

  /** What the signed `auth_token` carries. */
  datatype Claims = Claims(userId: ObjectId, username: string, email: string)

  datatype CookieValue =
    | Token(claims: Claims, expiresIn: int)
    | Display(info: UserInfo)

  /** A cookie as set on the response; `SameSite=Strict` and `path=/` on both. */
  datatype Cookie = Cookie(name: string, value: CookieValue, httpOnly: bool, maxAge: int)

  /** A route's reply: an error with its status, or `{success: true}`. */
  datatype Reply = Failure(status: int, error: string) | Success

  datatype Outcome = Outcome(users: seq<User>, reply: Reply, cookies: seq<Cookie>)

  /** The two cookies of a signed-in user: the server-only token with the user's id,
      name and email, and the client-readable name and email the pages display. */
  function SessionCookies(id: ObjectId, username: string, email: string): (r: seq<Cookie>)
    ensures |r| == 2
    ensures r[0].name == "auth_token" && r[0].httpOnly
      && r[0].value == Token(Claims(id, username, email), SessionSeconds)
    ensures r[1].name == "curr_user" && !r[1].httpOnly
      && r[1].value == Display(UserInfo(username, email))
    ensures forall c :: c in r ==> c.maxAge == SessionSeconds
  {
    [ Cookie("auth_token", Token(Claims(id, username, email), SessionSeconds), true, SessionSeconds),
      Cookie("curr_user", Display(UserInfo(username, email)), false, SessionSeconds) ]
  }

  /** What the pages read from `curr_user`, if it was set. */
  function CurrentUser(cookies: seq<Cookie>): (r: Option<UserInfo>)
    ensures r.Some? <==> exists c :: c in cookies && c.name == "curr_user" && c.value.Display?
    ensures r.Some? ==> exists c :: c in cookies && c.name == "curr_user" && c.value == Display(r.value)
  {
    if |cookies| == 0 then None
    else if cookies[0].name == "curr_user" && cookies[0].value.Display? then Some(cookies[0].value.info)
    else CurrentUser(cookies[1..])
  }

  /** No two accounts share an email or a username, and ids are distinct. */
  predicate UniqueAccounts(users: seq<User>) {
    forall i, j :: 0 <= i < j < |users| ==>
      users[i].email != users[j].email && users[i].username != users[j].username && users[i].id != users[j].id
  }

  /** `findOne({$or: [{email}, {username}]})` finds something. */
  predicate Taken(users: seq<User>, username: string, email: string) {
    exists k :: 0 <= k < |users| && (users[k].email == email || users[k].username == username)
  }

  /** POST /api/auth/register. A missing or empty field is a 400; an email or username
      already in use is a 400; otherwise the user is appended with the hashed password
      and signed in. `newId` is the id the database mints and `now` the creation time. */
  function Register(users: seq<User>, username: JsVal, email: JsVal, password: JsVal,
                    hash: string -> string, newId: ObjectId, now: int): (r: Outcome)
    requires forall k :: 0 <= k < |users| ==> users[k].id != newId
    ensures !(Truthy(username) && Truthy(email) && Truthy(password)) ==>
      r == Outcome(users, Failure(400, "Missing required fields"), [])
    ensures Truthy(username) && Truthy(email) && Truthy(password) && Taken(users, username.s, email.s) ==>
      r == Outcome(users, Failure(400, "User with this email or username already exists"), [])
    ensures r.reply == Success <==>
      Truthy(username) && Truthy(email) && Truthy(password) && !Taken(users, username.s, email.s)
    ensures r.reply == Success ==>
      && r.users == users + [User(newId, username.s, email.s, hash(password.s), now)]
      && r.cookies == SessionCookies(newId, username.s, email.s)
    ensures UniqueAccounts(users) ==> UniqueAccounts(r.users)
  {
    if !(Truthy(username) && Truthy(email) && Truthy(password)) then
      Outcome(users, Failure(400, "Missing required fields"), [])
    else if Taken(users, username.s, email.s) then
      Outcome(users, Failure(400, "User with this email or username already exists"), [])
    else
      Outcome(users + [User(newId, username.s, email.s, hash(password.s), now)], Success,
              SessionCookies(newId, username.s, email.s))
  }

  /** `findOne({email})`. */
  function FindByEmail(users: seq<User>, email: string): (r: Option<User>) {
    FindBy(users, (u: User) => u.email, email)
  }

  /** POST /api/auth/login. A missing or empty field is a 400; an unknown email and a
      wrong password get the same 401, so the reply does not tell which; otherwise the
      stored user is signed in. The store never changes. */
  function Login(users: seq<User>, email: JsVal, password: JsVal,
                 verify: (string, string) -> bool): (r: Outcome)
    ensures r.users == users
    ensures !(Truthy(email) && Truthy(password)) ==> r.reply == Failure(400, "Missing required fields")
    ensures r.reply.Failure? ==> r.cookies == []
    ensures Truthy(email) && Truthy(password) && r.reply != Success ==> r.reply == Failure(401, "Invalid credentials")
    ensures r.reply == Success <==> (Truthy(email) && Truthy(password)
      && FindByEmail(users, email.s).Some? && verify(password.s, FindByEmail(users, email.s).value.password))
    ensures r.reply == Success ==> var u := FindByEmail(users, email.s).value;
      r.cookies == SessionCookies(u.id, u.username, u.email)
  {
    if !(Truthy(email) && Truthy(password)) then
      Outcome(users, Failure(400, "Missing required fields"), [])
    else
      match FindByEmail(users, email.s)
      case None => Outcome(users, Failure(401, "Invalid credentials"), [])
      case Some(u) =>
        if !verify(password.s, u.password) then Outcome(users, Failure(401, "Invalid credentials"), [])
        else Outcome(users, Success, SessionCookies(u.id, u.username, u.email))
  }

  /** Both ways of failing the credential check give the same reply. */
  lemma UnknownEmailLooksLikeWrongPassword(users: seq<User>, known: string, unknown: string, password: string,
                                           verify: (string, string) -> bool)
    requires password != "" && known != "" && unknown != ""
    requires FindByEmail(users, unknown).None?
    requires FindByEmail(users, known).Some? && !verify(password, FindByEmail(users, known).value.password)
    ensures Login(users, Str(unknown), Str(password), verify) == Login(users, Str(known), Str(password), verify)
  {
  }

  /** Registering and then logging in with the same email and password signs in the
      new account, provided the password check accepts a password against its own
      hash; both routes set the same cookies. */
  lemma RegisterThenLogin(users: seq<User>, username: string, email: string, password: string,
                          hash: string -> string, verify: (string, string) -> bool, newId: ObjectId, now: int)
    requires forall k :: 0 <= k < |users| ==> users[k].id != newId
    requires username != "" && email != "" && password != ""
    requires !Taken(users, username, email)
    requires verify(password, hash(password))
    ensures
      var reg := Register(users, Str(username), Str(email), Str(password), hash, newId, now);
      var login := Login(reg.users, Str(email), Str(password), verify);
      && reg.reply == Success && login.reply == Success
      && login.cookies == reg.cookies
      && CurrentUser(login.cookies) == Some(UserInfo(username, email))
  {
    var reg := Register(users, Str(username), Str(email), Str(password), hash, newId, now);
    var u := User(newId, username, email, hash(password), now);
    assert reg.users == users + [u];
    FindNew(users, u);
    var cs := SessionCookies(newId, username, email);
    assert cs[1..][0] == cs[1];
  }

  /** An appended user whose email is new is the one found by that email. */
  lemma {:induction false} FindNew(users: seq<User>, u: User)
    requires forall k :: 0 <= k < |users| ==> users[k].email != u.email
    ensures FindByEmail(users + [u], u.email) == Some(u)
  {
    if |users| > 0 {
      assert (users + [u])[1..] == users[1..] + [u];
      FindNew(users[1..], u);
    }
  }
}
