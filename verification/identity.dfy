/**
 * `POST /auth/register` and `POST /auth/login` over the user collection.
 * bcrypt is the pair of abstract functions `hash` and `compare`, and
 * `jsonwebtoken` is `sign(payload, issuedAt)`. Email lookups use the
 * lower-cased request email as the filter value.
 */
module AuthRoute {
  import opened Basics
  import opened Text
  import opened Models

  /** The JWT payload: who the caller is and what the store said at signing time. */
  datatype Payload = Payload(sub: Id, email: string, isVerified: bool)

  /** The user object of a response: every stored field except the password hash and timestamps. */
  datatype PublicUser = PublicUser(id: Id, email: string, name: string, isVerified: bool, role: Option<string>)

  function PayloadOf(u: User): Payload {
    Payload(u.id, u.email, u.isVerified)
  }

  function PublicOf(u: User): PublicUser {
    PublicUser(u.id, u.email, u.name, u.isVerified, u.role)
  }

  datatype RegisterResult =
    | UserExists
    | RegistrationFailed(error: DbError)
    | Registered(user: PublicUser, token: string)

  datatype LoginResult = InvalidCredentials | LoggedIn(user: PublicUser, token: string)

  datatype Registration = Registration(store: Store, result: RegisterResult)

  function RegisterStatus(r: RegisterResult): int {
    match r
    case UserExists => 409
    case RegistrationFailed(_) => 500
    case Registered(_, _) => 201
  }

  function RegisterCode(r: RegisterResult): Option<string> {
    match r
    case UserExists => Some("USER_EXISTS")
    case RegistrationFailed(_) => Some("REGISTRATION_FAILED")
    case Registered(_, _) => None
  }

  function LoginStatus(r: LoginResult): int {
    if r.LoggedIn? then 200 else 401
  }

  /** The `{ code, message }` of a refused login. */
  function LoginError(r: LoginResult): Option<(string, string)> {
    if r.LoggedIn? then None else Some(("INVALID_CREDENTIALS", "Invalid email or password"))
  }

  /** The document `register` hands to `User.create`. */
  function RegisterInput(email: string, password: string, name: string, hash: string -> string): UserInput {
    UserInput(Some(Lower(email)), Some(hash(password)), Some(name), None, None)
  }

  /**
   * `POST /auth/register`: 409 if a user already has the lower-cased email;
   * otherwise create the user with the hashed password (any creation error is
   * a 500) and answer 201 with the public user and a token for it.
   */
  function Register(s: Store, email: string, password: string, name: string,
                    hash: string -> string, sign: (Payload, int) -> string, newId: Id, now: int): (a: Registration)
    requires |newId| > 0
    ensures a.result.UserExists? <==> UserByEmail(s, Lower(email)).Some?
    ensures !a.result.Registered? ==> a.store == s
    ensures a.result.Registered? <==>
      && UserByEmail(s, Lower(email)).None?
      && |Normalize(email)| > 0 && |hash(password)| > 0 && |Trim(name)| > 0
      && !HasUserId(s, newId) && !HasEmail(s, Normalize(email))
    ensures a.result.Registered? ==>
      var u := User(newId, Normalize(email), hash(password), Trim(name), false, None, now, now);
      && a.store == s.(users := s.users + [u])
      && a.result.user == PublicOf(u)
      && a.result.token == sign(PayloadOf(u), now)
    ensures Valid(s) ==> Valid(a.store)
  {
    if UserByEmail(s, Lower(email)).Some? then Registration(s, UserExists)
    else
      NormalizeOfLower(email);
      var ins := InsertUser(s, RegisterInput(email, password, name, hash), newId, now);
      match ins.outcome
      case Ok(u) => Registration(ins.store, Registered(PublicOf(u), sign(PayloadOf(u), now)))
      case Err(e) => Registration(s, RegistrationFailed(e))
  }

  /** Lower-casing first does not change the normal form the setters store. */
  lemma NormalizeOfLower(s: string)
    ensures Normalize(Lower(s)) == Normalize(s)
  {
    var l := Lower(s);
    assert IsLower(l);
    LowerOfLower(l);
  }

  /**
   * `POST /auth/login`: find the user by lower-cased email, check the password
   * against the stored hash, and answer 200 with the public user and a token
   * for it. Both kinds of failure give the same 401.
   */
  function Login(s: Store, email: string, password: string,
                 compare: (string, string) -> bool, sign: (Payload, int) -> string, now: int): (r: LoginResult)
    ensures r.LoggedIn? <==>
      UserByEmail(s, Lower(email)).Some? && compare(password, UserByEmail(s, Lower(email)).value.passwordHash)
    ensures r.LoggedIn? ==>
      var u := UserByEmail(s, Lower(email)).value;
      u in s.users && u.email == Lower(email) && r.user == PublicOf(u) && r.token == sign(PayloadOf(u), now)
    ensures !r.LoggedIn? ==> r == InvalidCredentials
  {
    match UserByEmail(s, Lower(email))
    case None => InvalidCredentials
    case Some(u) =>
      if !compare(password, u.passwordHash) then InvalidCredentials
      else LoggedIn(PublicOf(u), sign(PayloadOf(u), now))
  }

  /** An unknown email and a wrong password are answered identically. */
  lemma FailuresIndistinguishable(s: Store, unknown: string, known: string, p1: string, p2: string,
                                  compare: (string, string) -> bool, sign: (Payload, int) -> string, now: int)
    requires UserByEmail(s, Lower(unknown)).None?
    requires UserByEmail(s, Lower(known)).Some? && !compare(p2, UserByEmail(s, Lower(known)).value.passwordHash)
    ensures Login(s, unknown, p1, compare, sign, now) == Login(s, known, p2, compare, sign, now) == InvalidCredentials
    ensures LoginStatus(InvalidCredentials) == 401
  {
  }

  /** Login ignores the case of the email. */
  lemma LoginIgnoresCase(s: Store, e1: string, e2: string, password: string,
                         compare: (string, string) -> bool, sign: (Payload, int) -> string, now: int)
    requires Lower(e1) == Lower(e2)
    ensures Login(s, e1, password, compare, sign, now) == Login(s, e2, password, compare, sign, now)
  {
  }

  /**
   * An email with no surrounding whitespace is stored as its lower-case form,
   * which is what login looks up.
   */
  lemma StoredEmailIsLookupKey(email: string)
    requires IsTrimmed(email)
    ensures Normalize(email) == Lower(email)
  {
    LowerKeepsTrimmed(email);
    TrimOfTrimmed(Lower(email));
  }

  lemma LowerKeepsTrimmed(s: string)
    requires IsTrimmed(s)
    ensures IsTrimmed(Lower(s))
  {
  }

  /**
   * Registering and then logging in with the same password (in any letter
   * case of the email) yields the registered user, whose token payload
   * mirrors the stored record: not verified yet.
   */
  lemma RegisterThenLogin(s: Store, email: string, loginEmail: string, password: string, name: string,
                          hash: string -> string, compare: (string, string) -> bool,
                          sign: (Payload, int) -> string, newId: Id, now: int, later: int)
    requires Valid(s) && |newId| > 0 && IsTrimmed(email) && Lower(loginEmail) == Lower(email)
    requires compare(password, hash(password))
    requires Register(s, email, password, name, hash, sign, newId, now).result.Registered?
    ensures var reg := Register(s, email, password, name, hash, sign, newId, now);
      Login(reg.store, loginEmail, password, compare, sign, later)
        == LoggedIn(reg.result.user, sign(Payload(newId, Lower(email), false), later))
  {
    var reg := Register(s, email, password, name, hash, sign, newId, now);
    var u := User(newId, Normalize(email), hash(password), Trim(name), false, None, now, now);
    assert reg.store == s.(users := s.users + [u]);
    assert Valid(reg.store);
    assert reg.result.user == PublicOf(u);
    StoredEmailIsLookupKey(email);
    assert reg.store.users[|s.users|] == u;
    LoginFinds(reg.store, u, loginEmail, password, compare, sign, later);
  }

  /** A stored user presenting the right password logs in as themself. */
  lemma LoginFinds(s: Store, u: User, email: string, password: string,
                   compare: (string, string) -> bool, sign: (Payload, int) -> string, now: int)
    requires Valid(s) && u in s.users && Lower(email) == u.email && compare(password, u.passwordHash)
    ensures Login(s, email, password, compare, sign, now) == LoggedIn(PublicOf(u), sign(PayloadOf(u), now))
  {
    EmailIdentifiesUser(s, u);
  }

  /**
   * A second registration with the same email (in any letter case) is refused
   * with 409 and writes nothing.
   */
  lemma RegisterTwice(s: Store, email: string, again: string, p1: string, p2: string, n1: string, n2: string,
                      hash: string -> string, sign: (Payload, int) -> string, id1: Id, id2: Id, now1: int, now2: int)
    requires Valid(s) && |id1| > 0 && |id2| > 0 && IsTrimmed(email) && Lower(again) == Lower(email)
    requires Register(s, email, p1, n1, hash, sign, id1, now1).result.Registered?
    ensures var first := Register(s, email, p1, n1, hash, sign, id1, now1);
      var second := Register(first.store, again, p2, n2, hash, sign, id2, now2);
      second.result == UserExists && second.store == first.store && RegisterStatus(second.result) == 409
  {
    var first := Register(s, email, p1, n1, hash, sign, id1, now1);
    StoredEmailIsLookupKey(email);
    var u := User(id1, Normalize(email), hash(p1), Trim(n1), false, None, now1, now1);
    assert first.store.users[|s.users|] == u;
    assert u in first.store.users;
    EmailIdentifiesUser(first.store, u);
  }

  /**
   * A name of spaces passes the request schema (it is not empty) but the
   * model's trim setter empties it, so `User.create` fails its `required`
   * check: the answer is 500 and nothing is written.
   */
  lemma BlankNameFailsRegistration(s: Store, email: string, password: string, name: string,
                                   hash: string -> string, sign: (Payload, int) -> string, newId: Id, now: int)
    requires |newId| > 0 && |name| > 0 && forall i :: 0 <= i < |name| ==> IsSpace(name[i])
    requires UserByEmail(s, Lower(email)).None?
    ensures var a := Register(s, email, password, name, hash, sign, newId, now);
      a.result.RegistrationFailed? && a.result.error.ValidationFailed? && a.store == s && RegisterStatus(a.result) == 500
  {
    TrimEmpty(name);
    NormalizeOfLower(email);
  }
}
