/**
 * The web client's session (`AuthProvider`): the stored token, the signed-in
 * user and the loading flag, with the transitions `login`, `register`,
 * `logout`, `refreshUser` and the start-up check. Each transition takes the
 * `ApiResponse` its request produced; the token field stands for the
 * `localStorage` entry.
 */
module AuthSession {
  import opened Basics
  import opened AuthRoute
  import opened ApiClient
  import opened AuthMiddleware
  import opened DealsPage

  /** The body of a successful login or registration. */
  datatype AuthData = AuthData(token: string, user: PublicUser)

  /** The body of `GET /protected/me`: a message and the caller's token payload. */
  datatype MeData = MeData(message: string, user: Option<Payload>)

  datatype Session = Session(token: Option<string>, user: Option<ClientUser>, isLoading: bool)

  /** `{ success, error? }` as `login` and `register` resolve. */
  datatype Outcome = Outcome(success: bool, error: Option<string>)

  datatype Step = Step(session: Session, outcome: Outcome)

  /** The user object a login or registration response carries. */
  function FromPublic(u: PublicUser): ClientUser {
    ClientUser(u.email, Some(u.name), u.isVerified)
  }

  /** The user object `/protected/me` carries: the token payload, which has no name. */
  function FromPayload(p: Payload): ClientUser {
    ClientUser(p.email, None, p.isVerified)
  }

  predicate IsAuthenticated(sess: Session) {
    sess.user.Some?
  }

  /** A signed-in user always comes with a stored token. */
  predicate Coherent(sess: Session) {
    sess.user.Some? ==> sess.token.Some?
  }

  /**
   * The shared tail of `login` and `register`: a non-empty error is passed
   * on; otherwise a body stores its token and user; otherwise the outcome is
   * "Unknown error occurred". Only the success branch touches the session.
   */
  function Complete(sess: Session, resp: ApiResponse<AuthData>): (r: Step)
    ensures r.outcome.success <==> !Truthy(resp.error) && resp.data.Some?
    ensures r.outcome.success ==>
      && r.session == sess.(token := Some(resp.data.value.token), user := Some(FromPublic(resp.data.value.user)))
      && r.outcome.error.None?
    ensures !r.outcome.success ==> r.session == sess && r.outcome.error.Some? && |r.outcome.error.value| > 0
    ensures Truthy(resp.error) ==> r.outcome == Outcome(false, resp.error)
    ensures !Truthy(resp.error) && resp.data.None? ==> r.outcome == Outcome(false, Some("Unknown error occurred"))
  {
    if Truthy(resp.error) then Step(sess, Outcome(false, resp.error))
    else if resp.data.Some? then
      Step(sess.(token := Some(resp.data.value.token), user := Some(FromPublic(resp.data.value.user))), Outcome(true, None))
    else Step(sess, Outcome(false, Some("Unknown error occurred")))
  }

  /** `logout`: forget the token and the user. */
  function Logout(sess: Session): (r: Session)
    ensures !IsAuthenticated(r) && r.token.None? && r.isLoading == sess.isLoading
  {
    sess.(token := None, user := None)
  }

  /**
   * `refreshUser`: a response carrying a user makes it the session user;
   * anything else clears the token and the user. Loading ends either way.
   */
  function Refresh(sess: Session, resp: ApiResponse<MeData>): (r: Session)
    ensures !r.isLoading
    ensures IsAuthenticated(r) <==> resp.data.Some? && resp.data.value.user.Some?
    ensures IsAuthenticated(r) ==> r.user == Some(FromPayload(resp.data.value.user.value)) && r.token == sess.token
    ensures !IsAuthenticated(r) ==> r.token.None?
  {
    if resp.data.Some? && resp.data.value.user.Some? then
      sess.(user := Some(FromPayload(resp.data.value.user.value)), isLoading := false)
    else Session(None, None, false)
  }

  /**
   * The start-up check: with a non-empty stored token, refresh (the response
   * is that of the request the refresh sends); otherwise just stop loading.
   */
  function Init(stored: Option<string>, resp: ApiResponse<MeData>): (r: Session)
    ensures !r.isLoading
    ensures !Truthy(stored) ==> r == Session(stored, None, false)
    ensures Truthy(stored) ==> r == Refresh(Session(stored, None, true), resp)
  {
    var start := Session(stored, None, true);
    if Truthy(stored) then Refresh(start, resp) else start.(isLoading := false)
  }

  /**
   * What `GET /protected/me` settles to when sent with the headers built from
   * `token`: the payload `authRequired` attached, or its 401 body, whose
   * `error` is a string and which carries no user.
   */
  function MeResponse(token: Option<string>, verify: string -> Option<Payload>): (f: Fetched<MeData>)
    ensures f.Response?
  {
    var h := BuildHeaders(map[], token);
    var g := AuthRequired(if "Authorization" in h then Some(h["Authorization"]) else None, verify);
    match g
    case Authorized(p) => Response(true, MeData("You are authenticated!", Some(p)), NoError, Some("You are authenticated!"))
    case Rejected(m) => Response(false, MeData("", None), ErrorString(m), None)
  }

  /**
   * Refreshing against the server signs in the stored token's payload
   * exactly when the token is non-empty and verifies, and signs out otherwise.
   */
  lemma RefreshAgainstServer(sess: Session, verify: string -> Option<Payload>)
    ensures var r := Refresh(sess, Interpret(MeResponse(sess.token, verify)));
      && (IsAuthenticated(r) <==> Truthy(sess.token) && verify(sess.token.value).Some?)
      && (IsAuthenticated(r) ==> r.user == Some(FromPayload(verify(sess.token.value).value)))
      && Coherent(r)
  {
    if Truthy(sess.token) {
      ClientHeaderMeetsGuard(map[], sess.token.value, verify);
    }
  }

  /** Every transition keeps a signed-in user paired with a stored token. */
  lemma TransitionsKeepCoherent(sess: Session, auth: ApiResponse<AuthData>, me: ApiResponse<MeData>,
                                stored: Option<string>, verify: string -> Option<Payload>)
    requires Coherent(sess)
    ensures Coherent(Complete(sess, auth).session)
    ensures Coherent(Logout(sess))
    ensures Coherent(Refresh(sess, Interpret(MeResponse(sess.token, verify))))
    ensures Coherent(Init(stored, me))
  {
    RefreshAgainstServer(sess, verify);
  }

  /** Without a stored token the start-up check sends nothing, so its outcome cannot depend on a response. */
  lemma InitWithoutTokenIgnoresResponse(stored: Option<string>, a: ApiResponse<MeData>, b: ApiResponse<MeData>)
    requires !Truthy(stored)
    ensures Init(stored, a) == Init(stored, b) && !IsAuthenticated(Init(stored, a))
  {
  }

  /**
   * A refused login (the server's 401 body) surfaces the server's message and
   * leaves the session as it was.
   */
  lemma RefusedLoginKeepsSession(sess: Session, body: AuthData)
    ensures var resp := Interpret(Response(false, body, ErrorObject(Some("Invalid email or password")), None));
      Complete(sess, resp) == Step(sess, Outcome(false, Some("Invalid email or password")))
  {
  }

  /**
   * A successful login response signs in the user the server returned, with
   * the token it issued.
   */
  lemma AcceptedLoginSignsIn(sess: Session, token: string, user: PublicUser)
    ensures var resp := Interpret(Response(true, AuthData(token, user), NoError, None));
      var r := Complete(sess, resp);
      r.outcome == Outcome(true, None) && IsAuthenticated(r.session)
      && r.session.token == Some(token) && r.session.user == Some(FromPublic(user))
  {
  }

  /** A network failure with an empty message is reported as the unknown error. */
  lemma EmptyThrownMessageIsUnknown(sess: Session)
    ensures Complete(sess, Interpret(Thrown(Some("")))) == Step(sess, Outcome(false, Some("Unknown error occurred")))
  {
  }
}
