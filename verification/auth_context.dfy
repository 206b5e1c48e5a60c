/**
 * The authentication context: the session as the front end tracks it, a
 * flag, the user record and a loading flag, changed by the one-shot probe,
 * by `login` and by `logout`.
 */
module AuthContext {
  import opened Wrappers
  import opened Http
  import opened Ui

  datatype User = User(id: int, fullName: string, email: string, role: int)

  datatype AuthState = AuthState(isAuthenticated: bool, user: Option<User>, loading: bool)

  /** The session invariant: a signed-out session holds no user. */
  predicate SignedOutHasNoUser(s: AuthState) {
    !s.isAuthenticated ==> s.user.None?
  }

  /** The state before the probe has answered. */
  const Initial := AuthState(false, None, true)

  /** The names the context value exposes to its consumers. */
  const ProvidedMembers: set<string> := {"isAuthenticated", "user", "loading", "login", "logout"}

  /** The body of the "who am I" response; `res.data` itself may be missing,
      and then reading `res.data.user` throws inside the `try`. */
  datatype MeBody = MeBody(user: Option<User>)

  /** The body of the login response: its `data` field read as a user record,
      and its top-level fields read as one. */
  datatype LoginBody = LoginBody(data: Option<User>, fields: User)

  /** The two states a login passes through and how its promise settles. */
  datatype LoginStep = LoginStep(during: AuthState, after: AuthState, outcome: Result<Option<LoginBody>, Fault>)

  /** The state after a logout, the effects it asked for and how it settles. */
  datatype LogoutStep = LogoutStep(after: AuthState, effects: seq<Effect>, outcome: Result<(), Fault>)

  lemma InitialState()
    ensures !Initial.isAuthenticated && Initial.user.None? && Initial.loading
    ensures SignedOutHasNoUser(Initial)
  {
  }

  /** `checkAuth`: a probe that answers with a body signs the user in with
      the returned `user`; any failure, including a missing body, is the
      guest state. Loading ends either way. */
  function CheckAuth(s: AuthState, reply: Reply<Option<MeBody>>): (r: AuthState)
    ensures !r.loading
    ensures SignedOutHasNoUser(r)
    ensures r.isAuthenticated <==> reply.Ok? && reply.body.Some?
    ensures r.isAuthenticated ==> r.user == reply.body.value.user
  {
    match reply
    case Ok(Some(body)) => AuthState(true, body.user, false)
    case _ => AuthState(false, None, false)
  }

  /** `response.data?.data || response.data`: the wrapped user if present,
      otherwise the body itself read as a user record. */
  function NormalizeUser(body: Option<LoginBody>): (u: Option<User>)
    ensures body.None? ==> u.None?
    ensures body.Some? ==> u.Some? && (u.value == body.value.fields || Some(u.value) == body.value.data)
  {
    match body
    case None => None
    case Some(LoginBody(Some(wrapped), _)) => Some(wrapped)
    case Some(LoginBody(None, fields)) => Some(fields)
  }

  /** Both response shapes, `{ data: user }` and the user's fields at top
      level, store the same user. */
  lemma NormalizeBothShapes(u: User, other: User)
    ensures NormalizeUser(Some(LoginBody(Some(u), other))) == NormalizeUser(Some(LoginBody(None, u))) == Some(u)
  {
  }

  /** `login`: loading is raised on entry and cleared on exit whatever the
      outcome; success signs in with the normalised user and returns the
      body; failure signs out and rethrows. */
  function Login(s: AuthState, reply: Reply<Option<LoginBody>>): (r: LoginStep)
    ensures r.during == s.(loading := true)
    ensures !r.after.loading
    ensures SignedOutHasNoUser(r.after)
    ensures reply.Ok? ==> r.after.isAuthenticated && r.after.user == NormalizeUser(reply.body)
                          && r.outcome == Success(reply.body)
    ensures reply.Fail? ==> !r.after.isAuthenticated && r.outcome == Failure(reply.fault)
  {
    var during := s.(loading := true);
    match reply
    case Ok(body) => LoginStep(during, AuthState(true, NormalizeUser(body), false), Success(body))
    case Fail(f) => LoginStep(during, AuthState(false, None, false), Failure(f))
  }

  /** `logout`: success clears the session and goes home; failure rethrows
      and leaves the state exactly as it was. */
  function Logout(s: AuthState, reply: Reply<()>): (r: LogoutStep)
    ensures reply.Ok? ==> !r.after.isAuthenticated && r.after.user.None?
                          && r.after.loading == s.loading && r.effects == [Navigate("/")]
                          && r.outcome.Success?
    ensures reply.Fail? ==> r.after == s && r.effects == [] && r.outcome == Failure(reply.fault)
    ensures SignedOutHasNoUser(s) ==> SignedOutHasNoUser(r.after)
  {
    match reply
    case Ok(_) => LogoutStep(s.(isAuthenticated := false, user := None), [Navigate("/")], Success(()))
    case Fail(f) => LogoutStep(s, [], Failure(f))
  }

  /** One transition of the session. */
  datatype AuthEvent =
    | Probe(me: Reply<Option<MeBody>>)
    | LogIn(login: Reply<Option<LoginBody>>)
    | LogOut(logout: Reply<()>)

  function Step(s: AuthState, e: AuthEvent): AuthState {
    match e
    case Probe(me) => CheckAuth(s, me)
    case LogIn(login) => Login(s, login).after
    case LogOut(logout) => Logout(s, logout).after
  }

  /** The state after a sequence of transitions. */
  function Run(s: AuthState, events: seq<AuthEvent>): AuthState
    decreases |events|
  {
    if |events| == 0 then s else Run(Step(s, events[0]), events[1..])
  }

  /** Every reachable session satisfies the invariant: from the initial state,
      after any sequence of probes, logins and logouts, a signed-out session
      holds no user. */
  lemma {:induction false} RunKeepsInvariant(s: AuthState, events: seq<AuthEvent>)
    requires SignedOutHasNoUser(s)
    ensures SignedOutHasNoUser(Run(s, events))
    decreases |events|
  {
    if |events| > 0 {
      RunKeepsInvariant(Step(s, events[0]), events[1..]);
    }
  }

  /** A failed probe, whatever the fault, yields the guest state. */
  lemma ProbeFailureIsGuest(s: AuthState, f: Fault)
    ensures CheckAuth(s, Fail(f)) == AuthState(false, None, false)
  {
  }

  /** `useAuth`: outside a provider the hook throws. */
  function UseAuth(context: Option<AuthState>): (r: Result<AuthState, string>)
    ensures context.None? <==> r.Failure?
    ensures r.Success? ==> r.value == context.value
    ensures r.Failure? ==> r.error == "useAuth must be used within AuthProvider"
  {
    match context
    case Some(s) => Success(s)
    case None => Failure("useAuth must be used within AuthProvider")
  }
}
