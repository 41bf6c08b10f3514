/** The staff dashboard's session client as a state machine: every stretch of code between two awaits is one step,
    and each pending call is a program counter with the values its closure captured. */
module SessionProtocol {
  import opened Wrappers

  // ---------- data ----------

  datatype Session = Session(token: string, user: string, role: string)

  predicate Staff(s: Session) {
    s.token != "" && s.user != "" && (s.role == "admin" || s.role == "technician")
  }

  /** Who is signed in, as `publish` compares it: user and role, not the token. */
  function Identity(session: Option<Session>): Option<(string, string)> {
    match session
    case None => None
    case Some(s) => Some((s.user, s.role))
  }

  /** How the promise of a refresh ends for everyone who awaits it. */
  datatype Settlement = Yields(session: Option<Session>) | Throws

  /** A refresh: command outstanding, error handler due, clean-up due, settled. */
  datatype Flight = Commanding | Failing(expired: bool) | Closing(outcome: Settlement) | Settled(outcome: Settlement)

  datatype Kind =
    | Request(authenticated: bool, originalToken: Option<string>, startedVersion: nat)
    | Upload(local: bool, startedVersion: nat)
    | Restore
    | Login
    | Logout

  datatype Outcome =
    | Returned(payload: Option<string>)
    | Problem(status: int)
    | Signed(session: Option<Session>)
    | SessionChanged
    | Failed

  datatype Pc =
    | Fetching
    | Waiting(flight: nat)
    | Refetching
    | Reading(status: int)
    | Ordering
    | Done(outcome: Outcome)

  datatype Call = Call(kind: Kind, pc: Pc)

  /** One request put on the wire: by which call, at which session version, with which bearer token. */
  datatype Sent = Sent(call: nat, version: nat, token: Option<string>)

  datatype State = State(
    session: Option<Session>, ready: bool, failed: bool,
    refreshFlight: Option<nat>, signingOut: bool, version: nat,
    flights: seq<Flight>, calls: seq<Call>, sends: seq<Sent>)

  /** The answer to a fetch; `NoReply` is a transport failure. */
  datatype Reply = Status(code: int) | NoReply

  /** The result of a cookie command: a decoded payload, a problem response, or a transport failure. */
  datatype CommandReply = Granted(payload: Option<Session>) | Refused(code: int) | Lost

  datatype Event =
    | StartRequest(authenticated: bool)
    | StartUpload(local: bool)
    | StartRestore
    | StartLogin
    | StartLogout
    | Answer(call: nat, reply: Reply)
    | Body(call: nat, payload: Option<string>)
    | Resume(call: nat)
    | Commanded(call: nat, result: CommandReply)
    | FlightCommanded(flight: nat, result: CommandReply)
    | FlightCatch(flight: nat)
    | FlightFinally(flight: nat)

  const InitState := State(None, false, false, None, false, 0, [], [], [])

  // ---------- the shared helpers ----------

  function Token(s: State): Option<string> {
    match s.session
    case None => None
    case Some(session) => Some(session.token)
  }

  predicate Ok(status: int) { 200 <= status <= 299 }

  function Published(s: State, session: Option<Session>, failed: bool): State {
    s.(version := if Identity(s.session) != Identity(session) then s.version + 1 else s.version,
       session := session, ready := true, failed := failed)
  }

  function Moved(s: State, c: nat, pc: Pc): State
    requires c < |s.calls|
  {
    s.(calls := s.calls[c := s.calls[c].(pc := pc)])
  }

  function Finished(s: State, c: nat, outcome: Outcome): State
    requires c < |s.calls|
  {
    Moved(s, c, Done(outcome))
  }

  /** The bearer token the closure's `send` attaches now. */
  function BearerOf(s: State, kind: Kind): Option<string> {
    match kind
    case Request(authenticated, _, _) => if authenticated then Token(s) else None
    case Upload(local, _) => if local then Token(s) else None
    case _ => None
  }

  function Transmitted(s: State, c: nat, pc: Pc): State
    requires c < |s.calls|
  {
    Moved(s, c, pc).(sends := s.sends + [Sent(c, s.version, BearerOf(s, s.calls[c].kind))])
  }

  /** `refresh` while not signing out: join the flight, or launch one. */
  function Joined(s: State, c: nat): State
    requires c < |s.calls|
  {
    match s.refreshFlight
    case Some(f) => Moved(s, c, Waiting(f))
    case None =>
      Moved(s, c, Waiting(|s.flights|)).(flights := s.flights + [Commanding], refreshFlight := Some(|s.flights|))
  }

  predicate StartedNow(s: State, kind: Kind) {
    match kind
    case Request(authenticated, _, v) => authenticated ==> v == s.version
    case Upload(_, v) => v == s.version
    case _ => true
  }

  // ---------- requests ----------

  function RequestEnded(s: State, c: nat, status: int, payload: Option<string>): State
    requires c < |s.calls| && s.calls[c].kind.Request?
  {
    var kind := s.calls[c].kind;
    if !StartedNow(s, kind) then Finished(s, c, SessionChanged)
    else if Ok(status) then Finished(s, c, Returned(payload))
    else if kind.authenticated && status == 401 then Finished(Published(s, None, false), c, Problem(status))
    else Finished(s, c, Problem(status))
  }

  function RequestAnswered(s: State, c: nat, status: int): State
    requires c < |s.calls| && s.calls[c].kind.Request?
  {
    if status == 204 then RequestEnded(s, c, status, None) else Moved(s, c, Reading(status))
  }

  function RequestFirstAnswer(s: State, c: nat, status: int): State
    requires c < |s.calls| && s.calls[c].kind.Request?
  {
    var kind := s.calls[c].kind;
    if !StartedNow(s, kind) then Finished(s, c, SessionChanged)
    else if status == 401 && kind.authenticated && !s.signingOut then
      if Token(s) == kind.originalToken then Joined(s, c)
      else if s.session.Some? then Transmitted(s, c, Refetching)
      else RequestAnswered(s, c, status)
    else RequestAnswered(s, c, status)
  }

  function RequestResumed(s: State, c: nat, refreshed: Settlement): State
    requires c < |s.calls| && s.calls[c].kind.Request?
  {
    match refreshed
    case Throws => Finished(s, c, Failed)
    case Yields(None) => RequestAnswered(s, c, 401)
    case Yields(Some(_)) => Transmitted(s, c, Refetching)
  }

  // ---------- uploads ----------

  function UploadAnswered(s: State, c: nat, status: int): State
    requires c < |s.calls| && s.calls[c].kind.Upload?
  {
    if !StartedNow(s, s.calls[c].kind) then Finished(s, c, SessionChanged)
    else if Ok(status) then Finished(s, c, Returned(None))
    else Moved(s, c, Reading(status))
  }

  function UploadFirstAnswer(s: State, c: nat, status: int): State
    requires c < |s.calls| && s.calls[c].kind.Upload?
  {
    var kind := s.calls[c].kind;
    if !StartedNow(s, kind) then Finished(s, c, SessionChanged)
    else if kind.local && status == 401 && !s.signingOut then Joined(s, c)
    else UploadAnswered(s, c, status)
  }

  function UploadResumed(s: State, c: nat, refreshed: Settlement): State
    requires c < |s.calls| && s.calls[c].kind.Upload?
  {
    match refreshed
    case Throws => Finished(s, c, Failed)
    case Yields(None) => UploadAnswered(s, c, 401)
    case Yields(Some(_)) =>
      if !StartedNow(s, s.calls[c].kind) then Finished(s, c, SessionChanged) else Transmitted(s, c, Refetching)
  }

  // ---------- session commands ----------

  function RestoreStarted(s: State, c: nat): State
    requires c < |s.calls|
  {
    if s.ready then Finished(s, c, Signed(s.session))
    else if s.signingOut then Finished(s, c, Signed(None))
    else Joined(s, c)
  }

  /** Login and logout let a running refresh finish before they issue their own command. */
  function Ordered(s: State, c: nat): State
    requires c < |s.calls|
  {
    match s.refreshFlight
    case Some(f) => Moved(s, c, Waiting(f))
    case None => Moved(s, c, Ordering)
  }

  function LoginEnded(s: State, c: nat, result: CommandReply): State
    requires c < |s.calls|
  {
    if result.Granted? && result.payload.Some? && Staff(result.payload.value)
    then Finished(Published(s, result.payload, false), c, Signed(result.payload))
    else Finished(s, c, Failed)
  }

  function LogoutEnded(s: State, c: nat, result: CommandReply): State
    requires c < |s.calls|
  {
    if result.Granted? then Finished(Published(s, None, false), c, Returned(None)).(signingOut := false)
    else Finished(s, c, Failed).(signingOut := false)
  }

  // ---------- the refresh flight ----------

  function Flown(s: State, f: nat, flight: Flight): State
    requires f < |s.flights|
  {
    s.(flights := s.flights[f := flight])
  }

  function FlightAnswered(s: State, f: nat, result: CommandReply): State
    requires f < |s.flights|
  {
    if result.Granted? && result.payload.Some? && Staff(result.payload.value)
    then Flown(Published(s, result.payload, false), f, Closing(Yields(result.payload)))
    else Flown(s, f, Failing(result == Refused(401)))
  }

  function FlightCaught(s: State, f: nat, expired: bool): State
    requires f < |s.flights|
  {
    Flown(Published(s, None, !expired), f, Closing(if expired then Yields(None) else Throws))
  }

  function FlightClosed(s: State, f: nat, outcome: Settlement): State
    requires f < |s.flights|
  {
    Flown(s, f, Settled(outcome)).(refreshFlight := None)
  }

  // ---------- steps ----------

  predicate Enabled(s: State, e: Event) {
    match e
    case Answer(c, _) => c < |s.calls| && (s.calls[c].pc == Fetching || s.calls[c].pc == Refetching)
                         && (s.calls[c].kind.Request? || s.calls[c].kind.Upload?)
    case Body(c, _) => c < |s.calls| && s.calls[c].pc.Reading? && (s.calls[c].kind.Request? || s.calls[c].kind.Upload?)
    case Resume(c) => c < |s.calls| && s.calls[c].pc.Waiting? && s.calls[c].pc.flight < |s.flights|
                      && s.flights[s.calls[c].pc.flight].Settled?
    case Commanded(c, _) => c < |s.calls| && s.calls[c].pc == Ordering && (s.calls[c].kind.Login? || s.calls[c].kind.Logout?)
    case FlightCommanded(f, _) => f < |s.flights| && s.flights[f].Commanding?
    case FlightCatch(f) => f < |s.flights| && s.flights[f].Failing?
    case FlightFinally(f) => f < |s.flights| && s.flights[f].Closing?
    case _ => true
  }

  function Opened(s: State, kind: Kind): State {
    s.(calls := s.calls + [Call(kind, Fetching)])
  }

  function Answered(s: State, c: nat, reply: Reply): State
    requires Enabled(s, Answer(c, reply))
  {
    var call := s.calls[c];
    if reply.NoReply? then Finished(s, c, Failed)
    else if call.kind.Request? then
      if call.pc.Fetching? then RequestFirstAnswer(s, c, reply.code) else RequestAnswered(s, c, reply.code)
    else
      if call.pc.Fetching? then UploadFirstAnswer(s, c, reply.code) else UploadAnswered(s, c, reply.code)
  }

  function Bodied(s: State, c: nat, payload: Option<string>): State
    requires Enabled(s, Body(c, payload))
  {
    if s.calls[c].kind.Request? then RequestEnded(s, c, s.calls[c].pc.status, payload)
    else Finished(s, c, Problem(s.calls[c].pc.status))
  }

  function Resumed(s: State, c: nat): State
    requires Enabled(s, Resume(c))
  {
    var refreshed := s.flights[s.calls[c].pc.flight].outcome;
    match s.calls[c].kind
    case Request(_, _, _) => RequestResumed(s, c, refreshed)
    case Upload(_, _) => UploadResumed(s, c, refreshed)
    case Restore => Finished(s, c, if refreshed.Throws? then Failed else Signed(refreshed.session))
    case _ => Moved(s, c, Ordering)
  }

  function Step(s: State, e: Event): State
    requires Enabled(s, e)
  {
    var c := |s.calls|;
    match e
    case StartRequest(auth) => Transmitted(Opened(s, Request(auth, Token(s), s.version)), c, Fetching)
    case StartUpload(local) => Transmitted(Opened(s, Upload(local, s.version)), c, Fetching)
    case StartRestore => RestoreStarted(Opened(s, Restore), c)
    case StartLogin => Ordered(Opened(s, Login), c)
    case StartLogout => Ordered(Opened(s, Logout).(signingOut := true), c)
    case Answer(c, reply) => Answered(s, c, reply)
    case Body(c, payload) => Bodied(s, c, payload)
    case Resume(c) => Resumed(s, c)
    case Commanded(c, result) => if s.calls[c].kind.Login? then LoginEnded(s, c, result) else LogoutEnded(s, c, result)
    case FlightCommanded(f, result) => FlightAnswered(s, f, result)
    case FlightCatch(f) => FlightCaught(s, f, s.flights[f].expired)
    case FlightFinally(f) => FlightClosed(s, f, s.flights[f].outcome)
  }
}
