/** What holds of the session machine in every run, whatever the interleaving. */
module SessionSafety {
  import opened Wrappers
  import opened SessionProtocol

  // ---------- the invariant ----------

  ghost predicate SessionsAreStaff(s: State) {
    s.session.Some? ==> Staff(s.session.value) && s.ready
  }

  /** `refreshFlight` is set exactly while some refresh has not settled, and then names the only one. */
  ghost predicate SingleFlight(s: State) {
    && (s.refreshFlight.Some? ==> s.refreshFlight.value < |s.flights| && !s.flights[s.refreshFlight.value].Settled?)
    && forall f :: 0 <= f < |s.flights| && !s.flights[f].Settled? ==> s.refreshFlight == Some(f)
  }

  ghost predicate CallOk(s: State, call: Call) {
    && (call.pc.Waiting? ==> call.pc.flight < |s.flights|)
    && (call.kind.Request? || call.kind.Upload? ==> call.kind.startedVersion <= s.version)
    && ((call.pc.Refetching? || call.pc.Waiting?) && call.kind.Request? ==> call.kind.authenticated)
    && (call.pc.Waiting? && call.kind.Upload? ==> call.kind.local)
  }

  ghost predicate CallsOk(s: State) {
    forall c :: 0 <= c < |s.calls| ==> CallOk(s, s.calls[c])
  }

  /** Every send of an upload happens at the version it started at, and carries a token only to the API itself. */
  ghost predicate SentOk(s: State, sent: Sent) {
    && sent.call < |s.calls|
    && sent.version <= s.version
    && (var kind := s.calls[sent.call].kind;
        && (kind.Upload? ==> sent.version == kind.startedVersion)
        && (sent.token.Some? ==> (kind.Request? && kind.authenticated) || (kind.Upload? && kind.local)))
  }

  ghost predicate SendsOk(s: State) {
    forall n :: 0 <= n < |s.sends| ==> SentOk(s, s.sends[n])
  }

  ghost predicate Inv(s: State) {
    SessionsAreStaff(s) && SingleFlight(s) && CallsOk(s) && SendsOk(s)
  }

  /** What a step keeps of the past: versions grow, calls keep what they captured, finished calls stay finished. */
  ghost predicate Extends(s: State, t: State) {
    && s.version <= t.version
    && |s.calls| <= |t.calls| && |s.flights| <= |t.flights| && s.sends <= t.sends
    && (forall c :: 0 <= c < |s.calls| ==>
          t.calls[c].kind == s.calls[c].kind && (s.calls[c].pc.Done? ==> t.calls[c] == s.calls[c]))
    && (forall f :: 0 <= f < |s.flights| && s.flights[f].Settled? ==> t.flights[f] == s.flights[f])
    && (s.ready ==> t.ready)
  }

  /** The version moves by one exactly when the signed-in user or role changes, and otherwise not at all. */
  ghost predicate VersionFollowsIdentity(s: State, t: State) {
    t.version == s.version + if Identity(s.session) != Identity(t.session) then 1 else 0
  }

  /** A state reached from `s` that keeps the invariant and all of the above. */
  ghost predicate Good(s: State, t: State) {
    Inv(t) && Extends(s, t) && VersionFollowsIdentity(s, t)
  }

  /** The same, with the session, the version and the signing-out flag untouched. */
  ghost predicate Calm(s: State, t: State) {
    Inv(t) && Extends(s, t) && t.session == s.session && t.version == s.version && t.signingOut == s.signingOut
  }

  lemma CalmThenGood(s: State, t: State, u: State)
    requires (Calm(s, t) && Good(t, u)) || (Good(s, t) && Calm(t, u))
    ensures Good(s, u)
  {
  }

  lemma MovedIsCalm(s: State, c: nat, pc: Pc)
    requires Inv(s) && c < |s.calls| && !s.calls[c].pc.Done?
    requires CallOk(s, s.calls[c].(pc := pc))
    ensures Calm(s, Moved(s, c, pc))
  {
  }

  lemma PublishedIsGood(s: State, session: Option<Session>, failed: bool)
    requires Inv(s) && (session.Some? ==> Staff(session.value))
    ensures Good(s, Published(s, session, failed))
  {
  }

  lemma TransmittedIsCalm(s: State, c: nat, pc: Pc)
    requires Inv(s) && c < |s.calls| && !s.calls[c].pc.Done?
    requires pc.Fetching? || pc.Refetching?
    requires CallOk(s, s.calls[c].(pc := pc))
    requires s.calls[c].kind.Upload? ==> StartedNow(s, s.calls[c].kind)
    ensures Calm(s, Transmitted(s, c, pc))
  {
    MovedIsCalm(s, c, pc);
  }

  lemma LaunchIsCalm(s: State)
    requires Inv(s) && s.refreshFlight.None?
    ensures Calm(s, s.(flights := s.flights + [Commanding], refreshFlight := Some(|s.flights|)))
  {
  }

  lemma JoinedIsCalm(s: State, c: nat)
    requires Inv(s) && c < |s.calls| && !s.calls[c].pc.Done?
    requires s.calls[c].kind.Upload? ==> s.calls[c].kind.local
    requires s.calls[c].kind.Request? ==> s.calls[c].kind.authenticated
    ensures Calm(s, Joined(s, c))
  {
    if s.refreshFlight.Some? {
      MovedIsCalm(s, c, Waiting(s.refreshFlight.value));
    } else {
      LaunchIsCalm(s);
      MovedIsCalm(s.(flights := s.flights + [Commanding], refreshFlight := Some(|s.flights|)), c, Waiting(|s.flights|));
    }
  }

  lemma OpenedIsCalm(s: State, kind: Kind)
    requires Inv(s)
    requires kind.Request? || kind.Upload? ==> kind.startedVersion == s.version
    ensures Calm(s, Opened(s, kind))
  {
    var t := Opened(s, kind);
    assert forall n :: 0 <= n < |s.sends| ==> SentOk(s, s.sends[n]);
  }

  lemma FinishedIsCalm(s: State, c: nat, outcome: Outcome)
    requires Inv(s) && c < |s.calls| && !s.calls[c].pc.Done?
    ensures Calm(s, Finished(s, c, outcome))
  {
    MovedIsCalm(s, c, Done(outcome));
  }

  // ---------- the steps of each kind of call ----------

  lemma RequestEndedIsGood(s: State, c: nat, status: int, payload: Option<string>)
    requires Inv(s) && c < |s.calls| && s.calls[c].kind.Request? && !s.calls[c].pc.Done?
    ensures Good(s, RequestEnded(s, c, status, payload))
  {
    var kind := s.calls[c].kind;
    if StartedNow(s, kind) && !Ok(status) && kind.authenticated && status == 401 {
      PublishedIsGood(s, None, false);
      FinishedIsCalm(Published(s, None, false), c, Problem(status));
      CalmThenGood(s, Published(s, None, false), RequestEnded(s, c, status, payload));
    } else {
      FinishedIsCalm(s, c, if !StartedNow(s, kind) then SessionChanged else if Ok(status) then Returned(payload) else Problem(status));
    }
  }

  lemma RequestAnsweredIsGood(s: State, c: nat, status: int)
    requires Inv(s) && c < |s.calls| && s.calls[c].kind.Request? && !s.calls[c].pc.Done?
    ensures Good(s, RequestAnswered(s, c, status))
  {
    if status == 204 {
      RequestEndedIsGood(s, c, status, None);
    } else {
      MovedIsCalm(s, c, Reading(status));
    }
  }

  lemma UploadAnsweredIsGood(s: State, c: nat, status: int)
    requires Inv(s) && c < |s.calls| && s.calls[c].kind.Upload? && !s.calls[c].pc.Done?
    ensures Good(s, UploadAnswered(s, c, status))
  {
    if StartedNow(s, s.calls[c].kind) && !Ok(status) {
      MovedIsCalm(s, c, Reading(status));
    } else {
      FinishedIsCalm(s, c, if !StartedNow(s, s.calls[c].kind) then SessionChanged else Returned(None));
    }
  }

  lemma AnswerIsGood(s: State, c: nat, reply: Reply)
    requires Inv(s) && Enabled(s, Answer(c, reply))
    ensures Good(s, Answered(s, c, reply))
  {
    var kind := s.calls[c].kind;
    if reply.NoReply? {
      FinishedIsCalm(s, c, Failed);
    } else if s.calls[c].pc.Refetching? {
      if kind.Request? { RequestAnsweredIsGood(s, c, reply.code); } else { UploadAnsweredIsGood(s, c, reply.code); }
    } else if !StartedNow(s, kind) {
      FinishedIsCalm(s, c, SessionChanged);
    } else if kind.Request? {
      if reply.code == 401 && kind.authenticated && !s.signingOut && Token(s) == kind.originalToken {
        JoinedIsCalm(s, c);
      } else if reply.code == 401 && kind.authenticated && !s.signingOut && s.session.Some? {
        TransmittedIsCalm(s, c, Refetching);
      } else {
        RequestAnsweredIsGood(s, c, reply.code);
      }
    } else if kind.local && reply.code == 401 && !s.signingOut {
      JoinedIsCalm(s, c);
    } else {
      UploadAnsweredIsGood(s, c, reply.code);
    }
  }

  lemma ResumeIsGood(s: State, c: nat)
    requires Inv(s) && Enabled(s, Resume(c))
    ensures Good(s, Resumed(s, c))
  {
    var kind := s.calls[c].kind;
    var refreshed := s.flights[s.calls[c].pc.flight].outcome;
    if kind.Login? || kind.Logout? {
      MovedIsCalm(s, c, Ordering);
    } else if kind.Restore? {
      FinishedIsCalm(s, c, if refreshed.Throws? then Failed else Signed(refreshed.session));
    } else if refreshed.Throws? {
      FinishedIsCalm(s, c, Failed);
    } else if refreshed.session.None? {
      if kind.Request? { RequestAnsweredIsGood(s, c, 401); } else { UploadAnsweredIsGood(s, c, 401); }
    } else if kind.Upload? && !StartedNow(s, kind) {
      FinishedIsCalm(s, c, SessionChanged);
    } else {
      TransmittedIsCalm(s, c, Refetching);
    }
  }

  lemma StartIsGood(s: State, e: Event)
    requires Inv(s) && (e.StartRequest? || e.StartUpload?)
    ensures Good(s, Step(s, e))
  {
    var kind := if e.StartRequest? then Request(e.authenticated, Token(s), s.version) else Upload(e.local, s.version);
    OpenedIsCalm(s, kind);
    TransmittedIsCalm(Opened(s, kind), |s.calls|, Fetching);
    CalmThenGood(s, Opened(s, kind), Step(s, e));
  }

  lemma RestoreStartIsGood(s: State)
    requires Inv(s)
    ensures Good(s, Step(s, StartRestore))
  {
    var t := Opened(s, Restore);
    OpenedIsCalm(s, Restore);
    if s.ready || s.signingOut {
      FinishedIsCalm(t, |s.calls|, Signed(if s.ready then s.session else None));
    } else {
      JoinedIsCalm(t, |s.calls|);
    }
    CalmThenGood(s, t, Step(s, StartRestore));
  }

  lemma OrderedIsGood(s: State, kind: Kind, signingOut: bool)
    requires Inv(s) && (kind.Login? || kind.Logout?)
    ensures Good(s, Ordered(Opened(s, kind).(signingOut := signingOut), |s.calls|))
  {
    var t := Opened(s, kind);
    OpenedIsCalm(s, kind);
    var u := t.(signingOut := signingOut);
    assert Inv(u);
    MovedIsCalm(u, |s.calls|, if s.refreshFlight.Some? then Waiting(s.refreshFlight.value) else Ordering);
  }

  lemma LoginEndIsGood(s: State, c: nat, result: CommandReply)
    requires Inv(s) && c < |s.calls| && !s.calls[c].pc.Done?
    ensures Good(s, LoginEnded(s, c, result))
  {
    if result.Granted? && result.payload.Some? && Staff(result.payload.value) {
      PublishedIsGood(s, result.payload, false);
      FinishedIsCalm(Published(s, result.payload, false), c, Signed(result.payload));
      CalmThenGood(s, Published(s, result.payload, false), LoginEnded(s, c, result));
    } else {
      FinishedIsCalm(s, c, Failed);
    }
  }

  lemma LogoutEndIsGood(s: State, c: nat, result: CommandReply)
    requires Inv(s) && c < |s.calls| && !s.calls[c].pc.Done?
    ensures Good(s, LogoutEnded(s, c, result))
  {
    var u := s.(signingOut := false);
    assert Inv(u);
    if result.Granted? {
      PublishedIsGood(u, None, false);
      FinishedIsCalm(Published(u, None, false), c, Returned(None));
      CalmThenGood(u, Published(u, None, false), LogoutEnded(s, c, result));
    } else {
      FinishedIsCalm(u, c, Failed);
    }
  }

  lemma FlightIsGood(s: State, e: Event)
    requires Inv(s) && Enabled(s, e) && (e.FlightCommanded? || e.FlightCatch? || e.FlightFinally?)
    ensures Good(s, Step(s, e))
  {
    if e.FlightCommanded? && e.result.Granted? && e.result.payload.Some? && Staff(e.result.payload.value) {
      PublishedIsGood(s, e.result.payload, false);
    } else if e.FlightCatch? {
      PublishedIsGood(s, None, !s.flights[e.flight].expired);
    }
  }

  /** Every step keeps the invariant and what was captured, and moves the version exactly with the identity. */
  lemma StepIsGood(s: State, e: Event)
    requires Inv(s) && Enabled(s, e)
    ensures Good(s, Step(s, e))
  {
    match e
    case StartRequest(_) => StartIsGood(s, e);
    case StartUpload(_) => StartIsGood(s, e);
    case StartRestore => RestoreStartIsGood(s);
    case StartLogin => OrderedIsGood(s, Login, s.signingOut);
    case StartLogout => OrderedIsGood(s, Logout, true);
    case Answer(c, reply) => AnswerIsGood(s, c, reply);
    case Body(c, payload) =>
      if s.calls[c].kind.Request? {
        RequestEndedIsGood(s, c, s.calls[c].pc.status, payload);
      } else {
        FinishedIsCalm(s, c, Problem(s.calls[c].pc.status));
      }
    case Resume(c) => ResumeIsGood(s, c);
    case Commanded(c, result) => LoginEndIsGood(s, c, result); LogoutEndIsGood(s, c, result);
    case _ => FlightIsGood(s, e);
  }
}
