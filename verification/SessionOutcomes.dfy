/** How every call of the session client ends, read off what it was answered and whether the signed-in user or role has
    changed since it started. */
module SessionOutcomes {
  import opened Wrappers
  import opened SessionProtocol
  import opened SessionSafety
  import opened SessionRuns
  import opened SessionSends

  /** Where call `c` stands after the step. */
  function PcAfter(s: State, e: Event, c: nat): Pc
    requires Enabled(s, e) && c < |Step(s, e).calls|
  {
    Step(s, e).calls[c].pc
  }

  // ---------- session commands ----------

  /** A login signs in whoever it was granted if and only if that is a member of staff with a token and an id; otherwise
      it fails and leaves the session as it was. */
  lemma LoginEndsExactly(run: seq<State>, j: nat, c: nat, result: CommandReply)
    requires Run(run) && j < |run| && c < |run[j].calls| && run[j].calls[c] == Call(Login, Ordering)
    ensures Enabled(run[j], Commanded(c, result)) && c < |Step(run[j], Commanded(c, result)).calls|
    ensures var t := Step(run[j], Commanded(c, result));
            var granted := && result.Granted? && result.payload.Some?
                           && result.payload.value.token != "" && result.payload.value.user != ""
                           && (result.payload.value.role == "admin" || result.payload.value.role == "technician");
            if granted then t.calls[c].pc == Done(Signed(result.payload)) && t.session == result.payload && t.ready && !t.failed
            else t.calls[c].pc == Done(Failed) && t.session == run[j].session && t.version == run[j].version
                 && t.ready == run[j].ready && t.failed == run[j].failed
    ensures Step(run[j], Commanded(c, result)).signingOut == run[j].signingOut
  {
  }

  /** A logout that the server carried out leaves nobody signed in; a failed one leaves the session as it was. Either
      way the client stops signing out. */
  lemma LogoutEndsExactly(run: seq<State>, j: nat, c: nat, result: CommandReply)
    requires Run(run) && j < |run| && c < |run[j].calls| && run[j].calls[c] == Call(Logout, Ordering)
    ensures Enabled(run[j], Commanded(c, result)) && c < |Step(run[j], Commanded(c, result)).calls|
    ensures var t := Step(run[j], Commanded(c, result));
            && !t.signingOut
            && if result.Granted? then t.calls[c].pc == Done(Returned(None)) && t.session == None && t.ready && !t.failed
               else t.calls[c].pc == Done(Failed) && t.session == run[j].session && t.version == run[j].version
                    && t.ready == run[j].ready && t.failed == run[j].failed
  {
  }

  /** A restore returns the known session at once, nobody while signing out, and otherwise awaits the one refresh. */
  lemma RestoreStartsExactly(run: seq<State>, j: nat)
    requires Run(run) && j < |run|
    ensures Enabled(run[j], StartRestore)
    ensures var t, c := Step(run[j], StartRestore), |run[j].calls|;
            && |t.calls| == c + 1 && t.calls[c].kind == Restore
            && if run[j].ready then t.calls[c].pc == Done(Signed(run[j].session))
               else if run[j].signingOut then t.calls[c].pc == Done(Signed(None))
               else t.refreshFlight.Some? && t.calls[c].pc == Waiting(t.refreshFlight.value)
                    && (run[j].refreshFlight.Some? ==> t.refreshFlight == run[j].refreshFlight)
  {
  }

  /** A restore that awaited a refresh returns what it yields, and fails if it throws. */
  lemma RestoreEndsExactly(run: seq<State>, j: nat, c: nat, f: nat, settlement: Settlement)
    requires Run(run) && j < |run| && c < |run[j].calls| && run[j].calls[c] == Call(Restore, Waiting(f))
    requires f < |run[j].flights| && run[j].flights[f] == Settled(settlement)
    ensures Enabled(run[j], Resume(c)) && c < |Step(run[j], Resume(c)).calls|
    ensures PcAfter(run[j], Resume(c), c) ==
            Done(if settlement.Throws? then Failed else Signed(settlement.session))
  {
  }

  // ---------- waiting for the refresh ----------

  /** A call that starts to wait, waits for the refresh that is then outstanding. */
  lemma CallsAwaitTheOneRefresh(s: State, e: Event, c: nat)
    requires Enabled(s, e) && c < |Step(s, e).calls| && (c < |s.calls| ==> !s.calls[c].pc.Waiting?)
    ensures PcAfter(s, e, c).Waiting? ==> Step(s, e).refreshFlight == Some(PcAfter(s, e, c).flight)
  {
    OtherCallsUntouched(s, e);
    match e
    case Answer(d, reply) => AnswerAwaits(s, d, reply);
    case Resume(d) => ResumeAwaitsNothing(s, d);
    case _ =>
  }

  ghost predicate AwaitsTheOne(t: State, c: nat) {
    c < |t.calls| && (t.calls[c].pc.Waiting? ==> t.refreshFlight == Some(t.calls[c].pc.flight))
  }

  lemma RequestAwaits(s: State, c: nat, status: int)
    requires c < |s.calls| && s.calls[c].kind.Request?
    ensures AwaitsTheOne(RequestFirstAnswer(s, c, status), c) && AwaitsTheOne(RequestAnswered(s, c, status), c)
  {
  }

  lemma AnswerAwaits(s: State, c: nat, reply: Reply)
    requires Enabled(s, Answer(c, reply))
    ensures |Answered(s, c, reply).calls| == |s.calls| && AwaitsTheOne(Answered(s, c, reply), c)
  {
    if reply.Status? && s.calls[c].kind.Request? {
      RequestAwaits(s, c, reply.code);
    }
  }

  lemma ResumeAwaitsNothing(s: State, c: nat)
    requires Enabled(s, Resume(c))
    ensures |Resumed(s, c).calls| == |s.calls| && !Resumed(s, c).calls[c].pc.Waiting?
  {
  }

  /** The refresh has settled, or the session command still waits for it. */
  ghost predicate Behind(s: State, c: nat, f: nat) {
    && c < |s.calls| && f < |s.flights| && (s.calls[c].kind.Login? || s.calls[c].kind.Logout?)
    && (s.flights[f].Settled? || s.calls[c].pc == Waiting(f))
  }

  lemma StepStaysBehind(s: State, e: Event, c: nat, f: nat)
    requires Inv(s) && Enabled(s, e) && Behind(s, c, f)
    ensures Behind(Step(s, e), c, f)
  {
    StepIsGood(s, e);
    OtherCallsUntouched(s, e);
  }

  lemma NextStaysBehind(run: seq<State>, k: nat, c: nat, f: nat)
    requires Run(run) && k + 1 < |run| && Behind(run[k], c, f)
    ensures Behind(run[k + 1], c, f)
  {
    RunIsSafe(run, k);
    assert StepsAt(run, k);
    var e :| Enabled(run[k], e) && run[k + 1] == Step(run[k], e);
    StepStaysBehind(run[k], e, c, f);
  }

  lemma {:induction false} StillBehind(run: seq<State>, i: nat, j: nat, c: nat, f: nat)
    requires Run(run) && i <= j < |run| && Behind(run[i], c, f)
    ensures Behind(run[j], c, f)
  {
    if i < j {
      StillBehind(run, i, j - 1, c, f);
      NextStaysBehind(run, j - 1, c, f);
    }
  }

  lemma CommandStarts(run: seq<State>, i: nat, e: Event)
    requires Run(run) && i + 1 < |run| && (e == StartLogin || e == StartLogout) && run[i + 1] == Step(run[i], e)
    ensures |run[i + 1].calls| == |run[i].calls| + 1
    ensures run[i + 1].calls[|run[i].calls|].kind == if e == StartLogin then Login else Logout
    ensures run[i + 1].signingOut <==> run[i].signingOut || e == StartLogout
    ensures var pc := run[i + 1].calls[|run[i].calls|].pc;
            if run[i].refreshFlight.Some? then pc == Waiting(run[i].refreshFlight.value) else pc == Ordering
  {
  }

  /** Over every run a login or logout issues its command only after the refresh that was running when it started. */
  lemma CommandsComeAfterTheRefresh(run: seq<State>, i: nat, j: nat, e: Event)
    requires Run(run) && i < j < |run| && (e == StartLogin || e == StartLogout) && run[i + 1] == Step(run[i], e)
    requires run[i].refreshFlight.Some?
    ensures var f := run[i].refreshFlight.value;
            && f < |run[j].flights| && |run[i].calls| < |run[j].calls|
            && (run[j].calls[|run[i].calls|].pc.Waiting? || run[j].flights[f].Settled?)
  {
    RunIsSafe(run, i);
    RunIsSafe(run, i + 1);
    CommandStarts(run, i, e);
    StillBehind(run, i + 1, j, |run[i].calls|, run[i].refreshFlight.value);
  }

  // ---------- requests ----------

  /** A request or an upload captures the version, and a request the token, of the moment it starts. */
  lemma StartsCapture(s: State, authenticated: bool, local: bool)
    ensures var t, c := Step(s, StartRequest(authenticated)), |s.calls|;
            && |t.calls| == c + 1 && t.calls[c].pc == Fetching
            && t.calls[c].kind == Request(authenticated, if s.session.Some? then Some(s.session.value.token) else None, s.version)
    ensures var t, c := Step(s, StartUpload(local)), |s.calls|;
            |t.calls| == c + 1 && t.calls[c] == Call(Upload(local, s.version), Fetching)
  {
  }

  /** Whether the user or role has changed since a guarded call started is what its version check sees. */
  lemma VersionTells(run: seq<State>, i: nat, j: nat, c: nat)
    requires Run(run) && Starts(run, i, c) && Guarded(run[i + 1].calls[c].kind) && i < j < |run|
    ensures c < |run[j].calls| && run[j].calls[c].kind == run[i + 1].calls[c].kind
    ensures run[j].calls[c].kind.startedVersion != run[j].version <==> ChangedBetween(run, i, j)
  {
    StartVersion(run, i, c);
    KindIsFixed(run, i + 1, j, c);
    VersionCountsChanges(run, i, j);
    ChangedMeansChanges(run, i, j);
  }

  /** A request that started in the step from `i` and is pending at `j`. */
  ghost predicate PendingRequest(run: seq<State>, i: nat, j: nat, c: nat, authenticated: bool) {
    && Starts(run, i, c) && i < j < |run| && c < |run[j].calls|
    && run[i + 1].calls[c].kind.Request? && run[i + 1].calls[c].kind.authenticated == authenticated
  }

  /** An authenticated request whose user or role has changed meanwhile; an unauthenticated one never has. */
  ghost predicate RequestOutdated(run: seq<State>, i: nat, j: nat, authenticated: bool)
    requires i <= j < |run|
  {
    authenticated && ChangedBetween(run, i, j)
  }

  lemma RequestCheck(run: seq<State>, i: nat, j: nat, c: nat, authenticated: bool)
    requires Run(run) && PendingRequest(run, i, j, c, authenticated)
    ensures run[j].calls[c].kind == run[i + 1].calls[c].kind
    ensures StartedNow(run[j], run[j].calls[c].kind) <==> !RequestOutdated(run, i, j, authenticated)
  {
    KindIsFixed(run, i + 1, j, c);
    if authenticated {
      VersionTells(run, i, j, c);
    }
  }

  /** What the last answer to a request comes to: a changed session, the payload, or the server's problem, which signs
      the user out if it is a 401. */
  ghost predicate RequestComesTo(s: State, t: State, c: nat, authenticated: bool, outdated: bool, status: int, payload: Option<string>) {
    && |t.calls| == |s.calls| && c < |t.calls|
    && t.calls[c].pc == Done(if outdated then SessionChanged
                             else if 200 <= status <= 299 then Returned(payload) else Problem(status))
    && (if authenticated && !outdated && status == 401 then t.session == None && !t.failed
        else t.session == s.session && t.version == s.version && t.failed == s.failed)
  }

  lemma EndedRequest(s: State, c: nat, status: int, payload: Option<string>)
    requires c < |s.calls| && s.calls[c].kind.Request?
    ensures RequestComesTo(s, RequestEnded(s, c, status, payload), c, s.calls[c].kind.authenticated,
                           !StartedNow(s, s.calls[c].kind), status, payload)
  {
  }

  /** Once its body has arrived, over every run, a request comes to exactly that. */
  lemma RequestEndsExactly(run: seq<State>, i: nat, j: nat, c: nat, authenticated: bool, status: int, payload: Option<string>)
    requires Run(run) && PendingRequest(run, i, j, c, authenticated) && run[j].calls[c].pc == Reading(status)
    ensures Enabled(run[j], Body(c, payload))
    ensures RequestComesTo(run[j], Step(run[j], Body(c, payload)), c, authenticated,
                           RequestOutdated(run, i, j, authenticated), status, payload)
  {
    RequestCheck(run, i, j, c, authenticated);
    EndedRequest(run[j], c, status, payload);
  }

  /** The call goes on with an answer: one without a body is the last, any other has its body read. */
  ghost predicate GoesOnWith(s: State, t: State, c: nat, authenticated: bool, outdated: bool, status: int) {
    if status == 204 then RequestComesTo(s, t, c, authenticated, outdated, 204, None)
    else |t.calls| == |s.calls| && c < |t.calls| && t.calls[c].pc == Reading(status) && t.session == s.session
  }

  /** A first answer that is refused to a session that could be refreshed. */
  predicate Refreshable(s: State, authenticated: bool, status: int) {
    status == 401 && authenticated && !s.signingOut
  }

  lemma FirstAnswer(s: State, c: nat, status: int)
    requires c < |s.calls| && s.calls[c].kind.Request?
    ensures var t, kind := RequestFirstAnswer(s, c, status), s.calls[c].kind;
            && |t.calls| == |s.calls|
            && (!StartedNow(s, kind) ==> t.calls[c].pc == Done(SessionChanged) && t.session == s.session)
            && (StartedNow(s, kind) && !Refreshable(s, kind.authenticated, status) ==>
                  GoesOnWith(s, t, c, kind.authenticated, false, status))
            && (StartedNow(s, kind) && Refreshable(s, kind.authenticated, status) ==>
                  && t.session == s.session
                  && t.calls[c].pc == if kind.originalToken == Token(s) && t.refreshFlight.Some?
                                      then Waiting(t.refreshFlight.value)
                                      else if s.session.Some? then Refetching else Reading(401))
  {
  }

  /** Over every run: a request whose session has changed ends there at its first answer; a first 401 of one that could be
      refreshed awaits the refresh if its token is still the current one, is retried at once if there is another, and
      is read if there is none; every other answer is read, and a transport failure fails. */
  lemma RequestIsAnsweredExactly(run: seq<State>, i: nat, j: nat, c: nat, authenticated: bool, reply: Reply)
    requires Run(run) && PendingRequest(run, i, j, c, authenticated)
    requires run[j].calls[c].pc == Fetching || run[j].calls[c].pc == Refetching
    ensures Enabled(run[j], Answer(c, reply)) && |Step(run[j], Answer(c, reply)).calls| == |run[j].calls|
    ensures var s, t := run[j], Step(run[j], Answer(c, reply));
            var outdated, token := RequestOutdated(run, i, j, authenticated), run[i + 1].calls[c].kind.originalToken;
            if reply.NoReply? then t.calls[c].pc == Done(Failed) && t.session == s.session
            else if s.calls[c].pc == Refetching then GoesOnWith(s, t, c, authenticated, outdated, reply.code)
            else if outdated then t.calls[c].pc == Done(SessionChanged) && t.session == s.session
            else if !Refreshable(s, authenticated, reply.code) then GoesOnWith(s, t, c, authenticated, false, reply.code)
            else t.calls[c].pc == if token == Token(s) && t.refreshFlight.Some? then Waiting(t.refreshFlight.value)
                                  else if s.session.Some? then Refetching else Reading(401)
  {
    RequestCheck(run, i, j, c, authenticated);
    if reply.Status? {
      FirstAnswer(run[j], c, reply.code);
      if reply.code == 204 {
        EndedRequest(run[j], c, 204, None);
      }
    }
  }

  /** A request that awaited a refresh fails if that throws, is sent again if it yields a session, and otherwise reads
      the 401 it had. */
  lemma RequestResumesExactly(s: State, c: nat, f: nat, settlement: Settlement)
    requires c < |s.calls| && s.calls[c].kind.Request? && s.calls[c].pc == Waiting(f)
    requires f < |s.flights| && s.flights[f] == Settled(settlement)
    ensures Enabled(s, Resume(c)) && c < |Step(s, Resume(c)).calls| && Step(s, Resume(c)).session == s.session
    ensures PcAfter(s, Resume(c), c) ==
            if settlement.Throws? then Done(Failed) else if settlement.session.Some? then Refetching else Reading(401)
  {
  }

  // ---------- uploads ----------

  /** An upload that started in the step from `i` and is pending at `j`. */
  ghost predicate PendingUpload(run: seq<State>, i: nat, j: nat, c: nat, local: bool) {
    && Starts(run, i, c) && i < j < |run| && c < |run[j].calls|
    && run[i + 1].calls[c].kind.Upload? && run[i + 1].calls[c].kind.local == local
  }

  /** Over every run: an upload whose session has changed ends there; a first 401 of one to the API awaits the refresh
      unless the user is signing out; a 2xx answer is its success, and any other has the text of its problem read. */
  lemma UploadIsAnsweredExactly(run: seq<State>, i: nat, j: nat, c: nat, local: bool, reply: Reply)
    requires Run(run) && PendingUpload(run, i, j, c, local)
    requires run[j].calls[c].pc == Fetching || run[j].calls[c].pc == Refetching
    ensures Enabled(run[j], Answer(c, reply)) && |Step(run[j], Answer(c, reply)).calls| == |run[j].calls|
    ensures var s, t := run[j], Step(run[j], Answer(c, reply));
            && t.session == s.session
            && if reply.NoReply? then t.calls[c].pc == Done(Failed)
               else if ChangedBetween(run, i, j) then t.calls[c].pc == Done(SessionChanged)
               else if s.calls[c].pc == Fetching && local && reply.code == 401 && !s.signingOut
               then t.refreshFlight.Some? && t.calls[c].pc == Waiting(t.refreshFlight.value)
               else t.calls[c].pc == if 200 <= reply.code <= 299 then Done(Returned(None)) else Reading(reply.code)
  {
    VersionTells(run, i, j, c);
  }

  /** Over every run an upload that awaited a refresh fails if that throws, ends if its session has changed, is sent again
      if it yields a session, and otherwise has the text of its 401 read. */
  lemma UploadResumesExactly(run: seq<State>, i: nat, j: nat, c: nat, local: bool, f: nat, settlement: Settlement)
    requires Run(run) && PendingUpload(run, i, j, c, local) && run[j].calls[c].pc == Waiting(f)
    requires f < |run[j].flights| && run[j].flights[f] == Settled(settlement)
    ensures Enabled(run[j], Resume(c)) && c < |Step(run[j], Resume(c)).calls|
    ensures PcAfter(run[j], Resume(c), c) ==
            if settlement.Throws? then Done(Failed) else if ChangedBetween(run, i, j) then Done(SessionChanged)
            else if settlement.session.Some? then Refetching else Reading(401)
  {
    VersionTells(run, i, j, c);
  }

  /** A problem an upload reports is the one it was answered with. */
  lemma UploadEndsExactly(s: State, c: nat, status: int, payload: Option<string>)
    requires c < |s.calls| && s.calls[c].kind.Upload? && s.calls[c].pc == Reading(status)
    ensures Enabled(s, Body(c, payload)) && c < |Step(s, Body(c, payload)).calls|
    ensures PcAfter(s, Body(c, payload), c) == Done(Problem(status))
  {
  }
}
