/** What the session client puts on the wire: how often, why, and in which session; and how its calls end. */
module SessionSends {
  import opened Wrappers
  import opened SessionProtocol
  import opened SessionSafety
  import opened SessionRuns

  // ---------- at most one retry ----------

  function SendsOf(sends: seq<Sent>, c: nat): nat {
    if sends == [] then 0 else SendsOf(sends[..|sends| - 1], c) + if sends[|sends| - 1].call == c then 1 else 0
  }

  predicate MayRetry(kind: Kind) {
    (kind.Request? && kind.authenticated) || (kind.Upload? && kind.local)
  }

  /** How often the call may have been sent by the time it is where it is. */
  function Allowance(call: Call): nat {
    if MayRetry(call.kind) && !call.pc.Fetching? && !call.pc.Waiting? then 2 else 1
  }

  ghost predicate Allowed(sends: seq<Sent>, calls: seq<Call>, c: nat) {
    SendsOf(sends, c) <= if c < |calls| then Allowance(calls[c]) else 0
  }

  ghost predicate WithinAllowance(s: State) {
    forall c: nat :: Allowed(s.sends, s.calls, c)
  }

  lemma SendsAppended(sends: seq<Sent>, sent: Sent, c: nat)
    ensures SendsOf(sends + [sent], c) == SendsOf(sends, c) + if sent.call == c then 1 else 0
  {
    assert (sends + [sent])[..|sends|] == sends;
  }

  /** From `s` to `t` one send is made, by call `c`. */
  ghost predicate SendsOne(s: State, t: State, c: nat) {
    |t.sends| == |s.sends| + 1 && s.sends <= t.sends && t.sends[|s.sends|].call == c
  }

  lemma OneSendCounts(s: State, t: State, c: nat, d: nat)
    requires SendsOne(s, t, c)
    ensures SendsOf(t.sends, d) == SendsOf(s.sends, d) + if c == d then 1 else 0
  {
    assert t.sends == s.sends + [t.sends[|s.sends|]];
    SendsAppended(s.sends, t.sends[|s.sends|], d);
  }

  /** From `s` to `t` call `c` sends nothing and its allowance does not shrink, or it sends once and has grown. */
  ghost predicate Spends(s: State, t: State, c: nat)
    requires c < |s.calls| && c < |t.calls|
  {
    || (t.sends == s.sends && Allowance(t.calls[c]) >= Allowance(s.calls[c]))
    || (SendsOne(s, t, c) && Allowance(t.calls[c]) > Allowance(s.calls[c]))
  }

  lemma AnswerSpends(s: State, c: nat, reply: Reply)
    requires Inv(s) && Enabled(s, Answer(c, reply))
    ensures |Answered(s, c, reply).calls| == |s.calls| && Spends(s, Answered(s, c, reply), c)
  {
    if s.calls[c].pc.Fetching? && reply.Status? && s.calls[c].kind.Request? {
      RequestAnswerSpends(s, c, reply.code);
    }
  }

  lemma RequestAnswerSpends(s: State, c: nat, status: int)
    requires c < |s.calls| && s.calls[c].kind.Request? && s.calls[c].pc.Fetching?
    ensures |RequestFirstAnswer(s, c, status).calls| == |s.calls| && Spends(s, RequestFirstAnswer(s, c, status), c)
  {
  }

  lemma ResumeSpends(s: State, c: nat)
    requires Inv(s) && Enabled(s, Resume(c))
    ensures |Resumed(s, c).calls| == |s.calls| && Spends(s, Resumed(s, c), c)
  {
    assert CallOk(s, s.calls[c]);
    if s.calls[c].kind.Request? {
      RequestResumeSpends(s, c, s.flights[s.calls[c].pc.flight].outcome);
    } else if s.calls[c].kind.Upload? {
      UploadResumeSpends(s, c, s.flights[s.calls[c].pc.flight].outcome);
    }
  }

  lemma RequestResumeSpends(s: State, c: nat, refreshed: Settlement)
    requires c < |s.calls| && s.calls[c].kind.Request? && s.calls[c].kind.authenticated && s.calls[c].pc.Waiting?
    ensures |RequestResumed(s, c, refreshed).calls| == |s.calls| && Spends(s, RequestResumed(s, c, refreshed), c)
  {
  }

  lemma UploadResumeSpends(s: State, c: nat, refreshed: Settlement)
    requires c < |s.calls| && s.calls[c].kind.Upload? && s.calls[c].kind.local && s.calls[c].pc.Waiting?
    ensures |UploadResumed(s, c, refreshed).calls| == |s.calls| && Spends(s, UploadResumed(s, c, refreshed), c)
  {
  }

  lemma SpendingIsAllowed(s: State, t: State, c: nat)
    requires WithinAllowance(s) && c < |s.calls| && OnlyTouched(s, t, c) && Spends(s, t, c)
    ensures WithinAllowance(t)
  {
    forall d: nat ensures Allowed(t.sends, t.calls, d) {
      assert Allowed(s.sends, s.calls, d);
      if t.sends != s.sends {
        OneSendCounts(s, t, c, d);
      }
    }
  }

  lemma OpeningIsAllowed(s: State, t: State)
    requires WithinAllowance(s) && |t.calls| == |s.calls| + 1
    requires forall d: nat :: d < |s.calls| ==> t.calls[d] == s.calls[d]
    requires t.sends == s.sends || SendsOne(s, t, |s.calls|)
    ensures WithinAllowance(t)
  {
    forall d: nat ensures Allowed(t.sends, t.calls, d) {
      assert Allowed(s.sends, s.calls, d);
      if t.sends != s.sends {
        OneSendCounts(s, t, |s.calls|, d);
      }
    }
  }

  lemma OpeningSpends(s: State, e: Event)
    requires Enabled(s, e) && Opens(e)
    ensures Step(s, e).sends == s.sends || SendsOne(s, Step(s, e), |s.calls|)
  {
  }

  lemma OtherStepsSpendNothing(s: State, e: Event)
    requires Enabled(s, e) && !Opens(e) && !e.Answer? && !e.Resume? && WithinAllowance(s)
    ensures WithinAllowance(Step(s, e))
  {
    var t := Step(s, e);
    assert t.sends == s.sends && |t.calls| == |s.calls|;
    forall d: nat ensures Allowed(t.sends, t.calls, d) {
      assert Allowed(s.sends, s.calls, d);
    }
  }

  lemma StepWithinAllowance(s: State, e: Event)
    requires Inv(s) && Enabled(s, e) && WithinAllowance(s)
    ensures WithinAllowance(Step(s, e))
  {
    if e.Answer? {
      AnswerTouches(s, e.call, e.reply);
      AnswerSpends(s, e.call, e.reply);
      SpendingIsAllowed(s, Answered(s, e.call, e.reply), e.call);
    } else if e.Resume? {
      ResumeTouches(s, e.call);
      ResumeSpends(s, e.call);
      SpendingIsAllowed(s, Resumed(s, e.call), e.call);
    } else if Opens(e) {
      OpeningSpends(s, e);
      OtherCallsUntouched(s, e);
      OpeningIsAllowed(s, Step(s, e));
    } else {
      OtherStepsSpendNothing(s, e);
    }
  }

  lemma NextWithinAllowance(s: State, t: State)
    requires Inv(s) && WithinAllowance(s) && Next(s, t)
    ensures WithinAllowance(t)
  {
    var e :| Enabled(s, e) && t == Step(s, e);
    StepWithinAllowance(s, e);
  }

  lemma {:induction false} RunWithinAllowance(run: seq<State>, i: nat)
    requires Run(run) && i < |run|
    ensures WithinAllowance(run[i])
  {
    if i > 0 {
      RunWithinAllowance(run, i - 1);
      RunIsSafe(run, i - 1);
      assert StepsAt(run, i - 1);
      NextWithinAllowance(run[i - 1], run[i]);
    }
  }

  /** No call is ever sent more than twice, and one that carries no token is never sent again. */
  lemma AtMostOneRetry(run: seq<State>, i: nat, c: nat)
    requires Run(run) && i < |run| && c < |run[i].calls|
    ensures SendsOf(run[i].sends, c) <= if MayRetry(run[i].calls[c].kind) then 2 else 1
  {
    RunWithinAllowance(run, i);
    assert Allowed(run[i].sends, run[i].calls, c);
  }

  // ---------- why a call is sent, and in which session ----------

  /** The refused token is out of date and the same session has another one. */
  predicate StaleRetry(s: State, c: nat) {
    && c < |s.calls| && s.calls[c].pc.Fetching? && s.calls[c].kind.Request? && s.calls[c].kind.authenticated
    && s.calls[c].kind.startedVersion == s.version && !s.signingOut
    && s.session.Some? && s.calls[c].kind.originalToken != Token(s)
  }

  /** The refresh the call awaited has yielded a session; an upload is still in the one it started in. */
  predicate RefreshedRetry(s: State, c: nat) {
    && c < |s.calls| && s.calls[c].pc.Waiting? && MayRetry(s.calls[c].kind)
    && s.calls[c].pc.flight < |s.flights| && s.flights[s.calls[c].pc.flight].Settled?
    && s.flights[s.calls[c].pc.flight].outcome.Yields? && s.flights[s.calls[c].pc.flight].outcome.session.Some?
    && (s.calls[c].kind.Upload? ==> s.calls[c].kind.startedVersion == s.version)
  }

  lemma AnswerResends(s: State, c: nat, reply: Reply)
    requires Enabled(s, Answer(c, reply))
    ensures var t := Answered(s, c, reply);
            if reply == Status(401) && StaleRetry(s, c) then t.sends == s.sends + [Sent(c, s.version, Token(s))]
            else t.sends == s.sends
  {
  }

  lemma ResumeResends(s: State, c: nat)
    requires Inv(s) && Enabled(s, Resume(c))
    ensures var t := Resumed(s, c);
            if RefreshedRetry(s, c) then t.sends == s.sends + [Sent(c, s.version, Token(s))] else t.sends == s.sends
  {
    assert CallOk(s, s.calls[c]);
  }

  /** What a step sends: the first send of the call it opens, or one of the two kinds of retry. */
  ghost predicate Explained(s: State, t: State, c: nat) {
    && SendsOne(s, t, c) && t.sends[|s.sends|].version == s.version
    && (c == |s.calls| || StaleRetry(s, c) || RefreshedRetry(s, c))
    && c < |t.calls| && t.sends[|s.sends|].token == TokenFor(s, t.calls[c].kind)
  }

  /** The bearer token of the moment goes with authenticated requests and with uploads to the API, and with nothing else. */
  function TokenFor(s: State, kind: Kind): Option<string> {
    var secured := (kind.Request? && kind.authenticated) || (kind.Upload? && kind.local);
    if secured && s.session.Some? then Some(s.session.value.token) else None
  }

  lemma StepSendIsExplained(s: State, e: Event, c: nat)
    requires Inv(s) && Enabled(s, e) && SendsOne(s, Step(s, e), c)
    ensures Explained(s, Step(s, e), c)
  {
    OtherCallsUntouched(s, e);
    if e.Answer? {
      AnswerResends(s, e.call, e.reply);
      AnswerKeepsKind(s, e.call, e.reply);
    } else if e.Resume? {
      ResumeResends(s, e.call);
      ResumeKeepsKind(s, e.call);
    }
  }

  lemma AnswerKeepsKind(s: State, c: nat, reply: Reply)
    requires Enabled(s, Answer(c, reply))
    ensures |Answered(s, c, reply).calls| == |s.calls| && Answered(s, c, reply).calls[c].kind == s.calls[c].kind
  {
  }

  lemma ResumeKeepsKind(s: State, c: nat)
    requires Enabled(s, Resume(c))
    ensures |Resumed(s, c).calls| == |s.calls| && Resumed(s, c).calls[c].kind == s.calls[c].kind
  {
  }

  /** In every run each send is the first of its call, or the retry of a request whose token was out of date, or the
      retry of a call whose refresh yielded a session; and it carries the token of the moment if it may carry one. */
  lemma EverySendIsExplained(run: seq<State>, k: nat, c: nat)
    requires Run(run) && k + 1 < |run| && SendsOne(run[k], run[k + 1], c)
    ensures Explained(run[k], run[k + 1], c)
  {
    RunIsSafe(run, k);
    assert StepsAt(run, k);
    var e :| Enabled(run[k], e) && run[k + 1] == Step(run[k], e);
    StepSendIsExplained(run[k], e, c);
  }

  ghost predicate ChangedBetween(run: seq<State>, i: nat, k: nat)
    requires i <= k < |run|
  {
    exists m :: i <= m < k && IdentityAt(run, m) != IdentityAt(run, m + 1)
  }

  lemma ChangedMeansChanges(run: seq<State>, i: nat, k: nat)
    requires i <= k < |run|
    ensures ChangedBetween(run, i, k) <==> Changes(run, i, k) != 0
  {
    if Changes(run, i, k) != 0 {
      SomeChange(run, i, k);
    } else if ChangedBetween(run, i, k) {
      var m :| i <= m < k && IdentityAt(run, m) != IdentityAt(run, m + 1);
      NoChangesNoDifference(run, i, m, k);
      NoChangesNoDifference(run, i, m + 1, k);
    }
  }

  /** Exactly when a request leaves its session: a send of an authenticated request is made at another version than
      it started at if and only if it is the retry after an awaited refresh and the signed-in user or role changed
      between the start and that resumption. */
  lemma RequestIsSentElsewhereExactlyWhen(run: seq<State>, i: nat, k: nat, c: nat)
    requires Run(run) && Starts(run, i, c) && i <= k && k + 1 < |run| && SendsOne(run[k], run[k + 1], c)
    requires run[i + 1].calls[c].kind.Request? && run[i + 1].calls[c].kind.authenticated
    ensures run[k + 1].sends[|run[k].sends|].version != run[i + 1].calls[c].kind.startedVersion <==>
            i < k && RefreshedRetry(run[k], c) && ChangedBetween(run, i, k)
  {
    EverySendIsExplained(run, k, c);
    StartVersion(run, i, c);
    VersionCountsChanges(run, i, k);
    ChangedMeansChanges(run, i, k);
    if i < k {
      KindIsFixed(run, i + 1, k, c);
    }
  }

  // ---------- how a call ends ----------

  /** Data is returned only for a successful answer, and is that answer's body; a request reports exactly the problem
      it was answered with. */
  lemma OutcomeIsTheAnswer(s: State, e: Event, c: nat)
    requires Enabled(s, e) && Touches(e, c) && (s.calls[c].kind.Request? || s.calls[c].kind.Upload?)
    requires Step(s, e).calls[c].pc.Done?
    ensures var outcome := Step(s, e).calls[c].pc.outcome;
            && (outcome.Returned? ==>
                  || (e.Answer? && e.reply.Status? && Ok(e.reply.code) && outcome.payload == None)
                  || (e.Body? && Ok(s.calls[c].pc.status) && outcome.payload == e.payload))
            && (outcome.Problem? ==> e.Body? && outcome.status == s.calls[c].pc.status)
            && (outcome.Problem? && s.calls[c].kind.Request? ==> !Ok(outcome.status))
            && (outcome.Failed? <==>
                  || (e.Answer? && e.reply.NoReply?)
                  || (e.Resume? && s.flights[s.calls[c].pc.flight].outcome.Throws?))
  {
    if e.Answer? {
      AnswerIsReported(s, c, e.reply);
    } else if e.Resume? {
      ResumeIsReported(s, c);
    }
  }

  /** What the answer to a send can end a call with. */
  ghost predicate ReportsAnswer(s: State, t: State, c: nat, status: int) {
    && |t.calls| == |s.calls| && c < |t.calls|
    && (t.calls[c].pc.Done? ==> t.calls[c].pc.outcome == SessionChanged || (t.calls[c].pc.outcome == Returned(None) && Ok(status)))
  }

  lemma RequestAnswerIsReported(s: State, c: nat, status: int)
    requires c < |s.calls| && s.calls[c].kind.Request?
    ensures ReportsAnswer(s, RequestFirstAnswer(s, c, status), c, status)
    ensures ReportsAnswer(s, RequestAnswered(s, c, status), c, status)
  {
  }

  lemma UploadAnswerIsReported(s: State, c: nat, status: int)
    requires c < |s.calls| && s.calls[c].kind.Upload?
    ensures ReportsAnswer(s, UploadFirstAnswer(s, c, status), c, status)
    ensures ReportsAnswer(s, UploadAnswered(s, c, status), c, status)
  {
  }

  lemma AnswerIsReported(s: State, c: nat, reply: Reply)
    requires Enabled(s, Answer(c, reply))
    ensures var t := Answered(s, c, reply);
            if reply.NoReply? then |t.calls| == |s.calls| && t.calls[c].pc == Done(Failed)
            else ReportsAnswer(s, t, c, reply.code)
  {
    if reply.Status? && s.calls[c].kind.Request? {
      RequestAnswerIsReported(s, c, reply.code);
    } else if reply.Status? {
      UploadAnswerIsReported(s, c, reply.code);
    }
  }

  lemma ResumeIsReported(s: State, c: nat)
    requires Enabled(s, Resume(c)) && (s.calls[c].kind.Request? || s.calls[c].kind.Upload?)
    ensures |Resumed(s, c).calls| == |s.calls|
    ensures var pc := Resumed(s, c).calls[c].pc;
            pc.Done? ==>
              && !pc.outcome.Problem? && !pc.outcome.Returned?
              && (pc.outcome.Failed? <==> s.flights[s.calls[c].pc.flight].outcome.Throws?)
  {
  }

  lemma LoginEnds(s: State, c: nat, result: CommandReply)
    requires Enabled(s, Commanded(c, result)) && s.calls[c].kind.Login?
    ensures var t := Step(s, Commanded(c, result));
            && |t.calls| == |s.calls|
            && if GrantsStaff(result) then t.calls[c].pc == Done(Signed(result.payload)) && t.session == result.payload
               else t.calls[c].pc == Done(Failed) && t.session == s.session && t.version == s.version
  {
  }

  lemma OnlyItsCommandEndsALogin(s: State, e: Event, c: nat)
    requires PlacesOk(s) && Enabled(s, e) && c < |s.calls| && s.calls[c].kind.Login? && !s.calls[c].pc.Done?
    requires c < |Step(s, e).calls| && Step(s, e).calls[c].pc.Done?
    ensures e.Commanded? && e.call == c
  {
    OtherCallsUntouched(s, e);
    assert PlaceOk(s.calls[c]);
  }

  /** In every run a login ends with its command's result: if that grants a session to staff, it signs in exactly that
      session and returns it; otherwise it fails and leaves whoever is signed in. */
  lemma LoginIsAllOrNothing(run: seq<State>, j: nat, c: nat, outcome: Outcome) returns (result: CommandReply)
    requires Run(run) && Finishes(run, j, c, outcome) && run[j].calls[c].kind.Login?
    ensures Enabled(run[j], Commanded(c, result)) && run[j + 1] == Step(run[j], Commanded(c, result))
    ensures if GrantsStaff(result) then outcome == Signed(result.payload) && run[j + 1].session == result.payload
            else outcome == Failed && run[j + 1].session == run[j].session && run[j + 1].version == run[j].version
  {
    RunKeepsPlaces(run, j);
    assert StepsAt(run, j);
    var e :| Enabled(run[j], e) && run[j + 1] == Step(run[j], e);
    OnlyItsCommandEndsALogin(run[j], e, c);
    result := e.result;
    LoginEnds(run[j], c, result);
  }

  // ---------- a request that is sent in the next session ----------

  const Ada := Session("a1", "ada", "admin")
  const Grace := Session("g1", "grace", "technician")

  lemma SignedInRun() returns (run: seq<State>)
    ensures Run(run) && |run| == 4
    ensures run[3] == State(Some(Ada), true, false, None, false, 1, [Settled(Yields(Some(Ada)))],
                            [Call(Restore, Waiting(0))], [])
  {
    run := [InitState];
    run := Extended(run, StartRestore);
    run := Extended(run, FlightCommanded(0, Granted(Some(Ada))));
    run := Extended(run, FlightFinally(0));
  }

  lemma ExpiredRequestRun() returns (run: seq<State>)
    ensures Run(run) && |run| == 6 && Starts(run, 3, 1)
    ensures run[4].calls[1].kind == Request(true, Some(Ada.token), 1)
    ensures run[5] == State(Some(Ada), true, false, Some(1), false, 1, [Settled(Yields(Some(Ada))), Commanding],
                            [Call(Restore, Waiting(0)), Call(Request(true, Some(Ada.token), 1), Waiting(1))],
                            [Sent(1, 1, Some(Ada.token))])
  {
    run := SignedInRun();
    run := Extended(run, StartRequest(true));
    run := Extended(run, Answer(1, Status(401)));
  }

  /** The guard is on results: a request retried after a refresh that changed the user is sent in the new session,
      and only its result is discarded. An upload is never sent that way. */
  lemma RetryIsSentBeforeTheCheck() returns (run: seq<State>)
    ensures Run(run) && |run| == 10
    ensures Spans(run, 3, 8, 1, SessionChanged)
    ensures run[8].calls[1].kind == Request(true, Some(Ada.token), 1)
    ensures |run[8].sends| == 2 && run[8].sends[1] == Sent(1, 2, Some(Grace.token))
  {
    run := ExpiredRequestRun();
    run := Extended(run, FlightCommanded(1, Granted(Some(Grace))));
    run := Extended(run, FlightFinally(1));
    run := Extended(run, Resume(1));
    run := Extended(run, Answer(1, Status(204)));
  }
}
