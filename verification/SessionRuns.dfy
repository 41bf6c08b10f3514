/** Properties of whole runs of the session machine: which results a call may return, what logout achieves. */
module SessionRuns {
  import opened Wrappers
  import opened SessionProtocol
  import opened SessionSafety

  ghost predicate Next(s: State, t: State) {
    exists e :: Enabled(s, e) && t == Step(s, e)
  }

  ghost predicate StepsAt(run: seq<State>, i: nat) {
    i + 1 < |run| ==> Next(run[i], run[i + 1])
  }

  ghost predicate Run(run: seq<State>) {
    && |run| > 0 && run[0] == InitState
    && forall i: nat :: StepsAt(run, i)
  }

  /** Who is signed in at a moment, and as what. */
  function IdentityAt(run: seq<State>, i: nat): Option<(string, string)>
    requires i < |run|
  {
    if run[i].session.None? then None else Some((run[i].session.value.user, run[i].session.value.role))
  }

  lemma {:induction false} RunIsSafe(run: seq<State>, i: nat)
    requires Run(run) && i < |run|
    ensures Inv(run[i])
    ensures i + 1 < |run| ==> Good(run[i], run[i + 1])
  {
    if i > 0 {
      RunIsSafe(run, i - 1);
    }
    if i + 1 < |run| {
      assert StepsAt(run, i);
      var e :| Enabled(run[i], e) && run[i + 1] == Step(run[i], e);
      StepIsGood(run[i], e);
    }
  }

  /** In every reachable state a session has a token, a user and a staff role, and at most one refresh is
      outstanding, namely the one `refreshFlight` holds. */
  lemma ReachableSessionsAreStaff(run: seq<State>, i: nat)
    requires Run(run) && i < |run|
    ensures var session := run[i].session;
            session.Some? ==>
              && session.value.token != "" && session.value.user != ""
              && (session.value.role == "admin" || session.value.role == "technician")
    ensures run[i].refreshFlight.Some? ==> run[i].refreshFlight.value < |run[i].flights|
    ensures forall f :: 0 <= f < |run[i].flights| ==> (!run[i].flights[f].Settled? <==> run[i].refreshFlight == Some(f))
  {
    RunIsSafe(run, i);
  }

  /** Tokens travel only with authenticated requests and with uploads to the API's own origin, and every upload is
      sent, and sent again, only at the version it started at. */
  lemma UploadsAreSentInTheirOwnSession(run: seq<State>, i: nat, n: nat)
    requires Run(run) && i < |run| && n < |run[i].sends|
    ensures run[i].sends[n].call < |run[i].calls|
    ensures var kind := run[i].calls[run[i].sends[n].call].kind;
            && (kind.Upload? ==> run[i].sends[n].version == kind.startedVersion)
            && (kind.Upload? && !kind.local ==> run[i].sends[n].token == None)
  {
    RunIsSafe(run, i);
    assert SentOk(run[i], run[i].sends[n]);
  }

  // ---------- the version counts changes of identity ----------

  function Changes(run: seq<State>, i: nat, j: nat): nat
    requires i <= j < |run|
  {
    if i == j then 0
    else Changes(run, i, j - 1) + if IdentityAt(run, j - 1) != IdentityAt(run, j) then 1 else 0
  }

  /** Step by step the version moves exactly with the identity. */
  ghost predicate Counted(run: seq<State>) {
    forall k: nat :: k + 1 < |run| ==> VersionFollowsIdentity(run[k], run[k + 1])
  }

  lemma RunIsCounted(run: seq<State>)
    requires Run(run)
    ensures Counted(run)
  {
    forall k: nat | k + 1 < |run| ensures VersionFollowsIdentity(run[k], run[k + 1]) {
      RunIsSafe(run, k);
    }
  }

  lemma {:induction false} CountedChanges(run: seq<State>, i: nat, j: nat)
    requires Counted(run) && i <= j < |run|
    ensures run[j].version == run[i].version + Changes(run, i, j)
  {
    if i < j {
      CountedChanges(run, i, j - 1);
      assert VersionFollowsIdentity(run[j - 1], run[j - 1 + 1]);
    }
  }

  /** Between any two points of a run the version has grown by the number of changes of user or role, so signing
      out and in again as the same user counts twice. */
  lemma VersionCountsChanges(run: seq<State>, i: nat, j: nat)
    requires Run(run) && i <= j < |run|
    ensures run[j].version == run[i].version + Changes(run, i, j)
  {
    RunIsCounted(run);
    CountedChanges(run, i, j);
  }

  lemma {:induction false} NoChangesNoDifference(run: seq<State>, i: nat, k: nat, j: nat)
    requires i <= k <= j < |run| && Changes(run, i, j) == 0
    ensures IdentityAt(run, k) == IdentityAt(run, i)
    decreases j
  {
    if k < j {
      NoChangesNoDifference(run, i, k, j - 1);
    } else if i < j {
      NoChangesNoDifference(run, i, k - 1, j - 1);
    }
  }

  lemma {:induction false} SomeChange(run: seq<State>, i: nat, j: nat)
    requires i <= j < |run| && Changes(run, i, j) != 0
    ensures exists k :: i <= k < j && IdentityAt(run, k) != IdentityAt(run, k + 1)
    decreases j
  {
    if IdentityAt(run, j - 1) == IdentityAt(run, j) {
      SomeChange(run, i, j - 1);
    } else {
      assert i <= j - 1 < j && IdentityAt(run, j - 1) != IdentityAt(run, j - 1 + 1);
    }
  }

  // ---------- calls over a run ----------

  /** Call `c` is made in the step from `run[i]`. */
  ghost predicate Starts(run: seq<State>, i: nat, c: nat) {
    i + 1 < |run| && |run[i].calls| == c < |run[i + 1].calls|
  }

  /** Call `c` ends with `outcome` in the step from `run[j]`. */
  ghost predicate Finishes(run: seq<State>, j: nat, c: nat, outcome: Outcome) {
    && j + 1 < |run| && c < |run[j].calls| && !run[j].calls[c].pc.Done?
    && c < |run[j + 1].calls| && run[j + 1].calls[c].pc == Done(outcome)
  }

  ghost predicate Guarded(kind: Kind) {
    (kind.Request? && kind.authenticated) || kind.Upload?
  }

  predicate Opens(e: Event) {
    e.StartRequest? || e.StartUpload? || e.StartRestore? || e.StartLogin? || e.StartLogout?
  }

  predicate Touches(e: Event, c: nat) {
    (e.Answer? || e.Body? || e.Resume? || e.Commanded?) && e.call == c
  }

  /** A step changes the entry of no call but the one it is about. */
  lemma OtherCallsUntouched(s: State, e: Event)
    requires Enabled(s, e)
    ensures Opens(e) <==> |Step(s, e).calls| == |s.calls| + 1
    ensures !Opens(e) <==> |Step(s, e).calls| == |s.calls|
    ensures forall c: nat :: c < |s.calls| && !Touches(e, c) ==> Step(s, e).calls[c] == s.calls[c]
  {
    match e
    case Answer(c, reply) => AnswerTouches(s, c, reply);
    case Resume(c) => ResumeTouches(s, c);
    case _ =>
  }

  ghost predicate OnlyTouched(s: State, t: State, c: nat) {
    |t.calls| == |s.calls| && forall d: nat :: d < |s.calls| && d != c ==> t.calls[d] == s.calls[d]
  }

  lemma AnswerTouches(s: State, c: nat, reply: Reply)
    requires Enabled(s, Answer(c, reply))
    ensures OnlyTouched(s, Answered(s, c, reply), c)
  {
  }

  lemma ResumeTouches(s: State, c: nat)
    requires Enabled(s, Resume(c))
    ensures OnlyTouched(s, Resumed(s, c), c)
  {
  }

  lemma StartCapturesVersion(s: State, e: Event)
    requires Enabled(s, e) && Opens(e)
    requires |Step(s, e).calls| == |s.calls| + 1
    ensures var kind := Step(s, e).calls[|s.calls|].kind;
            kind.Request? || kind.Upload? ==> kind.startedVersion == s.version
  {
  }

  ghost predicate KeepsKinds(s: State, t: State) {
    |s.calls| <= |t.calls| && forall c :: 0 <= c < |s.calls| ==> t.calls[c].kind == s.calls[c].kind
  }

  lemma {:induction false} KindsKept(run: seq<State>, i: nat, j: nat)
    requires i <= j < |run| && forall k: nat :: k + 1 < |run| ==> KeepsKinds(run[k], run[k + 1])
    ensures KeepsKinds(run[i], run[j])
  {
    if i < j {
      KindsKept(run, i, j - 1);
      assert KeepsKinds(run[j - 1], run[j - 1 + 1]);
    }
  }

  lemma KindIsFixed(run: seq<State>, i: nat, j: nat, c: nat)
    requires Run(run) && i <= j < |run| && c < |run[i].calls|
    ensures c < |run[j].calls| && run[j].calls[c].kind == run[i].calls[c].kind
  {
    forall k: nat | k + 1 < |run| ensures KeepsKinds(run[k], run[k + 1]) {
      RunIsSafe(run, k);
    }
    KindsKept(run, i, j);
  }

  /** Which version a guarded call sees when it ends: its own if it returns data or a server problem, another one
      if it reports a changed session. An upload reads the text of a problem after its last check. */
  ghost predicate EndsConsistently(s: State, kind: Kind, outcome: Outcome)
    requires Guarded(kind)
  {
    && (outcome.Returned? || (outcome.Problem? && kind.Request?) ==> s.version == kind.startedVersion)
    && (outcome.SessionChanged? ==> s.version != kind.startedVersion)
    && !outcome.Signed?
  }

  /** The call's outcome is consistent, and a request that ends unauthorized signs the user out. */
  ghost predicate CallEnds(s: State, t: State, c: nat)
    requires c < |s.calls| && c < |t.calls| && Guarded(s.calls[c].kind)
  {
    t.calls[c].pc.Done? ==>
      && EndsConsistently(s, s.calls[c].kind, t.calls[c].pc.outcome)
      && (s.calls[c].kind.Request? && t.calls[c].pc.outcome == Problem(401) ==> t.session.None?)
  }

  lemma RequestAnswerEnds(s: State, c: nat, status: int)
    requires c < |s.calls| && s.calls[c].kind.Request? && s.calls[c].kind.authenticated && !s.calls[c].pc.Done?
    ensures |RequestFirstAnswer(s, c, status).calls| == |s.calls| && CallEnds(s, RequestFirstAnswer(s, c, status), c)
    ensures |RequestAnswered(s, c, status).calls| == |s.calls| && CallEnds(s, RequestAnswered(s, c, status), c)
  {
  }

  lemma AnswerEnds(s: State, c: nat, reply: Reply)
    requires Enabled(s, Answer(c, reply)) && Guarded(s.calls[c].kind)
    ensures |Answered(s, c, reply).calls| == |s.calls| && CallEnds(s, Answered(s, c, reply), c)
  {
    if reply.Status? && s.calls[c].kind.Request? {
      RequestAnswerEnds(s, c, reply.code);
    }
  }

  lemma BodyEnds(s: State, c: nat, payload: Option<string>)
    requires Enabled(s, Body(c, payload)) && Guarded(s.calls[c].kind)
    ensures |Bodied(s, c, payload).calls| == |s.calls| && CallEnds(s, Bodied(s, c, payload), c)
  {
  }

  lemma ResumeEnds(s: State, c: nat)
    requires Enabled(s, Resume(c)) && Guarded(s.calls[c].kind)
    ensures |Resumed(s, c).calls| == |s.calls| && CallEnds(s, Resumed(s, c), c)
  {
  }

  lemma StepEndsConsistently(s: State, e: Event, c: nat)
    requires Enabled(s, e) && c < |s.calls| && !s.calls[c].pc.Done? && Guarded(s.calls[c].kind)
    requires c < |Step(s, e).calls| && Step(s, e).calls[c].pc.Done?
    ensures CallEnds(s, Step(s, e), c)
  {
    OtherCallsUntouched(s, e);
    match e
    case Answer(d, reply) => if d == c { AnswerEnds(s, c, reply); }
    case Body(d, payload) => if d == c { BodyEnds(s, c, payload); }
    case Resume(d) => if d == c { ResumeEnds(s, c); }
    case _ =>
  }

  lemma StartVersion(run: seq<State>, i: nat, c: nat)
    requires Run(run) && Starts(run, i, c) && Guarded(run[i + 1].calls[c].kind)
    ensures run[i + 1].calls[c].kind.startedVersion == run[i].version
  {
    assert StepsAt(run, i);
    var e :| Enabled(run[i], e) && run[i + 1] == Step(run[i], e);
    OtherCallsUntouched(run[i], e);
    StartCapturesVersion(run[i], e);
  }

  lemma EndVersion(run: seq<State>, j: nat, c: nat, outcome: Outcome)
    requires Run(run) && Finishes(run, j, c, outcome) && Guarded(run[j].calls[c].kind)
    ensures EndsConsistently(run[j], run[j].calls[c].kind, outcome)
  {
    assert StepsAt(run, j);
    var e :| Enabled(run[j], e) && run[j + 1] == Step(run[j], e);
    StepEndsConsistently(run[j], e, c);
  }

  /** An authenticated request or an upload that started in the step from `i` and ended in the step from `j`. */
  ghost predicate Spans(run: seq<State>, i: nat, j: nat, c: nat, outcome: Outcome) {
    && i < j && Starts(run, i, c) && Finishes(run, j, c, outcome)
    && Guarded(run[i + 1].calls[c].kind)
  }

  lemma SpanVersions(run: seq<State>, i: nat, j: nat, c: nat, outcome: Outcome)
    requires Run(run) && Spans(run, i, j, c, outcome)
    ensures run[j].calls[c].kind == run[i + 1].calls[c].kind
    ensures outcome.Returned? || (outcome.Problem? && run[j].calls[c].kind.Request?) ==> Changes(run, i, j) == 0
    ensures outcome.SessionChanged? ==> Changes(run, i, j) != 0
  {
    KindIsFixed(run, i + 1, j, c);
    StartVersion(run, i, c);
    EndVersion(run, j, c, outcome);
    VersionCountsChanges(run, i, j);
  }

  /** An authenticated request returns a payload or a server problem, and an upload succeeds, only if the signed-in
      user and role never changed from its start to its end, not even to change back. */
  lemma ResultsBelongToOneSession(run: seq<State>, i: nat, j: nat, c: nat, outcome: Outcome, k: nat)
    requires Run(run) && Spans(run, i, j, c, outcome)
    requires outcome.Returned? || (outcome.Problem? && run[j].calls[c].kind.Request?)
    requires i <= k <= j
    ensures IdentityAt(run, k) == IdentityAt(run, i)
  {
    SpanVersions(run, i, j, c, outcome);
    NoChangesNoDifference(run, i, k, j);
  }

  /** Conversely a call reports a changed session only when there was a change. */
  lemma SessionChangedMeansChange(run: seq<State>, i: nat, j: nat, c: nat)
    requires Run(run) && Spans(run, i, j, c, SessionChanged)
    ensures exists k :: i <= k < j && IdentityAt(run, k) != IdentityAt(run, k + 1)
  {
    SpanVersions(run, i, j, c, SessionChanged);
    SomeChange(run, i, j);
  }

  /** A request started by a signed-in user that is still pending once that session has ended never returns data. */
  lemma EndedSessionsReturnNothing(run: seq<State>, i: nat, k: nat, j: nat, c: nat, outcome: Outcome)
    requires Run(run) && Spans(run, i, j, c, outcome) && run[j].calls[c].kind.Request?
    requires i <= k <= j && run[i].session.Some? && run[k].session.None?
    ensures outcome == SessionChanged || outcome == Failed
  {
    KindIsFixed(run, i + 1, j, c);
    EndVersion(run, j, c, outcome);
    if outcome.Returned? || outcome.Problem? {
      ResultsBelongToOneSession(run, i, j, c, outcome, k);
    }
  }

  /** An authenticated request that ends unauthorized leaves nobody signed in. */
  lemma UnauthorizedSignsOut(run: seq<State>, j: nat, c: nat)
    requires Run(run) && Finishes(run, j, c, Problem(401))
    requires run[j].calls[c].kind.Request? && run[j].calls[c].kind.authenticated
    ensures run[j + 1].session.None?
  {
    assert StepsAt(run, j);
    var e :| Enabled(run[j], e) && run[j + 1] == Step(run[j], e);
    StepEndsConsistently(run[j], e, c);
  }

  // ---------- who may be signed in ----------

  /** The reply grants a session with a token and an id to an administrator or a technician. */
  ghost predicate GrantsStaff(result: CommandReply) {
    && result.Granted? && result.payload.Some?
    && result.payload.value.token != "" && result.payload.value.user != ""
    && (result.payload.value.role == "admin" || result.payload.value.role == "technician")
  }

  // ---------- where calls wait ----------

  /** Requests and uploads never wait for a cookie command of their own, session commands for nothing else but a
      refresh. */
  predicate PlaceOk(call: Call) {
    match call.kind
    case Request(_, _, _) => !call.pc.Ordering?
    case Upload(_, _) => !call.pc.Ordering?
    case Restore => call.pc.Waiting? || call.pc.Done?
    case _ => call.pc.Waiting? || call.pc.Ordering? || call.pc.Done?
  }

  ghost predicate PlacesOk(s: State) {
    forall c :: 0 <= c < |s.calls| ==> PlaceOk(s.calls[c])
  }

  lemma OpenPlace(s: State, e: Event)
    requires Enabled(s, e) && Opens(e)
    ensures |Step(s, e).calls| == |s.calls| + 1 && PlaceOk(Step(s, e).calls[|s.calls|])
  {
  }

  lemma AnswerPlace(s: State, c: nat, reply: Reply)
    requires Enabled(s, Answer(c, reply)) && PlaceOk(s.calls[c])
    ensures OnlyTouched(s, Answered(s, c, reply), c) && PlaceOk(Answered(s, c, reply).calls[c])
  {
  }

  lemma ResumePlace(s: State, c: nat)
    requires Enabled(s, Resume(c)) && PlaceOk(s.calls[c])
    ensures OnlyTouched(s, Resumed(s, c), c) && PlaceOk(Resumed(s, c).calls[c])
  {
  }

  lemma StepKeepsPlaces(s: State, e: Event)
    requires PlacesOk(s) && Enabled(s, e)
    ensures PlacesOk(Step(s, e))
  {
    OtherCallsUntouched(s, e);
    if Opens(e) {
      OpenPlace(s, e);
    } else if e.Answer? {
      AnswerPlace(s, e.call, e.reply);
    } else if e.Resume? {
      ResumePlace(s, e.call);
    }
  }

  lemma NextKeepsPlaces(s: State, t: State)
    requires PlacesOk(s) && Next(s, t)
    ensures PlacesOk(t)
  {
    var e :| Enabled(s, e) && t == Step(s, e);
    StepKeepsPlaces(s, e);
  }

  lemma {:induction false} RunKeepsPlaces(run: seq<State>, i: nat)
    requires Run(run) && i < |run|
    ensures PlacesOk(run[i])
  {
    if i > 0 {
      RunKeepsPlaces(run, i - 1);
      assert StepsAt(run, i - 1);
      NextKeepsPlaces(run[i - 1], run[i]);
    }
  }

  // ---------- what may happen next ----------

  lemma Extended(run: seq<State>, e: Event) returns (longer: seq<State>)
    requires Run(run) && Enabled(run[|run| - 1], e)
    ensures longer == run + [Step(run[|run| - 1], e)] && Run(longer)
  {
    longer := run + [Step(run[|run| - 1], e)];
    forall i: nat ensures StepsAt(longer, i) {
      assert StepsAt(run, i);
    }
  }

  function Last(run: seq<State>): State
    requires run != []
  {
    run[|run| - 1]
  }

  /** The outstanding refresh, if any, can settle without touching a call. */
  lemma Settle(run: seq<State>) returns (longer: seq<State>)
    requires Run(run)
    ensures Run(longer) && run <= longer && |longer| <= |run| + 3
    ensures Last(longer).refreshFlight.None? && Last(longer).calls == Last(run).calls
    ensures |Last(longer).flights| == |Last(run).flights|
    ensures forall f :: 0 <= f < |Last(longer).flights| ==> Last(longer).flights[f].Settled?
  {
    longer := run;
    RunIsSafe(run, |run| - 1);
    if Last(run).refreshFlight.Some? {
      var f := Last(run).refreshFlight.value;
      if Last(longer).flights[f].Commanding? {
        longer := Extended(longer, FlightCommanded(f, Lost));
      }
      if Last(longer).flights[f].Failing? {
        longer := Extended(longer, FlightCatch(f));
      }
      longer := Extended(longer, FlightFinally(f));
    }
    RunIsSafe(longer, |longer| - 1);
  }

  /** Nothing deadlocks: from every reachable state every pending call can come to its end, within six steps. */
  lemma EveryCallCanEnd(run: seq<State>, c: nat) returns (longer: seq<State>)
    requires Run(run) && c < |Last(run).calls|
    ensures Run(longer) && run <= longer && |longer| <= |run| + 6
    ensures c < |Last(longer).calls| && Last(longer).calls[c].pc.Done?
  {
    longer := run;
    if Last(run).calls[c].pc.Waiting? {
      longer := Settle(run);
      RunIsSafe(longer, |longer| - 1);
      assert CallOk(Last(longer), Last(longer).calls[c]);
      longer := ResumeOne(longer, c);
    }
    longer := EndOne(longer, c);
  }

  lemma ResumeOne(run: seq<State>, c: nat) returns (longer: seq<State>)
    requires Run(run) && Enabled(Last(run), Resume(c))
    ensures Run(longer) && run <= longer && |longer| == |run| + 1
    ensures c < |Last(longer).calls| && !Last(longer).calls[c].pc.Waiting?
  {
    longer := Extended(run, Resume(c));
  }

  lemma EndOne(run: seq<State>, c: nat) returns (longer: seq<State>)
    requires Run(run) && c < |Last(run).calls| && !Last(run).calls[c].pc.Waiting?
    ensures Run(longer) && run <= longer && |longer| <= |run| + 1
    ensures c < |Last(longer).calls| && Last(longer).calls[c].pc.Done?
  {
    longer := run;
    RunKeepsPlaces(run, |run| - 1);
    assert PlaceOk(Last(run).calls[c]);
    match Last(run).calls[c].pc
    case Fetching => longer := Extended(run, Answer(c, NoReply));
    case Refetching => longer := Extended(run, Answer(c, NoReply));
    case Reading(_) => longer := Extended(run, Body(c, None));
    case Ordering => longer := Extended(run, Commanded(c, Lost));
    case Done(_) =>
  }
}
