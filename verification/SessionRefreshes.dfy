/** The refresh every call shares: what launches it, how often, and what becomes of it. */
module SessionRefreshes {
  import opened Wrappers
  import opened SessionProtocol
  import opened SessionSafety
  import opened SessionRuns

  // ---------- what launches a refresh ----------

  ghost predicate Launches(s: State, t: State) { |t.flights| > |s.flights| }

  /** The call's first answer refuses what it was sent with: a request's token must still be the current one, while an
      upload to the API does not look at the token. */
  predicate RefusedNow(s: State, call: Call) {
    && call.pc.Fetching?
    && match call.kind
       case Request(authenticated, token, version) => authenticated && version == s.version && token == Token(s)
       case Upload(local, version) => local && version == s.version
       case _ => false
  }

  lemma AnswerLaunches(s: State, c: nat, reply: Reply)
    requires Enabled(s, Answer(c, reply))
    ensures Launches(s, Answered(s, c, reply)) <==>
            reply == Status(401) && RefusedNow(s, s.calls[c]) && s.refreshFlight.None? && !s.signingOut
    ensures Launches(s, Answered(s, c, reply)) ==> Answered(s, c, reply).flights == s.flights + [Commanding]
  {
  }

  lemma ResumeLaunchesNothing(s: State, c: nat)
    requires Enabled(s, Resume(c))
    ensures Resumed(s, c).flights == s.flights
  {
  }

  predicate AsksForRefresh(s: State, e: Event) {
    (e.StartRestore? && !s.ready) || (e.Answer? && e.reply == Status(401) && e.call < |s.calls| && RefusedNow(s, s.calls[e.call]))
  }

  /** A step launches a refresh exactly when nobody is refreshing or signing out and it is a restore before the first
      session is known, or a 401 to a request whose token is still current or to an upload to the API, in an unchanged
      session. */
  lemma LaunchIsExact(s: State, e: Event)
    requires Enabled(s, e)
    ensures Launches(s, Step(s, e)) <==> AsksForRefresh(s, e) && s.refreshFlight.None? && !s.signingOut
    ensures Launches(s, Step(s, e)) ==> Step(s, e).flights == s.flights + [Commanding]
  {
    if e.Answer? {
      AnswerLaunches(s, e.call, e.reply);
    } else if e.Resume? {
      ResumeLaunchesNothing(s, e.call);
    }
  }

  // ---------- what a refresh does to the session ----------

  /** How a refresh whose command ends with `result` settles. */
  ghost function SettlementOf(result: CommandReply): Settlement {
    if GrantsStaff(result) then Yields(result.payload) else if result == Refused(401) then Yields(None) else Throws
  }

  ghost predicate Follows(flight: Flight, result: CommandReply) {
    || flight == Closing(SettlementOf(result)) || flight == Settled(SettlementOf(result))
    || (!GrantsStaff(result) && flight == Failing(result == Refused(401)))
  }

  predicate Moves(e: Event, f: nat) {
    (e.FlightCommanded? || e.FlightCatch? || e.FlightFinally?) && e.flight == f
  }

  lemma OtherFlightsUntouched(s: State, e: Event)
    requires Enabled(s, e)
    ensures |s.flights| <= |Step(s, e).flights|
    ensures forall f: nat :: f < |s.flights| && !Moves(e, f) ==> Step(s, e).flights[f] == s.flights[f]
  {
    LaunchIsExact(s, e);
    if e.Answer? {
      AnswerMovesNoFlight(s, e.call, e.reply);
    } else if e.Resume? {
      ResumeLaunchesNothing(s, e.call);
    }
  }

  lemma AnswerMovesNoFlight(s: State, c: nat, reply: Reply)
    requires Enabled(s, Answer(c, reply))
    ensures s.flights <= Answered(s, c, reply).flights
  {
  }

  lemma FollowingIsKept(s: State, e: Event, f: nat, result: CommandReply)
    requires Enabled(s, e) && f < |s.flights| && Follows(s.flights[f], result)
    ensures f < |Step(s, e).flights| && Follows(Step(s, e).flights[f], result)
  {
    OtherFlightsUntouched(s, e);
  }

  lemma AnsweredFollows(s: State, f: nat, result: CommandReply)
    requires Enabled(s, FlightCommanded(f, result))
    ensures var t := Step(s, FlightCommanded(f, result));
            f < |t.flights| && Follows(t.flights[f], result)
  {
  }

  lemma NextFollows(run: seq<State>, k: nat, f: nat, result: CommandReply)
    requires Run(run) && k + 1 < |run| && f < |run[k].flights| && Follows(run[k].flights[f], result)
    ensures f < |run[k + 1].flights| && Follows(run[k + 1].flights[f], result)
  {
    assert StepsAt(run, k);
    var e :| Enabled(run[k], e) && run[k + 1] == Step(run[k], e);
    FollowingIsKept(run[k], e, f, result);
  }

  lemma {:induction false} StillFollows(run: seq<State>, i: nat, j: nat, f: nat, result: CommandReply)
    requires Run(run) && i <= j < |run| && f < |run[i].flights| && Follows(run[i].flights[f], result)
    ensures f < |run[j].flights| && Follows(run[j].flights[f], result)
  {
    if i < j {
      StillFollows(run, i, j - 1, f, result);
      NextFollows(run, j - 1, f, result);
    }
  }

  /** In every run, and whatever else happens between its handlers, a refresh settles as the result of its command
      says: for everyone who awaits it, it yields the granted staff session, yields nobody if the session had expired,
      and throws otherwise. */
  lemma RefreshOutcome(run: seq<State>, i: nat, j: nat, f: nat, result: CommandReply)
    requires Run(run) && i < j < |run|
    requires Enabled(run[i], FlightCommanded(f, result)) && run[i + 1] == Step(run[i], FlightCommanded(f, result))
    ensures f < |run[j].flights| && Follows(run[j].flights[f], result)
    ensures run[j].flights[f].Settled? ==> run[j].flights[f].outcome == SettlementOf(result)
  {
    AnsweredFollows(run[i], f, result);
    StillFollows(run, i + 1, j, f, result);
  }

  /** What the session becomes when a refresh moves from `before` to `after`. */
  ghost predicate PublishedBy(s: State, t: State, before: Flight, after: Flight) {
    match after
    case Commanding => false
    case Failing(_) => before.Commanding? && t.session == s.session && t.failed == s.failed
    case Closing(outcome) =>
      && t.ready && (t.failed <==> outcome.Throws?)
      && t.session == (if outcome.Yields? then outcome.session else None)
      && (before.Failing? ==> t.session.None?)
      && (before.Commanding? ==> t.session.Some? && Staff(t.session.value))
    case Settled(outcome) => before == Closing(outcome) && t.session == s.session && t.refreshFlight.None?
  }

  lemma FlightStepPublishes(s: State, e: Event, f: nat)
    requires Enabled(s, e) && f < |s.flights|
    ensures f < |Step(s, e).flights|
    ensures Step(s, e).flights[f] != s.flights[f] ==> PublishedBy(s, Step(s, e), s.flights[f], Step(s, e).flights[f])
  {
    OtherFlightsUntouched(s, e);
  }

  /** Whenever a refresh moves, in any run: a granted staff session is published; a failure is published as nobody, with
      the error unless the session had expired; settling publishes nothing and clears the flight. */
  lemma RefreshPublishes(run: seq<State>, k: nat, f: nat)
    requires Run(run) && k + 1 < |run| && f < |run[k].flights|
    ensures f < |run[k + 1].flights|
    ensures run[k + 1].flights[f] != run[k].flights[f] ==>
              PublishedBy(run[k], run[k + 1], run[k].flights[f], run[k + 1].flights[f])
  {
    assert StepsAt(run, k);
    var e :| Enabled(run[k], e) && run[k + 1] == Step(run[k], e);
    FlightStepPublishes(run[k], e, f);
  }

  // ---------- one refresh for each token ----------

  ghost predicate RefreshGrants(s: State, t: State, f: nat, token: string) {
    && f < |s.flights| && f < |t.flights| && s.flights[f].Commanding?
    && t.flights[f].Closing? && t.flights[f].outcome.Yields? && t.flights[f].outcome.session.Some?
    && t.flights[f].outcome.session.value.token == token
  }

  ghost predicate LoginGrants(s: State, t: State, c: nat, token: string) {
    && c < |s.calls| && c < |t.calls| && s.calls[c].kind.Login? && !s.calls[c].pc.Done?
    && t.calls[c].pc.Done? && t.calls[c].pc.outcome.Signed? && t.calls[c].pc.outcome.session.Some?
    && t.calls[c].pc.outcome.session.value.token == token
  }

  /** The step ends a refresh or a login with a session that carries this token. */
  ghost predicate Grants(s: State, t: State, token: string) {
    (exists f :: RefreshGrants(s, t, f, token)) || (exists c :: LoginGrants(s, t, c, token))
  }

  ghost predicate NeverBefore(run: seq<State>, k: nat, token: string)
    requires k < |run|
  {
    forall m: nat :: m <= k ==> Token(run[m]) != Some(token)
  }

  ghost predicate GrantIsNew(run: seq<State>, k: nat) {
    k + 1 < |run| ==> forall token :: Grants(run[k], run[k + 1], token) ==> NeverBefore(run, k, token)
  }

  /** The server never grants a token that was in use before. */
  ghost predicate GrantsAreNew(run: seq<State>) {
    forall k: nat :: GrantIsNew(run, k)
  }

  lemma AnswerGivesNoToken(s: State, c: nat, reply: Reply)
    requires Enabled(s, Answer(c, reply))
    ensures Answered(s, c, reply).session.Some? ==> Answered(s, c, reply).session == s.session
  {
  }

  lemma ResumeGivesNoToken(s: State, c: nat)
    requires Enabled(s, Resume(c))
    ensures Resumed(s, c).session.Some? ==> Resumed(s, c).session == s.session
  {
  }

  lemma LoginTokenIsGranted(s: State, c: nat, result: CommandReply)
    requires Enabled(s, Commanded(c, result))
    ensures var t := Step(s, Commanded(c, result));
            Token(t).Some? && Token(t) != Token(s) ==> LoginGrants(s, t, c, Token(t).value)
  {
  }

  lemma RefreshTokenIsGranted(s: State, f: nat, result: CommandReply)
    requires Enabled(s, FlightCommanded(f, result))
    ensures var t := Step(s, FlightCommanded(f, result));
            Token(t).Some? && Token(t) != Token(s) ==> RefreshGrants(s, t, f, Token(t).value)
  {
  }

  lemma OthersGiveNoToken(s: State, e: Event)
    requires Enabled(s, e) && !e.Commanded? && !e.FlightCommanded?
    ensures Step(s, e).session.Some? ==> Step(s, e).session == s.session
  {
    if e.Answer? {
      AnswerGivesNoToken(s, e.call, e.reply);
    } else if e.Resume? {
      ResumeGivesNoToken(s, e.call);
    }
  }

  /** Tokens come from grants only. */
  lemma NewTokenIsGranted(s: State, e: Event)
    requires Enabled(s, e)
    ensures var t := Step(s, e);
            Token(t).Some? && Token(t) != Token(s) ==> Grants(s, t, Token(t).value)
  {
    if e.Commanded? {
      LoginTokenIsGranted(s, e.call, e.result);
    } else if e.FlightCommanded? {
      RefreshTokenIsGranted(s, e.flight, e.result);
    } else {
      OthersGiveNoToken(s, e);
    }
  }

  /** The refresh is still at work on replacing the token, or the token is gone. */
  ghost predicate Replacing(s: State, f: nat, token: string) {
    f < |s.flights| && (s.flights[f].Commanding? || s.flights[f].Failing? || Token(s) != Some(token))
  }

  lemma NotGrantedAgain(run: seq<State>, i: nat, k: nat, token: string)
    requires GrantsAreNew(run) && i <= k && k + 1 < |run| && Token(run[i]) == Some(token)
    ensures !Grants(run[k], run[k + 1], token)
  {
    assert GrantIsNew(run, k);
    assert !NeverBefore(run, k, token);
  }

  lemma StepReplaces(s: State, e: Event, f: nat, token: string)
    requires Enabled(s, e) && Replacing(s, f, token) && !Grants(s, Step(s, e), token)
    ensures Replacing(Step(s, e), f, token)
  {
    FlightStepPublishes(s, e, f);
    NewTokenIsGranted(s, e);
    assert !RefreshGrants(s, Step(s, e), f, token);
  }

  lemma ReplacingIsKept(run: seq<State>, i: nat, k: nat, f: nat, token: string)
    requires Run(run) && GrantsAreNew(run) && i <= k && k + 1 < |run|
    requires Token(run[i]) == Some(token) && Replacing(run[k], f, token)
    ensures Replacing(run[k + 1], f, token)
  {
    assert StepsAt(run, k);
    var e :| Enabled(run[k], e) && run[k + 1] == Step(run[k], e);
    NotGrantedAgain(run, i, k, token);
    StepReplaces(run[k], e, f, token);
  }

  lemma {:induction false} ReplacedAfterLaunch(run: seq<State>, i: nat, j: nat, f: nat, token: string)
    requires Run(run) && GrantsAreNew(run) && i < j < |run|
    requires Token(run[i]) == Some(token) && Replacing(run[i + 1], f, token)
    ensures Replacing(run[j], f, token)
  {
    if i + 1 < j {
      ReplacedAfterLaunch(run, i, j - 1, f, token);
      ReplacingIsKept(run, i, j - 1, f, token);
    }
  }

  /** In the step from `i` request `c` launches a refresh for the token it captured. */
  ghost predicate RequestLaunches(run: seq<State>, i: nat, c: nat, token: string) {
    && i + 1 < |run| && Launches(run[i], run[i + 1])
    && c < |run[i].calls| && c < |run[i + 1].calls| && run[i + 1].calls[c] != run[i].calls[c]
    && run[i].calls[c].kind.Request? && run[i].calls[c].kind.originalToken == Some(token)
  }

  lemma LaunchIsForTheCurrentToken(run: seq<State>, i: nat, c: nat, token: string)
    requires Run(run) && RequestLaunches(run, i, c, token)
    ensures Token(run[i]) == Some(token) && run[i].refreshFlight.None?
    ensures run[i + 1].flights == run[i].flights + [Commanding]
  {
    assert StepsAt(run, i);
    var e :| Enabled(run[i], e) && run[i + 1] == Step(run[i], e);
    LaunchIsExact(run[i], e);
    OtherCallsUntouched(run[i], e);
  }

  lemma LaunchedBefore(run: seq<State>, i: nat, c: nat, j: nat, d: nat, token: string)
    requires Run(run) && GrantsAreNew(run) && i < j && RequestLaunches(run, i, c, token)
    ensures !RequestLaunches(run, j, d, token)
  {
    if RequestLaunches(run, j, d, token) {
      LaunchIsForTheCurrentToken(run, i, c, token);
      LaunchIsForTheCurrentToken(run, j, d, token);
      ReplacedAfterLaunch(run, i, j, |run[i].flights|, token);
      RunIsSafe(run, j);
      assert false;
    }
  }

  lemma OneCallPerStep(run: seq<State>, i: nat, c: nat, d: nat, token: string)
    requires Run(run) && RequestLaunches(run, i, c, token) && RequestLaunches(run, i, d, token)
    ensures c == d
  {
    assert StepsAt(run, i);
    var e :| Enabled(run[i], e) && run[i + 1] == Step(run[i], e);
    OtherCallsUntouched(run[i], e);
  }

  /** Requests that fail together refresh once: over a whole run, if the server never grants an old token again, at most
      one refresh is ever launched by the requests that captured a given token. */
  lemma RefreshIsLaunchedOnce(run: seq<State>, i: nat, c: nat, j: nat, d: nat, token: string)
    requires Run(run) && GrantsAreNew(run)
    requires RequestLaunches(run, i, c, token) && RequestLaunches(run, j, d, token)
    ensures i == j && c == d
  {
    if i < j {
      LaunchedBefore(run, i, c, j, d, token);
    } else if j < i {
      LaunchedBefore(run, j, d, i, c, token);
    } else {
      OneCallPerStep(run, i, c, d, token);
    }
  }
}
