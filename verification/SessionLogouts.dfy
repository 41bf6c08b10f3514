/** What a logout achieves, and what another logout can take from it. */
module SessionLogouts {
  import opened Wrappers
  import opened SessionProtocol
  import opened SessionSafety
  import opened SessionRuns

  // ---------- a logout that ends first ----------

  /** In this step a logout other than `c` ends, one way or the other. */
  ghost predicate OtherLogoutEnds(s: State, t: State, c: nat) {
    exists d :: 0 <= d < |s.calls| && d < |t.calls| && d != c && s.calls[d].kind.Logout? && EndsHere(s.calls[d], t.calls[d])
  }

  predicate EndsHere(before: Call, after: Call) {
    !before.pc.Done? && after.pc.Done?
  }

  /** While logout `c` is pending, `n` refreshes have ever been launched; only the one it awaits may be outstanding. */
  ghost predicate SigningOut(s: State, c: nat, n: nat) {
    && c < |s.calls| && s.calls[c].kind.Logout? && !s.calls[c].pc.Done?
    && s.signingOut && |s.flights| == n
    && (s.calls[c].pc.Waiting? || s.calls[c].pc.Ordering?)
    && (s.refreshFlight.Some? ==> s.calls[c].pc == Waiting(s.refreshFlight.value))
  }

  lemma LogoutStarts(s: State)
    ensures SigningOut(Step(s, StartLogout), |s.calls|, |s.flights|)
  {
  }

  lemma AnswerWhileSigningOut(s: State, c: nat, reply: Reply)
    requires Enabled(s, Answer(c, reply)) && s.signingOut
    ensures var t := Answered(s, c, reply);
            t.signingOut && t.flights == s.flights && t.refreshFlight == s.refreshFlight
  {
  }

  lemma ResumeWhileSigningOut(s: State, c: nat)
    requires Enabled(s, Resume(c)) && s.signingOut
    ensures var t := Resumed(s, c);
            t.signingOut && t.flights == s.flights && t.refreshFlight == s.refreshFlight
  {
  }

  lemma OtherLogoutIsSeen(s: State, d: nat, result: CommandReply, c: nat)
    requires Enabled(s, Commanded(d, result)) && d != c && s.calls[d].kind.Logout?
    ensures OtherLogoutEnds(s, Step(s, Commanded(d, result)), c)
  {
    assert EndsHere(s.calls[d], Step(s, Commanded(d, result)).calls[d]);
  }

  /** Until some logout ends, no step launches a refresh or clears the flag: not even the start of another logout. */
  lemma SigningOutPersists(s: State, e: Event, c: nat, n: nat)
    requires Inv(s) && SigningOut(s, c, n) && Enabled(s, e)
    requires e.Commanded? ==> e.call != c && !s.calls[e.call].kind.Logout?
    ensures SigningOut(Step(s, e), c, n)
  {
    OtherCallsUntouched(s, e);
    match e
    case Answer(d, reply) => AnswerWhileSigningOut(s, d, reply);
    case Resume(d) => ResumeWhileSigningOut(s, d);
    case _ =>
  }

  /** Logout `c` starts in the step from `i`, and no other logout ends until it ends itself in the step from `j`. */
  ghost predicate SoloLogout(run: seq<State>, i: nat, j: nat, c: nat) {
    && i < j && j + 1 < |run|
    && c == |run[i].calls| && run[i + 1] == Step(run[i], StartLogout)
    && (forall k :: i < k < j ==> !OtherLogoutEnds(run[k], run[k + 1], c))
    && (forall k :: i < k <= j ==> c < |run[k].calls| && !run[k].calls[c].pc.Done?)
  }

  ghost predicate KeepsOut(run: seq<State>, i: nat, j: nat, c: nat, n: nat)
    requires j < |run|
  {
    forall k: nat :: i < k < j ==> SigningOut(run[k], c, n) ==> SigningOut(run[k + 1], c, n)
  }

  lemma SoloStep(run: seq<State>, i: nat, j: nat, c: nat, k: nat)
    requires Run(run) && SoloLogout(run, i, j, c) && i < k < j
    requires SigningOut(run[k], c, |run[i].flights|)
    ensures SigningOut(run[k + 1], c, |run[i].flights|)
  {
    RunIsSafe(run, k);
    assert StepsAt(run, k);
    var e :| Enabled(run[k], e) && run[k + 1] == Step(run[k], e);
    if e.Commanded? && e.call != c && run[k].calls[e.call].kind.Logout? {
      OtherLogoutIsSeen(run[k], e.call, e.result, c);
    }
    SigningOutPersists(run[k], e, c, |run[i].flights|);
  }

  lemma {:induction false} StillSigningOut(run: seq<State>, i: nat, j: nat, c: nat, n: nat, k: nat)
    requires i < k <= j < |run| && KeepsOut(run, i, j, c, n) && SigningOut(run[i + 1], c, n)
    ensures SigningOut(run[k], c, n)
  {
    if i + 1 < k {
      StillSigningOut(run, i, j, c, n, k - 1);
      assert SigningOut(run[k - 1 + 1], c, n);
    }
  }

  /** From its start to its end such a logout keeps the client signing out, and nothing launches a refresh. */
  lemma SoloLogoutKeepsOut(run: seq<State>, i: nat, j: nat, c: nat, k: nat)
    requires Run(run) && SoloLogout(run, i, j, c) && i < k <= j
    ensures SigningOut(run[k], c, |run[i].flights|)
  {
    LogoutStarts(run[i]);
    forall k: nat | i < k < j && SigningOut(run[k], c, |run[i].flights|)
      ensures SigningOut(run[k + 1], c, |run[i].flights|)
    {
      SoloStep(run, i, j, c, k);
    }
    StillSigningOut(run, i, j, c, |run[i].flights|, k);
  }

  lemma LogoutEnds(s: State, e: Event, c: nat, n: nat)
    requires Inv(s) && Enabled(s, e) && SigningOut(s, c, n)
    requires c < |Step(s, e).calls| && Step(s, e).calls[c].pc == Done(Returned(None))
    ensures Step(s, e).session.None? && Step(s, e).refreshFlight.None? && !Step(s, e).signingOut
    ensures |Step(s, e).flights| == n
  {
    OtherCallsUntouched(s, e);
  }

  /** When a logout succeeds before any other logout that overlaps it, nobody is signed in, no refresh is in flight,
      none was launched since it started, and the client has stopped signing out. */
  lemma SoloLogoutSignsOut(run: seq<State>, i: nat, j: nat, c: nat)
    requires Run(run) && SoloLogout(run, i, j, c)
    requires Finishes(run, j, c, Returned(None))
    ensures run[j + 1].session.None? && run[j + 1].refreshFlight.None? && !run[j + 1].signingOut
    ensures |run[j + 1].flights| == |run[i].flights|
  {
    SoloLogoutKeepsOut(run, i, j, c, j);
    RunIsSafe(run, j);
    assert StepsAt(run, j);
    var e :| Enabled(run[j], e) && run[j + 1] == Step(run[j], e);
    LogoutEnds(run[j], e, c, |run[i].flights|);
  }

  // ---------- a logout that another one overtakes ----------

  /** Two logouts have issued their commands, and no refresh is in flight. */
  ghost predicate BothOrdering(s: State, c: nat, d: nat) {
    && c < |s.calls| && d < |s.calls| && c != d && s.refreshFlight.None?
    && s.calls[c] == Call(Logout, Ordering) && s.calls[d] == Call(Logout, Ordering)
  }

  ghost predicate PendingLogout(s: State, c: nat) {
    c < |s.calls| && s.calls[c].kind.Logout? && !s.calls[c].pc.Done?
  }

  /** In the step from `m`, the command of session call `d` ends with `result`. */
  ghost predicate EndsBy(run: seq<State>, m: nat, d: nat, result: CommandReply) {
    && m + 1 < |run| && Enabled(run[m], Commanded(d, result)) && run[m + 1] == Step(run[m], Commanded(d, result))
  }

  lemma ResumeLogout(run: seq<State>, c: nat) returns (longer: seq<State>)
    requires Run(run) && PendingLogout(Last(run), c) && Last(run).refreshFlight.None?
    ensures Run(longer) && run <= longer && |longer| <= |run| + 1
    ensures |Last(longer).calls| == |Last(run).calls| && Last(longer).refreshFlight.None?
    ensures Last(longer).calls == Last(run).calls[c := Call(Logout, Ordering)]
  {
    longer := run;
    RunIsSafe(run, |run| - 1);
    RunKeepsPlaces(run, |run| - 1);
    assert PlaceOk(Last(run).calls[c]) && CallOk(Last(run), Last(run).calls[c]);
    if Last(run).calls[c].pc.Waiting? {
      longer := Extended(run, Resume(c));
    }
  }

  /** Any two overlapping logouts can come to issue their commands together. */
  lemma BothCanOrder(run: seq<State>, c: nat, d: nat) returns (longer: seq<State>)
    requires Run(run) && c != d && PendingLogout(Last(run), c) && PendingLogout(Last(run), d)
    ensures Run(longer) && run <= longer && |longer| <= |run| + 5
    ensures BothOrdering(Last(longer), c, d)
  {
    longer := Settle(run);
    longer := ResumeLogout(longer, c);
    longer := ResumeLogout(longer, d);
  }

  /** The first to end, even by failing, takes the flag away from the other. */
  lemma FirstEnds(run: seq<State>, c: nat, d: nat, result: CommandReply) returns (longer: seq<State>)
    requires Run(run) && BothOrdering(Last(run), c, d)
    ensures Run(longer) && run <= longer && |longer| == |run| + 1
    ensures c < |Last(longer).calls| && Last(longer).calls[c] == Call(Logout, Ordering)
    ensures Last(longer).refreshFlight.None? && !Last(longer).signingOut
    ensures EndsBy(longer, |run| - 1, d, result)
  {
    longer := Extended(run, Commanded(d, result));
  }

  /** Nothing then stops an upload from launching a refresh. */
  lemma UploadRefreshes(run: seq<State>, c: nat) returns (longer: seq<State>)
    requires Run(run) && c < |Last(run).calls| && Last(run).calls[c] == Call(Logout, Ordering)
    requires Last(run).refreshFlight.None? && !Last(run).signingOut
    ensures Run(longer) && run <= longer && |longer| == |run| + 2
    ensures c < |Last(longer).calls| && Last(longer).calls[c] == Call(Logout, Ordering)
    ensures Flies(Last(longer), |Last(run).flights|)
  {
    longer := Extended(run, StartUpload(true));
    longer := Extended(longer, Answer(|Last(run).calls|, Status(401)));
  }

  ghost predicate Flies(s: State, f: nat) {
    s.refreshFlight == Some(f) && f < |s.flights| && s.flights[f].Commanding?
  }

  lemma SecondEnds(run: seq<State>, c: nat, f: nat, staff: Session) returns (longer: seq<State>)
    requires Run(run) && c < |Last(run).calls| && Last(run).calls[c] == Call(Logout, Ordering)
    requires Flies(Last(run), f) && Staff(staff)
    ensures Run(longer) && run <= longer && |longer| == |run| + 2
    ensures Finishes(longer, |run| - 1, c, Returned(None))
    ensures longer[|run|].session.None? && longer[|run|].refreshFlight == Some(f)
    ensures Last(longer).session == Some(staff)
  {
    longer := Extended(run, Commanded(c, Granted(None)));
    longer := Extended(longer, FlightCommanded(f, Granted(Some(staff))));
  }

  lemma Overtaken(run: seq<State>, c: nat, staff: Session) returns (longer: seq<State>, k: nat)
    requires Run(run) && c < |Last(run).calls| && Last(run).calls[c] == Call(Logout, Ordering) && Staff(staff)
    requires Last(run).refreshFlight.None? && !Last(run).signingOut
    ensures Run(longer) && run <= longer && |longer| == |run| + 4
    ensures |run| - 1 < k && Finishes(longer, k, c, Returned(None))
    ensures longer[k + 1].session.None? && longer[k + 1].refreshFlight.Some?
    ensures Last(longer).session == Some(staff)
  {
    var flying := UploadRefreshes(run, c);
    longer := SecondEnds(flying, c, |Last(run).flights|, staff);
    k := |flying| - 1;
  }

  lemma EndsByKept(run: seq<State>, longer: seq<State>, m: nat, d: nat, result: CommandReply)
    requires EndsBy(run, m, d, result) && run <= longer
    ensures EndsBy(longer, m, d, result)
  {
    assert longer[m] == run[m] && longer[m + 1] == run[m + 1];
  }

  /** The condition is needed wherever it can fail: in every reachable state with two logouts pending, and however the
      other one ends, it can end first, a refresh can start, `c` can succeed while that refresh is in flight, and the
      refresh can sign any member of staff in although nobody has logged in. */
  lemma OverlappingLogoutsDoNotSignOut(run: seq<State>, c: nat, d: nat, result: CommandReply, staff: Session)
    returns (longer: seq<State>, m: nat, k: nat)
    requires Run(run) && c != d && PendingLogout(Last(run), c) && PendingLogout(Last(run), d) && Staff(staff)
    ensures Run(longer) && run <= longer && |longer| <= |run| + 10
    ensures |run| - 1 <= m < k && EndsBy(longer, m, d, result) && Finishes(longer, k, c, Returned(None))
    ensures longer[k + 1].session.None? && longer[k + 1].refreshFlight.Some?
    ensures Last(longer).session == Some(staff)
  {
    var both := BothCanOrder(run, c, d);
    var first := FirstEnds(both, c, d, result);
    longer, k := Overtaken(first, c, staff);
    m := |both| - 1;
    EndsByKept(first, longer, m, d, result);
  }
}
