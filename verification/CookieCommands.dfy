/** Cookie commands of any number of tabs: each tab presents the shared refresh cookie under an exclusive lock, the
    server rotates it, and presenting a superseded token revokes the session. */
module CookieCommands {
  import opened Wrappers

  /** The `generation`-th refresh token of server session `family`. */
  datatype Token = Token(family: nat, generation: nat)

  datatype Family = Family(current: nat, revoked: bool)

  datatype Command = Refresh | Verify | Logout

  datatype CookieChange = Keep | Store(token: Token) | Delete

  /** `Abandoned`: the tab has given the request up, but the server may still serve it. */
  datatype Phase =
    | Queued
    | Sent(presented: Option<Token>)
    | Replied(change: CookieChange)
    | Abandoned(presented: Option<Token>)
    | Ended

  datatype Entry = Entry(tab: nat, command: Command, phase: Phase)

  /** `locks`: whether the browser has Web Locks; `reused`: whether the server ever saw a superseded token. */
  datatype World = World(
    locks: bool, cookie: Option<Token>, holder: Option<nat>,
    entries: seq<Entry>, families: seq<Family>, reused: bool)

  datatype Event =
    | Issue(tab: nat, command: Command)
    | Send(entry: nat)
    | Serve(entry: nat, allowed: bool)
    | Receive(entry: nat)
    | Lose(entry: nat)

  function InitWorld(locks: bool): World { World(locks, None, None, [], [], false) }

  predicate Current(families: seq<Family>, token: Token) {
    token.family < |families| && families[token.family].current == token.generation
  }

  function Rephased(w: World, n: nat, phase: Phase): World
    requires n < |w.entries|
  {
    w.(entries := w.entries[n := w.entries[n].(phase := phase)])
  }

  // ---------- the server ----------

  /** A refresh: unknown and revoked sessions are refused, a superseded token revokes, an allowed one rotates. */
  function ServedRefresh(w: World, n: nat, presented: Option<Token>, allowed: bool): (t: World)
    requires n < |w.entries|
    ensures |t.entries| == |w.entries|
  {
    match presented
    case None => Rephased(w, n, Replied(Keep))
    case Some(t) =>
      if t.family >= |w.families| || w.families[t.family].revoked then Rephased(w, n, Replied(Keep))
      else if w.families[t.family].current != t.generation then
        Rephased(w, n, Replied(Keep)).(
          families := w.families[t.family := w.families[t.family].(revoked := true)], reused := true)
      else if !allowed then Rephased(w, n, Replied(Keep))
      else
        var next := t.generation + 1;
        Rephased(w, n, Replied(Store(Token(t.family, next)))).(
          families := w.families[t.family := Family(next, false)])
  }

  function ServedVerify(w: World, n: nat, allowed: bool): (t: World)
    requires n < |w.entries|
    ensures |t.entries| == |w.entries|
  {
    if !allowed then Rephased(w, n, Replied(Keep))
    else Rephased(w, n, Replied(Store(Token(|w.families|, 0)))).(families := w.families + [Family(0, false)])
  }

  /** A logout revokes the session of a current token, ignores any other token, and always deletes the cookie. */
  function ServedLogout(w: World, n: nat, presented: Option<Token>): (t: World)
    requires n < |w.entries|
    ensures |t.entries| == |w.entries|
  {
    var r := Rephased(w, n, Replied(Delete));
    match presented
    case None => r
    case Some(t) =>
      if !Current(w.families, t) then r
      else r.(families := w.families[t.family := w.families[t.family].(revoked := true)])
  }

  function Served(w: World, n: nat, presented: Option<Token>, allowed: bool): (t: World)
    requires n < |w.entries|
    ensures |t.entries| == |w.entries|
  {
    match w.entries[n].command
    case Refresh => ServedRefresh(w, n, presented, allowed)
    case Verify => ServedVerify(w, n, allowed)
    case Logout => ServedLogout(w, n, presented)
  }

  // ---------- steps ----------

  predicate Enabled(w: World, e: Event) {
    match e
    case Issue(_, _) => true
    case Send(n) => n < |w.entries| && w.entries[n].phase.Queued? && (w.locks ==> w.holder.None?)
    case Serve(n, _) => n < |w.entries| && (w.entries[n].phase.Sent? || w.entries[n].phase.Abandoned?)
    case Receive(n) => n < |w.entries| && w.entries[n].phase.Replied?
    case Lose(n) => n < |w.entries| && (w.entries[n].phase.Sent? || w.entries[n].phase.Replied?)
  }

  function Released(w: World, n: nat): World {
    if w.holder == Some(n) then w.(holder := None) else w
  }

  function Step(w: World, e: Event): World
    requires Enabled(w, e)
  {
    match e
    case Issue(tab, command) => w.(entries := w.entries + [Entry(tab, command, Queued)])
    case Send(n) => Rephased(w, n, Sent(w.cookie)).(holder := if w.locks then Some(n) else w.holder)
    case Serve(n, allowed) =>
      var t := Served(w, n, w.entries[n].phase.presented, allowed);
      if w.entries[n].phase.Abandoned? then Rephased(t, n, Ended) else t
    case Receive(n) =>
      var change := w.entries[n].phase.change;
      var cookie := match change case Keep => w.cookie case Store(t) => Some(t) case Delete => None;
      Released(Rephased(w, n, Ended), n).(cookie := cookie)
    case Lose(n) =>
      var phase := w.entries[n].phase;
      Released(Rephased(w, n, if phase.Sent? then Abandoned(phase.presented) else Ended), n)
  }

  // ---------- the invariant ----------

  predicate Revoked(families: seq<Family>, token: Token) {
    token.family < |families| && families[token.family].revoked
  }

  ghost predicate Fresh(w: World, cookie: Option<Token>) {
    cookie.Some? ==> Current(w.families, cookie.value)
  }

  /** The token has been granted at some time. */
  predicate Known(families: seq<Family>, token: Token) {
    token.family < |families| && token.generation <= families[token.family].current
  }

  /** The refresh of the cookie's live session has granted the next token, which is on its way and which nobody has
      presented yet. */
  ghost predicate Rotating(w: World, granted: Token) {
    && w.cookie.Some? && w.cookie.value.family == granted.family && w.cookie.value.generation < granted.generation
    && Current(w.families, granted) && !Revoked(w.families, granted)
    && forall m :: 0 <= m < |w.entries| ==> w.entries[m].phase != Abandoned(Some(granted))
  }

  ghost predicate HolderOk(w: World) {
    match w.holder
    case None => Fresh(w, w.cookie)
    case Some(n) =>
      && n < |w.entries|
      && match w.entries[n].phase
         case Sent(presented) => presented == w.cookie && Fresh(w, w.cookie)
         case Replied(change) =>
           if change.Store? && w.entries[n].command == Refresh then Rotating(w, change.token)
           else Fresh(w, w.cookie) && (change.Store? ==> Current(w.families, change.token))
         case _ => false
  }

  /** Not awaited by anybody; an abandoned refresh will be refused whenever it is served. */
  ghost predicate UnawaitedOk(w: World, entry: Entry) {
    && !entry.phase.Sent? && !entry.phase.Replied?
    && (entry.phase.Abandoned? && entry.phase.presented.Some? ==>
          && Known(w.families, entry.phase.presented.value)
          && (entry.command == Refresh ==> Revoked(w.families, entry.phase.presented.value)))
  }

  /** Nobody but the lock holder is between sending a command and storing its cookie, and neither the stored cookie
      nor an abandoned refresh can be taken for reuse. */
  ghost predicate Serialised(w: World) {
    && w.locks && !w.reused && HolderOk(w)
    && forall n :: 0 <= n < |w.entries| && w.holder != Some(n) ==> UnawaitedOk(w, w.entries[n])
  }

  /** The loss that matters: of a refresh of a live session that has been granted, or that the server may still grant. */
  ghost predicate Harmful(w: World, e: Event) {
    && e.Lose? && e.entry < |w.entries| && w.entries[e.entry].command == Refresh
    && match w.entries[e.entry].phase
       case Sent(presented) => presented.Some? && !Revoked(w.families, presented.value)
       case Replied(change) => change.Store?
       case _ => false
  }

  /** Sessions never come back to life, and tokens are never taken back; live tokens stay current unless rotated. */
  ghost predicate Grows(w: World, t: World) {
    && |w.families| <= |t.families|
    && forall f :: 0 <= f < |w.families| ==>
         (w.families[f].revoked ==> t.families[f].revoked) && w.families[f].current <= t.families[f].current
  }

  lemma UnawaitedStaysOk(w: World, t: World, entry: Entry)
    requires Grows(w, t) && UnawaitedOk(w, entry)
    ensures UnawaitedOk(t, entry)
  {
  }

  lemma OthersStayOk(w: World, n: nat, t: World)
    requires Serialised(w) && n < |w.entries| && w.holder == t.holder && Grows(w, t)
    requires |t.entries| == |w.entries| && forall m :: 0 <= m < |w.entries| && m != n ==> t.entries[m] == w.entries[m]
    ensures forall m :: 0 <= m < |t.entries| && t.holder != Some(m) && m != n ==> UnawaitedOk(t, t.entries[m])
  {
    forall m | 0 <= m < |t.entries| && t.holder != Some(m) && m != n ensures UnawaitedOk(t, t.entries[m]) {
      UnawaitedStaysOk(w, t, w.entries[m]);
    }
  }

  lemma RefreshStaysSerialised(w: World, n: nat, allowed: bool)
    requires Serialised(w) && Enabled(w, Serve(n, allowed)) && w.entries[n].phase.Sent? && w.entries[n].command == Refresh
    ensures Serialised(Step(w, Serve(n, allowed)))
  {
    var t := Step(w, Serve(n, allowed));
    assert w.holder != Some(n) ==> UnawaitedOk(w, w.entries[n]);
    OthersStayOk(w, n, t);
    forall m, token: Token | 0 <= m < |t.entries| && t.entries[m].phase == Abandoned(Some(token))
      ensures Known(w.families, token)
    {
      assert UnawaitedOk(w, w.entries[m]);
    }
  }

  lemma ServeStaysSerialised(w: World, n: nat, allowed: bool)
    requires Serialised(w) && Enabled(w, Serve(n, allowed)) && w.entries[n].phase.Sent? && w.entries[n].command != Refresh
    ensures Serialised(Step(w, Serve(n, allowed)))
  {
    assert w.holder != Some(n) ==> UnawaitedOk(w, w.entries[n]);
    OthersStayOk(w, n, Step(w, Serve(n, allowed)));
  }

  /** What serving an abandoned request can do: nothing, open a session, or revoke the one whose current token it
      presents. */
  ghost predicate LateEffect(families: seq<Family>, presented: Option<Token>, after: seq<Family>) {
    || after == families || after == families + [Family(0, false)]
    || (presented.Some? && Current(families, presented.value)
        && after == families[presented.value.family := families[presented.value.family].(revoked := true)])
  }

  lemma LateServe(w: World, n: nat, allowed: bool)
    requires Enabled(w, Serve(n, allowed)) && w.entries[n].phase.Abandoned? && UnawaitedOk(w, w.entries[n])
    ensures var t := Step(w, Serve(n, allowed));
            && t == w.(entries := w.entries[n := w.entries[n].(phase := Ended)], families := t.families)
            && LateEffect(w.families, w.entries[n].phase.presented, t.families)
  {
    var t := Step(w, Serve(n, allowed));
    assert t.entries == w.entries[n := w.entries[n].(phase := Ended)];
  }

  lemma LateEffectOnHolder(w: World, n: nat, after: seq<Family>)
    requires HolderOk(w) && n < |w.entries| && w.holder != Some(n) && w.entries[n].phase.Abandoned?
    requires LateEffect(w.families, w.entries[n].phase.presented, after)
    ensures HolderOk(w.(entries := w.entries[n := w.entries[n].(phase := Ended)], families := after))
  {
    assert forall token: Token :: Current(w.families, token) ==> Current(after, token);
  }

  lemma LateServeStaysSerialised(w: World, n: nat, allowed: bool)
    requires Serialised(w) && Enabled(w, Serve(n, allowed)) && w.entries[n].phase.Abandoned?
    ensures Serialised(Step(w, Serve(n, allowed)))
  {
    assert w.holder != Some(n) && UnawaitedOk(w, w.entries[n]);
    LateServe(w, n, allowed);
    LateEffectOnHolder(w, n, Step(w, Serve(n, allowed)).families);
    OthersStayOk(w, n, Step(w, Serve(n, allowed)));
  }

  lemma LossStaysSerialised(w: World, n: nat)
    requires Serialised(w) && Enabled(w, Lose(n)) && !Harmful(w, Lose(n))
    ensures Serialised(Step(w, Lose(n)))
  {
  }

  lemma StepStaysSerialised(w: World, e: Event)
    requires Serialised(w) && Enabled(w, e) && !Harmful(w, e)
    ensures Serialised(Step(w, e))
  {
    match e
    case Serve(n, allowed) =>
      if w.entries[n].phase.Abandoned? {
        LateServeStaysSerialised(w, n, allowed);
      } else if w.entries[n].command == Refresh {
        RefreshStaysSerialised(w, n, allowed);
      } else {
        ServeStaysSerialised(w, n, allowed);
      }
    case Lose(n) => LossStaysSerialised(w, n);
    case _ =>
  }

  // ---------- runs ----------

  /** The world after `events`; an event that is not enabled changes nothing. */
  function After(w: World, events: seq<Event>): World {
    if events == [] then w else Next(After(w, events[..|events| - 1]), events[|events| - 1])
  }

  function Next(w: World, e: Event): World {
    if Enabled(w, e) then Step(w, e) else w
  }

  ghost predicate HarmlessAt(w: World, events: seq<Event>, n: nat) {
    n < |events| ==> !Harmful(After(w, events[..n]), events[n])
  }

  /** No harmful loss happens along the way. */
  ghost predicate NoHarm(w: World, events: seq<Event>) {
    forall n: nat :: HarmlessAt(w, events, n)
  }

  lemma NoHarmBefore(w: World, events: seq<Event>)
    requires NoHarm(w, events) && events != []
    ensures NoHarm(w, events[..|events| - 1])
    ensures !Harmful(After(w, events[..|events| - 1]), events[|events| - 1])
  {
    var first := events[..|events| - 1];
    forall n: nat ensures HarmlessAt(w, first, n) {
      assert HarmlessAt(w, events, n);
      if n < |first| {
        assert first[..n] == events[..n];
      }
    }
    assert HarmlessAt(w, events, |first|);
  }

  lemma {:induction false} AfterIsSerialised(w: World, events: seq<Event>)
    requires Serialised(w) && NoHarm(w, events)
    ensures Serialised(After(w, events))
  {
    if events != [] {
      NoHarmBefore(w, events);
      AfterIsSerialised(w, events[..|events| - 1]);
      var before, e := After(w, events[..|events| - 1]), events[|events| - 1];
      if Enabled(before, e) {
        StepStaysSerialised(before, e);
      }
    }
  }

  /** A request that is served presents the current token if anybody still awaits it, and an abandoned refresh one of
      a revoked session. */
  ghost predicate PresentsNoSuperseded(w: World, e: Event)
    requires Enabled(w, e)
  {
    e.Serve? && w.entries[e.entry].phase.presented.Some? ==>
      var token := w.entries[e.entry].phase.presented.value;
      if w.entries[e.entry].phase.Sent? then Current(w.families, token)
      else w.entries[e.entry].command == Refresh ==> Revoked(w.families, token)
  }

  /** With Web Locks, whatever the tabs do, however their commands interleave, and whatever responses are lost short of
      a harmful loss, no command presents a superseded token, and the server never revokes a session for reuse. */
  lemma NoTabTriggersReuse(events: seq<Event>, e: Event)
    requires NoHarm(InitWorld(true), events)
    requires Enabled(After(InitWorld(true), events), e)
    ensures !After(InitWorld(true), events).reused
    ensures PresentsNoSuperseded(After(InitWorld(true), events), e)
  {
    AfterIsSerialised(InitWorld(true), events);
    var w := After(InitWorld(true), events);
    if e.Serve? && w.holder != Some(e.entry) {
      assert UnawaitedOk(w, w.entries[e.entry]);
    }
  }

  // ---------- a harmful loss is one that ends in reuse ----------

  /** Some continuation without any further loss makes the server see reuse. */
  ghost predicate CanBeReused(w: World) {
    exists events: seq<Event> :: (forall e :: e in events ==> !e.Lose?) && After(w, events).reused
  }

  lemma AfterOne(w: World, events: seq<Event>, e: Event)
    ensures After(w, events + [e]) == Next(After(w, events), e)
  {
    assert (events + [e])[..|events|] == events;
  }

  lemma {:induction false} AfterConcat(w: World, a: seq<Event>, b: seq<Event>)
    ensures After(w, a + b) == After(After(w, a), b)
  {
    if b == [] {
      assert a + b == a;
    } else {
      assert (a + b)[..|a + b| - 1] == a + b[..|b| - 1];
      AfterConcat(w, a, b[..|b| - 1]);
    }
  }

  lemma NowThenReused(w: World, e: Event)
    requires !e.Lose? && CanBeReused(Next(w, e))
    ensures CanBeReused(w)
  {
    var events: seq<Event> :| (forall e :: e in events ==> !e.Lose?) && After(Next(w, e), events).reused;
    AfterConcat(w, [e], events);
    AfterOne(w, [], e);
    assert [] + [e] == [e];
  }

  lemma ReusedAlready(w: World)
    requires w.reused
    ensures CanBeReused(w)
  {
    assert After(w, []).reused;
  }

  /** The server takes the token for reuse. */
  ghost predicate Superseded(w: World, token: Token) {
    token.family < |w.families| && !w.families[token.family].revoked && w.families[token.family].current != token.generation
  }

  /** A live session's superseded cookie is presented by the next refresh of any tab that can send. */
  lemma SupersededCookieIsReused(w: World, tab: nat)
    requires w.cookie.Some? && Superseded(w, w.cookie.value) && (w.locks ==> w.holder.None?)
    ensures CanBeReused(w)
  {
    var n := |w.entries|;
    var issued := Next(w, Issue(tab, Refresh));
    var sent := Next(issued, Send(n));
    assert sent.entries[n].phase == Sent(w.cookie);
    ReusedAlready(Next(sent, Serve(n, true)));
    NowThenReused(sent, Serve(n, true));
    NowThenReused(issued, Send(n));
    NowThenReused(w, Issue(tab, Refresh));
  }

  lemma HarmfulLossEndsInReuse(w: World, n: nat)
    requires Serialised(w) && Enabled(w, Lose(n)) && Harmful(w, Lose(n))
    ensures CanBeReused(Step(w, Lose(n)))
  {
    var t := Step(w, Lose(n));
    assert w.holder != Some(n) ==> UnawaitedOk(w, w.entries[n]);
    if w.entries[n].phase.Sent? {
      var served := Next(t, Serve(n, true));
      SupersededCookieIsReused(served, 0);
      NowThenReused(t, Serve(n, true));
    } else {
      SupersededCookieIsReused(t, 0);
    }
  }

  lemma {:induction false} NoLossNoHarm(w: World, events: seq<Event>)
    requires forall e :: e in events ==> !e.Lose?
    ensures NoHarm(w, events)
  {
  }

  /** The exact condition: of all losses that can happen while the tabs are serialised, those of a refresh of a live
      session that was granted, or may still be granted, can end in reuse revocation, and no others can. */
  lemma LossTriggersReuseExactlyWhenHarmful(w: World, n: nat)
    requires Serialised(w) && Enabled(w, Lose(n))
    ensures CanBeReused(Step(w, Lose(n))) <==> Harmful(w, Lose(n))
  {
    if Harmful(w, Lose(n)) {
      HarmfulLossEndsInReuse(w, n);
    } else {
      LossStaysSerialised(w, n);
      var t := Step(w, Lose(n));
      forall events: seq<Event> | forall e :: e in events ==> !e.Lose? ensures !After(t, events).reused {
        NoLossNoHarm(t, events);
        AfterIsSerialised(t, events);
      }
    }
  }

  // ---------- without Web Locks ----------

  predicate IsSentRefresh(w: World, n: nat, token: Token) {
    n < |w.entries| && w.entries[n].command == Refresh && w.entries[n].phase == Sent(Some(token))
  }

  /** Two refreshes on their way with one live token end in reuse, in every state and in either order. */
  lemma TwoPresentersTriggerReuse(w: World, m: nat, n: nat, token: Token)
    requires m != n && IsSentRefresh(w, m, token) && IsSentRefresh(w, n, token)
    requires Current(w.families, token) && !Revoked(w.families, token)
    ensures Next(Next(w, Serve(m, true)), Serve(n, true)).reused
  {
  }

  lemma TwoQueuedRefreshes(w: World, tab: nat, other: nat) returns (queued: World)
    ensures CanBeReused(queued) ==> CanBeReused(w)
    ensures queued == w.(entries := w.entries + [Entry(tab, Refresh, Queued)] + [Entry(other, Refresh, Queued)])
  {
    var first := Next(w, Issue(tab, Refresh));
    queued := Next(first, Issue(other, Refresh));
    if CanBeReused(queued) {
      NowThenReused(first, Issue(other, Refresh));
      NowThenReused(w, Issue(tab, Refresh));
    }
  }

  lemma TwoSentRefreshes(w: World, m: nat, n: nat)
    requires !w.locks && m < n < |w.entries| && w.entries[m].phase.Queued? && w.entries[n].phase.Queued?
    requires w.entries[m].command == Refresh && w.entries[n].command == Refresh
    requires w.cookie.Some? && Current(w.families, w.cookie.value) && !Revoked(w.families, w.cookie.value)
    ensures CanBeReused(w)
  {
    var first := Next(w, Send(m));
    var sent := Next(first, Send(n));
    TwoPresentersTriggerReuse(sent, m, n, w.cookie.value);
    ReusedAlready(Next(Next(sent, Serve(m, true)), Serve(n, true)));
    NowThenReused(Next(sent, Serve(m, true)), Serve(n, true));
    NowThenReused(sent, Serve(m, true));
    NowThenReused(first, Send(n));
    NowThenReused(w, Send(m));
  }

  /** So without Web Locks every state with a live cookie can come to reuse, with no response lost: two tabs refresh at
      once. */
  lemma UnlockedTabsTriggerReuse(w: World, tab: nat, other: nat)
    requires !w.locks && w.cookie.Some? && Current(w.families, w.cookie.value) && !Revoked(w.families, w.cookie.value)
    ensures CanBeReused(w)
  {
    var queued := TwoQueuedRefreshes(w, tab, other);
    TwoSentRefreshes(queued, |w.entries|, |w.entries| + 1);
  }

  // ---------- what a whole command does ----------

  /** A queued command that can be sent, run to its end: presented, served, answered and its cookie stored. */
  function Completed(w: World, n: nat, allowed: bool): World {
    Next(Next(Next(w, Send(n)), Serve(n, allowed)), Receive(n))
  }

  predicate Ready(w: World, n: nat, command: Command) {
    n < |w.entries| && w.entries[n].command == command && w.entries[n].phase == Queued && (w.locks ==> w.holder.None?)
  }

  /** Apart from the command itself only the cookie and the sessions may have changed, and the lock is free again. */
  ghost predicate Runs(w: World, n: nat, t: World, cookie: Option<Token>, families: seq<Family>)
    requires n < |w.entries|
  {
    t == World(w.locks, cookie, t.holder, w.entries[n := w.entries[n].(phase := Ended)], families, t.reused)
    && (w.holder.None? ==> t.holder.None?)
  }

  lemma SentAndServed(w: World, n: nat, allowed: bool, command: Command)
    requires Ready(w, n, command)
    ensures Enabled(w, Send(n)) && Enabled(Next(w, Send(n)), Serve(n, allowed))
    ensures Next(Next(w, Send(n)), Serve(n, allowed)) == Served(Next(w, Send(n)), n, w.cookie, allowed)
    ensures Next(w, Send(n)) == w.(entries := w.entries[n := w.entries[n].(phase := Sent(w.cookie))],
                                   holder := if w.locks then Some(n) else w.holder)
  {
  }

  /** A refresh that presents the current token of a live session and is allowed stores the next one; one that presents a
      superseded token revokes the session; every other one changes nothing. Only the second counts as reuse. */
  lemma RefreshRotates(w: World, n: nat, allowed: bool)
    requires Ready(w, n, Refresh)
    ensures var t := Completed(w, n, allowed);
            if w.cookie.None? || w.cookie.value.family >= |w.families| || w.families[w.cookie.value.family].revoked
            then Runs(w, n, t, w.cookie, w.families) && t.reused == w.reused
            else
              var f, g := w.cookie.value.family, w.cookie.value.generation;
              if w.families[f].current != g
              then Runs(w, n, t, w.cookie, w.families[f := Family(w.families[f].current, true)]) && t.reused
              else if allowed
              then Runs(w, n, t, Some(Token(f, g + 1)), w.families[f := Family(g + 1, false)]) && t.reused == w.reused
              else Runs(w, n, t, w.cookie, w.families) && t.reused == w.reused
  {
    SentAndServed(w, n, allowed, Refresh);
  }

  /** A verified code stores the first token of a session of its own; a wrong one changes nothing. */
  lemma VerifySignsIn(w: World, n: nat, allowed: bool)
    requires Ready(w, n, Verify)
    ensures var t := Completed(w, n, allowed);
            t.reused == w.reused &&
            if allowed then Runs(w, n, t, Some(Token(|w.families|, 0)), w.families + [Family(0, false)])
            else Runs(w, n, t, w.cookie, w.families)
  {
    SentAndServed(w, n, allowed, Verify);
  }

  /** A logout deletes the cookie whatever it presents, and revokes the session whose current token that is. */
  lemma LogoutRevokes(w: World, n: nat, allowed: bool)
    requires Ready(w, n, Logout)
    ensures var t := Completed(w, n, allowed);
            t.reused == w.reused &&
            if w.cookie.Some? && w.cookie.value.family < |w.families|
               && w.families[w.cookie.value.family].current == w.cookie.value.generation
            then Runs(w, n, t, None, w.families[w.cookie.value.family := Family(w.cookie.value.generation, true)])
            else Runs(w, n, t, None, w.families)
  {
    SentAndServed(w, n, allowed, Logout);
  }

  // ---------- the commands as the tabs run them ----------

  /** The cookie, the lock and the commands of all tabs; `families` is what the server holds. */
  class SharedCookie {
    const locks: bool
    var cookie: Option<Token>
    var holder: Option<nat>
    var entries: seq<Entry>
    var families: seq<Family>
    var reused: bool

    ghost function View(): World
      reads this
    {
      World(locks, cookie, holder, entries, families, reused)
    }

    constructor (locks: bool)
      ensures View() == InitWorld(locks)
      ensures locks ==> Serialised(View())
    {
      this.locks := locks;
      cookie, holder, entries, families, reused := None, None, [], [], false;
    }

    /** `cookieCommand`: queue behind the lock if there is one. */
    method Issue(tab: nat, command: Command) returns (n: nat)
      modifies this`entries
      ensures View() == Step(old(View()), Event.Issue(tab, command)) && n == old(|entries|)
      ensures old(Serialised(View())) ==> Serialised(View())
    {
      n := |entries|;
      entries := entries + [Entry(tab, command, Queued)];
    }

    /** The lock is granted, or there is none: the request goes out with the cookie of the moment. */
    method Send(n: nat)
      requires Enabled(View(), Event.Send(n))
      modifies this`entries, this`holder
      ensures View() == Step(old(View()), Event.Send(n))
      ensures old(Serialised(View())) ==> Serialised(View())
    {
      if Serialised(View()) {
        StepStaysSerialised(View(), Event.Send(n));
      }
      entries := entries[n := entries[n].(phase := Sent(cookie))];
      if locks {
        holder := Some(n);
      }
    }

    /** The response goes out; nobody waits for that of an abandoned request. */
    method Answer(n: nat, change: CookieChange)
      requires n < |entries|
      modifies this`entries
      ensures entries == old(entries)[n := old(entries)[n].(phase := if old(entries)[n].phase.Abandoned? then Ended else Replied(change))]
    {
      var phase := if entries[n].phase.Abandoned? then Ended else Replied(change);
      entries := entries[n := entries[n].(phase := phase)];
    }

    /** The server's side of a refresh. */
    method ServeRefresh(n: nat, allowed: bool)
      requires Enabled(View(), Event.Serve(n, allowed)) && entries[n].command == Refresh
      modifies this`entries, this`families, this`reused
      ensures View() == Step(old(View()), Event.Serve(n, allowed))
      ensures old(Serialised(View())) ==> Serialised(View())
    {
      if Serialised(View()) {
        StepStaysSerialised(View(), Event.Serve(n, allowed));
      }
      var presented := entries[n].phase.presented;
      var reply := Keep;
      if presented.Some? && presented.value.family < |families| && !families[presented.value.family].revoked {
        var t := presented.value;
        if families[t.family].current != t.generation {
          families := families[t.family := families[t.family].(revoked := true)];
          reused := true;
        } else if allowed {
          families := families[t.family := Family(t.generation + 1, false)];
          reply := Store(Token(t.family, t.generation + 1));
        }
      }
      Answer(n, reply);
    }

    /** The server's side of a verification: a new session, if the code is right. */
    method ServeVerify(n: nat, allowed: bool)
      requires Enabled(View(), Event.Serve(n, allowed)) && entries[n].command == Verify
      modifies this`entries, this`families
      ensures View() == Step(old(View()), Event.Serve(n, allowed))
      ensures old(Serialised(View())) ==> Serialised(View())
    {
      if Serialised(View()) {
        StepStaysSerialised(View(), Event.Serve(n, allowed));
      }
      var reply := Keep;
      if allowed {
        reply := Store(Token(|families|, 0));
        families := families + [Family(0, false)];
      }
      Answer(n, reply);
    }

    /** The server's side of a logout, which deletes the cookie whatever was presented. */
    method ServeLogout(n: nat, allowed: bool)
      requires Enabled(View(), Event.Serve(n, allowed)) && entries[n].command == Logout
      modifies this`entries, this`families
      ensures View() == Step(old(View()), Event.Serve(n, allowed))
      ensures old(Serialised(View())) ==> Serialised(View())
    {
      if Serialised(View()) {
        StepStaysSerialised(View(), Event.Serve(n, allowed));
      }
      var presented := entries[n].phase.presented;
      if presented.Some? && Current(families, presented.value) {
        families := families[presented.value.family := families[presented.value.family].(revoked := true)];
      }
      Answer(n, Delete);
    }

    /** The response arrives, its cookie is stored, and only then is the lock released. */
    method Receive(n: nat)
      requires Enabled(View(), Event.Receive(n))
      modifies this`entries, this`holder, this`cookie
      ensures View() == Step(old(View()), Event.Receive(n))
      ensures old(Serialised(View())) ==> Serialised(View())
    {
      if Serialised(View()) {
        StepStaysSerialised(View(), Event.Receive(n));
      }
      match entries[n].phase.change {
        case Keep =>
        case Store(token) => cookie := Some(token);
        case Delete => cookie := None;
      }
      entries := entries[n := entries[n].(phase := Ended)];
      if holder == Some(n) {
        holder := None;
      }
    }

    /** The response is lost, or the request given up: the lock is released all the same, and the cookie stays. */
    method Lose(n: nat)
      requires Enabled(View(), Event.Lose(n))
      modifies this`entries, this`holder
      ensures View() == Step(old(View()), Event.Lose(n))
      ensures old(Serialised(View()) && !Harmful(View(), Event.Lose(n))) ==> Serialised(View())
    {
      if Serialised(View()) && !Harmful(View(), Event.Lose(n)) {
        StepStaysSerialised(View(), Event.Lose(n));
      }
      var phase := if entries[n].phase.Sent? then Abandoned(entries[n].phase.presented) else Ended;
      entries := entries[n := entries[n].(phase := phase)];
      if holder == Some(n) {
        holder := None;
      }
    }
  }
}
