/** The reduced-motion preference: one native subscription shared by all listeners, with late query replies. */
module ReducedMotion {
  import opened Wrappers

  type Id = nat

  /** A stretch with listeners: its native subscription while `active`, the latest event it saw, and its query's
      reply, if any. */
  datatype Epoch = Epoch(active: bool, event: Option<bool>, reply: Option<bool>, answered: bool)

  /** A query resolves with a value or with nothing, or is rejected. */
  datatype Answer = Resolved(value: Option<bool>) | Rejected

  datatype State = State(reduced: bool, listeners: set<Id>, remove: Option<nat>, epochs: seq<Epoch>)

  datatype Event =
    | Subscribe(listener: Id)
    | Unsubscribe(listener: Id)
    | Change(epoch: nat, value: bool)
    | Reply(epoch: nat, answer: Answer)

  const InitState := State(true, {}, None, [])

  predicate Happens(s: State, e: Event) {
    match e
    case Change(n, _) => n < |s.epochs| && s.epochs[n].active
    case Reply(n, _) => n < |s.epochs| && !s.epochs[n].answered
    case _ => true
  }

  function Subscribed(s: State, listener: Id): State {
    var listeners := s.listeners + {listener};
    if |listeners| == 1 then
      s.(listeners := listeners, remove := Some(|s.epochs|), epochs := s.epochs + [Epoch(true, None, None, false)])
    else s.(listeners := listeners)
  }

  function Unsubscribed(s: State, listener: Id): State {
    var listeners := s.listeners - {listener};
    if listeners != {} then s.(listeners := listeners)
    else
      var epochs := if s.remove.Some? && s.remove.value < |s.epochs|
        then s.epochs[s.remove.value := s.epochs[s.remove.value].(active := false)] else s.epochs;
      State(true, listeners, None, epochs)
  }

  /** A missing value counts as `false`. */
  function Replied(s: State, n: nat, answer: Answer): State
    requires n < |s.epochs|
  {
    match answer
    case Rejected => s.(epochs := s.epochs[n := s.epochs[n].(answered := true)])
    case Resolved(value) =>
      var v := value.Some? && value.value;
      var t := s.(epochs := s.epochs[n := s.epochs[n].(answered := true, reply := Some(v))]);
      if s.epochs[n].active && s.epochs[n].event.None? then t.(reduced := v) else t
  }

  function Step(s: State, e: Event): State
    requires Happens(s, e)
  {
    match e
    case Subscribe(l) => Subscribed(s, l)
    case Unsubscribe(l) => Unsubscribed(s, l)
    case Change(n, v) => s.(reduced := v, epochs := s.epochs[n := s.epochs[n].(event := Some(v))])
    case Reply(n, answer) => Replied(s, n, answer)
  }

  // ---------- what it should show ----------

  function Preference(epoch: Epoch): bool {
    if epoch.event.Some? then epoch.event.value else if epoch.reply.Some? then epoch.reply.value else true
  }

  function Expected(s: State): bool {
    if s.listeners == {} || s.epochs == [] then true else Preference(s.epochs[|s.epochs| - 1])
  }

  /** One native subscription exists exactly while there are listeners, it is the latest epoch's, and what is shown
      is that epoch's latest event, else its query's reply, else reduced motion. */
  ghost predicate Inv(s: State) {
    && (s.listeners == {} ==> s.remove == None)
    && (s.listeners != {} ==> s.epochs != [] && s.remove == Some(|s.epochs| - 1))
    && (forall n :: 0 <= n < |s.epochs| ==> (s.epochs[n].active <==> s.remove == Some(n)))
    && s.reduced == Expected(s)
  }

  /** A listener is alone after it has been added exactly if there were none, or it was alone already. */
  lemma AddedAlone(listeners: set<Id>, listener: Id)
    ensures |listeners + {listener}| == 1 <==> listeners == {} || listeners == {listener}
  {
    var all := listeners + {listener};
    assert listeners == {listener} ==> all == {listener};
    if |all| == 1 {
      assert |all - {listener}| == 0;
    }
  }

  /** The only listener subscribes once more. */
  predicate SubscribesAgain(s: State, e: Event) {
    e.Subscribe? && s.listeners == {e.listener}
  }

  lemma StepKeepsInv(s: State, e: Event)
    requires Inv(s) && Happens(s, e) && !SubscribesAgain(s, e)
    ensures Inv(Step(s, e))
  {
    if e.Subscribe? {
      AddedAlone(s.listeners, e.listener);
    }
  }

  /** The exact condition: everything that can happen keeps the above, except that the only listener subscribes once
      more, which starts a second native subscription. */
  lemma KeptExactlyUnlessSubscribedAgain(s: State, e: Event)
    requires Inv(s) && Happens(s, e)
    ensures Inv(Step(s, e)) <==> !SubscribesAgain(s, e)
  {
    if SubscribesAgain(s, e) {
      AddedAlone(s.listeners, e.listener);
      var t := Step(s, e);
      assert t.epochs[|s.epochs| - 1] == s.epochs[|s.epochs| - 1] && t.remove == Some(|s.epochs|);
    } else {
      StepKeepsInv(s, e);
    }
  }

  /** A reply to a query of an earlier epoch, or to one already overtaken by an event, changes nothing that is shown. */
  lemma StaleRepliesHaveNoEffect(s: State, n: nat, answer: Answer)
    requires Inv(s) && Happens(s, Reply(n, answer))
    requires s.remove != Some(n) || s.epochs[n].event.Some?
    ensures Step(s, Reply(n, answer)).reduced == s.reduced
    ensures Step(s, Reply(n, answer)).listeners == s.listeners && Step(s, Reply(n, answer)).remove == s.remove
  {
  }

  // ---------- runs ----------

  predicate Fresh(s: State, e: Event) {
    Happens(s, e) && !SubscribesAgain(s, e)
  }

  /** The state after `events`; an event that cannot happen, or subscribes the only listener again, is left out. */
  function After(events: seq<Event>): State {
    if events == [] then InitState
    else
      var before := After(events[..|events| - 1]);
      if Fresh(before, events[|events| - 1]) then Step(before, events[|events| - 1]) else before
  }

  function ActiveEpochs(s: State): set<nat> {
    set n | 0 <= n < |s.epochs| && s.epochs[n].active
  }

  lemma {:induction false} PreferenceIsAlwaysRight(events: seq<Event>)
    ensures Inv(After(events))
    ensures ActiveEpochs(After(events)) == if After(events).listeners == {} then {} else {|After(events).epochs| - 1}
  {
    if events != [] {
      PreferenceIsAlwaysRight(events[..|events| - 1]);
      var before := After(events[..|events| - 1]);
      if Fresh(before, events[|events| - 1]) {
        StepKeepsInv(before, events[|events| - 1]);
      }
    }
  }

  // ---------- what the events say ----------

  /** The value of the last change the epoch's native listener was told of. */
  function LastChange(events: seq<Event>, n: nat): Option<bool> {
    if events == [] then None
    else
      var last := events[|events| - 1];
      if last.Change? && last.epoch == n && Fresh(After(events[..|events| - 1]), last) then Some(last.value)
      else LastChange(events[..|events| - 1], n)
  }

  /** The value the epoch's query resolved with; a missing one counts as `false`. */
  function QueryValue(events: seq<Event>, n: nat): Option<bool> {
    if events == [] then None
    else
      var last := events[|events| - 1];
      if last.Reply? && last.epoch == n && last.answer.Resolved? && Fresh(After(events[..|events| - 1]), last)
      then Some(last.answer.value == Some(true))
      else QueryValue(events[..|events| - 1], n)
  }

  /** Who has subscribed and not unsubscribed since. */
  function Listening(events: seq<Event>): set<Id> {
    if events == [] then {}
    else
      var before, last := Listening(events[..|events| - 1]), events[|events| - 1];
      if last.Subscribe? then before + {last.listener} else if last.Unsubscribe? then before - {last.listener} else before
  }

  /** One event's effect on an epoch's records. */
  lemma StepRecords(s: State, e: Event, n: nat)
    requires Happens(s, e)
    ensures |s.epochs| <= |Step(s, e).epochs|
    ensures n < |s.epochs| ==>
              && Step(s, e).epochs[n].event == (if e.Change? && e.epoch == n then Some(e.value) else s.epochs[n].event)
              && Step(s, e).epochs[n].reply == (if e.Reply? && e.epoch == n && e.answer.Resolved? then Some(e.answer.value == Some(true))
                                                else s.epochs[n].reply)
    ensures |s.epochs| <= n < |Step(s, e).epochs| ==> Step(s, e).epochs[n].event == None && Step(s, e).epochs[n].reply == None
    ensures Step(s, e).listeners == (if e.Subscribe? then s.listeners + {e.listener}
                                     else if e.Unsubscribe? then s.listeners - {e.listener} else s.listeners)
  {
  }

  lemma {:induction false} RecordsAreEvents(events: seq<Event>, n: nat)
    ensures var s := After(events);
            && s.listeners == Listening(events)
            && if n < |s.epochs| then s.epochs[n].event == LastChange(events, n) && s.epochs[n].reply == QueryValue(events, n)
               else LastChange(events, n) == None && QueryValue(events, n) == None
  {
    if events != [] {
      var before, last := After(events[..|events| - 1]), events[|events| - 1];
      RecordsAreEvents(events[..|events| - 1], n);
      if Fresh(before, last) {
        StepRecords(before, last, n);
      } else if last.Subscribe? {
        assert before.listeners + {last.listener} == before.listeners;
      }
    }
  }

  /** Over every run, read off the events alone: while anyone listens, what is shown is the last change of the current
      epoch, else what its query resolved with, else reduced motion; and reduced motion while nobody listens. */
  lemma ShownIsTheLatestAnswer(events: seq<Event>)
    ensures var s := After(events);
            var current := |s.epochs| - 1;
            s.reduced == if Listening(events) == {} || current < 0 then true
                         else if LastChange(events, current).Some? then LastChange(events, current).value
                         else if QueryValue(events, current).Some? then QueryValue(events, current).value
                         else true
  {
    PreferenceIsAlwaysRight(events);
    if After(events).epochs != [] {
      RecordsAreEvents(events, |After(events).epochs| - 1);
    } else {
      RecordsAreEvents(events, 0);
    }
  }

  // ---------- the module's variables ----------

  class Preferences {
    var reduced: bool
    var listeners: set<Id>
    var remove: Option<nat>
    var epochs: seq<Epoch>

    ghost function View(): State
      reads this
    {
      State(reduced, listeners, remove, epochs)
    }

    ghost predicate Valid()
      reads this
    {
      Inv(View())
    }

    constructor ()
      ensures Valid() && View() == InitState
    {
      reduced, listeners, remove, epochs := true, {}, None, [];
    }

    method Subscribe(listener: Id)
      requires Valid() && listeners != {listener}
      modifies this
      ensures Valid() && View() == Step(old(View()), Event.Subscribe(listener))
    {
      StepKeepsInv(View(), Event.Subscribe(listener));
      listeners := listeners + {listener};
      if |listeners| == 1 {
        remove := Some(|epochs|);
        epochs := epochs + [Epoch(true, None, None, false)];
      }
    }

    method Unsubscribe(listener: Id)
      requires Valid()
      modifies this
      ensures Valid() && View() == Step(old(View()), Event.Unsubscribe(listener))
    {
      StepKeepsInv(View(), Event.Unsubscribe(listener));
      listeners := listeners - {listener};
      if listeners == {} {
        if remove.Some? {
          epochs := epochs[remove.value := epochs[remove.value].(active := false)];
        }
        remove, reduced := None, true;
      }
    }

    /** The native listener of an epoch. */
    method Change(epoch: nat, value: bool)
      requires Valid() && Happens(View(), Event.Change(epoch, value))
      modifies this
      ensures Valid() && View() == Step(old(View()), Event.Change(epoch, value))
    {
      StepKeepsInv(View(), Event.Change(epoch, value));
      epochs := epochs[epoch := epochs[epoch].(event := Some(value))];
      reduced := value;
    }

    /** The settled query of an epoch, possibly long after the epoch has ended. */
    method Reply(epoch: nat, answer: Answer)
      requires Valid() && Happens(View(), Event.Reply(epoch, answer))
      modifies this
      ensures Valid() && View() == Step(old(View()), Event.Reply(epoch, answer))
    {
      StepKeepsInv(View(), Event.Reply(epoch, answer));
      var asked := epochs[epoch];
      if answer.Rejected? {
        epochs := epochs[epoch := asked.(answered := true)];
      } else {
        var value := if answer.value.Some? then answer.value.value else false;
        epochs := epochs[epoch := asked.(answered := true, reply := Some(value))];
        if asked.active && asked.event.None? {
          reduced := value;
        }
      }
    }
  }
}
