/** Who owns an uploaded image: the upload component until its form retains or attaches it. Uploads in progress,
    saves and the component's unmounting interleave freely. */
module ImageUploads {
  type Id = nat

  datatype Stage = Creating | Sending | Completing | Downloading(id: Id) | Discarding(id: Id) | Finished

  /** `uploaded`, `attached` and `retained` are the component's sets; `offered` are the ids handed to the form;
      `deletes` are the DELETE requests issued; `kept` is what was attached or retained at the unmount. */
  datatype State = State(
    active: bool, uploaded: seq<Id>, attached: set<Id>, retained: set<Id>, offered: set<Id>,
    uploads: seq<Stage>, deletes: seq<Id>, kept: set<Id>)

  datatype Event =
    | Start
    | Created(upload: nat)
    | Transferred(upload: nat)
    | Completed(upload: nat, id: Id)
    | Downloaded(upload: nat)
    | Discarded(upload: nat)
    | Fail(upload: nat)
    | Attach(ids: set<Id>)
    | Retain(id: Id)
    | Unmount

  function Mounted(retainedIds: set<Id>): State {
    State(true, [], retainedIds, {}, {}, [], [], {})
  }

  predicate At(s: State, u: nat, stage: Stage) { u < |s.uploads| && s.uploads[u] == stage }

  /** The server gives every completed upload a new id, and the form attaches or retains only images it was given,
      besides ids that are not this component's uploads. */
  predicate Enabled(s: State, e: Event) {
    match e
    case Start => s.active
    case Created(u) => At(s, u, Creating)
    case Transferred(u) => At(s, u, Sending)
    case Completed(u, id) => At(s, u, Completing) && id !in s.uploaded && id !in s.attached + s.retained
    case Downloaded(u) => u < |s.uploads| && s.uploads[u].Downloading?
    case Discarded(u) => u < |s.uploads| && s.uploads[u].Discarding?
    case Fail(u) => u < |s.uploads| && s.uploads[u] != Finished
    case Attach(ids) => s.active && forall id :: id in ids && id in s.uploaded ==> id in s.offered
    case Retain(id) => id in s.offered
    case Unmount => s.active
  }

  function Advanced(s: State, u: nat, stage: Stage): State
    requires u < |s.uploads|
  {
    s.(uploads := s.uploads[u := stage])
  }

  /** The uploads the clean-up discards: those neither attached nor retained. */
  function Orphans(ids: seq<Id>, kept: set<Id>): (orphans: seq<Id>)
    ensures forall id :: id in orphans <==> id in ids && id !in kept
  {
    if ids == [] then []
    else Orphans(ids[..|ids| - 1], kept) + if ids[|ids| - 1] in kept then [] else [ids[|ids| - 1]]
  }

  lemma OrphansAppended(ids: seq<Id>, n: nat, kept: set<Id>)
    requires n < |ids|
    ensures Orphans(ids[..n + 1], kept) == Orphans(ids[..n], kept) + if ids[n] in kept then [] else [ids[n]]
  {
    assert ids[..n + 1][..n] == ids[..n];
  }

  function Discard(s: State, u: nat, id: Id): State
    requires u < |s.uploads|
  {
    Advanced(s, u, Discarding(id)).(deletes := s.deletes + [id])
  }

  function Step(s: State, e: Event): State
    requires Enabled(s, e)
  {
    match e
    case Start => s.(uploads := s.uploads + [Creating])
    case Created(u) => Advanced(s, u, Sending)
    case Transferred(u) => Advanced(s, u, Completing)
    case Completed(u, id) =>
      var added := s.(uploaded := s.uploaded + [id]);
      if s.active then Advanced(added, u, Downloading(id)) else Discard(added, u, id)
    case Downloaded(u) =>
      if s.active then Advanced(s, u, Finished).(offered := s.offered + {s.uploads[u].id})
      else Discard(s, u, s.uploads[u].id)
    case Discarded(u) => Advanced(s, u, Finished)
    case Fail(u) => Advanced(s, u, Finished)
    case Attach(ids) => s.(attached := ids)
    case Retain(id) => s.(retained := s.retained + {id})
    case Unmount =>
      s.(active := false, deletes := s.deletes + Orphans(s.uploaded, s.attached + s.retained), kept := s.attached + s.retained)
  }

  // ---------- the invariant ----------

  /** Ids still being downloaded are the component's own, are not offered yet, and belong to one upload each. */
  ghost predicate DownloadsOwned(s: State) {
    && (forall u :: 0 <= u < |s.uploads| && s.uploads[u].Downloading? ==>
          s.uploads[u].id in s.uploaded && s.uploads[u].id !in s.offered)
    && forall u, v :: 0 <= u < v < |s.uploads| && s.uploads[u].Downloading? && s.uploads[v].Downloading? ==>
         s.uploads[u].id != s.uploads[v].id
  }

  /** What the form holds on to has been offered to it. */
  ghost predicate HeldWasOffered(s: State) {
    && s.retained <= s.offered
    && (forall id :: id in s.offered ==> id in s.uploaded)
    && (forall id :: id in s.attached && id in s.uploaded ==> id in s.offered)
    && (forall id :: id in s.kept && id in s.uploaded ==> id in s.offered)
  }

  /** Nothing is deleted while mounted; afterwards exactly the uploads that were not kept have been. */
  ghost predicate DeletesExact(s: State) {
    if s.active then s.deletes == [] && s.kept == {}
    else forall id :: id in s.deletes <==> id in s.uploaded && id !in s.kept
  }

  ghost predicate KeptIsFixed(s: State) {
    !s.active ==> s.kept <= s.attached + s.retained
  }

  ghost predicate Inv(s: State) {
    DownloadsOwned(s) && HeldWasOffered(s) && DeletesExact(s) && KeptIsFixed(s)
  }

  lemma MountedInv(retainedIds: set<Id>)
    ensures Inv(Mounted(retainedIds))
  {
  }

  /** What a step keeps of the past. */
  ghost predicate Extends(s: State, t: State) {
    && (!s.active ==> !t.active && t.kept == s.kept)
    && s.deletes <= t.deletes
    && (forall id :: id in s.uploaded ==> id in t.uploaded)
  }

  lemma CompletionKeepsInv(s: State, u: nat, id: Id)
    requires Inv(s) && Enabled(s, Completed(u, id))
    ensures Inv(Step(s, Completed(u, id))) && Extends(s, Step(s, Completed(u, id)))
  {
  }

  lemma DownloadKeepsInv(s: State, u: nat)
    requires Inv(s) && Enabled(s, Downloaded(u))
    ensures Inv(Step(s, Downloaded(u))) && Extends(s, Step(s, Downloaded(u)))
  {
  }

  lemma HoldingKeepsInv(s: State, e: Event)
    requires Inv(s) && Enabled(s, e) && (e.Attach? || e.Retain? || e.Unmount?)
    ensures Inv(Step(s, e)) && Extends(s, Step(s, e))
  {
  }

  lemma StepKeepsInv(s: State, e: Event)
    requires Inv(s) && Enabled(s, e)
    ensures Inv(Step(s, e)) && Extends(s, Step(s, e))
  {
    match e
    case Completed(u, id) => CompletionKeepsInv(s, u, id);
    case Downloaded(u) => DownloadKeepsInv(s, u);
    case Attach(_) => HoldingKeepsInv(s, e);
    case Retain(_) => HoldingKeepsInv(s, e);
    case Unmount => HoldingKeepsInv(s, e);
    case _ =>
  }

  // ---------- runs ----------

  /** The state after `events`; an event that is not enabled does not happen. */
  function After(s: State, events: seq<Event>): State {
    if events == [] then s
    else
      var before := After(s, events[..|events| - 1]);
      var e := events[|events| - 1];
      if Enabled(before, e) then Step(before, e) else before
  }

  lemma {:induction false} AfterKeepsInv(retainedIds: set<Id>, events: seq<Event>)
    ensures Inv(After(Mounted(retainedIds), events))
  {
    if events == [] {
      MountedInv(retainedIds);
    } else {
      var before := After(Mounted(retainedIds), events[..|events| - 1]);
      AfterKeepsInv(retainedIds, events[..|events| - 1]);
      if Enabled(before, events[|events| - 1]) {
        StepKeepsInv(before, events[|events| - 1]);
      }
    }
  }

  lemma {:induction false} KeptStays(s: State, events: seq<Event>)
    requires Inv(s) && !s.active
    ensures Inv(After(s, events)) && !After(s, events).active && After(s, events).kept == s.kept
  {
    if events != [] {
      var before := After(s, events[..|events| - 1]);
      KeptStays(s, events[..|events| - 1]);
      if Enabled(before, events[|events| - 1]) {
        StepKeepsInv(before, events[|events| - 1]);
      }
    }
  }

  // ---------- what the events say ----------

  /** The ids the form retained. */
  function RetainedBy(s: State, events: seq<Event>): set<Id> {
    if events == [] then {}
    else
      var last := events[|events| - 1];
      RetainedBy(s, events[..|events| - 1])
      + if last.Retain? && Enabled(After(s, events[..|events| - 1]), last) then {last.id} else {}
  }

  /** The ids of the form's last list of attached images, those it was mounted with if it gave none. */
  function AttachedBy(s: State, events: seq<Event>, mounted: set<Id>): set<Id> {
    if events == [] then mounted
    else
      var last := events[|events| - 1];
      if last.Attach? && Enabled(After(s, events[..|events| - 1]), last) then last.ids
      else AttachedBy(s, events[..|events| - 1], mounted)
  }

  /** The ids of the uploads that were completed. */
  function CompletedBy(s: State, events: seq<Event>): set<Id> {
    if events == [] then {}
    else
      var last := events[|events| - 1];
      CompletedBy(s, events[..|events| - 1])
      + if last.Completed? && Enabled(After(s, events[..|events| - 1]), last) then {last.id} else {}
  }

  /** One event's effect on the component's sets. */
  lemma StepTells(s: State, e: Event)
    requires Enabled(s, e)
    ensures var t := Step(s, e);
            && t.retained == s.retained + (if e.Retain? then {e.id} else {})
            && t.attached == (if e.Attach? then e.ids else s.attached)
            && (forall id :: id in t.uploaded <==> id in s.uploaded || (e.Completed? && id == e.id))
            && (t.active <==> s.active && !e.Unmount?)
  {
  }

  lemma {:induction false} EventsTell(s: State, events: seq<Event>)
    ensures var t := After(s, events);
            && t.retained == s.retained + RetainedBy(s, events)
            && t.attached == AttachedBy(s, events, s.attached)
            && (forall id :: id in t.uploaded <==> id in s.uploaded || id in CompletedBy(s, events))
            && (t.active ==> s.active)
  {
    if events != [] {
      var before := After(s, events[..|events| - 1]);
      EventsTell(s, events[..|events| - 1]);
      if Enabled(before, events[|events| - 1]) {
        StepTells(before, events[|events| - 1]);
      }
    }
  }

  lemma {:induction false} MountedUntilUnmounted(s: State, events: seq<Event>)
    requires s.active && forall e :: e in events ==> !e.Unmount?
    ensures After(s, events).active
  {
    if events != [] {
      MountedUntilUnmounted(s, events[..|events| - 1]);
      assert events[|events| - 1] in events;
    }
  }

  /** Read off the events alone: before the unmount nothing is deleted. From then on, whatever happened before and happens
      after it, an id is deleted if and only if its upload was completed and the form neither retained it nor had it in
      its last list of attached images when the component unmounted. */
  lemma DeletesExactlyTheOrphans(retainedIds: set<Id>, before: seq<Event>, after: seq<Event>, id: Id)
    requires forall e :: e in before ==> !e.Unmount?
    ensures var mounted := After(Mounted(retainedIds), before);
            && mounted.deletes == [] && Enabled(mounted, Unmount)
            && var unmounted := Step(mounted, Unmount);
               id in After(unmounted, after).deletes <==>
               && (id in CompletedBy(Mounted(retainedIds), before) || id in CompletedBy(unmounted, after))
               && id !in RetainedBy(Mounted(retainedIds), before)
               && id !in AttachedBy(Mounted(retainedIds), before, retainedIds)
  {
    var mounted := After(Mounted(retainedIds), before);
    MountedUntilUnmounted(Mounted(retainedIds), before);
    AfterKeepsInv(retainedIds, before);
    StepKeepsInv(mounted, Unmount);
    var unmounted := Step(mounted, Unmount);
    KeptStays(unmounted, after);
    EventsTell(Mounted(retainedIds), before);
    EventsTell(unmounted, after);
  }

  /** So an image the form retained, or had in its last list, before the unmount is never deleted by the component,
      whatever happens afterwards. */
  lemma HeldImagesSurvive(retainedIds: set<Id>, before: seq<Event>, after: seq<Event>, id: Id)
    requires forall e :: e in before ==> !e.Unmount?
    requires id in RetainedBy(Mounted(retainedIds), before) || id in AttachedBy(Mounted(retainedIds), before, retainedIds)
    ensures id !in After(Mounted(retainedIds), before + [Unmount] + after).deletes
  {
    DeletesExactlyTheOrphans(retainedIds, before, after, id);
    AfterOne(Mounted(retainedIds), before, Unmount);
    AfterConcat(Mounted(retainedIds), before + [Unmount], after);
  }

  lemma AfterOne(s: State, events: seq<Event>, e: Event)
    ensures After(s, events + [e]) == if Enabled(After(s, events), e) then Step(After(s, events), e) else After(s, events)
  {
    assert (events + [e])[..|events|] == events;
  }

  lemma {:induction false} AfterConcat(s: State, a: seq<Event>, b: seq<Event>)
    ensures After(s, a + b) == After(After(s, a), b)
  {
    if b == [] {
      assert a + b == a;
    } else {
      assert (a + b)[..|a + b| - 1] == a + b[..|b| - 1];
      AfterConcat(s, a, b[..|b| - 1]);
    }
  }

  /** An image whose download arrives while the component is mounted can be retained by the form from then on. */
  lemma OfferedCanBeRetained(s: State, u: nat, id: Id)
    requires s.active && At(s, u, Downloading(id))
    ensures Enabled(s, Downloaded(u)) && Enabled(Step(s, Downloaded(u)), Retain(id))
    ensures id in Step(Step(s, Downloaded(u)), Retain(id)).retained
  {
  }

  /** The stages of an upload follow one another, whether or not the component is still there; an id that arrives when it
      is gone is discarded, and any stage may fail. */
  lemma StagesFollow(s: State, u: nat, id: Id)
    ensures At(s, u, Creating) ==> Enabled(s, Created(u)) && Step(s, Created(u)) == Advanced(s, u, Sending)
    ensures At(s, u, Sending) ==> Enabled(s, Transferred(u)) && Step(s, Transferred(u)) == Advanced(s, u, Completing)
    ensures At(s, u, Completing) && id !in s.uploaded && id !in s.attached + s.retained ==>
              && Enabled(s, Completed(u, id))
              && var t := Step(s, Completed(u, id));
                 if s.active then At(t, u, Downloading(id)) && t.deletes == s.deletes
                 else At(t, u, Discarding(id)) && t.deletes == s.deletes + [id]
    ensures At(s, u, Downloading(id)) ==>
              && Enabled(s, Downloaded(u))
              && var t := Step(s, Downloaded(u));
                 if s.active then At(t, u, Finished) && t.offered == s.offered + {id} && t.deletes == s.deletes
                 else At(t, u, Discarding(id)) && t.offered == s.offered && t.deletes == s.deletes + [id]
    ensures At(s, u, Discarding(id)) ==> Enabled(s, Discarded(u)) && Step(s, Discarded(u)) == Advanced(s, u, Finished)
    ensures u < |s.uploads| && s.uploads[u] != Finished ==>
              Enabled(s, Fail(u)) && Step(s, Fail(u)) == Advanced(s, u, Finished)
  {
  }

  // ---------- the component ----------

  class ImageUpload {
    var active: bool
    var uploaded: seq<Id>
    var attached: set<Id>
    var retained: set<Id>
    var uploads: seq<Stage>
    var deletes: seq<Id>
    ghost var offered: set<Id>
    ghost var kept: set<Id>

    ghost function View(): State
      reads this
    {
      State(active, uploaded, attached, retained, offered, uploads, deletes, kept)
    }

    ghost predicate Valid()
      reads this
    {
      Inv(View())
    }

    constructor (retainedIds: set<Id>)
      ensures Valid() && View() == Mounted(retainedIds)
    {
      active, uploaded, attached, retained := true, [], retainedIds, {};
      uploads, deletes, offered, kept := [], [], {}, {};
    }

    method Upload() returns (u: nat)
      requires Valid() && active
      modifies this`uploads
      ensures Valid() && View() == Step(old(View()), Start) && u == old(|uploads|)
    {
      StepKeepsInv(View(), Start);
      u := |uploads|;
      uploads := uploads + [Creating];
    }

    /** The media id arrives; a component already gone discards it at once. */
    method Complete(u: nat, id: Id)
      requires Valid() && Enabled(View(), Completed(u, id))
      modifies this`uploaded, this`uploads, this`deletes
      ensures Valid() && View() == Step(old(View()), Completed(u, id))
    {
      StepKeepsInv(View(), Completed(u, id));
      uploaded := uploaded + [id];
      if !active {
        deletes := deletes + [id];
        uploads := uploads[u := Discarding(id)];
      } else {
        uploads := uploads[u := Downloading(id)];
      }
    }

    /** The preview arrives; the image is offered to the form only while the component is mounted. */
    method Download(u: nat)
      requires Valid() && Enabled(View(), Downloaded(u))
      modifies this`uploads, this`deletes, this`offered
      ensures Valid() && View() == Step(old(View()), Downloaded(u))
    {
      StepKeepsInv(View(), Downloaded(u));
      var id := uploads[u].id;
      if active {
        offered := offered + {id};
        uploads := uploads[u := Finished];
      } else {
        deletes := deletes + [id];
        uploads := uploads[u := Discarding(id)];
      }
    }

    method Keep(id: Id)
      requires Valid() && Enabled(View(), Retain(id))
      modifies this`retained
      ensures Valid() && View() == Step(old(View()), Retain(id))
    {
      StepKeepsInv(View(), Retain(id));
      retained := retained + {id};
    }

    /** The layout effect that follows the form's list of attached ids. */
    method SetAttached(ids: set<Id>)
      requires Valid() && Enabled(View(), Attach(ids))
      modifies this`attached
      ensures Valid() && View() == Step(old(View()), Attach(ids))
    {
      StepKeepsInv(View(), Attach(ids));
      attached := ids;
    }

    /** One DELETE for each uploaded id that is neither attached nor retained. */
    method DiscardOrphans()
      modifies this`deletes
      ensures deletes == old(deletes) + Orphans(uploaded, attached + retained)
    {
      for n := 0 to |uploaded|
        invariant deletes == old(deletes) + Orphans(uploaded[..n], attached + retained)
      {
        OrphansAppended(uploaded, n, attached + retained);
        if uploaded[n] !in attached && uploaded[n] !in retained {
          deletes := deletes + [uploaded[n]];
        }
      }
      assert uploaded[..|uploaded|] == uploaded;
    }

    /** The clean-up when the component unmounts. */
    method CleanUp()
      requires active
      modifies this`active, this`deletes, this`kept
      ensures View() == Step(old(View()), Unmount)
      ensures old(Valid()) ==> Valid()
    {
      if Valid() {
        StepKeepsInv(View(), Unmount);
      }
      UnmountNow();
    }

    method UnmountNow()
      requires active
      modifies this`active, this`deletes, this`kept
      ensures View() == Step(old(View()), Unmount)
    {
      active := false;
      kept := attached + retained;
      DiscardOrphans();
    }
  }
}
