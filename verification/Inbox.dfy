/** "Mark all as read": walking an offset-paged inbox while notifications keep arriving. */
module Inbox {
  type Id = nat

  const PAGE := 50

  datatype Item = Item(id: Id, read: bool)

  datatype Outcome = Finished | Stopped | Failed

  /** Nothing of `a` moved towards the head in `b`, wherever new entries were inserted. */
  ghost predicate Pushed(a: seq<Id>, b: seq<Id>) {
    |a| <= |b| && forall i :: 0 <= i < |a| ==> AtOrAfter(b, i, a[i])
  }

  ghost predicate AtOrAfter(items: seq<Id>, offset: nat, id: Id) {
    exists j :: offset <= j < |items| && items[j] == id
  }

  lemma PushedKeepsAfter(a: seq<Id>, b: seq<Id>, offset: nat, id: Id)
    requires Pushed(a, b) && AtOrAfter(a, offset, id)
    ensures AtOrAfter(b, offset, id)
  {
    var j :| offset <= j < |a| && a[j] == id;
    assert AtOrAfter(b, j, a[j]);
  }

  lemma PushedTransitive(a: seq<Id>, b: seq<Id>, c: seq<Id>)
    requires Pushed(a, b) && Pushed(b, c)
    ensures Pushed(a, c)
  {
    forall i | 0 <= i < |a| ensures AtOrAfter(c, i, a[i]) {
      PushedKeepsAfter(b, c, i, a[i]);
    }
  }

  function PageSize(items: seq<Id>, offset: nat): nat {
    if |items| <= offset then 0 else if |items| - offset < PAGE then |items| - offset else PAGE
  }

  function PageAt(items: seq<Id>, read: set<Id>, offset: nat): (page: seq<Item>)
    ensures |page| == PageSize(items, offset)
    ensures forall k :: 0 <= k < |page| ==> page[k].id == items[offset + k] && (page[k].read <==> items[offset + k] in read)
  {
    seq(PageSize(items, offset), k requires 0 <= k < PageSize(items, offset) =>
      Item(items[offset + k], items[offset + k] in read))
  }

  /** Every initial notification has been read or still lies ahead of the walk. */
  ghost predicate Ahead(initial: seq<Id>, items: seq<Id>, read: set<Id>, offset: nat) {
    forall i :: 0 <= i < |initial| ==> initial[i] in read || AtOrAfter(items, offset, initial[i])
  }

  lemma AheadIsKept(initial: seq<Id>, items: seq<Id>, read: set<Id>, later: seq<Id>, laterRead: set<Id>, offset: nat)
    requires Ahead(initial, items, read, offset) && Pushed(items, later) && read <= laterRead
    ensures Ahead(initial, later, laterRead, offset)
  {
    forall i | 0 <= i < |initial| && initial[i] !in laterRead ensures AtOrAfter(later, offset, initial[i]) {
      PushedKeepsAfter(items, later, offset, initial[i]);
    }
  }

  /** Once the page at `offset` has been read, everything unread lies after it. */
  lemma PageRead(initial: seq<Id>, seen: seq<Id>, read: set<Id>, offset: nat)
    requires Ahead(initial, seen, read, offset)
    requires forall k :: offset <= k < offset + PageSize(seen, offset) ==> seen[k] in read
    ensures Ahead(initial, seen, read, offset + PAGE)
  {
    forall i | 0 <= i < |initial| && initial[i] !in read ensures AtOrAfter(seen, offset + PAGE, initial[i]) {
      var j :| offset <= j < |seen| && seen[j] == initial[i];
      assert j >= offset + PAGE;
    }
  }

  /** The entries of a page that are still to be read. */
  function Unread(page: seq<Item>): seq<Id> {
    if page == [] then []
    else Unread(page[..|page| - 1]) + if page[|page| - 1].read then [] else [page[|page| - 1].id]
  }

  /** The recipient's inbox on the server, newest first, and the screen that walks it. `pending` bounds the
      notifications that will still arrive; `failures` counts the requests that failed, and `requested` are the ids the
      screen asked to mark. */
  class Screen {
    var items: seq<Id>
    var read: set<Id>
    var active: bool
    ghost var pending: nat
    ghost var failures: nat
    ghost var requested: seq<Id>

    /** What may happen during an await: arrivals anywhere in the list, reads on other devices, unmounting. */
    twostate predicate Interference()
      reads this
    {
      && Pushed(old(items), items)
      && pending + |items| == old(pending + |items|)
      && old(read) <= read
      && (active ==> old(active))
    }

    constructor (items: seq<Id>, read: set<Id>, ghost pending: nat)
      ensures this.items == items && this.read == read && this.pending == pending && active
      ensures failures == 0 && requested == []
    {
      this.items, this.read, this.active, this.pending := items, read, true, pending;
      this.failures, this.requested := 0, [];
    }

    /** An await of the environment; callers know no more than its contract. */
    method Await()
      modifies this
      ensures Interference() && failures == old(failures) && requested == old(requested)
    {
      forall i | 0 <= i < |items| ensures AtOrAfter(items, i, items[i]) {
      }
    }

    /** Fetches a page; `seen` is the inbox at the moment the server answered. */
    method List(offset: nat) returns (ok: bool, page: seq<Item>, ghost seen: seq<Id>)
      modifies this
      ensures Interference() && requested == old(requested)
      ensures failures == old(failures) + if ok then 0 else 1
      ensures ok ==> Pushed(old(items), seen) && Pushed(seen, items) && |seen| <= |items|
      ensures ok ==> |page| == PageSize(seen, offset)
      ensures ok ==> forall k :: 0 <= k < |page| ==> page[k].id == seen[offset + k] && (page[k].read ==> page[k].id in read)
    {
      Await();
      var stored, marked := items, read;
      ok, seen := *, stored;
      page := PageAt(stored, marked, offset);
      Await();
      if !ok {
        failures := failures + 1;
      }
      PushedTransitive(old(items), stored, items);
    }

    /** Marks one notification read; it may fail. */
    method Read(id: Id) returns (ok: bool)
      modifies this
      ensures Interference() && requested == old(requested) + [id]
      ensures failures == old(failures) + if ok then 0 else 1
      ensures ok ==> id in read
    {
      Await();
      requested := requested + [id];
      ok := *;
      if ok {
        read := read + {id};
      } else {
        failures := failures + 1;
      }
    }

    /** Reads the unread entries of one page in order and no others, unless the screen goes away or a request fails; it
        fails exactly when a request does. */
    method ReadPage(page: seq<Item>) returns (outcome: Outcome)
      requires forall k :: 0 <= k < |page| ==> page[k].read ==> page[k].id in read
      modifies this
      ensures Interference()
      ensures outcome == Finished ==> forall k :: 0 <= k < |page| ==> page[k].id in read
      ensures outcome == Finished ==> requested == old(requested) + Unread(page)
      ensures outcome == Stopped ==> !active
      ensures failures == old(failures) + if outcome == Failed then 1 else 0
    {
      forall i | 0 <= i < |items| ensures AtOrAfter(items, i, items[i]) {
      }
      for n := 0 to |page|
        invariant Interference()
        invariant forall k :: 0 <= k < n ==> page[k].id in read
        invariant failures == old(failures) && requested == old(requested) + Unread(page[..n])
      {
        assert page[..n + 1][..n] == page[..n];
        if !active {
          return Stopped;
        }
        if !page[n].read {
          ghost var before := items;
          var ok := Read(page[n].id);
          PushedTransitive(old(items), before, items);
          if !ok {
            return Failed;
          }
        }
      }
      assert page[..|page|] == page;
      return Finished;
    }

    /** The walk. When it ends normally every notification that was there at the start has been read, however many
        arrived meanwhile. It fails exactly when one of its requests does, and stops only if the screen goes away. */
    method MarkAll() returns (outcome: Outcome)
      modifies this
      ensures outcome == Finished ==> forall i :: 0 <= i < |old(items)| ==> old(items)[i] in read
      ensures outcome == Stopped ==> !active
      ensures failures == old(failures) + if outcome == Failed then 1 else 0
    {
      var offset := 0;
      ghost var total := pending + |items|;
      forall i | 0 <= i < |items| ensures AtOrAfter(items, offset, items[i]) {
      }
      while true
        invariant Ahead(old(items), items, read, offset)
        invariant offset <= |items| && pending + |items| == total
        invariant failures == old(failures)
        decreases total - offset
      {
        ghost var before, readBefore := items, read;
        var ok, page, seen := List(offset);
        if !ok {
          return Failed;
        }
        AheadIsKept(old(items), before, readBefore, seen, read, offset);
        ghost var fetched := items;
        outcome := ReadPage(page);
        if outcome != Finished {
          return;
        }
        PushedTransitive(seen, fetched, items);
        assert forall k :: offset <= k < offset + |page| ==> page[k - offset].id == seen[k];
        AheadIsKept(old(items), seen, read, seen, read, offset);
        PageRead(old(items), seen, read, offset);
        AheadIsKept(old(items), seen, read, items, read, offset + PAGE);
        if |page| < PAGE {
          break;
        }
        offset := offset + PAGE;
      }
      return Finished;
    }
  }
}
