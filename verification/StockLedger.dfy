/** Stock corrections and their audit rows, among everything else that moves stock. */
module StockLedger {
  import opened Wrappers
  import opened Stock
  import opened StockRuns

  // ---------- one correction ----------

  /** A correction commits if and only if the SKU exists, still has the stock its author expected, and the new stock is
      not negative and covers what the inventory list shows as reserved. It then sets that stock and nothing else. */
  lemma CorrectionIsExact(s: Store, sku: Id, expected: Option<int>, quantity: Option<int>)
    ensures CorrectStock(s, sku, expected, quantity).Committed? <==>
            && sku in s.skus && s.skus[sku].stock == expected
            && (expected.Some? ==> expected.value >= 0)
            && (quantity.Some? ==> quantity.value >= 0 && quantity.value >= InventoryRow(s, sku).reserved)
    ensures CorrectStock(s, sku, expected, quantity).Committed? ==>
            var t := CorrectStock(s, sku, expected, quantity).store;
            && t.now == s.now && t.reservations == s.reservations && t.skus.Keys == s.skus.Keys
            && (forall other :: other in s.skus && other != sku ==> t.skus[other] == s.skus[other])
            && t.skus[sku] == Sku(quantity, s.skus[sku].active, s.skus[sku].productActive)
    ensures (expected.Some? ==> expected.value >= 0) && (quantity.Some? ==> quantity.value >= 0) ==>
            match CorrectStock(s, sku, expected, quantity)
            case Raised(error) =>
              error == if sku !in s.skus then SkuNotFound
                       else if s.skus[sku].stock != expected then StockChanged else StockBelowReserved
            case Committed(_) => true
  {
    GroupedIsTotal(s.reservations, s.now, sku);
  }

  // ---------- the ledger ----------

  /** An audit row of a correction. */
  datatype Correction = Correction(sku: Id, before: Option<int>, after: Option<int>)

  datatype Ledger = Ledger(store: Store, audit: seq<Correction>)

  predicate Corrects(s: Store, e: Event) {
    e.Correct? && CorrectStock(s, e.sku, e.expected, e.quantity).Committed?
  }

  /** A command on the store, with its audit row if it is an accepted correction. */
  function Record(l: Ledger, e: Event): Ledger {
    Ledger(Apply(l.store, e),
           l.audit + if Corrects(l.store, e) then [Correction(e.sku, l.store.skus[e.sku].stock, e.quantity)] else [])
  }

  function Recorded(l: Ledger, events: seq<Event>): Ledger {
    if events == [] then l else Record(Recorded(l, events[..|events| - 1]), events[|events| - 1])
  }

  /** How many of the rows correct this SKU. */
  function CorrectionsOf(audit: seq<Correction>, sku: Id): nat {
    if audit == [] then 0
    else CorrectionsOf(audit[..|audit| - 1], sku) + if audit[|audit| - 1].sku == sku then 1 else 0
  }

  lemma RecordCounts(l: Ledger, e: Event, sku: Id)
    ensures CorrectionsOf(Record(l, e).audit, sku) ==
            CorrectionsOf(l.audit, sku) + if Corrects(l.store, e) && e.sku == sku then 1 else 0
  {
    var audit := Record(l, e).audit;
    if Corrects(l.store, e) {
      assert audit[..|audit| - 1] == l.audit;
    } else {
      assert audit == l.audit;
    }
  }

  lemma {:induction false} CountsGrow(l: Ledger, events: seq<Event>, sku: Id)
    ensures CorrectionsOf(Recorded(l, events).audit, sku) >= CorrectionsOf(l.audit, sku)
  {
    if events != [] {
      CountsGrow(l, events[..|events| - 1], sku);
      RecordCounts(Recorded(l, events[..|events| - 1]), events[|events| - 1], sku);
    }
  }

  lemma RecordConserves(l: Ledger, e: Event, sku: Id)
    requires !(Corrects(l.store, e) && e.sku == sku)
    ensures Conserves(l.store, Record(l, e).store, sku)
  {
    if e.Correct? && e.sku == sku {
      assert Apply(l.store, e) == l.store;
    } else {
      ApplyConserves(l.store, e, sku);
    }
  }

  /** Between two corrections of a SKU that are on the audit, whatever else is tried, stock and consumed units add up. */
  lemma {:induction false} ConservedBetweenCorrections(l: Ledger, events: seq<Event>, sku: Id)
    requires CorrectionsOf(Recorded(l, events).audit, sku) == CorrectionsOf(l.audit, sku)
    ensures Conserves(l.store, Recorded(l, events).store, sku)
  {
    if events != [] {
      var before := Recorded(l, events[..|events| - 1]);
      CountsGrow(l, events[..|events| - 1], sku);
      RecordCounts(before, events[|events| - 1], sku);
      ConservedBetweenCorrections(l, events[..|events| - 1], sku);
      RecordConserves(before, events[|events| - 1], sku);
    }
  }

  /** A correction made from figures loaded earlier is refused as stale if and only if units were consumed meanwhile, as
      long as nobody corrected the SKU in between. */
  lemma StaleExactlyWhenConsumed(l: Ledger, events: seq<Event>, sku: Id, quantity: Option<int>)
    requires sku in l.store.skus && l.store.skus[sku].stock.Some? && l.store.skus[sku].stock.value >= 0
    requires quantity.Some? ==> quantity.value >= 0
    requires CorrectionsOf(Recorded(l, events).audit, sku) == CorrectionsOf(l.audit, sku)
    ensures var t := Recorded(l, events).store;
            CorrectStock(t, sku, l.store.skus[sku].stock, quantity) == Raised(StockChanged) <==>
            ConsumedUnits(t, sku) != ConsumedUnits(l.store, sku)
  {
    ConservedBetweenCorrections(l, events, sku);
    CorrectionIsExact(Recorded(l, events).store, sku, l.store.skus[sku].stock, quantity);
  }

  /** Over every run: once anything has moved the stock away from what an administrator loaded, that administrator's
      correction leaves store and audit as they are; if it is accepted, it records the stock it replaced. */
  lemma StaleCorrectionChangesNothing(l: Ledger, events: seq<Event>, sku: Id, expected: Option<int>, quantity: Option<int>)
    ensures var t := Recorded(l, events);
            var after := Record(t, Correct(sku, expected, quantity));
            if sku in t.store.skus && t.store.skus[sku].stock == expected
            then after == t || (after.audit == t.audit + [Correction(sku, t.store.skus[sku].stock, quantity)]
                                && sku in after.store.skus && after.store.skus[sku].stock == quantity)
            else after == t
  {
    CorrectionIsExact(Recorded(l, events).store, sku, expected, quantity);
    assert Recorded(l, events).audit + [] == Recorded(l, events).audit;
  }

  /** What each event does: its command's result if that commits, nothing if it is refused, and the clock. */
  lemma EventsAreTheCommands(s: Store, e: Event)
    ensures e.Wait? ==> Apply(s, e) == Store(s.now + e.duration, s.skus, s.reservations)
    ensures e.ReleaseCart? ==> Apply(s, e) == ReleaseAll(s, Cart(e.cart))
    ensures e.ReleaseOrder? ==> Apply(s, e) == ReleaseAll(s, Order(e.order))
    ensures e.Correct? ==> Applied(s, CorrectStock(s, e.sku, e.expected, e.quantity), Apply(s, e))
    ensures e.ReserveCart? ==> Applied(s, Reserve(s, e.cart, e.sku, e.desired, e.expires), Apply(s, e))
    ensures e.TransferCart? ==> Applied(s, Transfer(s, e.cart, e.order, e.expires), Apply(s, e))
    ensures e.PayOrder? ==> Applied(s, ConsumeOrder(s, e.order), Apply(s, e))
  {
  }

  predicate Applied(s: Store, result: Result, t: Store) {
    match result case Committed(store) => t == store case Raised(_) => t == s
  }
}
