/** What every serial run of stock commands keeps: tracked stock covers the live reservations, and units leave
    stock only by being consumed. */
module StockRuns {
  import opened Wrappers
  import opened Stock

  // ---------- sums ----------

  lemma {:induction false} TotalUpdated(rs: seq<Reservation>, n: nat, r: Reservation, w: Reservation -> int)
    requires n < |rs|
    ensures Total(rs[n := r], w) == Total(rs, w) - w(rs[n]) + w(r)
  {
    var last := |rs| - 1;
    if n == last {
      assert rs[n := r][..last] == rs[..last];
    } else {
      assert rs[n := r][..last] == rs[..last][n := r];
      TotalUpdated(rs[..last], n, r, w);
    }
  }

  lemma TotalAppended(rs: seq<Reservation>, r: Reservation, w: Reservation -> int)
    ensures Total(rs + [r], w) == Total(rs, w) + w(r)
  {
    assert (rs + [r])[..|rs|] == rs;
  }

  /** Replacing every weight by one that is no larger gives a sum that is no larger. */
  lemma {:induction false} TotalMonotone(rs: seq<Reservation>, ts: seq<Reservation>, v: Reservation -> int, w: Reservation -> int)
    requires |rs| == |ts| && forall n :: 0 <= n < |rs| ==> v(rs[n]) <= w(ts[n])
    ensures Total(rs, v) <= Total(ts, w)
  {
    if rs != [] {
      TotalMonotone(rs[..|rs| - 1], ts[..|rs| - 1], v, w);
    }
  }

  lemma {:induction false} TotalNonNegative(rs: seq<Reservation>, w: Reservation -> int)
    requires forall n :: 0 <= n < |rs| ==> w(rs[n]) >= 0
    ensures Total(rs, w) >= 0
    ensures forall n :: 0 <= n < |rs| ==> w(rs[n]) <= Total(rs, w)
  {
    if rs != [] {
      TotalNonNegative(rs[..|rs| - 1], w);
      assert forall n :: 0 <= n < |rs| - 1 ==> rs[..|rs| - 1][n] == rs[n];
    }
  }

  /** The grouped, outer-joined figure of a SKU is the direct sum over its live reservations. */
  lemma {:induction false} GroupedIsTotal(rs: seq<Reservation>, now: int, sku: Id)
    ensures Total(rs, LiveQuantity(sku, now)) == if sku in Grouped(rs, now) then Grouped(rs, now)[sku] else 0
  {
    if rs != [] {
      GroupedIsTotal(rs[..|rs| - 1], now, sku);
    }
  }

  lemma {:induction false} SameWeights(rs: seq<Reservation>, v: Reservation -> int, w: Reservation -> int)
    requires forall r :: v(r) == w(r)
    ensures Total(rs, v) == Total(rs, w)
  {
    if rs != [] {
      SameWeights(rs[..|rs| - 1], v, w);
    }
  }

  /** What a reservation takes of a SKU: its quantity while it is active and its expiry lies ahead. */
  function UnexpiredQuantity(sku: Id, now: int): Reservation -> int {
    (r: Reservation) => if r.sku == sku && r.state == Active && r.expires > now then r.quantity else 0
  }

  /** A row of the inventory list shows the stock, the units in reservations that are active and have not expired, what is
      left of a limited stock, and the SKU's own active flag. */
  lemma InventoryShowsLiveReservations(s: Store, sku: Id)
    requires sku in s.skus
    ensures var row := InventoryRow(s, sku);
            && row.stock == s.skus[sku].stock && row.active == s.skus[sku].active
            && row.reserved == Total(s.reservations, UnexpiredQuantity(sku, s.now))
            && row.available == if s.skus[sku].stock.None? then None else Some(s.skus[sku].stock.value - row.reserved)
  {
    GroupedIsTotal(s.reservations, s.now, sku);
    SameWeights(s.reservations, LiveQuantity(sku, s.now), UnexpiredQuantity(sku, s.now));
  }

  /** After a correction the inventory list shows exactly the row the correction reported. */
  lemma InventoryAgreesWithCorrection(s: Store, sku: Id, expected: Option<int>, quantity: Option<int>)
    requires CorrectStock(s, sku, expected, quantity).Committed?
    ensures var t := CorrectStock(s, sku, expected, quantity).store;
            sku in t.skus && InventoryRow(t, sku) == CorrectedRow(s, sku, quantity)
  {
    GroupedIsTotal(s.reservations, s.now, sku);
  }

  // ---------- the invariant ----------

  ghost predicate Covered(s: Store, sku: Id) {
    sku in s.skus && s.skus[sku].stock.Some? ==> s.skus[sku].stock.value >= Reserved(s, sku)
  }

  ghost predicate RowOk(s: Store, r: Reservation) {
    r.quantity > 0 && r.sku in s.skus
  }

  ghost predicate RowsOk(s: Store) {
    forall n :: 0 <= n < |s.reservations| ==> RowOk(s, s.reservations[n])
  }

  ghost predicate AllCovered(s: Store) {
    forall sku :: sku in s.skus ==> Covered(s, sku)
  }

  /** Every tracked SKU has stock for all of its live reservations, which are positive and of known SKUs. */
  ghost predicate Sound(s: Store) {
    RowsOk(s) && AllCovered(s)
  }

  lemma ReservedBounds(s: Store, sku: Id)
    requires RowsOk(s)
    ensures Reserved(s, sku) >= 0
    ensures forall n :: 0 <= n < |s.reservations| ==> LiveQuantity(sku, s.now)(s.reservations[n]) <= Reserved(s, sku)
  {
    TotalNonNegative(s.reservations, LiveQuantity(sku, s.now));
  }

  /** With a sound store the availability shown for a tracked SKU is never negative. */
  lemma AvailabilityIsNotNegative(s: Store, sku: Id)
    requires Sound(s) && sku in s.skus && s.skus[sku].stock.Some?
    ensures 0 <= InventoryRow(s, sku).reserved <= s.skus[sku].stock.value
    ensures InventoryRow(s, sku).available.Some? && InventoryRow(s, sku).available.value >= 0
  {
    GroupedIsTotal(s.reservations, s.now, sku);
    ReservedBounds(s, sku);
    assert Covered(s, sku);
  }

  // ---------- what each command keeps ----------

  /** Fewer or smaller live reservations and the same SKUs stay covered. */
  lemma ShrinkingStaysSound(s: Store, t: Store)
    requires Sound(s) && RowsOk(t) && t.skus == s.skus && |t.reservations| == |s.reservations|
    requires forall sku, n :: 0 <= n < |s.reservations| ==>
      LiveQuantity(sku, t.now)(t.reservations[n]) <= LiveQuantity(sku, s.now)(s.reservations[n])
    ensures Sound(t)
  {
    forall sku | sku in t.skus ensures Covered(t, sku) {
      TotalMonotone(t.reservations, s.reservations, LiveQuantity(sku, t.now), LiveQuantity(sku, s.now));
      assert Covered(s, sku);
    }
  }

  lemma CorrectionStaysSound(s: Store, sku: Id, expected: Option<int>, quantity: Option<int>)
    requires Sound(s) && CorrectStock(s, sku, expected, quantity).Committed?
    ensures Sound(CorrectStock(s, sku, expected, quantity).store)
  {
    var t := CorrectStock(s, sku, expected, quantity).store;
    assert forall n :: 0 <= n < |t.reservations| ==> RowOk(s, t.reservations[n]);
    forall other | other in t.skus ensures Covered(t, other) {
      assert Covered(s, other);
    }
  }

  lemma ReleaseStaysSound(s: Store, current: Option<nat>)
    requires Sound(s) && (current.Some? ==> current.value < |s.reservations|)
    ensures Sound(ReleaseAt(s, current))
  {
    assert forall n :: 0 <= n < |ReleaseAt(s, current).reservations| ==> RowOk(s, s.reservations[n]);
    ShrinkingStaysSound(s, ReleaseAt(s, current));
  }

  lemma ReleaseAllStaysSound(s: Store, owner: Owner)
    requires Sound(s)
    ensures Sound(ReleaseAll(s, owner))
  {
    assert forall n :: 0 <= n < |ReleaseAll(s, owner).reservations| ==> RowOk(s, s.reservations[n]);
    ShrinkingStaysSound(s, ReleaseAll(s, owner));
  }

  lemma TransferStaysSound(s: Store, cart: Id, order: Id, expires: int)
    requires Sound(s) && Transfer(s, cart, order, expires).Committed?
    ensures Sound(Transfer(s, cart, order, expires).store)
  {
    assert forall n :: 0 <= n < |s.reservations| ==> RowOk(s, s.reservations[n]);
    ShrinkingStaysSound(s, Transfer(s, cart, order, expires).store);
  }

  lemma TickStaysSound(s: Store, now: int)
    requires Sound(s) && now >= s.now
    ensures Sound(s.(now := now))
  {
    assert forall n :: 0 <= n < |s.reservations| ==> RowOk(s, s.reservations[n]);
    ShrinkingStaysSound(s, s.(now := now));
  }

  /** Rewriting one row changes each SKU's sum by the difference of that row's share. */
  lemma ReservedUpdated(s: Store, n: nat, r: Reservation, sku: Id)
    requires n < |s.reservations|
    ensures Reserved(WithReservation(s, n, r), sku)
            == Reserved(s, sku) - LiveQuantity(sku, s.now)(s.reservations[n]) + LiveQuantity(sku, s.now)(r)
  {
    TotalUpdated(s.reservations, n, r, LiveQuantity(sku, s.now));
  }

  /** The row a granted request asks for; an unlimited SKU is never reserved. */
  function Wanted(s: Store, cart: Id, sku: Id, desired: int, expires: int): Reservation
    requires sku in s.skus
  {
    Reservation(sku, Cart(cart), if s.skus[sku].stock.Some? then desired else 0, expires, Active)
  }

  lemma ReserveWritesTheRow(s: Store, cart: Id, sku: Id, desired: int, expires: int)
    requires Reserve(s, cart, sku, desired, expires).Committed?
    ensures desired >= 0 && sku in s.skus
    ensures var current := Find(s.reservations, Cart(cart), sku);
            && Reserve(s, cart, sku, desired, expires).store == WithCartRow(s, current, Wanted(s, cart, sku, desired, expires))
            && (s.skus[sku].stock.Some? ==> desired <= s.skus[sku].stock.value - Reserved(ReleaseAt(s, current), sku))
  {
  }

  /** Writing a cart's row adds it to what is reserved once the current one is released, and moves no other SKU. */
  lemma CartRowReserved(s: Store, cart: Id, sku: Id, row: Reservation, other: Id)
    requires row.sku == sku && row.owner == Cart(cart) && row.state == Active
    ensures var current := Find(s.reservations, Cart(cart), sku);
            Reserved(WithCartRow(s, current, row), other)
            == Reserved(ReleaseAt(s, current), other) + LiveQuantity(other, s.now)(row)
  {
    var current := Find(s.reservations, Cart(cart), sku);
    if current.None? {
      TotalAppended(s.reservations, row, LiveQuantity(other, s.now));
    } else {
      var n := current.value;
      ReservedUpdated(s, n, s.reservations[n].(state := Released), other);
      ReservedUpdated(s, n, s.reservations[n].(quantity := row.quantity, expires := row.expires), other);
    }
  }

  lemma CartRowRowsOk(s: Store, current: Option<nat>, row: Reservation)
    requires RowsOk(s) && (current.Some? ==> current.value < |s.reservations|)
    requires row.quantity >= 0 && row.sku in s.skus
    ensures RowsOk(WithCartRow(s, current, row)) && WithCartRow(s, current, row).skus == s.skus
  {
    assert forall n :: 0 <= n < |s.reservations| ==> RowOk(s, s.reservations[n]);
  }

  lemma ReserveStaysSound(s: Store, cart: Id, sku: Id, desired: int, expires: int)
    requires Sound(s) && Reserve(s, cart, sku, desired, expires).Committed?
    ensures Sound(Reserve(s, cart, sku, desired, expires).store)
  {
    ReserveWritesTheRow(s, cart, sku, desired, expires);
    var current, row := Find(s.reservations, Cart(cart), sku), Wanted(s, cart, sku, desired, expires);
    var t := WithCartRow(s, current, row);
    ReleaseStaysSound(s, current);
    CartRowRowsOk(s, current, row);
    forall other | other in t.skus ensures Covered(t, other) {
      assert Covered(ReleaseAt(s, current), other);
      CartRowReserved(s, cart, sku, row, other);
    }
  }

  /** A live reservation of a sound store can always be consumed, and consuming it keeps the store sound. */
  lemma ConsumeAtStaysSound(s: Store, n: nat)
    requires Sound(s) && n < |s.reservations| && Live(s.reservations[n], s.now)
    ensures ConsumeAt(s, n).Committed? && Sound(ConsumeAt(s, n).store)
  {
    var r := s.reservations[n];
    assert RowOk(s, r);
    ReservedBounds(s, r.sku);
    assert Covered(s, r.sku);
    assert LiveQuantity(r.sku, s.now)(r) == r.quantity;
    var t := ConsumeAt(s, n).store;
    assert forall m :: 0 <= m < |s.reservations| ==> RowOk(s, s.reservations[m]);
    forall other | other in t.skus ensures Covered(t, other) {
      assert Covered(s, other);
      ReservedUpdated(s, n, r.(state := Consumed), other);
    }
  }

  lemma {:induction false} ConsumeFirstStaysSound(s: Store, owner: Owner, n: nat)
    requires Sound(s) && n <= |s.reservations| && !AnyExpired(s, owner)
    ensures ConsumeFirst(s, owner, n).Committed?
    ensures var t := ConsumeFirst(s, owner, n).store;
            && Sound(t) && t.now == s.now
            && forall k :: n <= k < |s.reservations| ==> t.reservations[k] == s.reservations[k]
  {
    if n > 0 {
      ConsumeFirstStaysSound(s, owner, n - 1);
      var t := ConsumeFirst(s, owner, n - 1).store;
      if Held(t.reservations[n - 1], owner) {
        assert Live(t.reservations[n - 1], t.now);
        ConsumeAtStaysSound(t, n - 1);
      }
    }
  }

  /** In a sound store paying for an order fails only because one of its reservations has expired. */
  lemma OrdersCanAlwaysBeConsumed(s: Store, order: Id)
    requires Sound(s)
    ensures ConsumeOrder(s, order).Raised? <==> AnyExpired(s, Order(order))
    ensures ConsumeOrder(s, order).Raised? ==> ConsumeOrder(s, order).error == ReservationExpired
    ensures ConsumeOrder(s, order).Committed? ==> Sound(ConsumeOrder(s, order).store)
  {
    if !AnyExpired(s, Order(order)) {
      ConsumeFirstStaysSound(s, Order(order), |s.reservations|);
    }
  }

  // ---------- runs ----------

  datatype Event =
    | Correct(sku: Id, expected: Option<int>, quantity: Option<int>)
    | ReserveCart(cart: Id, sku: Id, desired: int, expires: int)
    | ReleaseCart(cart: Id)
    | TransferCart(cart: Id, order: Id, expires: int)
    | PayOrder(order: Id)
    | ReleaseOrder(order: Id)
    | Wait(duration: nat)

  /** One committed or rolled-back command, or the clock moving on. */
  function Apply(s: Store, e: Event): Store {
    var result := match e
      case Correct(sku, expected, quantity) => CorrectStock(s, sku, expected, quantity)
      case ReserveCart(cart, sku, desired, expires) => Reserve(s, cart, sku, desired, expires)
      case ReleaseCart(cart) => Committed(ReleaseAll(s, Cart(cart)))
      case TransferCart(cart, order, expires) => Transfer(s, cart, order, expires)
      case PayOrder(order) => ConsumeOrder(s, order)
      case ReleaseOrder(order) => Committed(ReleaseAll(s, Order(order)))
      case Wait(duration) => Committed(s.(now := s.now + duration));
    if result.Committed? then result.store else s
  }

  function RunFrom(s: Store, events: seq<Event>): Store {
    if events == [] then s else Apply(RunFrom(s, events[..|events| - 1]), events[|events| - 1])
  }

  lemma ApplyStaysSound(s: Store, e: Event)
    requires Sound(s)
    ensures Sound(Apply(s, e))
  {
    match e
    case Correct(sku, expected, quantity) =>
      if CorrectStock(s, sku, expected, quantity).Committed? { CorrectionStaysSound(s, sku, expected, quantity); }
    case ReserveCart(cart, sku, desired, expires) =>
      if Reserve(s, cart, sku, desired, expires).Committed? { ReserveStaysSound(s, cart, sku, desired, expires); }
    case ReleaseCart(cart) => ReleaseAllStaysSound(s, Cart(cart));
    case TransferCart(cart, order, expires) =>
      if Transfer(s, cart, order, expires).Committed? { TransferStaysSound(s, cart, order, expires); }
    case PayOrder(order) => OrdersCanAlwaysBeConsumed(s, order);
    case ReleaseOrder(order) => ReleaseAllStaysSound(s, Order(order));
    case Wait(duration) => TickStaysSound(s, s.now + duration);
  }

  /** In every serial run of corrections, reservations, releases, transfers, payments and waiting, including moves to
      and from unlimited stock, tracked stock never drops below the live reservations. */
  lemma {:induction false} StockCoversReservations(s: Store, events: seq<Event>)
    requires Sound(s)
    ensures Sound(RunFrom(s, events))
  {
    if events != [] {
      StockCoversReservations(s, events[..|events| - 1]);
      ApplyStaysSound(RunFrom(s, events[..|events| - 1]), events[|events| - 1]);
    }
  }

  // ---------- conservation ----------

  function ConsumedUnits(s: Store, sku: Id): int {
    Total(s.reservations, ConsumedQuantity(sku))
  }

  /** A tracked SKU stays tracked, and what it has lost is what has been consumed. */
  ghost predicate Conserves(s: Store, t: Store, sku: Id) {
    sku in s.skus && s.skus[sku].stock.Some? ==>
      && sku in t.skus && t.skus[sku].stock.Some?
      && t.skus[sku].stock.value + ConsumedUnits(t, sku) == s.skus[sku].stock.value + ConsumedUnits(s, sku)
  }

  lemma ConsumedUpdated(s: Store, n: nat, r: Reservation, sku: Id)
    requires n < |s.reservations|
    ensures ConsumedUnits(WithReservation(s, n, r), sku)
            == ConsumedUnits(s, sku) - ConsumedQuantity(sku)(s.reservations[n]) + ConsumedQuantity(sku)(r)
  {
    TotalUpdated(s.reservations, n, r, ConsumedQuantity(sku));
  }

  lemma SameConsumed(s: Store, t: Store, sku: Id)
    requires |t.reservations| == |s.reservations|
    requires forall n :: 0 <= n < |s.reservations| ==>
      ConsumedQuantity(sku)(t.reservations[n]) == ConsumedQuantity(sku)(s.reservations[n])
    ensures ConsumedUnits(t, sku) == ConsumedUnits(s, sku)
  {
    TotalMonotone(s.reservations, t.reservations, ConsumedQuantity(sku), ConsumedQuantity(sku));
    TotalMonotone(t.reservations, s.reservations, ConsumedQuantity(sku), ConsumedQuantity(sku));
  }

  lemma {:induction false} ConsumeFirstConserves(s: Store, owner: Owner, n: nat, sku: Id)
    requires n <= |s.reservations| && ConsumeFirst(s, owner, n).Committed?
    ensures Conserves(s, ConsumeFirst(s, owner, n).store, sku)
  {
    if n > 0 {
      ConsumeFirstConserves(s, owner, n - 1, sku);
      var t := ConsumeFirst(s, owner, n - 1).store;
      if Held(t.reservations[n - 1], owner) {
        ConsumedUpdated(t, n - 1, t.reservations[n - 1].(state := Consumed), sku);
      }
    }
  }

  lemma CartRowConsumesNothing(s: Store, current: Option<nat>, row: Reservation, sku: Id)
    requires row.state == Active
    requires current.Some? ==> current.value < |s.reservations| && s.reservations[current.value].state == Active
    ensures ConsumedUnits(WithCartRow(s, current, row), sku) == ConsumedUnits(s, sku)
  {
    var t := WithCartRow(s, current, row);
    if current.Some? {
      ConsumedUpdated(s, current.value, t.reservations[current.value], sku);
    } else if row.quantity != 0 {
      TotalAppended(s.reservations, row, ConsumedQuantity(sku));
    }
  }

  lemma ReserveConserves(s: Store, cart: Id, sku: Id, desired: int, expires: int, other: Id)
    requires Reserve(s, cart, sku, desired, expires).Committed?
    ensures Conserves(s, Reserve(s, cart, sku, desired, expires).store, other)
  {
    ReserveWritesTheRow(s, cart, sku, desired, expires);
    CartRowConsumesNothing(s, Find(s.reservations, Cart(cart), sku), Wanted(s, cart, sku, desired, expires), other);
  }

  lemma ApplyConserves(s: Store, e: Event, sku: Id)
    requires e.Correct? ==> e.sku != sku
    ensures Conserves(s, Apply(s, e), sku)
  {
    match e
    case ReserveCart(cart, other, desired, expires) =>
      if Reserve(s, cart, other, desired, expires).Committed? {
        ReserveConserves(s, cart, other, desired, expires, sku);
      }
    case PayOrder(order) =>
      if ConsumeOrder(s, order).Committed? {
        ConsumeFirstConserves(s, Order(order), |s.reservations|, sku);
      }
    case _ => SameConsumed(s, Apply(s, e), sku);
  }

  /** Between corrections, units leave a tracked SKU only by being consumed: stock plus consumed units is constant. */
  lemma {:induction false} StockIsConserved(s: Store, events: seq<Event>, sku: Id)
    requires forall e :: e in events ==> (e.Correct? ==> e.sku != sku)
    ensures Conserves(s, RunFrom(s, events), sku)
  {
    if events != [] {
      StockIsConserved(s, events[..|events| - 1], sku);
      ApplyConserves(RunFrom(s, events[..|events| - 1]), events[|events| - 1], sku);
    }
  }
}
