/** What each stock command does to what carts and orders hold, stated by sums over the rows. */
module StockEffects {
  import opened Wrappers
  import opened Stock
  import opened StockRuns

  function HeldWeight(owner: Owner, sku: Id): Reservation -> int {
    (r: Reservation) => if ActiveOf(r, owner, sku) then r.quantity else 0
  }

  /** What the owner's active reservations of a SKU add up to. */
  function HeldUnits(s: Store, owner: Owner, sku: Id): int {
    Total(s.reservations, HeldWeight(owner, sku))
  }

  lemma {:induction false} TotalsAdd(rs: seq<Reservation>, ts: seq<Reservation>, v: Reservation -> int,
                                     u: Reservation -> int, w: Reservation -> int)
    requires |rs| == |ts| && forall n :: 0 <= n < |rs| ==> w(ts[n]) == v(rs[n]) + u(rs[n])
    ensures Total(ts, w) == Total(rs, v) + Total(rs, u)
  {
    if rs != [] {
      TotalsAdd(rs[..|rs| - 1], ts[..|rs| - 1], v, u, w);
    }
  }

  lemma {:induction false} SameTotals(rs: seq<Reservation>, ts: seq<Reservation>, v: Reservation -> int, w: Reservation -> int)
    requires |rs| == |ts| && forall n :: 0 <= n < |rs| ==> w(ts[n]) == v(rs[n])
    ensures Total(ts, w) == Total(rs, v)
  {
    if rs != [] {
      SameTotals(rs[..|rs| - 1], ts[..|rs| - 1], v, w);
    }
  }

  lemma {:induction false} NothingTotal(rs: seq<Reservation>, w: Reservation -> int)
    requires forall n :: 0 <= n < |rs| ==> w(rs[n]) == 0
    ensures Total(rs, w) == 0
  {
    if rs != [] {
      NothingTotal(rs[..|rs| - 1], w);
    }
  }

  // ---------- one active reservation per owner and SKU ----------

  ghost predicate Clash(a: Reservation, b: Reservation) {
    a.state == Active && b.state == Active && a.owner == b.owner && a.sku == b.sku
  }

  /** What the two partial unique indexes enforce. */
  ghost predicate NoClash(rs: seq<Reservation>) {
    forall m, n :: 0 <= m < n < |rs| ==> !Clash(rs[m], rs[n])
  }

  lemma ReserveKeepsUnique(s: Store, cart: Id, sku: Id, desired: int, expires: int)
    requires NoClash(s.reservations) && Reserve(s, cart, sku, desired, expires).Committed?
    ensures NoClash(Reserve(s, cart, sku, desired, expires).store.reservations)
  {
  }

  lemma TransferKeepsUnique(s: Store, cart: Id, order: Id, expires: int)
    requires NoClash(s.reservations) && Transfer(s, cart, order, expires).Committed?
    ensures NoClash(Transfer(s, cart, order, expires).store.reservations)
  {
    var t := Transfer(s, cart, order, expires).store;
    forall m, n | 0 <= m < n < |t.reservations| ensures !Clash(t.reservations[m], t.reservations[n]) {
      var a, b := s.reservations[m], s.reservations[n];
      assert !Clash(a, b);
      assert Held(a, Cart(cart)) ==> !ActiveOf(b, Order(order), a.sku);
      assert Held(b, Cart(cart)) ==> !ActiveOf(a, Order(order), b.sku);
    }
  }

  /** Consuming turns exactly the owner's active rows into consumed ones. */
  lemma {:induction false} ConsumedRows(s: Store, owner: Owner, n: nat)
    requires n <= |s.reservations| && ConsumeFirst(s, owner, n).Committed?
    ensures var t := ConsumeFirst(s, owner, n).store;
            forall m :: 0 <= m < |s.reservations| ==>
              t.reservations[m] == if m < n && Held(s.reservations[m], owner) then s.reservations[m].(state := Consumed)
                                   else s.reservations[m]
  {
    if n > 0 {
      ConsumedRows(s, owner, n - 1);
    }
  }

  lemma ApplyKeepsUnique(s: Store, e: Event)
    requires NoClash(s.reservations)
    ensures NoClash(Apply(s, e).reservations)
  {
    match e
    case ReserveCart(cart, sku, desired, expires) =>
      if Reserve(s, cart, sku, desired, expires).Committed? { ReserveKeepsUnique(s, cart, sku, desired, expires); }
    case TransferCart(cart, order, expires) =>
      if Transfer(s, cart, order, expires).Committed? { TransferKeepsUnique(s, cart, order, expires); }
    case PayOrder(order) =>
      if ConsumeOrder(s, order).Committed? { ConsumedRows(s, Order(order), |s.reservations|); }
    case _ =>
  }

  /** In every run an owner has at most one active reservation of a SKU: the commands never lean on the indexes,
      except for a transfer onto an order that already holds one. */
  lemma {:induction false} ReservationsStayUnique(s: Store, events: seq<Event>)
    requires NoClash(s.reservations)
    ensures NoClash(RunFrom(s, events).reservations)
  {
    if events != [] {
      ReservationsStayUnique(s, events[..|events| - 1]);
      ApplyKeepsUnique(RunFrom(s, events[..|events| - 1]), events[|events| - 1]);
    }
  }

  /** So the row `Find` returns is all the owner holds. */
  lemma {:induction false} FoundIsHeld(rs: seq<Reservation>, owner: Owner, sku: Id)
    requires NoClash(rs)
    ensures var found := Find(rs, owner, sku);
            Total(rs, HeldWeight(owner, sku)) == if found.Some? then rs[found.value].quantity else 0
  {
    if rs != [] {
      var last := |rs| - 1;
      FoundIsHeld(rs[..last], owner, sku);
      var earlier := Find(rs[..last], owner, sku);
      assert earlier.Some? ==> !Clash(rs[earlier.value], rs[last]);
    }
  }

  // ---------- reserving ----------

  lemma RowReplaced(s: Store, n: nat, r: Reservation, owner: Owner, sku: Id)
    requires n < |s.reservations|
    ensures HeldUnits(WithReservation(s, n, r), owner, sku)
            == HeldUnits(s, owner, sku) - HeldWeight(owner, sku)(s.reservations[n]) + HeldWeight(owner, sku)(r)
  {
    TotalUpdated(s.reservations, n, r, HeldWeight(owner, sku));
  }

  lemma CartRowHeld(s: Store, cart: Id, sku: Id, row: Reservation, owner: Owner, other: Id)
    requires NoClash(s.reservations)
    requires row.sku == sku && row.owner == Cart(cart) && row.state == Active
    ensures var t := WithCartRow(s, Find(s.reservations, Cart(cart), sku), row);
            HeldUnits(t, owner, other) == if ActiveOf(row, owner, other) then row.quantity else HeldUnits(s, owner, other)
  {
    var current := Find(s.reservations, Cart(cart), sku);
    var t := WithCartRow(s, current, row);
    FoundIsHeld(s.reservations, Cart(cart), sku);
    if current.Some? {
      RowReplaced(s, current.value, t.reservations[current.value], owner, other);
    } else if row.quantity != 0 {
      TotalAppended(s.reservations, row, HeldWeight(owner, other));
    }
  }

  /** A committed reservation leaves the cart holding what it asked for, or nothing of an unlimited SKU, and touches
      nobody else's rows, no other SKU and no stock. */
  lemma ReserveSetsTheCart(s: Store, cart: Id, sku: Id, desired: int, expires: int, owner: Owner, other: Id)
    requires NoClash(s.reservations) && Reserve(s, cart, sku, desired, expires).Committed?
    ensures var t := Reserve(s, cart, sku, desired, expires).store;
            && t.skus == s.skus && t.now == s.now
            && HeldUnits(t, owner, other)
               == if owner != Cart(cart) || other != sku then HeldUnits(s, owner, other)
                  else if s.skus[sku].stock.Some? then desired else 0
  {
    ReserveWritesTheRow(s, cart, sku, desired, expires);
    CartRowHeld(s, cart, sku, Wanted(s, cart, sku, desired, expires), owner, other);
  }

  /** For an active tracked SKU and a cart whose reservation has not expired, a positive request is granted exactly
      when it fits the availability the inventory list shows plus what the cart already holds. */
  lemma ReserveGrantsWhatIsAvailable(s: Store, cart: Id, sku: Id, desired: int, expires: int)
    requires NoClash(s.reservations) && sku in s.skus && s.skus[sku].stock.Some?
    requires s.skus[sku].active && s.skus[sku].productActive && desired > 0 && expires > s.now
    requires forall n :: 0 <= n < |s.reservations| && ActiveOf(s.reservations[n], Cart(cart), sku) ==> s.reservations[n].expires > s.now
    ensures var shown := InventoryRow(s, sku).available;
            && shown.Some?
            && (Reserve(s, cart, sku, desired, expires).Committed? <==> desired <= shown.value + HeldUnits(s, Cart(cart), sku))
            && (Reserve(s, cart, sku, desired, expires).Raised? ==>
                  Reserve(s, cart, sku, desired, expires).error == InsufficientStock)
  {
    GroupedIsTotal(s.reservations, s.now, sku);
    FoundIsHeld(s.reservations, Cart(cart), sku);
    var current := Find(s.reservations, Cart(cart), sku);
    if current.Some? {
      ReservedUpdated(s, current.value, s.reservations[current.value].(state := Released), sku);
    }
  }

  /** A SKU that is not on sale can only be given back. */
  lemma InactiveNeverGrows(s: Store, cart: Id, sku: Id, desired: int, expires: int)
    requires NoClash(s.reservations) && Reserve(s, cart, sku, desired, expires).Committed?
    requires !s.skus[sku].active || !s.skus[sku].productActive
    ensures desired <= HeldUnits(s, Cart(cart), sku)
    ensures HeldUnits(Reserve(s, cart, sku, desired, expires).store, Cart(cart), sku) <= HeldUnits(s, Cart(cart), sku)
  {
    FoundIsHeld(s.reservations, Cart(cart), sku);
    ReserveSetsTheCart(s, cart, sku, desired, expires, Cart(cart), sku);
  }

  // ---------- releasing, transferring, paying ----------

  /** Releasing frees everything the owner held and nothing else. */
  lemma ReleaseFreesTheOwner(s: Store, owner: Owner, other: Owner, sku: Id)
    ensures var t := ReleaseAll(s, owner);
            && t.skus == s.skus
            && HeldUnits(t, other, sku) == (if other == owner then 0 else HeldUnits(s, other, sku))
            && ConsumedUnits(t, sku) == ConsumedUnits(s, sku)
  {
    var t := ReleaseAll(s, owner);
    SameTotals(s.reservations, t.reservations, ConsumedQuantity(sku), ConsumedQuantity(sku));
    if other == owner {
      NothingTotal(t.reservations, HeldWeight(owner, sku));
    } else {
      SameTotals(s.reservations, t.reservations, HeldWeight(other, sku), HeldWeight(other, sku));
    }
  }

  /** A committed transfer moves everything from the cart to the order: what is reserved in all does not change. */
  lemma TransferMovesTheCart(s: Store, cart: Id, order: Id, expires: int, other: Owner, sku: Id)
    requires Transfer(s, cart, order, expires).Committed?
    ensures var t := Transfer(s, cart, order, expires).store;
            && t.skus == s.skus && Reserved(t, sku) == Reserved(s, sku)
            && HeldUnits(t, other, sku)
               == if other == Cart(cart) then 0
                  else if other == Order(order) then HeldUnits(s, Order(order), sku) + HeldUnits(s, Cart(cart), sku)
                  else HeldUnits(s, other, sku)
  {
    var t := Transfer(s, cart, order, expires).store;
    SameTotals(s.reservations, t.reservations, LiveQuantity(sku, s.now), LiveQuantity(sku, t.now));
    if other == Cart(cart) {
      NothingTotal(t.reservations, HeldWeight(other, sku));
    } else if other == Order(order) {
      TotalsAdd(s.reservations, t.reservations, HeldWeight(other, sku), HeldWeight(Cart(cart), sku), HeldWeight(other, sku));
    } else {
      SameTotals(s.reservations, t.reservations, HeldWeight(other, sku), HeldWeight(other, sku));
    }
  }

  /** Paying consumes everything the order held and nothing else; with conservation, that is what leaves stock. */
  lemma PaymentConsumesTheOrder(s: Store, order: Id, other: Owner, sku: Id)
    requires ConsumeOrder(s, order).Committed?
    ensures var t := ConsumeOrder(s, order).store;
            && HeldUnits(t, other, sku) == (if other == Order(order) then 0 else HeldUnits(s, other, sku))
            && ConsumedUnits(t, sku) == ConsumedUnits(s, sku) + HeldUnits(s, Order(order), sku)
            && (sku in s.skus && s.skus[sku].stock.Some? ==>
                  sku in t.skus && t.skus[sku].stock == Some(s.skus[sku].stock.value - HeldUnits(s, Order(order), sku)))
  {
    var n := |s.reservations|;
    var t := ConsumeOrder(s, order).store;
    ConsumedRows(s, Order(order), n);
    ConsumeFirstConserves(s, Order(order), n, sku);
    TotalsAdd(s.reservations, t.reservations, ConsumedQuantity(sku), HeldWeight(Order(order), sku), ConsumedQuantity(sku));
    if other == Order(order) {
      NothingTotal(t.reservations, HeldWeight(other, sku));
    } else {
      SameTotals(s.reservations, t.reservations, HeldWeight(other, sku), HeldWeight(other, sku));
    }
  }

  // ---------- what is refused, and what is written ----------

  /** A reservation is refused in this order: a negative quantity, an unknown SKU, a reservation of the cart that has
      expired, more of a SKU that is not on sale, an expiry already past, and more than is available to the cart. */
  lemma ReserveIsRefusedExactly(s: Store, cart: Id, sku: Id, desired: int, expires: int)
    requires NoClash(s.reservations)
    ensures var result := Reserve(s, cart, sku, desired, expires);
            var held := HeldUnits(s, Cart(cart), sku);
            if desired < 0 then result == Raised(InvalidQuantity)
            else if sku !in s.skus then result == Raised(SkuNotFound)
            else if exists n :: 0 <= n < |s.reservations| && ActiveOf(s.reservations[n], Cart(cart), sku)
                                && s.reservations[n].expires <= s.now
            then result == Raised(ReservationExpired)
            else if !(s.skus[sku].active && s.skus[sku].productActive) && desired > held then result == Raised(SkuInactive)
            else if desired > 0 && expires <= s.now then result == Raised(ReservationExpired)
            else if s.skus[sku].stock.Some? && desired > s.skus[sku].stock.value - (InventoryRow(s, sku).reserved - held)
            then result == Raised(InsufficientStock)
            else result.Committed?
  {
    FoundIsHeld(s.reservations, Cart(cart), sku);
    if sku in s.skus {
      GroupedIsTotal(s.reservations, s.now, sku);
      var current := Find(s.reservations, Cart(cart), sku);
      if current.Some? {
        FoundIsTheOne(s.reservations, Cart(cart), sku);
        ReservedUpdated(s, current.value, s.reservations[current.value].(state := Released), sku);
      }
    }
  }

  lemma FoundIsTheOne(rs: seq<Reservation>, owner: Owner, sku: Id)
    requires NoClash(rs) && Find(rs, owner, sku).Some?
    ensures forall n :: 0 <= n < |rs| && ActiveOf(rs[n], owner, sku) ==> n == Find(rs, owner, sku).value
  {
    var m := Find(rs, owner, sku).value;
    forall n | 0 <= n < |rs| && ActiveOf(rs[n], owner, sku) ensures n == m {
      assert Clash(rs[m], rs[n]) && Clash(rs[n], rs[m]);
    }
  }

  /** After a granted request for a tracked SKU the cart's one active row of it carries the quantity and the expiry that
      were asked for. */
  lemma GrantedRowIsAsAsked(s: Store, cart: Id, sku: Id, desired: int, expires: int)
    requires NoClash(s.reservations) && Reserve(s, cart, sku, desired, expires).Committed?
    requires s.skus[sku].stock.Some? && desired > 0
    ensures var t := Reserve(s, cart, sku, desired, expires).store;
            exists n :: 0 <= n < |t.reservations| && t.reservations[n] == Reservation(sku, Cart(cart), desired, expires, Active)
  {
    ReserveWritesTheRow(s, cart, sku, desired, expires);
    var t := Reserve(s, cart, sku, desired, expires).store;
    var current := Find(s.reservations, Cart(cart), sku);
    var n := if current.Some? then current.value else |s.reservations|;
    assert t.reservations[n] == Reservation(sku, Cart(cart), desired, expires, Active);
  }

  /** A transfer is refused if a row of the cart has expired, if there is one and the new expiry is already past, or if
      the order already holds a SKU of the cart; otherwise it writes order and expiry into exactly the cart's active
      rows. */
  lemma TransferIsExact(s: Store, cart: Id, order: Id, expires: int)
    ensures var rs, result := s.reservations, Transfer(s, cart, order, expires);
            var cartRows := set n | 0 <= n < |rs| && rs[n].state == Active && rs[n].owner == Cart(cart);
            if (exists n :: n in cartRows && rs[n].expires <= s.now) || (cartRows != {} && expires <= s.now)
            then result == Raised(ReservationExpired)
            else if exists m, n :: m in cartRows && 0 <= n < |rs| && rs[n].state == Active && rs[n].owner == Order(order)
                                   && rs[n].sku == rs[m].sku
            then result == Raised(DuplicateReservation)
            else
              && result.Committed? && result.store.skus == s.skus && result.store.now == s.now
              && |result.store.reservations| == |rs|
              && forall n :: 0 <= n < |rs| ==>
                   result.store.reservations[n] ==
                   (if n in cartRows then Reservation(rs[n].sku, Order(order), rs[n].quantity, expires, Active) else rs[n])
  {
    var rs := s.reservations;
    var cartRows := set n | 0 <= n < |rs| && rs[n].state == Active && rs[n].owner == Cart(cart);
    assert forall n :: 0 <= n < |rs| ==> (n in cartRows <==> Held(rs[n], Cart(cart)));
    assert AnyHeld(s, Cart(cart)) <==> cartRows != {};
    assert AnyExpired(s, Cart(cart)) <==> exists n :: n in cartRows && rs[n].expires <= s.now;
    assert WouldDuplicate(s, cart, order) <==>
           exists m, n :: m in cartRows && 0 <= n < |rs| && rs[n].state == Active && rs[n].owner == Order(order) && rs[n].sku == rs[m].sku;
  }
}
