/** Stock, reservations and stock corrections: the commands that move them, as functions on the stored rows. */
module Stock {
  import opened Wrappers

  type Id = nat

  datatype ReservationState = Active | Released | Consumed

  datatype Owner = Cart(id: Id) | Order(id: Id)

  datatype Reservation = Reservation(sku: Id, owner: Owner, quantity: int, expires: int, state: ReservationState)

  /** A SKU row with the active flag of its product; `stock` is `None` when unlimited. */
  datatype Sku = Sku(stock: Option<int>, active: bool, productActive: bool)

  /** The rows at one moment; a reservation's position stands for its primary key. */
  datatype Store = Store(now: int, skus: map<Id, Sku>, reservations: seq<Reservation>)

  datatype Error =
    | InvalidQuantity | SkuNotFound | ReservationExpired | SkuInactive | InsufficientStock | DuplicateReservation
    | StockChanged | StockBelowReserved

  datatype Inventory = Inventory(stock: Option<int>, reserved: int, available: Option<int>, active: bool)

  /** A command either commits a new store or raises, which rolls its transaction back. */
  datatype Result = Committed(store: Store) | Raised(error: Error)

  // ---------- sums over reservations ----------

  function Total(rs: seq<Reservation>, weight: Reservation -> int): int {
    if rs == [] then 0 else Total(rs[..|rs| - 1], weight) + weight(rs[|rs| - 1])
  }

  predicate Live(r: Reservation, now: int) {
    r.state == Active && r.expires > now
  }

  function LiveQuantity(sku: Id, now: int): Reservation -> int {
    (r: Reservation) => if r.sku == sku && Live(r, now) then r.quantity else 0
  }

  function ConsumedQuantity(sku: Id): Reservation -> int {
    (r: Reservation) => if r.sku == sku && r.state == Consumed then r.quantity else 0
  }

  /** The sum both `correct_stock` and `reserve` select. */
  function Reserved(s: Store, sku: Id): int {
    Total(s.reservations, LiveQuantity(sku, s.now))
  }

  // ---------- the inventory list's grouped sum ----------

  function Add(groups: map<Id, int>, sku: Id, quantity: int): map<Id, int> {
    groups[sku := (if sku in groups then groups[sku] else 0) + quantity]
  }

  /** The grouped subquery: one row per SKU that has a live reservation, none for the others. */
  function Grouped(rs: seq<Reservation>, now: int): map<Id, int> {
    if rs == [] then map[]
    else
      var groups := Grouped(rs[..|rs| - 1], now);
      var r := rs[|rs| - 1];
      if Live(r, now) then Add(groups, r.sku, r.quantity) else groups
  }

  /** A row of the inventory list: the SKU outer-joined with the grouped sums. */
  function InventoryRow(s: Store, sku: Id): Inventory
    requires sku in s.skus
  {
    var groups := Grouped(s.reservations, s.now);
    var reserved := if sku in groups then groups[sku] else 0;
    Inventory(s.skus[sku].stock, reserved,
              (match s.skus[sku].stock case None => None case Some(q) => Some(q - reserved)),
              s.skus[sku].active)
  }

  // ---------- commands ----------

  function WithStock(s: Store, sku: Id, stock: Option<int>): Store
    requires sku in s.skus
  {
    s.(skus := s.skus[sku := s.skus[sku].(stock := stock)])
  }

  function WithReservation(s: Store, n: nat, r: Reservation): Store
    requires n < |s.reservations|
  {
    s.(reservations := s.reservations[n := r])
  }

  function CorrectStock(s: Store, sku: Id, expected: Option<int>, quantity: Option<int>): Result {
    if (expected.Some? && expected.value < 0) || (quantity.Some? && quantity.value < 0) then Raised(InvalidQuantity)
    else if sku !in s.skus then Raised(SkuNotFound)
    else if s.skus[sku].stock != expected then Raised(StockChanged)
    else if quantity.Some? && quantity.value < Reserved(s, sku) then Raised(StockBelowReserved)
    else Committed(WithStock(s, sku, quantity))
  }

  /** What `correct_stock` reports after its change, computed from the direct sum. */
  function CorrectedRow(s: Store, sku: Id, quantity: Option<int>): Inventory
    requires sku in s.skus
  {
    var reserved := Reserved(s, sku);
    Inventory(quantity, reserved, (match quantity case None => None case Some(q) => Some(q - reserved)), s.skus[sku].active)
  }

  predicate ActiveOf(r: Reservation, owner: Owner, sku: Id) {
    r.state == Active && r.owner == owner && r.sku == sku
  }

  /** The owner's active reservation of a SKU, if any. */
  function Find(rs: seq<Reservation>, owner: Owner, sku: Id): (found: Option<nat>)
    ensures found.Some? ==> found.value < |rs| && ActiveOf(rs[found.value], owner, sku)
    ensures found.None? ==> forall n :: 0 <= n < |rs| ==> !ActiveOf(rs[n], owner, sku)
  {
    if rs == [] then None
    else if ActiveOf(rs[|rs| - 1], owner, sku) then Some(|rs| - 1)
    else Find(rs[..|rs| - 1], owner, sku)
  }

  function ReleaseAt(s: Store, current: Option<nat>): Store
    requires current.Some? ==> current.value < |s.reservations|
  {
    match current
    case None => s
    case Some(n) => WithReservation(s, n, s.reservations[n].(state := Released))
  }

  /** Makes `row` the cart's reservation, in place of the current one if there is one; an empty row only releases. */
  function WithCartRow(s: Store, current: Option<nat>, row: Reservation): Store
    requires current.Some? ==> current.value < |s.reservations|
  {
    if row.quantity == 0 then ReleaseAt(s, current)
    else
      match current
      case None => s.(reservations := s.reservations + [row])
      case Some(n) => WithReservation(s, n, s.reservations[n].(quantity := row.quantity, expires := row.expires))
  }

  function Reserve(s: Store, cart: Id, sku: Id, desired: int, expires: int): Result {
    if desired < 0 then Raised(InvalidQuantity)
    else if sku !in s.skus then Raised(SkuNotFound)
    else
      var current := Find(s.reservations, Cart(cart), sku);
      var held := if current.Some? then s.reservations[current.value].quantity else 0;
      if current.Some? && s.reservations[current.value].expires <= s.now then Raised(ReservationExpired)
      else if (!s.skus[sku].active || !s.skus[sku].productActive) && desired > held then Raised(SkuInactive)
      else if desired > 0 && expires <= s.now then Raised(ReservationExpired)
      else
        match s.skus[sku].stock
        case None => Committed(ReleaseAt(s, current))
        case Some(stock) =>
          if desired > stock - Reserved(ReleaseAt(s, current), sku) then Raised(InsufficientStock)
          else Committed(WithCartRow(s, current, Reservation(sku, Cart(cart), desired, expires, Active)))
  }

  predicate Held(r: Reservation, owner: Owner) {
    r.state == Active && r.owner == owner
  }

  /** Releases every active reservation of a cart or an order, expired or not. */
  function ReleaseAll(s: Store, owner: Owner): Store {
    s.(reservations := seq(|s.reservations|, n requires 0 <= n < |s.reservations| =>
         if Held(s.reservations[n], owner) then s.reservations[n].(state := Released) else s.reservations[n]))
  }

  predicate AnyExpired(s: Store, owner: Owner) {
    exists n :: 0 <= n < |s.reservations| && Held(s.reservations[n], owner) && s.reservations[n].expires <= s.now
  }

  predicate AnyHeld(s: Store, owner: Owner) {
    exists n :: 0 <= n < |s.reservations| && Held(s.reservations[n], owner)
  }

  /** The unique index on active order reservations refuses a second one of the same SKU. */
  predicate WouldDuplicate(s: Store, cart: Id, order: Id) {
    exists m, n :: 0 <= m < |s.reservations| && 0 <= n < |s.reservations| &&
      Held(s.reservations[m], Cart(cart)) && ActiveOf(s.reservations[n], Order(order), s.reservations[m].sku)
  }

  function Transfer(s: Store, cart: Id, order: Id, expires: int): Result {
    if AnyExpired(s, Cart(cart)) then Raised(ReservationExpired)
    else if AnyHeld(s, Cart(cart)) && expires <= s.now then Raised(ReservationExpired)
    else if WouldDuplicate(s, cart, order) then Raised(DuplicateReservation)
    else Committed(s.(reservations := seq(|s.reservations|, n requires 0 <= n < |s.reservations| =>
           if Held(s.reservations[n], Cart(cart)) then s.reservations[n].(owner := Order(order), expires := expires)
           else s.reservations[n])))
  }

  /** Consumes one reservation, taking its quantity out of tracked stock. */
  function ConsumeAt(s: Store, n: nat): Result
    requires n < |s.reservations|
  {
    var r := s.reservations[n];
    if r.sku !in s.skus then Raised(SkuNotFound)
    else
      var consumed := WithReservation(s, n, r.(state := Consumed));
      match s.skus[r.sku].stock
      case None => Committed(consumed)
      case Some(stock) =>
        if stock < r.quantity then Raised(InsufficientStock)
        else Committed(WithStock(consumed, r.sku, Some(stock - r.quantity)))
  }

  /** Consumes the owner's reservations among the first `n`, in order. */
  function ConsumeFirst(s: Store, owner: Owner, n: nat): Result
    requires n <= |s.reservations|
    ensures ConsumeFirst(s, owner, n).Committed? ==> |ConsumeFirst(s, owner, n).store.reservations| == |s.reservations|
  {
    if n == 0 then Committed(s)
    else
      match ConsumeFirst(s, owner, n - 1)
      case Raised(e) => Raised(e)
      case Committed(t) => if Held(t.reservations[n - 1], owner) then ConsumeAt(t, n - 1) else Committed(t)
  }

  function ConsumeOrder(s: Store, order: Id): Result {
    if AnyExpired(s, Order(order)) then Raised(ReservationExpired)
    else ConsumeFirst(s, Order(order), |s.reservations|)
  }
}
