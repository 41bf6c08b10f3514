/** The audit log query: a union of every table an event may target, outer-joined to the log, filtered under SQL's
    three-valued logic, ordered and paged. */
module AuditQuery {
  import opened Wrappers

  type Id = nat

  // ---------- tables, each in its stored order ----------

  datatype User = User(id: Id, displayName: Option<string>, phone: string)
  datatype Named = Named(id: Id, name: string)
  datatype Category = Category(id: Id, name: string, slug: string)
  datatype Model = Model(id: Id, manufacturer: string, name: string)
  datatype Delivery = Delivery(id: Id, notification: Id)
  datatype Log = Log(id: Id, actor: Option<Id>, action: string, targetType: string, target: Option<Id>, created: int)

  /** `shop` holds the primary keys of the shop settings rows. */
  datatype Database = Database(
    users: seq<User>, orders: seq<Named>, requests: seq<Named>, categories: seq<Category>, products: seq<Named>,
    skus: seq<Named>, models: seq<Model>, serviceTypes: seq<Named>, deliveries: seq<Delivery>,
    notifications: seq<Named>, shop: seq<int>, logs: seq<Log>)

  const SHOP_LABEL := "הגדרות החנות"

  // ---------- the union ----------

  datatype Target = Target(id: Option<Id>, kind: string, title: Option<string>, reference: Option<string>)

  function Coalesce(a: Option<string>, b: string): string {
    match a case Some(value) => value case None => b
  }

  function UserTargets(rows: seq<User>): seq<Target> {
    seq(|rows|, i requires 0 <= i < |rows| =>
      Target(Some(rows[i].id), "user", Some(Coalesce(rows[i].displayName, rows[i].phone)), Some(rows[i].phone)))
  }

  /** A table whose name column is the label, and the reference too when `referenced`. */
  function NamedTargets(rows: seq<Named>, kind: string, referenced: bool): seq<Target> {
    seq(|rows|, i requires 0 <= i < |rows| =>
      Target(Some(rows[i].id), kind, Some(rows[i].name), if referenced then Some(rows[i].name) else None))
  }

  function CategoryTargets(rows: seq<Category>): seq<Target> {
    seq(|rows|, i requires 0 <= i < |rows| =>
      Target(Some(rows[i].id), "category", Some(rows[i].name), Some(rows[i].slug)))
  }

  function ModelTargets(rows: seq<Model>): seq<Target> {
    seq(|rows|, i requires 0 <= i < |rows| =>
      Target(Some(rows[i].id), "machine_model", Some(rows[i].manufacturer + " " + rows[i].name), Some(rows[i].name)))
  }

  /** Deliveries inner-joined with the notification they deliver. */
  function DeliveryTargets(rows: seq<Delivery>, notifications: seq<Named>): seq<Target> {
    if rows == [] then []
    else DeliveryTargets(rows[..|rows| - 1], notifications) + TitlesOf(rows[|rows| - 1], notifications)
  }

  function TitlesOf(d: Delivery, notifications: seq<Named>): seq<Target> {
    if notifications == [] then []
    else
      var n := notifications[|notifications| - 1];
      TitlesOf(d, notifications[..|notifications| - 1])
      + if n.id == d.notification then [Target(Some(d.id), "notification_delivery", Some(n.name), None)] else []
  }

  function ShopTargets(rows: seq<int>): seq<Target> {
    seq(|rows|, i requires 0 <= i < |rows| => Target(None, "shop_settings", Some(SHOP_LABEL), None))
  }

  /** One `select` of the union, by its position in the statement. */
  function Part(db: Database, n: nat): seq<Target> {
    match n
    case 0 => UserTargets(db.users)
    case 1 => NamedTargets(db.orders, "order", true)
    case 2 => NamedTargets(db.requests, "service_request", true)
    case 3 => CategoryTargets(db.categories)
    case 4 => NamedTargets(db.products, "product", false)
    case 5 => NamedTargets(db.skus, "product_sku", true)
    case 6 => ModelTargets(db.models)
    case 7 => NamedTargets(db.serviceTypes, "service_type", false)
    case 8 => DeliveryTargets(db.deliveries, db.notifications)
    case 9 => ShopTargets(db.shop)
    case _ => []
  }

  const KINDS := ["user", "order", "service_request", "category", "product", "product_sku", "machine_model",
                  "service_type", "notification_delivery", "shop_settings"]

  function Parts(db: Database): (parts: seq<seq<Target>>)
    ensures |parts| == |KINDS|
  {
    seq(10, n requires 0 <= n < 10 => Part(db, n))
  }

  function UnionAll(parts: seq<seq<Target>>): seq<Target> {
    if parts == [] then [] else UnionAll(parts[..|parts| - 1]) + parts[|parts| - 1]
  }

  // ---------- the joins ----------

  /** `kind = target_type and id is not distinct from target_id`, which matches NULL with NULL. */
  predicate TargetMatches(t: Target, log: Log) {
    t.kind == log.targetType && t.id == log.target
  }

  function Matching(targets: seq<Target>, log: Log): seq<Target> {
    if targets == [] then []
    else Matching(targets[..|targets| - 1], log)
         + if TargetMatches(targets[|targets| - 1], log) then [targets[|targets| - 1]] else []
  }

  /** `users.id = actor_id`, which is unknown for a NULL actor. */
  function Actors(users: seq<User>, log: Log): seq<User> {
    if users == [] then []
    else Actors(users[..|users| - 1], log)
         + if log.actor == Some(users[|users| - 1].id) then [users[|users| - 1]] else []
  }

  /** An outer join keeps a row without a partner. */
  function OrNull<T>(rows: seq<T>): (r: seq<Option<T>>)
    ensures |r| >= 1
  {
    if rows == [] then [None] else seq(|rows|, i requires 0 <= i < |rows| => Some(rows[i]))
  }

  datatype Row = Row(log: Log, actor: Option<User>, target: Option<Target>)

  function RowsFor(log: Log, actor: Option<User>, targets: seq<Option<Target>>): seq<Row> {
    seq(|targets|, i requires 0 <= i < |targets| => Row(log, actor, targets[i]))
  }

  function Product(log: Log, actors: seq<Option<User>>, targets: seq<Option<Target>>): seq<Row> {
    if actors == [] then []
    else Product(log, actors[..|actors| - 1], targets) + RowsFor(log, actors[|actors| - 1], targets)
  }

  function JoinedRows(db: Database, log: Log): seq<Row> {
    Product(log, OrNull(Actors(db.users, log)), OrNull(Matching(UnionAll(Parts(db)), log)))
  }

  function Joined(db: Database, logs: seq<Log>): seq<Row> {
    if logs == [] then [] else Joined(db, logs[..|logs| - 1]) + JoinedRows(db, logs[|logs| - 1])
  }

  // ---------- the filters ----------

  datatype Truth = True | False | Unknown

  function Of(b: bool): Truth { if b then True else False }

  function Or(a: Truth, b: Truth): Truth {
    if a == True || b == True then True else if a == Unknown || b == Unknown then Unknown else False
  }

  /** Python's `strip` and the database's case folding. */
  datatype Text = Text(strip: string -> string, fold: string -> string)

  predicate OccursAt(needle: string, hay: string, i: nat) {
    i + |needle| <= |hay| && hay[i..i + |needle|] == needle
  }

  predicate Occurs(needle: string, hay: string) {
    exists i: nat :: i <= |hay| && OccursAt(needle, hay, i)
  }

  function IContains(text: Text, column: Option<string>, needle: string): Truth {
    match column
    case None => Unknown
    case Some(value) => Of(Occurs(text.fold(needle), text.fold(value)))
  }

  function Equals(column: Option<Id>, value: Id): Truth {
    match column case None => Unknown case Some(id) => Of(id == value)
  }

  datatype Params = Params(
    page: nat, limit: nat, action: string, q: string, targetType: string, target: Option<Id>, actor: Option<Id>,
    fromTime: Option<int>, toTime: Option<int>)

  function LabelOf(row: Row): Option<string> {
    match row.target case None => None case Some(t) => t.title
  }

  function ReferenceOf(row: Row): Option<string> {
    match row.target case None => None case Some(t) => t.reference
  }

  predicate SearchKeeps(text: Text, p: Params, row: Row) {
    var q := text.strip(p.q);
    q == "" || Or(IContains(text, LabelOf(row), q), IContains(text, ReferenceOf(row), q)) == True
  }

  /** The conditions on the log row itself. */
  predicate LogKeeps(text: Text, p: Params, log: Log) {
    && IContains(text, Some(log.action), text.strip(p.action)) == True
    && (p.targetType == "" || log.targetType == p.targetType)
    && (p.target.Some? ==> Equals(log.target, p.target.value) == True)
    && (p.actor.Some? ==> Equals(log.actor, p.actor.value) == True)
    && (p.fromTime.Some? ==> log.created >= p.fromTime.value)
    && (p.toTime.Some? ==> log.created < p.toTime.value)
  }

  predicate RowKeeps(text: Text, p: Params, row: Row) {
    LogKeeps(text, p, row.log) && SearchKeeps(text, p, row)
  }

  function Where(rows: seq<Row>, keep: Row -> bool): seq<Row> {
    if rows == [] then []
    else Where(rows[..|rows| - 1], keep) + if keep(rows[|rows| - 1]) then [rows[|rows| - 1]] else []
  }

  // ---------- order and pages ----------

  /** Newest first, then by descending id. */
  predicate Before(a: Log, b: Log) {
    a.created > b.created || (a.created == b.created && a.id > b.id)
  }

  function Insert(row: Row, rows: seq<Row>): seq<Row> {
    if rows == [] || !Before(rows[0].log, row.log) then [row] + rows
    else [rows[0]] + Insert(row, rows[1..])
  }

  function OrderBy(rows: seq<Row>): seq<Row> {
    if rows == [] then [] else Insert(rows[0], OrderBy(rows[1..]))
  }

  function Least(a: nat, b: nat): nat { if a < b then a else b }

  /** Offset and limit. */
  function PageOf<T>(rows: seq<T>, page: nat, limit: nat): seq<T>
    requires page >= 1
  {
    var first := Least((page - 1) * limit, |rows|);
    rows[first..Least(first + limit, |rows|)]
  }

  function Selected(text: Text, db: Database, p: Params): seq<Row> {
    OrderBy(Where(Joined(db, db.logs), row => RowKeeps(text, p, row)))
  }

  function AuditLogs(text: Text, db: Database, p: Params): seq<Row>
    requires p.page >= 1
  {
    PageOf(Selected(text, db, p), p.page, p.limit)
  }
}
