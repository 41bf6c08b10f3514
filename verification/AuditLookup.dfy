/** The audit query agrees with looking up each log's actor and target by hand. */
module AuditLookup {
  import opened Wrappers
  import opened AuditQuery

  // ---------- the per-row specification ----------

  function IndexOf(kinds: seq<string>, kind: string): (index: Option<nat>)
    ensures index.Some? ==> index.value < |kinds| && kinds[index.value] == kind
    ensures index.None? ==> kind !in kinds
  {
    if kinds == [] then None
    else if kinds[|kinds| - 1] == kind then Some(|kinds| - 1)
    else IndexOf(kinds[..|kinds| - 1], kind)
  }

  function FindTarget(rows: seq<Target>, id: Option<Id>): Option<Target> {
    if rows == [] then None
    else if rows[|rows| - 1].id == id then Some(rows[|rows| - 1])
    else FindTarget(rows[..|rows| - 1], id)
  }

  function FindUser(users: seq<User>, id: Option<Id>): Option<User> {
    if users == [] then None
    else if id == Some(users[|users| - 1].id) then Some(users[|users| - 1])
    else FindUser(users[..|users| - 1], id)
  }

  /** The target of one log, looked up in the one table its kind names. */
  function TargetOf(db: Database, log: Log): Option<Target> {
    match IndexOf(KINDS, log.targetType)
    case None => None
    case Some(n) => FindTarget(Part(db, n), log.target)
  }

  function RowOf(db: Database, log: Log): Row {
    Row(log, FindUser(db.users, log.actor), TargetOf(db, log))
  }

  function RowsOf(db: Database, logs: seq<Log>): seq<Row> {
    if logs == [] then [] else RowsOf(db, logs[..|logs| - 1]) + [RowOf(db, logs[|logs| - 1])]
  }

  // ---------- what the schema guarantees ----------

  ghost predicate DistinctIds(rows: seq<Target>) {
    forall i, j :: 0 <= i < j < |rows| ==> rows[i].id != rows[j].id
  }

  ghost predicate UniqueNamed(rows: seq<Named>) {
    forall i, j :: 0 <= i < j < |rows| ==> rows[i].id != rows[j].id
  }

  /** Primary keys are unique, and the check constraint makes the shop settings a singleton. */
  ghost predicate Keyed(db: Database) {
    && (forall i, j :: 0 <= i < j < |db.users| ==> db.users[i].id != db.users[j].id)
    && (forall i, j :: 0 <= i < j < |db.categories| ==> db.categories[i].id != db.categories[j].id)
    && (forall i, j :: 0 <= i < j < |db.models| ==> db.models[i].id != db.models[j].id)
    && (forall i, j :: 0 <= i < j < |db.deliveries| ==> db.deliveries[i].id != db.deliveries[j].id)
    && UniqueNamed(db.orders) && UniqueNamed(db.requests) && UniqueNamed(db.products) && UniqueNamed(db.skus)
    && UniqueNamed(db.serviceTypes) && UniqueNamed(db.notifications)
    && |set key | key in db.shop| == |db.shop|
    && (forall i :: 0 <= i < |db.shop| ==> db.shop[i] == 1)
  }

  // ---------- each part of the union ----------

  lemma {:induction false} TitlesOfOne(d: Delivery, notifications: seq<Named>)
    requires UniqueNamed(notifications)
    ensures |TitlesOf(d, notifications)| <= 1
    ensures (forall i :: 0 <= i < |notifications| ==> notifications[i].id != d.notification) ==> TitlesOf(d, notifications) == []
    ensures forall t :: t in TitlesOf(d, notifications) ==> t.id == Some(d.id) && t.kind == "notification_delivery"
  {
    if notifications != [] {
      TitlesOfOne(d, notifications[..|notifications| - 1]);
    }
  }

  lemma {:induction false} DeliveryIds(rows: seq<Delivery>, notifications: seq<Named>, t: Target)
    requires UniqueNamed(notifications) && t in DeliveryTargets(rows, notifications)
    ensures t.kind == "notification_delivery" && exists i :: 0 <= i < |rows| && t.id == Some(rows[i].id)
  {
    var last := |rows| - 1;
    TitlesOfOne(rows[last], notifications);
    if t in DeliveryTargets(rows[..last], notifications) {
      DeliveryIds(rows[..last], notifications, t);
      var i :| 0 <= i < last && t.id == Some(rows[..last][i].id);
      assert t.id == Some(rows[i].id);
    } else {
      assert t.id == Some(rows[last].id);
    }
  }

  lemma {:induction false} DeliveryPart(rows: seq<Delivery>, notifications: seq<Named>)
    requires UniqueNamed(notifications)
    requires forall i, j :: 0 <= i < j < |rows| ==> rows[i].id != rows[j].id
    ensures DistinctIds(DeliveryTargets(rows, notifications))
  {
    if rows != [] {
      var last := |rows| - 1;
      var before := DeliveryTargets(rows[..last], notifications);
      DeliveryPart(rows[..last], notifications);
      TitlesOfOne(rows[last], notifications);
      forall t | t in before ensures t.id != Some(rows[last].id) {
        DeliveryIds(rows[..last], notifications, t);
      }
    }
  }

  lemma SubsetSize(a: set<int>, b: set<int>)
    requires a <= b
    ensures |a| <= |b|
  {
    assert b == a + (b - a);
  }

  /** Every part holds targets of its own kind only, each id at most once. */
  lemma PartIsKeyed(db: Database, n: nat)
    requires Keyed(db) && n < |KINDS|
    ensures DistinctIds(Part(db, n))
    ensures forall t :: t in Part(db, n) ==> t.kind == KINDS[n]
  {
    if n == 8 {
      DeliveryPart(db.deliveries, db.notifications);
      forall t | t in Part(db, 8) ensures t.kind == KINDS[8] {
        DeliveryIds(db.deliveries, db.notifications, t);
      }
    } else if n == 9 {
      SubsetSize(set key | key in db.shop, {1});
    }
  }

  // ---------- what a lookup finds ----------

  lemma KindAt(n: nat)
    requires n < |KINDS|
    ensures IndexOf(KINDS, KINDS[n]) == Some(n)
  {
    assert forall i, j :: 0 <= i < j < |KINDS| ==> KINDS[i] != KINDS[j];
  }

  /** A lookup fails exactly when no row has the id. */
  lemma {:induction false} FoundUnlessGone(rows: seq<Target>, id: Option<Id>)
    ensures var found := FindTarget(rows, id);
            if found.Some? then found.value in rows && found.value.id == id
            else forall i :: 0 <= i < |rows| ==> rows[i].id != id
  {
    if rows != [] && rows[|rows| - 1].id != id {
      FoundUnlessGone(rows[..|rows| - 1], id);
    }
  }

  lemma FoundIsIt(rows: seq<Target>, t: Target)
    requires DistinctIds(rows) && t in rows
    ensures FindTarget(rows, t.id) == Some(t)
  {
    var i :| 0 <= i < |rows| && rows[i] == t;
    FoundUnlessGone(rows, t.id);
    var found := FindTarget(rows, t.id).value;
    var j :| 0 <= j < |rows| && rows[j] == found;
  }

  /** A log finds the row of its kind that carries its target's id. */
  lemma FoundInPart(db: Database, log: Log, n: nat, t: Target)
    requires Keyed(db) && n < |KINDS| && t in Part(db, n) && log.targetType == KINDS[n] && log.target == t.id
    ensures TargetOf(db, log) == Some(t)
  {
    KindAt(n);
    PartIsKeyed(db, n);
    FoundIsIt(Part(db, n), t);
  }

  /** The log is about the row with this id of the given kind. */
  predicate About(log: Log, kind: string, id: Id) {
    log.targetType == kind && log.target == Some(id)
  }

  /** The label and the reference a log's target is shown with. */
  predicate ShownAs(db: Database, log: Log, title: string, reference: Option<string>) {
    TargetOf(db, log) == Some(Target(log.target, log.targetType, Some(title), reference))
  }

  /** Users are labelled by their name, or by their phone if they have none. */
  lemma UsersAreLabelled(db: Database, log: Log, i: nat)
    requires Keyed(db) && i < |db.users| && About(log, "user", db.users[i].id)
    ensures var user := db.users[i];
            ShownAs(db, log, if user.displayName.Some? then user.displayName.value else user.phone, Some(user.phone))
  {
    FoundInPart(db, log, 0, Part(db, 0)[i]);
  }

  /** The tables whose rows are labelled by one name column. */
  function NamedTable(db: Database, kind: string): seq<Named> {
    if kind == "order" then db.orders else if kind == "service_request" then db.requests
    else if kind == "product" then db.products else if kind == "product_sku" then db.skus
    else if kind == "service_type" then db.serviceTypes else []
  }

  /** Orders, service requests and SKUs are labelled and referenced by their own code, products and service types
      only labelled. */
  lemma NamedAreLabelled(db: Database, log: Log, i: nat)
    requires Keyed(db) && i < |NamedTable(db, log.targetType)|
    requires log.target == Some(NamedTable(db, log.targetType)[i].id)
    ensures var name := NamedTable(db, log.targetType)[i].name;
            ShownAs(db, log, name, if log.targetType in ["product", "service_type"] then None else Some(name))
  {
    var n := if log.targetType == "order" then 1 else if log.targetType == "service_request" then 2
             else if log.targetType == "product" then 4 else if log.targetType == "product_sku" then 5 else 7;
    FoundInPart(db, log, n, Part(db, n)[i]);
  }

  /** Categories are labelled by name and referenced by slug. */
  lemma CategoriesAreLabelled(db: Database, log: Log, i: nat)
    requires Keyed(db) && i < |db.categories| && About(log, "category", db.categories[i].id)
    ensures ShownAs(db, log, db.categories[i].name, Some(db.categories[i].slug))
  {
    FoundInPart(db, log, 3, Part(db, 3)[i]);
  }

  /** Machine models are labelled by maker and name and referenced by name. */
  lemma ModelsAreLabelled(db: Database, log: Log, i: nat)
    requires Keyed(db) && i < |db.models| && About(log, "machine_model", db.models[i].id)
    ensures ShownAs(db, log, db.models[i].manufacturer + " " + db.models[i].name, Some(db.models[i].name))
  {
    FoundInPart(db, log, 6, Part(db, 6)[i]);
  }

  lemma {:induction false} TitleIsThere(d: Delivery, notifications: seq<Named>, j: nat)
    requires j < |notifications| && notifications[j].id == d.notification
    ensures Target(Some(d.id), "notification_delivery", Some(notifications[j].name), None) in TitlesOf(d, notifications)
  {
    if j < |notifications| - 1 {
      TitleIsThere(d, notifications[..|notifications| - 1], j);
    }
  }

  lemma {:induction false} DeliveryIsThere(rows: seq<Delivery>, notifications: seq<Named>, i: nat, t: Target)
    requires i < |rows| && t in TitlesOf(rows[i], notifications)
    ensures t in DeliveryTargets(rows, notifications)
  {
    if i < |rows| - 1 {
      DeliveryIsThere(rows[..|rows| - 1], notifications, i, t);
    }
  }

  /** Deliveries are labelled by the title of the notification they deliver. */
  lemma DeliveriesAreLabelled(db: Database, log: Log, i: nat, j: nat)
    requires Keyed(db) && i < |db.deliveries| && About(log, "notification_delivery", db.deliveries[i].id)
    requires j < |db.notifications| && db.notifications[j].id == db.deliveries[i].notification
    ensures ShownAs(db, log, db.notifications[j].name, None)
  {
    var t := Target(log.target, "notification_delivery", Some(db.notifications[j].name), None);
    TitleIsThere(db.deliveries[i], db.notifications, j);
    DeliveryIsThere(db.deliveries, db.notifications, i, t);
    FoundInPart(db, log, 8, t);
  }

  /** The settings have no id: a log of theirs has none either, and matches all the same. */
  lemma SettingsAreLabelled(db: Database, log: Log)
    requires Keyed(db) && db.shop != [] && log.targetType == "shop_settings"
    ensures log.target == None ==> ShownAs(db, log, SHOP_LABEL, None)
    ensures log.target != None ==> TargetOf(db, log) == None
  {
    KindAt(9);
    if log.target == None {
      FoundInPart(db, log, 9, Part(db, 9)[0]);
    } else {
      FoundUnlessGone(Part(db, 9), log.target);
    }
  }

  // ---------- the joins match at most one row ----------

  lemma {:induction false} MatchingConcat(a: seq<Target>, b: seq<Target>, log: Log)
    ensures Matching(a + b, log) == Matching(a, log) + Matching(b, log)
  {
    if b == [] {
      assert a + b == a;
    } else {
      assert (a + b)[..|a + b| - 1] == a + b[..|b| - 1];
      MatchingConcat(a, b[..|b| - 1], log);
    }
  }

  lemma {:induction false} OtherKindMatchesNothing(rows: seq<Target>, log: Log)
    requires forall t :: t in rows ==> t.kind != log.targetType
    ensures Matching(rows, log) == []
  {
    if rows != [] {
      OtherKindMatchesNothing(rows[..|rows| - 1], log);
    }
  }

  function Singleton<T>(o: Option<T>): seq<T> {
    match o case None => [] case Some(x) => [x]
  }

  lemma {:induction false} AbsentIdMatchesNothing(rows: seq<Target>, log: Log)
    requires forall i :: 0 <= i < |rows| ==> rows[i].id != log.target
    ensures Matching(rows, log) == []
  {
    if rows != [] {
      AbsentIdMatchesNothing(rows[..|rows| - 1], log);
    }
  }

  lemma {:induction false} OwnKindMatchesLookup(rows: seq<Target>, log: Log)
    requires DistinctIds(rows) && forall t :: t in rows ==> t.kind == log.targetType
    ensures Matching(rows, log) == Singleton(FindTarget(rows, log.target))
  {
    if rows != [] {
      var last := |rows| - 1;
      if rows[last].id == log.target {
        AbsentIdMatchesNothing(rows[..last], log);
      } else {
        OwnKindMatchesLookup(rows[..last], log);
      }
    }
  }

  /** Part `n` holds only targets of the `n`-th kind, and the kinds differ. */
  ghost predicate PartsKeyed(kinds: seq<string>, parts: seq<seq<Target>>) {
    && |parts| == |kinds|
    && (forall i, j :: 0 <= i < j < |kinds| ==> kinds[i] != kinds[j])
    && forall n :: 0 <= n < |parts| ==> DistinctIds(parts[n]) && forall t :: t in parts[n] ==> t.kind == kinds[n]
  }

  function FromParts(kinds: seq<string>, parts: seq<seq<Target>>, log: Log): seq<Target>
    requires |parts| == |kinds|
  {
    match IndexOf(kinds, log.targetType)
    case None => []
    case Some(n) => Singleton(FindTarget(parts[n], log.target))
  }

  /** The last part contributes its own lookup if the log names its kind, and nothing otherwise. */
  lemma LastPart(kinds: seq<string>, parts: seq<seq<Target>>, log: Log)
    requires PartsKeyed(kinds, parts) && parts != []
    ensures FromParts(kinds, parts, log) ==
            FromParts(kinds[..|kinds| - 1], parts[..|parts| - 1], log) + Matching(parts[|parts| - 1], log)
  {
    var last := |parts| - 1;
    if kinds[last] == log.targetType {
      OwnKindMatchesLookup(parts[last], log);
      assert kinds[last] !in kinds[..last];
    } else {
      OtherKindMatchesNothing(parts[last], log);
    }
  }

  lemma {:induction false} UnionMatchesLookup(kinds: seq<string>, parts: seq<seq<Target>>, log: Log)
    requires PartsKeyed(kinds, parts)
    ensures Matching(UnionAll(parts), log) == FromParts(kinds, parts, log)
  {
    if parts != [] {
      var last := |parts| - 1;
      UnionMatchesLookup(kinds[..last], parts[..last], log);
      MatchingConcat(UnionAll(parts[..last]), parts[last], log);
      LastPart(kinds, parts, log);
    }
  }

  lemma DatabasePartsAreKeyed(db: Database)
    requires Keyed(db)
    ensures PartsKeyed(KINDS, Parts(db))
  {
    forall n | 0 <= n < |KINDS|
      ensures DistinctIds(Parts(db)[n]) && forall t :: t in Parts(db)[n] ==> t.kind == KINDS[n]
    {
      PartIsKeyed(db, n);
    }
  }

  lemma {:induction false} ActorsMatchLookup(users: seq<User>, log: Log)
    requires forall i, j :: 0 <= i < j < |users| ==> users[i].id != users[j].id
    ensures Actors(users, log) == Singleton(FindUser(users, log.actor))
  {
    if users != [] {
      var last := |users| - 1;
      ActorsMatchLookup(users[..last], log);
      if log.actor == Some(users[last].id) {
        NoActor(users[..last], log);
      }
    }
  }

  lemma {:induction false} NoActor(users: seq<User>, log: Log)
    requires forall i :: 0 <= i < |users| ==> Some(users[i].id) != log.actor
    ensures Actors(users, log) == []
  {
    if users != [] {
      NoActor(users[..|users| - 1], log);
    }
  }

  lemma ProductOfOne(log: Log, actors: seq<User>, targets: seq<Target>, actor: Option<User>, target: Option<Target>)
    requires actors == Singleton(actor) && targets == Singleton(target)
    ensures Product(log, OrNull(actors), OrNull(targets)) == [Row(log, actor, target)]
  {
    assert OrNull(actors) == [actor];
    assert OrNull(targets) == [target];
    assert Product(log, [actor][..0], [target]) == [];
  }

  /** Joining a log with the ten-way union and with the users gives exactly one row: the one found by looking its
      actor and target up, with NULLs where they are gone or unknown. */
  lemma JoinIsLookup(db: Database, log: Log)
    requires Keyed(db)
    ensures JoinedRows(db, log) == [RowOf(db, log)]
  {
    DatabasePartsAreKeyed(db);
    UnionMatchesLookup(KINDS, Parts(db), log);
    ActorsMatchLookup(db.users, log);
    ProductOfOne(log, Actors(db.users, log), Matching(UnionAll(Parts(db)), log),
                 FindUser(db.users, log.actor), TargetOf(db, log));
  }

  lemma {:induction false} JoinedIsLookup(db: Database, logs: seq<Log>)
    requires Keyed(db)
    ensures Joined(db, logs) == RowsOf(db, logs)
  {
    if logs != [] {
      JoinedIsLookup(db, logs[..|logs| - 1]);
      JoinIsLookup(db, logs[|logs| - 1]);
    }
  }

  lemma {:induction false} FoundUser(users: seq<User>, id: Option<Id>)
    ensures var found := FindUser(users, id);
            if found.Some? then found.value in users && id == Some(found.value.id)
            else forall i :: 0 <= i < |users| ==> id != Some(users[i].id)
  {
    if users != [] && id != Some(users[|users| - 1].id) {
      FoundUser(users[..|users| - 1], id);
    }
  }

  /** A log's row names its actor, and nobody if the log has none or the user is gone. */
  lemma ActorsAreNamed(db: Database, log: Log)
    requires Keyed(db)
    ensures forall i :: 0 <= i < |db.users| && log.actor == Some(db.users[i].id) ==> RowOf(db, log).actor == Some(db.users[i])
    ensures (forall i :: 0 <= i < |db.users| ==> log.actor != Some(db.users[i].id)) ==> RowOf(db, log).actor == None
    ensures RowOf(db, log).log == log
  {
    FoundUser(db.users, log.actor);
    var found := FindUser(db.users, log.actor);
    if found.Some? {
      var j :| 0 <= j < |db.users| && db.users[j] == found.value;
    }
  }

  /** A log whose kind is unknown, or whose target is in no table of that kind, has no label and no reference. */
  lemma GoneTargetsAreNull(db: Database, log: Log)
    ensures log.targetType !in KINDS ==> TargetOf(db, log) == None
    ensures (forall n, t :: 0 <= n < |KINDS| && KINDS[n] == log.targetType && t in Part(db, n) ==> t.id != log.target) ==>
              TargetOf(db, log) == None
    ensures TargetOf(db, log) == None ==> LabelOf(RowOf(db, log)) == None && ReferenceOf(RowOf(db, log)) == None
  {
    var n := IndexOf(KINDS, log.targetType);
    if n.Some? {
      FoundUnlessGone(Part(db, n.value), log.target);
    }
  }

  // ---------- filters ----------

  /** Containing a text means having it somewhere between two others. */
  lemma OccursMeansInfix(needle: string, hay: string)
    ensures Occurs(needle, hay) <==> exists before, after :: hay == before + needle + after
  {
    if Occurs(needle, hay) {
      var i: nat :| i <= |hay| && OccursAt(needle, hay, i);
      assert hay == hay[..i] + needle + hay[i + |needle|..];
    }
    if exists before, after :: hay == before + needle + after {
      var before, after :| hay == before + needle + after;
      assert OccursAt(needle, hay, |before|);
    }
  }

  predicate Contains(text: Text, column: Option<string>, needle: string) {
    column.Some? && Occurs(text.fold(text.strip(needle)), text.fold(column.value))
  }

  /** What a reader of the query expects of a log, in two-valued terms: a missing label, reference, target or actor
      never matches what was asked for, and matches when nothing was asked. */
  predicate Wanted(text: Text, db: Database, p: Params, log: Log) {
    && Contains(text, Some(log.action), p.action)
    && (text.strip(p.q) == "" || (TargetOf(db, log).Some? &&
          (Contains(text, TargetOf(db, log).value.title, p.q) || Contains(text, TargetOf(db, log).value.reference, p.q))))
    && (p.targetType == "" || log.targetType == p.targetType)
    && (p.target == None || log.target == p.target)
    && (p.actor == None || log.actor == p.actor)
    && (p.fromTime.Some? ==> p.fromTime.value <= log.created)
    && (p.toTime.Some? ==> log.created < p.toTime.value)
  }

  lemma RowKeepsWanted(text: Text, db: Database, p: Params, log: Log)
    ensures RowKeeps(text, p, RowOf(db, log)) <==> Wanted(text, db, p, log)
  {
  }

  ghost predicate UniqueLogs(logs: seq<Log>) {
    forall i, j :: 0 <= i < j < |logs| ==> logs[i].id != logs[j].id
  }

  ghost predicate AllLookedUp(db: Database, rows: seq<Row>) {
    forall i :: 0 <= i < |rows| ==> rows[i] == RowOf(db, rows[i].log)
  }

  /** How often a log appears among the rows. */
  function Count(rows: seq<Row>, log: Log): nat {
    if rows == [] then 0 else Count(rows[..|rows| - 1], log) + if rows[|rows| - 1].log == log then 1 else 0
  }

  lemma CountAppended(rows: seq<Row>, row: Row, log: Log)
    ensures Count(rows + [row], log) == Count(rows, log) + if row.log == log then 1 else 0
  {
    assert (rows + [row])[..|rows|] == rows;
  }

  lemma WhereAppended(rows: seq<Row>, row: Row, keep: Row -> bool)
    ensures Where(rows + [row], keep) == Where(rows, keep) + if keep(row) then [row] else []
  {
    assert (rows + [row])[..|rows|] == rows;
  }

  lemma {:induction false} WhereKeepsLookups(db: Database, logs: seq<Log>, keep: Row -> bool)
    ensures AllLookedUp(db, Where(RowsOf(db, logs), keep))
  {
    if logs != [] {
      WhereKeepsLookups(db, logs[..|logs| - 1], keep);
      WhereAppended(RowsOf(db, logs[..|logs| - 1]), RowOf(db, logs[|logs| - 1]), keep);
    }
  }

  /** The filtered rows hold each log that passes exactly once, and no other. */
  lemma {:induction false} WhereKeepsEachOnce(db: Database, logs: seq<Log>, keep: Row -> bool, log: Log)
    requires UniqueLogs(logs)
    ensures Count(Where(RowsOf(db, logs), keep), log) == if log in logs && keep(RowOf(db, log)) then 1 else 0
  {
    if logs != [] {
      var first, last := logs[..|logs| - 1], logs[|logs| - 1];
      var before := Where(RowsOf(db, first), keep);
      WhereKeepsEachOnce(db, first, keep, log);
      WhereAppended(RowsOf(db, first), RowOf(db, last), keep);
      assert logs == first + [last];
      assert last !in first;
      if keep(RowOf(db, last)) {
        CountAppended(before, RowOf(db, last), log);
      } else {
        assert before + [] == before;
      }
    }
  }

  // ---------- order ----------

  ghost predicate Ordered(rows: seq<Row>) {
    forall i, j :: 0 <= i < j < |rows| ==> !Before(rows[j].log, rows[i].log)
  }

  /** Newest first; of logs of one moment the larger id first. */
  ghost predicate NewestFirst(rows: seq<Row>) {
    forall i, j :: 0 <= i < j < |rows| ==>
      || rows[i].log.created > rows[j].log.created
      || (rows[i].log.created == rows[j].log.created && rows[i].log.id >= rows[j].log.id)
  }

  lemma OrderedIsNewestFirst(rows: seq<Row>)
    ensures Ordered(rows) <==> NewestFirst(rows)
  {
  }

  lemma {:induction false} InsertKeepsOrder(row: Row, rows: seq<Row>)
    requires Ordered(rows)
    ensures Ordered(Insert(row, rows)) && multiset(Insert(row, rows)) == multiset(rows) + multiset{row}
  {
    if rows == [] || !Before(rows[0].log, row.log) {
      assert multiset([row] + rows) == multiset([row]) + multiset(rows);
    } else {
      InsertKeepsOrder(row, rows[1..]);
      var rest := Insert(row, rows[1..]);
      assert rows == [rows[0]] + rows[1..];
      assert multiset([rows[0]] + rest) == multiset([rows[0]]) + multiset(rest);
      forall j | 0 <= j < |rest| ensures !Before(rest[j].log, rows[0].log) {
        assert rest[j] in multiset(rest);
        if rest[j] != row {
          assert rest[j] in rows[1..];
        }
      }
    }
  }

  lemma {:induction false} OrderByOrders(rows: seq<Row>)
    ensures Ordered(OrderBy(rows)) && multiset(OrderBy(rows)) == multiset(rows)
  {
    if rows != [] {
      OrderByOrders(rows[1..]);
      InsertKeepsOrder(rows[0], OrderBy(rows[1..]));
      assert rows == [rows[0]] + rows[1..];
    }
  }

  lemma {:induction false} CountConcat(a: seq<Row>, b: seq<Row>, log: Log)
    ensures Count(a + b, log) == Count(a, log) + Count(b, log)
  {
    if b == [] {
      assert a + b == a;
    } else {
      assert (a + b)[..|a + b| - 1] == a + b[..|b| - 1];
      CountConcat(a, b[..|b| - 1], log);
    }
  }

  lemma {:induction false} InsertCounts(row: Row, rows: seq<Row>, log: Log)
    ensures Count(Insert(row, rows), log) == Count([row], log) + Count(rows, log)
  {
    if rows == [] || !Before(rows[0].log, row.log) {
      CountConcat([row], rows, log);
    } else {
      InsertCounts(row, rows[1..], log);
      CountConcat([rows[0]], Insert(row, rows[1..]), log);
      CountConcat([rows[0]], rows[1..], log);
      assert rows == [rows[0]] + rows[1..];
    }
  }

  lemma {:induction false} OrderByCounts(rows: seq<Row>, log: Log)
    ensures Count(OrderBy(rows), log) == Count(rows, log)
  {
    if rows != [] {
      OrderByCounts(rows[1..], log);
      InsertCounts(rows[0], OrderBy(rows[1..]), log);
      CountConcat([rows[0]], rows[1..], log);
      assert rows == [rows[0]] + rows[1..];
    }
  }

  // ---------- the query ----------

  /** Over the whole query: the rows are in order, each log that satisfies the filters appears exactly once whether
      or not its actor and target still exist, and every row is what the per-row lookup gives. */
  lemma QueryIsLookup(text: Text, db: Database, p: Params, log: Log)
    requires Keyed(db) && UniqueLogs(db.logs)
    ensures NewestFirst(Selected(text, db, p))
    ensures AllLookedUp(db, Selected(text, db, p))
    ensures Count(Selected(text, db, p), log) == if log in db.logs && Wanted(text, db, p, log) then 1 else 0
  {
    JoinedIsLookup(db, db.logs);
    var keep := row => RowKeeps(text, p, row);
    var kept := Where(RowsOf(db, db.logs), keep);
    WhereKeepsLookups(db, db.logs, keep);
    WhereKeepsEachOnce(db, db.logs, keep, log);
    RowKeepsWanted(text, db, p, log);
    OrderByOrders(kept);
    OrderedIsNewestFirst(OrderBy(kept));
    OrderByCounts(kept, log);
    forall i | 0 <= i < |OrderBy(kept)| ensures OrderBy(kept)[i] == RowOf(db, OrderBy(kept)[i].log) {
      assert OrderBy(kept)[i] in multiset(kept);
    }
  }

  lemma {:induction false} CountedIsThere(rows: seq<Row>, log: Log)
    ensures Count(rows, log) > 0 <==> exists i :: 0 <= i < |rows| && rows[i].log == log
  {
    if rows != [] {
      var last := |rows| - 1;
      CountedIsThere(rows[..last], log);
      if rows[last].log == log {
        assert rows[last].log == log;
      } else if exists i :: 0 <= i < |rows| && rows[i].log == log {
        var i :| 0 <= i < |rows| && rows[i].log == log;
        assert rows[..last][i].log == log;
      }
    }
  }

  ghost predicate SameCounts(a: seq<Row>, b: seq<Row>) {
    forall log :: Count(a, log) == Count(b, log)
  }

  ghost predicate RowsAmong(rows: seq<Row>, logs: seq<Log>) {
    forall i :: 0 <= i < |rows| ==> rows[i].log in logs
  }

  /** Two orderings of the same looked-up rows end in the same row. */
  lemma SameLast(db: Database, a: seq<Row>, b: seq<Row>)
    requires UniqueLogs(db.logs) && RowsAmong(a, db.logs) && RowsAmong(b, db.logs) && a != [] && b != []
    requires Ordered(a) && Ordered(b) && AllLookedUp(db, a) && AllLookedUp(db, b) && SameCounts(a, b)
    ensures a[|a| - 1] == b[|b| - 1]
  {
    var x, y := a[|a| - 1].log, b[|b| - 1].log;
    CountedIsThere(a, x);
    CountedIsThere(b, x);
    CountedIsThere(a, y);
    CountedIsThere(b, y);
    assert Count(a, x) == Count(b, x) && Count(a, y) == Count(b, y);
    var i :| 0 <= i < |b| && b[i].log == x;
    var j :| 0 <= j < |a| && a[j].log == y;
    assert !Before(y, x) && !Before(x, y);
  }

  lemma {:induction false} OrderIsDetermined(db: Database, a: seq<Row>, b: seq<Row>)
    requires UniqueLogs(db.logs) && RowsAmong(a, db.logs) && RowsAmong(b, db.logs)
    requires Ordered(a) && Ordered(b) && AllLookedUp(db, a) && AllLookedUp(db, b) && SameCounts(a, b)
    ensures a == b
  {
    if a == [] {
      if b != [] { CountedIsThere(b, b[0].log); CountedIsThere(a, b[0].log); }
    } else {
      CountedIsThere(a, a[0].log);
      CountedIsThere(b, a[0].log);
      assert Count(a, a[0].log) == Count(b, a[0].log);
      SameLast(db, a, b);
      var c, d := a[..|a| - 1], b[..|b| - 1];
      forall log ensures Count(c, log) == Count(d, log) {
        assert Count(a, log) == Count(b, log);
      }
      OrderIsDetermined(db, c, d);
      assert a == c + [a[|a| - 1]] && b == d + [b[|b| - 1]];
    }
  }

  /** The query's rows are the only answer to its specification: any rows that are in order, agree with the lookup and
      hold each wanted log once are those rows. */
  lemma QueryIsTheOnlyAnswer(text: Text, db: Database, p: Params, rows: seq<Row>)
    requires Keyed(db) && UniqueLogs(db.logs) && NewestFirst(rows) && AllLookedUp(db, rows)
    requires forall log :: Count(rows, log) == if log in db.logs && Wanted(text, db, p, log) then 1 else 0
    ensures rows == Selected(text, db, p)
  {
    var selected := Selected(text, db, p);
    forall log ensures Count(rows, log) == Count(selected, log) {
      QueryIsLookup(text, db, p, log);
    }
    forall i | 0 <= i < |rows| ensures rows[i].log in db.logs {
      CountedIsThere(rows, rows[i].log);
    }
    forall i | 0 <= i < |selected| ensures selected[i].log in db.logs {
      CountedIsThere(selected, selected[i].log);
      QueryIsLookup(text, db, p, selected[i].log);
    }
    QueryIsLookup(text, db, p, Log(0, None, "", "", None, 0));
    OrderedIsNewestFirst(rows);
    OrderedIsNewestFirst(selected);
    OrderIsDetermined(db, rows, selected);
  }

  /** With a blank search the target plays no part: every log that satisfies the other filters appears once. */
  lemma BlankSearchKeepsEveryLog(text: Text, db: Database, p: Params, log: Log)
    requires Keyed(db) && UniqueLogs(db.logs) && text.strip(p.q) == ""
    ensures Count(Selected(text, db, p), log) == if log in db.logs && LogKeeps(text, p, log) then 1 else 0
  {
    QueryIsLookup(text, db, p, log);
  }

  // ---------- pages ----------

  function Pages<T>(rows: seq<T>, limit: nat, n: nat): seq<T> {
    if n == 0 then [] else Pages(rows, limit, n - 1) + PageOf(rows, n, limit)
  }

  /** Page `n` is the stretch after the rows of the pages before it. */
  lemma PageIsNext<T>(rows: seq<T>, limit: nat, n: nat)
    ensures var first, last := Least(n * limit, |rows|), Least((n + 1) * limit, |rows|);
            first <= last && PageOf(rows, n + 1, limit) == rows[first..last]
  {
    assert (n + 1) * limit == n * limit + limit;
  }

  lemma PageExtends<T>(rows: seq<T>, limit: nat, n: nat, before: seq<T>)
    requires before == rows[..Least(n * limit, |rows|)]
    ensures before + PageOf(rows, n + 1, limit) == rows[..Least((n + 1) * limit, |rows|)]
  {
    PageIsNext(rows, limit, n);
    var first, last := Least(n * limit, |rows|), Least((n + 1) * limit, |rows|);
    assert rows[..first] + rows[first..last] == rows[..last];
  }

  /** The first pages, in order, are a prefix of the rows: no row is skipped or repeated. */
  lemma {:induction false} PagesAreAPrefix<T>(rows: seq<T>, limit: nat, n: nat)
    ensures Pages(rows, limit, n) == rows[..Least(n * limit, |rows|)]
  {
    if n > 0 {
      PagesAreAPrefix(rows, limit, n - 1);
      PageExtends(rows, limit, n - 1, Pages(rows, limit, n - 1));
    }
  }

  /** Enough pages of the query together are exactly its rows. */
  lemma PagesCoverTheQuery(text: Text, db: Database, p: Params, n: nat)
    requires n * p.limit >= |Selected(text, db, p)|
    ensures Pages(Selected(text, db, p), p.limit, n) == Selected(text, db, p)
    ensures p.page >= 1 ==> AuditLogs(text, db, p) == PageOf(Selected(text, db, p), p.page, p.limit)
  {
    PagesAreAPrefix(Selected(text, db, p), p.limit, n);
  }
}
