/** Catalog edits under optimistic version tokens: check under a row lock, change, audit, all in one command. */
module Catalog {
  import opened Wrappers

  type Id = nat

  type Fields = map<string, string>

  /** A category, product or SKU row; its `updated_at` is the token editors send back. */
  datatype Record = Record(fields: Fields, updatedAt: int)

  type Records = map<Id, Record>

  datatype Error = RecordNotFound | RecordChanged | Invalid

  /** The audit row of an edit: the row as the command leaves it. */
  datatype Entry = Entry(actor: Id, target: Id, after: Record)

  /** An edit carrying the token its author loaded; `startedAt` is the transaction's `now()`, and `valid` whether the
      catalog service accepts the new fields. */
  datatype Edit = Edit(actor: Id, target: Id, token: int, changes: Fields, startedAt: int, valid: bool)

  datatype Result = Saved(records: Records, entry: Entry) | Refused(error: Error)

  function CheckVersion(records: Records, id: Id, token: int): Option<Error> {
    if id !in records then Some(RecordNotFound)
    else if records[id].updatedAt != token then Some(RecordChanged)
    else None
  }

  /** Only a row whose fields really change is written, and only then does its timestamp move. */
  function Written(r: Record, edit: Edit): Record {
    var fields := r.fields + edit.changes;
    if fields == r.fields then r else Record(fields, edit.startedAt)
  }

  function Update(records: Records, edit: Edit): Result {
    match CheckVersion(records, edit.target, edit.token)
    case Some(error) => Refused(error)
    case None =>
      if !edit.valid then Refused(Invalid)
      else
        var after := Written(records[edit.target], edit);
        Saved(records[edit.target := after], Entry(edit.actor, edit.target, after))
  }

  datatype State = State(records: Records, audit: seq<Entry>)

  function Execute(s: State, edit: Edit): State {
    match Update(s.records, edit)
    case Saved(records, entry) => State(records, s.audit + [entry])
    case Refused(_) => s
  }

  /** The state before each edit, and the final one. */
  function History(s: State, edits: seq<Edit>): (states: seq<State>)
    ensures |states| == |edits| + 1
  {
    if edits == [] then [s]
    else
      var states := History(s, edits[..|edits| - 1]);
      states + [Execute(states[|states| - 1], edits[|edits| - 1])]
  }

  lemma {:induction false} HistorySteps(s: State, edits: seq<Edit>, n: nat)
    requires n <= |edits|
    ensures n == 0 ==> History(s, edits)[0] == s
    ensures n > 0 ==> History(s, edits)[n] == Execute(History(s, edits)[n - 1], edits[n - 1])
  {
    if edits != [] && n < |edits| {
      HistorySteps(s, edits[..|edits| - 1], n);
      assert History(s, edits)[n] == History(s, edits[..|edits| - 1])[n];
    }
  }

  // ---------- what an edit does ----------

  /** The row after an edit has its old keys and the edit's; the edit's keys hold the edit's values, the others what they
      held; and its timestamp moves to the transaction's exactly if some value did. */
  ghost predicate Applies(before: Record, after: Record, edit: Edit) {
    && after.fields.Keys == before.fields.Keys + edit.changes.Keys
    && (forall key :: key in edit.changes ==> after.fields[key] == edit.changes[key])
    && (forall key :: key in before.fields && key !in edit.changes ==> after.fields[key] == before.fields[key])
    && after.updatedAt == if after.fields == before.fields then before.updatedAt else edit.startedAt
  }

  /** Why an edit is refused, in the order it is checked; `None` if it is accepted. */
  ghost predicate RefusedFor(records: Records, edit: Edit, reason: Option<Error>) {
    if edit.target !in records then reason == Some(RecordNotFound)
    else if records[edit.target].updatedAt != edit.token then reason == Some(RecordChanged)
    else if !edit.valid then reason == Some(Invalid)
    else reason == None
  }

  lemma UpdateAppliesTheEdit(records: Records, edit: Edit)
    ensures match Update(records, edit)
            case Refused(error) => RefusedFor(records, edit, Some(error))
            case Saved(after, entry) =>
              && RefusedFor(records, edit, None)
              && after.Keys == records.Keys && Applies(records[edit.target], after[edit.target], edit)
              && (forall id :: id in records && id != edit.target ==> after[id] == records[id])
              && entry == Entry(edit.actor, edit.target, after[edit.target])
  {
  }

  /** At every moment of a history: an edit of a known row, with its token, that is valid, changes exactly what it names
      and is audited with the row it leaves; a stale token, a missing record or an invalid change leaves rows and audit as
      they were. */
  lemma EditsChangeExactlyWhatTheyName(s: State, edits: seq<Edit>, n: nat)
    requires n < |edits|
    ensures var before, after, edit := History(s, edits)[n], History(s, edits)[n + 1], edits[n];
            if edit.target in before.records && before.records[edit.target].updatedAt == edit.token && edit.valid then
              && after.records.Keys == before.records.Keys
              && Applies(before.records[edit.target], after.records[edit.target], edit)
              && (forall id :: id in before.records && id != edit.target ==> after.records[id] == before.records[id])
              && after.audit == before.audit + [Entry(edit.actor, edit.target, after.records[edit.target])]
            else after == before
  {
    HistorySteps(s, edits, n + 1);
    UpdateAppliesTheEdit(History(s, edits)[n].records, edits[n]);
  }

  // ---------- tokens over a history ----------

  predicate Accepts(s: State, edit: Edit) { Update(s.records, edit).Saved? }

  /** An accepted edit that changes some field. */
  predicate Changes(s: State, edit: Edit) {
    Accepts(s, edit) && Written(s.records[edit.target], edit) != s.records[edit.target]
  }

  /** The transaction timestamp is not before the row's. */
  ghost predicate ClockHolds(s: State, edit: Edit) {
    Accepts(s, edit) ==> s.records[edit.target].updatedAt <= edit.startedAt
  }

  ghost predicate Advances(s: State, edit: Edit) {
    Accepts(s, edit) ==>
      Written(s.records[edit.target], edit).fields != s.records[edit.target].fields ==>
        s.records[edit.target].updatedAt < edit.startedAt
  }

  ghost predicate ClockAlwaysHolds(s: State, edits: seq<Edit>) {
    forall n :: 0 <= n < |edits| ==> ClockHolds(History(s, edits)[n], edits[n])
  }

  ghost predicate AlwaysAdvances(s: State, edits: seq<Edit>) {
    forall n :: 0 <= n < |edits| ==> Advances(History(s, edits)[n], edits[n])
  }

  /** Rows later in a history have the same token only with the same fields, and otherwise a larger one. */
  ghost predicate Later(r: Record, t: Record) {
    t == r || r.updatedAt < t.updatedAt
  }

  ghost predicate AllLater(s: State, t: State) {
    t.records.Keys == s.records.Keys && forall id :: id in s.records ==> Later(s.records[id], t.records[id])
  }

  lemma {:induction false} HistoryMovesOn(s: State, edits: seq<Edit>, m: nat, n: nat)
    requires AlwaysAdvances(s, edits) && m <= n <= |edits|
    ensures AllLater(History(s, edits)[m], History(s, edits)[n])
    decreases n
  {
    if m < n {
      HistoryMovesOn(s, edits, m, n - 1);
      HistorySteps(s, edits, n);
      assert Advances(History(s, edits)[n - 1], edits[n - 1]);
    }
  }

  ghost predicate SameTokenSameRow(s: State, t: State, id: Id) {
    id in s.records && id in t.records && s.records[id].updatedAt == t.records[id].updatedAt
    ==> s.records[id] == t.records[id]
  }

  /** A token stands for one content of its row throughout the history. */
  ghost predicate TokensIdentify(s: State, edits: seq<Edit>) {
    forall m, n, id :: 0 <= m <= n <= |edits| ==> SameTokenSameRow(History(s, edits)[m], History(s, edits)[n], id)
  }

  /** Given a clock that never runs backwards, tokens identify contents exactly when every edit that changes a field
      also advances the row's timestamp. */
  lemma TokensIdentifyExactlyWhenAdvancing(s: State, edits: seq<Edit>)
    requires ClockAlwaysHolds(s, edits)
    ensures TokensIdentify(s, edits) <==> AlwaysAdvances(s, edits)
  {
    if AlwaysAdvances(s, edits) {
      forall m, n, id | 0 <= m <= n <= |edits|
        ensures SameTokenSameRow(History(s, edits)[m], History(s, edits)[n], id)
      {
        HistoryMovesOn(s, edits, m, n);
      }
    }
    if TokensIdentify(s, edits) {
      forall n | 0 <= n < |edits| ensures Advances(History(s, edits)[n], edits[n]) {
        HistorySteps(s, edits, n + 1);
        assert ClockHolds(History(s, edits)[n], edits[n]);
        assert SameTokenSameRow(History(s, edits)[n], History(s, edits)[n + 1], edits[n].target);
      }
    }
  }

  /** An accepted edit is applied to exactly the row its author loaded: if the author read the token at moment `m` and
      the edit is accepted at moment `n`, the row has not changed in between. */
  lemma AcceptedEditsBuildOnWhatWasLoaded(s: State, edits: seq<Edit>, m: nat, n: nat)
    requires AlwaysAdvances(s, edits) && m <= n < |edits|
    requires Accepts(History(s, edits)[n], edits[n])
    requires edits[n].target in History(s, edits)[m].records
    requires History(s, edits)[m].records[edits[n].target].updatedAt == edits[n].token
    ensures History(s, edits)[n].records[edits[n].target] == History(s, edits)[m].records[edits[n].target]
  {
    HistoryMovesOn(s, edits, m, n);
  }

  /** So what an accepted edit does not name is left as its author saw it. */
  lemma EditsKeepWhatWasLoaded(s: State, edits: seq<Edit>, m: nat, n: nat, key: string)
    requires AlwaysAdvances(s, edits) && m <= n < |edits|
    requires Accepts(History(s, edits)[n], edits[n]) && edits[n].target in History(s, edits)[m].records
    requires History(s, edits)[m].records[edits[n].target].updatedAt == edits[n].token
    requires key !in edits[n].changes
    ensures edits[n].target in History(s, edits)[n + 1].records
    ensures var loaded := History(s, edits)[m].records[edits[n].target].fields;
            var saved := History(s, edits)[n + 1].records[edits[n].target].fields;
            (key in saved <==> key in loaded) && (key in loaded ==> saved[key] == loaded[key])
  {
    AcceptedEditsBuildOnWhatWasLoaded(s, edits, m, n);
    EditsChangeExactlyWhatTheyName(s, edits, n);
    UpdateAppliesTheEdit(History(s, edits)[n].records, edits[n]);
  }

  /** Of all edits of a row carrying one token, at most one changes it: accepted edits form a chain. */
  lemma OneChangePerToken(s: State, edits: seq<Edit>, m: nat, n: nat)
    requires AlwaysAdvances(s, edits) && m < n < |edits|
    requires edits[m].target == edits[n].target && edits[m].token == edits[n].token
    requires Changes(History(s, edits)[m], edits[m])
    ensures !Accepts(History(s, edits)[n], edits[n])
  {
    HistorySteps(s, edits, m + 1);
    assert Advances(History(s, edits)[m], edits[m]);
    HistoryMovesOn(s, edits, m + 1, n);
  }

  /** The rows a reader of the audit log reconstructs from the initial ones. */
  function Replay(initial: Records, audit: seq<Entry>): Records {
    if audit == [] then initial
    else Replay(initial, audit[..|audit| - 1])[audit[|audit| - 1].target := audit[|audit| - 1].after]
  }

  /** Whatever edits are accepted or refused, the audit entries reproduce the rows, tokens included. */
  lemma {:induction false} AuditReproducesRows(initial: Records, edits: seq<Edit>)
    ensures var t := History(State(initial, []), edits)[|edits|];
            Replay(initial, t.audit) == t.records
  {
    if edits != [] {
      AuditReproducesRows(initial, edits[..|edits| - 1]);
      var s := History(State(initial, []), edits[..|edits| - 1])[|edits| - 1];
      var t := Execute(s, edits[|edits| - 1]);
      if t.audit != s.audit {
        assert t.audit[..|s.audit|] == s.audit;
      }
    }
  }

  /** Two changes stamped with the same transaction time: the second author's stale token is accepted. */
  lemma EqualTimestampsAcceptStaleEdit()
    ensures var s := State(map[0 := Record(map["name" := "old"], 5)], []);
            var edits := [Edit(1, 0, 5, map["name" := "first"], 5, true), Edit(2, 0, 5, map["slug" := "second"], 6, true)];
            && ClockAlwaysHolds(s, edits)
            && Changes(History(s, edits)[0], edits[0]) && Changes(History(s, edits)[1], edits[1])
  {
    var s := State(map[0 := Record(map["name" := "old"], 5)], []);
    var e, f := Edit(1, 0, 5, map["name" := "first"], 5, true), Edit(2, 0, 5, map["slug" := "second"], 6, true);
    HistorySteps(s, [e, f], 0);
    HistorySteps(s, [e, f], 1);
    var after := map["name" := "old"] + map["name" := "first"];
    assert after["name"] == "first" && map["name" := "old"]["name"] == "old";
    assert "slug" in (after + map["slug" := "second"]) && "slug" !in after;
  }
}
