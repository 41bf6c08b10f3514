/** Read-time redaction of audit details: the values of sensitive keys are replaced at any depth of nested JSON. */
module Redaction {
  import opened Wrappers

  datatype Json =
    | Leaf(text: string)
    | List(items: seq<Json>)
    | Dict(fields: seq<Field>)

  datatype Field = Field(key: string, value: Json)

  const MARKER := Leaf("[REDACTED]")

  const PARTS := ["token", "secret", "password", "authorization", "cookie", "credential", "card", "cvv", "cvc",
                  "providerpayload", "providerresponse", "rawresponse", "apikey", "rawpayload", "privatekey",
                  "presigned", "downloadurl", "imageurl"]

  // ---------- sensitive keys ----------

  function Without(s: string, c: char): string {
    if s == "" then "" else Without(s[..|s| - 1], c) + if s[|s| - 1] == c then "" else [s[|s| - 1]]
  }

  predicate PartAt(part: string, s: string, i: nat) {
    i + |part| <= |s| && s[i..i + |part|] == part
  }

  predicate Contains(part: string, s: string) {
    exists i: nat :: i <= |s| && PartAt(part, s, i)
  }

  /** `lower` is the language's lower-casing of a string. */
  predicate Sensitive(lower: string -> string, key: string) {
    || lower(key) == "pan" || lower(key) == "otp"
    || exists n :: 0 <= n < |PARTS| && Contains(PARTS[n], Stripped(lower(key)))
  }

  function Stripped(s: string): string { Without(Without(s, '-'), '_') }

  lemma {:induction false} WithoutConcat(a: string, b: string, c: char)
    ensures Without(a + b, c) == Without(a, c) + Without(b, c)
  {
    if b == "" {
      assert a + b == a;
    } else {
      assert (a + b)[..|a + b| - 1] == a + b[..|b| - 1];
      WithoutConcat(a, b[..|b| - 1], c);
    }
  }

  lemma StrippedConcat(a: string, b: string)
    ensures Stripped(a + b) == Stripped(a) + Stripped(b)
  {
    WithoutConcat(a, b, '-');
    WithoutConcat(Without(a, '-'), Without(b, '-'), '_');
  }

  /** Hyphens and underscores spread through a sensitive word, and whatever surrounds it, do not hide it. */
  lemma SeparatorsDoNotHide(lower: string -> string, key: string, before: string, word: string, behind: string, n: nat)
    requires n < |PARTS| && lower(key) == before + word + behind && Stripped(word) == PARTS[n]
    ensures Sensitive(lower, key)
  {
    StrippedConcat(before + word, behind);
    StrippedConcat(before, word);
    var s := Stripped(lower(key));
    assert s == Stripped(before) + PARTS[n] + Stripped(behind);
    assert PartAt(PARTS[n], s, |Stripped(before)|);
    assert Contains(PARTS[n], s);
  }

  lemma ContainsMeansInfix(part: string, s: string)
    ensures Contains(part, s) <==> exists before, behind :: s == before + part + behind
  {
    if Contains(part, s) {
      var i: nat :| i <= |s| && PartAt(part, s, i);
      assert s == s[..i] + part + s[i + |part|..];
    }
    if exists before, behind :: s == before + part + behind {
      var before, behind :| s == before + part + behind;
      assert PartAt(part, s, |before|);
    }
  }

  /** Exactly which keys are sensitive: `pan` and `otp` as whole keys, and every key in which, lower-cased and without
      hyphens and underscores, one of the sensitive words stands somewhere. */
  lemma SensitiveExactly(lower: string -> string, key: string)
    ensures var words := ["token", "secret", "password", "authorization", "cookie", "credential", "card", "cvv", "cvc",
                          "providerpayload", "providerresponse", "rawresponse", "apikey", "rawpayload", "privatekey",
                          "presigned", "downloadurl", "imageurl"];
            Sensitive(lower, key) <==>
            || lower(key) == "pan" || lower(key) == "otp"
            || exists n :: 0 <= n < |words| && exists before, behind :: Stripped(lower(key)) == before + words[n] + behind
  {
    forall n | 0 <= n < |PARTS|
      ensures Contains(PARTS[n], Stripped(lower(key))) <==>
              exists before, behind :: Stripped(lower(key)) == before + PARTS[n] + behind
    {
      ContainsMeansInfix(PARTS[n], Stripped(lower(key)));
    }
  }

  // ---------- harmless keys ----------

  lemma StrippedIsWithout(s: string)
    ensures |Stripped(s)| <= |s|
    ensures forall c :: c in Stripped(s) <==> c in s && c != '-' && c != '_'
  {
    WithoutIs(s, '-');
    WithoutIs(Without(s, '-'), '_');
  }

  lemma {:induction false} WithoutIs(s: string, c: char)
    ensures |Without(s, c)| <= |s|
    ensures forall d :: d in Without(s, c) <==> d in s && d != c
  {
    if s != "" {
      WithoutIs(s[..|s| - 1], c);
      assert s == s[..|s| - 1] + [s[|s| - 1]];
    }
  }

  lemma PartNeedsItsLetters(part: string, s: string, k: nat)
    requires k < |part| && part[k] !in s
    ensures !Contains(part, s)
  {
    forall i: nat | i <= |s| ensures !PartAt(part, s, i) {
      if i + |part| <= |s| {
        assert s[i..i + |part|][k] == s[i + k] && s[i + k] in s;
      }
    }
  }

  /** In each sensitive word, the position of a letter that the harmless keys lack. */
  const LETTERS := [2, 2, 0, 3, 0, 0, 0, 0, 0, 0, 0, 6, 1, 3, 0, 0, 0, 3]

  /** A key with none of the letters `c`, `k`, `p`, `h`, `d` and `g` is harmless unless it is `pan` or `otp`: every
      sensitive word has one of them. */
  lemma PlainKeysAreHarmless(lower: string -> string, key: string)
    requires lower(key) != "pan" && lower(key) != "otp"
    requires forall c :: c in lower(key) ==> c !in "ckphdg"
    ensures !Sensitive(lower, key)
  {
    StrippedIsWithout(lower(key));
    forall n | 0 <= n < |PARTS| ensures !Contains(PARTS[n], Stripped(lower(key))) {
      assert LETTERS[n] < |PARTS[n]| && PARTS[n][LETTERS[n]] in "ckphdg";
      PartNeedsItsLetters(PARTS[n], Stripped(lower(key)), LETTERS[n]);
    }
  }

  /** So the role of an access change and the reason of a stock correction are shown as they are. */
  lemma AuditedDetailsAreShown(lower: string -> string)
    requires lower("role") == "role" && lower("reason") == "reason"
    ensures !Sensitive(lower, "role") && !Sensitive(lower, "reason")
  {
    PlainKeysAreHarmless(lower, "role");
    PlainKeysAreHarmless(lower, "reason");
  }

  // ---------- redaction, for any notion of sensitive key ----------

  function Redact(sensitive: string -> bool, j: Json): Json {
    match j
    case Leaf(_) => j
    case List(items) => List(RedactItems(sensitive, items))
    case Dict(fields) => Dict(RedactFields(sensitive, fields))
  }

  function RedactItems(sensitive: string -> bool, items: seq<Json>): (r: seq<Json>)
    ensures |r| == |items|
  {
    if items == [] then [] else [Redact(sensitive, items[0])] + RedactItems(sensitive, items[1..])
  }

  function RedactFields(sensitive: string -> bool, fields: seq<Field>): (r: seq<Field>)
    ensures |r| == |fields|
  {
    if fields == [] then []
    else
      var f := fields[0];
      [Field(f.key, if sensitive(f.key) then MARKER else Redact(sensitive, f.value))]
      + RedactFields(sensitive, fields[1..])
  }

  lemma {:induction false} ItemAt(sensitive: string -> bool, items: seq<Json>, i: nat)
    requires i < |items|
    ensures RedactItems(sensitive, items)[i] == Redact(sensitive, items[i])
  {
    if i > 0 {
      ItemAt(sensitive, items[1..], i - 1);
    }
  }

  lemma {:induction false} FieldAt(sensitive: string -> bool, fields: seq<Field>, i: nat)
    requires i < |fields|
    ensures RedactFields(sensitive, fields)[i] ==
            Field(fields[i].key, if sensitive(fields[i].key) then MARKER else Redact(sensitive, fields[i].value))
  {
    if i > 0 {
      FieldAt(sensitive, fields[1..], i - 1);
    }
  }

  // ---------- paths ----------

  /** A position among the items of a list or the fields of a dictionary. */
  type Path = seq<nat>

  /** The value at a path, and whether the path passes a sensitive key on the way and at its last step. */
  datatype Spot = Spot(value: Json, below: bool, at: bool)

  function Children(j: Json): nat {
    match j case Leaf(_) => 0 case List(items) => |items| case Dict(fields) => |fields|
  }

  function Child(j: Json, i: nat): Json
    requires i < Children(j)
  {
    match j case List(items) => items[i] case Dict(fields) => fields[i].value
  }

  predicate SensitiveChild(sensitive: string -> bool, j: Json, i: nat)
    requires i < Children(j)
  {
    j.Dict? && sensitive(j.fields[i].key)
  }

  function Follow(sensitive: string -> bool, j: Json, path: Path): Option<Spot> {
    if path == [] then Some(Spot(j, false, false))
    else
      var last := |path| - 1;
      match Follow(sensitive, j, path[..last])
      case None => None
      case Some(spot) =>
        if path[last] >= Children(spot.value) then None
        else Some(Spot(Child(spot.value, path[last]), spot.below || spot.at,
                       SensitiveChild(sensitive, spot.value, path[last])))
  }

  /** What redaction leaves of a value at a spot: the marker under a sensitive key, else the redacted value. */
  function Left(sensitive: string -> bool, spot: Spot): Spot {
    spot.(value := if spot.at then MARKER else Redact(sensitive, spot.value))
  }

  lemma ChildRedacted(sensitive: string -> bool, j: Json, i: nat)
    requires i < Children(j)
    ensures i < Children(Redact(sensitive, j))
    ensures SensitiveChild(sensitive, Redact(sensitive, j), i) == SensitiveChild(sensitive, j, i)
    ensures Child(Redact(sensitive, j), i) ==
            if SensitiveChild(sensitive, j, i) then MARKER else Redact(sensitive, Child(j, i))
  {
    match j
    case List(items) => ItemAt(sensitive, items, i);
    case Dict(fields) => FieldAt(sensitive, fields, i);
  }

  /** Redaction decides every position of every document: a position below a sensitive key is gone, one right at a
      sensitive key holds the marker, and any other holds the redaction of what was there; no position is added. */
  lemma {:induction false} RedactedAt(sensitive: string -> bool, j: Json, path: Path)
    ensures Follow(sensitive, Redact(sensitive, j), path) ==
            match Follow(sensitive, j, path)
            case None => None
            case Some(spot) => if spot.below then None else Some(Left(sensitive, spot))
  {
    if path != [] {
      var last := |path| - 1;
      RedactedAt(sensitive, j, path[..last]);
      match Follow(sensitive, j, path[..last])
      case None =>
      case Some(spot) =>
        if !spot.below && !spot.at && path[last] < Children(spot.value) {
          ChildRedacted(sensitive, spot.value, path[last]);
        }
    }
  }

  /** The shape of what survives: lists keep their length, dictionaries their keys in order, leaves their text. */
  ghost predicate SameShape(a: Json, b: Json) {
    match a
    case Leaf(_) => a == b
    case List(items) => b.List? && |b.items| == |items|
    case Dict(fields) => b.Dict? && |b.fields| == |fields| && forall i :: 0 <= i < |fields| ==> b.fields[i].key == fields[i].key
  }

  lemma RedactKeepsShape(sensitive: string -> bool, j: Json)
    ensures SameShape(j, Redact(sensitive, j))
  {
    if j.Dict? {
      forall i | 0 <= i < |j.fields| ensures RedactFields(sensitive, j.fields)[i].key == j.fields[i].key {
        FieldAt(sensitive, j.fields, i);
      }
    }
  }

  /** Everywhere that no key on the way is sensitive the shape is kept, leaves included, and the value of a sensitive
      key is the marker. */
  lemma SurvivorsKeepShape(sensitive: string -> bool, j: Json, path: Path)
    requires Follow(sensitive, j, path).Some? && !Follow(sensitive, j, path).value.below
    ensures Follow(sensitive, Redact(sensitive, j), path).Some?
    ensures var before, after := Follow(sensitive, j, path).value, Follow(sensitive, Redact(sensitive, j), path).value;
            if before.at then after.value == MARKER else SameShape(before.value, after.value)
  {
    RedactedAt(sensitive, j, path);
    RedactKeepsShape(sensitive, Follow(sensitive, j, path).value.value);
  }

  // ---------- idempotence ----------

  lemma {:induction false} RedactTwice(sensitive: string -> bool, j: Json)
    ensures Redact(sensitive, Redact(sensitive, j)) == Redact(sensitive, j)
  {
    match j
    case Leaf(_) =>
    case List(items) => ItemsTwice(sensitive, items);
    case Dict(fields) => FieldsTwice(sensitive, fields);
  }

  lemma {:induction false} ItemsTwice(sensitive: string -> bool, items: seq<Json>)
    ensures RedactItems(sensitive, RedactItems(sensitive, items)) == RedactItems(sensitive, items)
  {
    if items != [] {
      RedactTwice(sensitive, items[0]);
      ItemsTwice(sensitive, items[1..]);
      assert RedactItems(sensitive, items)[1..] == RedactItems(sensitive, items[1..]);
    }
  }

  lemma {:induction false} FieldsTwice(sensitive: string -> bool, fields: seq<Field>)
    ensures RedactFields(sensitive, RedactFields(sensitive, fields)) == RedactFields(sensitive, fields)
  {
    if fields != [] {
      RedactTwice(sensitive, fields[0].value);
      FieldsTwice(sensitive, fields[1..]);
      assert RedactFields(sensitive, fields)[1..] == RedactFields(sensitive, fields[1..]);
    }
  }

  /** The audit log's redaction. */
  function SafeDetails(lower: string -> string, j: Json): Json {
    Redact(key => Sensitive(lower, key), j)
  }

  lemma SafeDetailsIsIdempotent(lower: string -> string, j: Json)
    ensures SafeDetails(lower, SafeDetails(lower, j)) == SafeDetails(lower, j)
  {
    RedactTwice(key => Sensitive(lower, key), j);
  }
}
