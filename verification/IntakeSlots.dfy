/** Validation of the preferred time slots: sort by start, then compare neighbours. */
module IntakeSlots {
  import opened Digits

  /** Start and end as the time inputs hold them, `HH:MM`. */
  datatype Slot = Slot(start: string, end: string)

  datatype Verdict = DuplicateUrgency | BadSlots | Ready

  // ---------- times as text ----------

  predicate ValidTime(t: string) {
    && |t| == 5 && IsDigit(t[0]) && IsDigit(t[1]) && t[2] == ':' && IsDigit(t[3]) && IsDigit(t[4])
    && Hours(t) < 24 && t[3] < '6'
  }

  function Hours(t: string): int
    requires |t| == 5
  {
    10 * DigitValue(t[0]) + DigitValue(t[1])
  }

  function Minutes(t: string): int
    requires |t| == 5
  {
    60 * Hours(t) + 10 * DigitValue(t[3]) + DigitValue(t[4])
  }

  /** Character by character, as the text comparisons order equally long times. */
  predicate TextLess(a: string, b: string) {
    if a == "" || b == "" then a == "" && b != ""
    else a[0] < b[0] || (a[0] == b[0] && TextLess(a[1..], b[1..]))
  }

  /** Zero-padded times order as text exactly as they do in minutes. */
  lemma TextOrderIsTimeOrder(a: string, b: string)
    requires ValidTime(a) && ValidTime(b)
    ensures TextLess(a, b) <==> Minutes(a) < Minutes(b)
  {
    assert a[1..][1..] == a[2..] && b[1..][1..] == b[2..];
    assert a[2..][1..] == a[3..] && b[2..][1..] == b[3..];
    assert a[3..][1..] == a[4..] && b[3..][1..] == b[4..];
    assert a[4..][1..] == "" && b[4..][1..] == "";
    assert TextLess(a[4..], b[4..]) <==> a[4] < b[4];
    assert TextLess(a[3..], b[3..]) <==> a[3] < b[3] || (a[3] == b[3] && a[4] < b[4]);
    assert TextLess(a[2..], b[2..]) <==> TextLess(a[3..], b[3..]);
  }

  // ---------- the check ----------

  function Insert(slot: Slot, slots: seq<Slot>): seq<Slot> {
    if slots == [] || TextLess(slot.start, slots[0].start) then [slot] + slots
    else [slots[0]] + Insert(slot, slots[1..])
  }

  /** A stable sort by start; the last slot is inserted after those that start with it. */
  function SortByStart(slots: seq<Slot>): seq<Slot> {
    if slots == [] then [] else Insert(slots[|slots| - 1], SortByStart(slots[..|slots| - 1]))
  }

  /** `slot.end <= slot.start || index > 0 && slots[index - 1].end > slot.start` */
  predicate Offends(slots: seq<Slot>, n: nat)
    requires n < |slots|
  {
    !TextLess(slots[n].start, slots[n].end) || (n > 0 && TextLess(slots[n].start, slots[n - 1].end))
  }

  predicate Distinct(ids: seq<string>) {
    forall i, j :: 0 <= i < j < |ids| ==> ids[i] != ids[j]
  }

  function Validate(urgencies: seq<string>, slots: seq<Slot>): Verdict {
    if |set id | id in urgencies| != |urgencies| then DuplicateUrgency
    else
      var sorted := SortByStart(slots);
      if exists n :: 0 <= n < |sorted| && Offends(sorted, n) then BadSlots else Ready
  }

  // ---------- the same check on minutes ----------

  predicate WellFormed(slot: Slot) { ValidTime(slot.start) && ValidTime(slot.end) }

  ghost predicate AllWellFormed(slots: seq<Slot>) {
    forall i :: 0 <= i < |slots| ==> WellFormed(slots[i])
  }

  /** A half-open stretch of the day, in minutes. */
  datatype Span = Span(start: int, end: int)

  function SpanOf(slot: Slot): Span
    requires WellFormed(slot)
  {
    Span(Minutes(slot.start), Minutes(slot.end))
  }

  ghost function Spans(slots: seq<Slot>): seq<Span>
    requires AllWellFormed(slots)
  {
    seq(|slots|, i requires 0 <= i < |slots| => SpanOf(slots[i]))
  }

  function InsertSpan(x: Span, xs: seq<Span>): seq<Span> {
    if xs == [] || x.start < xs[0].start then [x] + xs else [xs[0]] + InsertSpan(x, xs[1..])
  }

  lemma {:induction false} InsertAgrees(slot: Slot, slots: seq<Slot>)
    requires AllWellFormed(slots) && WellFormed(slot)
    ensures AllWellFormed(Insert(slot, slots))
    ensures Spans(Insert(slot, slots)) == InsertSpan(SpanOf(slot), Spans(slots))
  {
    if slots != [] {
      TextOrderIsTimeOrder(slot.start, slots[0].start);
      InsertAgrees(slot, slots[1..]);
      assert Spans(slots)[1..] == Spans(slots[1..]);
    }
  }

  // ---------- what it decides ----------

  predicate NonEmpty(x: Span) { x.start < x.end }

  ghost predicate Within(m: int, x: Span) { x.start <= m < x.end }

  /** Comparing the ends decides whether two non-empty spans share a minute. */
  predicate Apart(x: Span, y: Span) { x.end <= y.start || y.end <= x.start }

  lemma ApartMeansNoSharedMinute(x: Span, y: Span)
    requires NonEmpty(x) && NonEmpty(y)
    ensures Apart(x, y) <==> forall m :: !(Within(m, x) && Within(m, y))
  {
    var later := if x.start < y.start then y.start else x.start;
    assert !Apart(x, y) ==> Within(later, x) && Within(later, y);
  }

  ghost predicate Fine(xs: seq<Span>) {
    && (forall i :: 0 <= i < |xs| ==> NonEmpty(xs[i]))
    && forall i, j :: 0 <= i < j < |xs| ==> Apart(xs[i], xs[j])
  }

  ghost predicate Sorted(xs: seq<Span>) {
    forall i, j :: 0 <= i < j < |xs| ==> xs[i].start <= xs[j].start
  }

  /** The span is non-empty and apart from all the others. */
  ghost predicate FineWith(x: Span, xs: seq<Span>) {
    NonEmpty(x) && forall y :: y in xs ==> Apart(x, y)
  }

  lemma FineAppended(xs: seq<Span>, x: Span)
    ensures Fine(xs + [x]) <==> Fine(xs) && FineWith(x, xs)
  {
    var all := xs + [x];
    assert forall i :: 0 <= i < |xs| ==> all[i] == xs[i];
    if Fine(all) {
      forall y | y in xs ensures Apart(x, y) {
        var i :| 0 <= i < |xs| && xs[i] == y;
        assert Apart(all[i], all[|xs|]);
      }
      assert NonEmpty(all[|xs|]);
    }
    if Fine(xs) && FineWith(x, xs) {
      forall i, j | 0 <= i < j < |all| ensures Apart(all[i], all[j]) {
        assert i < |xs| && xs[i] in xs;
      }
    }
  }

  lemma FinePrepended(x: Span, xs: seq<Span>)
    ensures Fine([x] + xs) <==> Fine(xs) && FineWith(x, xs)
  {
    var all := [x] + xs;
    assert forall i :: 0 <= i < |xs| ==> xs[i] == all[i + 1];
    if Fine(all) {
      assert NonEmpty(all[0]);
      forall y | y in xs ensures Apart(x, y) {
        var i :| 0 <= i < |xs| && xs[i] == y;
        assert Apart(all[0], all[i + 1]);
      }
      forall i, j | 0 <= i < j < |xs| ensures Apart(xs[i], xs[j]) {
        assert Apart(all[i + 1], all[j + 1]);
      }
    }
  }

  lemma {:induction false} InsertMembers(x: Span, xs: seq<Span>)
    ensures forall y :: y in InsertSpan(x, xs) <==> y == x || y in xs
  {
    if xs != [] && x.start >= xs[0].start {
      InsertMembers(x, xs[1..]);
      assert xs == [xs[0]] + xs[1..];
    }
  }

  lemma {:induction false} InsertKeepsSorted(x: Span, xs: seq<Span>)
    requires Sorted(xs)
    ensures Sorted(InsertSpan(x, xs))
  {
    if xs != [] && x.start >= xs[0].start {
      InsertKeepsSorted(x, xs[1..]);
      InsertMembers(x, xs[1..]);
      var rest := InsertSpan(x, xs[1..]);
      forall j | 0 <= j < |rest| ensures xs[0].start <= rest[j].start {
        assert rest[j] == x || rest[j] in xs[1..];
      }
    }
  }

  lemma FineWithInserted(x: Span, y: Span, xs: seq<Span>)
    ensures FineWith(x, InsertSpan(y, xs)) <==> FineWith(x, xs) && Apart(x, y)
  {
    InsertMembers(y, xs);
    assert y in InsertSpan(y, xs);
  }

  lemma FineWithHead(x: Span, head: Span, tail: seq<Span>)
    ensures FineWith(x, [head] + tail) <==> FineWith(x, tail) && Apart(x, head)
  {
    assert forall y :: y in [head] + tail <==> y == head || y in tail;
  }

  /** Inserting a span keeps the others fine exactly when it is fine with them. */
  lemma {:induction false} InsertKeepsFine(x: Span, xs: seq<Span>)
    ensures Fine(InsertSpan(x, xs)) <==> Fine(xs) && FineWith(x, xs)
  {
    if xs == [] || x.start < xs[0].start {
      FinePrepended(x, xs);
    } else {
      var head, tail := xs[0], xs[1..];
      assert xs == [head] + tail;
      InsertKeepsFine(x, tail);
      FinePrepended(head, tail);
      FinePrepended(head, InsertSpan(x, tail));
      FineWithInserted(head, x, tail);
      FineWithHead(x, head, tail);
    }
  }

  function SortSpans(xs: seq<Span>): seq<Span> {
    if xs == [] then [] else InsertSpan(xs[|xs| - 1], SortSpans(xs[..|xs| - 1]))
  }

  lemma {:induction false} SortAgrees(slots: seq<Slot>)
    requires AllWellFormed(slots)
    ensures AllWellFormed(SortByStart(slots))
    ensures Spans(SortByStart(slots)) == SortSpans(Spans(slots))
  {
    if slots != [] {
      var rest, last := slots[..|slots| - 1], slots[|slots| - 1];
      SortAgrees(rest);
      InsertAgrees(last, SortByStart(rest));
      assert Spans(slots)[..|slots| - 1] == Spans(rest);
    }
  }

  /** Sorting keeps the spans and whether they are fine. */
  lemma {:induction false} SortFacts(xs: seq<Span>)
    ensures Sorted(SortSpans(xs))
    ensures forall x :: x in SortSpans(xs) <==> x in xs
    ensures Fine(SortSpans(xs)) <==> Fine(xs)
  {
    if xs != [] {
      var rest, last := xs[..|xs| - 1], xs[|xs| - 1];
      assert xs == rest + [last];
      SortFacts(rest);
      InsertKeepsSorted(last, SortSpans(rest));
      InsertMembers(last, SortSpans(rest));
      InsertKeepsFine(last, SortSpans(rest));
      FineAppended(rest, last);
    }
  }

  predicate OffendsAt(xs: seq<Span>, n: nat)
    requires n < |xs|
  {
    !NonEmpty(xs[n]) || (n > 0 && xs[n].start < xs[n - 1].end)
  }

  lemma OffenceInMinutes(slots: seq<Slot>, n: nat)
    requires AllWellFormed(slots) && n < |slots|
    ensures Offends(slots, n) <==> OffendsAt(Spans(slots), n)
  {
    TextOrderIsTimeOrder(slots[n].start, slots[n].end);
    if n > 0 {
      TextOrderIsTimeOrder(slots[n].start, slots[n - 1].end);
    }
  }

  /** Among spans that do not offend everything earlier ends before anything later starts. */
  lemma {:induction false} EarlierEndsFirst(xs: seq<Span>, i: nat, j: nat)
    requires forall n :: 0 <= n < |xs| ==> !OffendsAt(xs, n)
    requires i < j < |xs|
    ensures xs[i].end <= xs[j].start
  {
    assert !OffendsAt(xs, j);
    if i < j - 1 {
      EarlierEndsFirst(xs, i, j - 1);
      assert !OffendsAt(xs, j - 1);
    }
  }

  /** For sorted spans, comparing neighbours decides the condition on all pairs. */
  lemma NeighboursDecide(xs: seq<Span>)
    requires Sorted(xs)
    ensures (forall n :: 0 <= n < |xs| ==> !OffendsAt(xs, n)) <==> Fine(xs)
  {
    if forall n :: 0 <= n < |xs| ==> !OffendsAt(xs, n) {
      forall i, j | 0 <= i < j < |xs| ensures Apart(xs[i], xs[j]) {
        EarlierEndsFirst(xs, i, j);
      }
      forall i | 0 <= i < |xs| ensures NonEmpty(xs[i]) {
        assert !OffendsAt(xs, i);
      }
    }
    if Fine(xs) {
      forall n | 0 <= n < |xs| ensures !OffendsAt(xs, n) {
        assert n > 0 ==> Apart(xs[n - 1], xs[n]);
      }
    }
  }

  lemma {:induction false} SetSize(ids: seq<string>)
    ensures |set id | id in ids| <= |ids|
    ensures |set id | id in ids| == |ids| <==> Distinct(ids)
  {
    if ids != [] {
      var rest, last := ids[..|ids| - 1], ids[|ids| - 1];
      SetSize(rest);
      assert (set id | id in ids) == (set id | id in rest) + {last};
      assert last in rest <==> exists i :: 0 <= i < |rest| && rest[i] == last;
      if Distinct(ids) {
        assert forall i :: 0 <= i < |rest| ==> ids[i] == rest[i];
      }
    }
  }

  ghost predicate Disjoint(xs: seq<Span>) {
    && (forall i :: 0 <= i < |xs| ==> NonEmpty(xs[i]))
    && forall i, j, m :: 0 <= i < j < |xs| ==> !(Within(m, xs[i]) && Within(m, xs[j]))
  }

  lemma FineIsDisjoint(xs: seq<Span>)
    ensures Fine(xs) <==> Disjoint(xs)
  {
    if forall i :: 0 <= i < |xs| ==> NonEmpty(xs[i]) {
      forall i, j | 0 <= i < j < |xs|
        ensures Apart(xs[i], xs[j]) <==> forall m :: !(Within(m, xs[i]) && Within(m, xs[j]))
      {
        ApartMeansNoSharedMinute(xs[i], xs[j]);
      }
    }
  }

  /** The form is ready for review exactly when the urgency ids are distinct, every slot is non-empty, and no minute of
      the day lies in two slots; duplicate ids are reported first. */
  lemma ReadyExactlyWhenDisjoint(urgencies: seq<string>, slots: seq<Slot>)
    requires AllWellFormed(slots)
    ensures Validate(urgencies, slots) ==
            if !Distinct(urgencies) then DuplicateUrgency else if Disjoint(Spans(slots)) then Ready else BadSlots
  {
    SetSize(urgencies);
    SortFacts(Spans(slots));
    SortAgrees(slots);
    var sorted := SortByStart(slots);
    NeighboursDecide(Spans(sorted));
    FineIsDisjoint(Spans(slots));
    forall n | 0 <= n < |sorted| ensures Offends(sorted, n) <==> OffendsAt(Spans(sorted), n) {
      OffenceInMinutes(sorted, n);
    }
  }
}
