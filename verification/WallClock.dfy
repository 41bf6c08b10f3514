/** Inverting "UTC instant to wall text": two correction rounds and a three-candidate probe, over any printer and
    parser of local minutes that undo each other. */
module WallClock {
  import opened Wrappers
  import opened Calendar

  const YEAR_ZERO := -719528 * DAY
  const YEAR_ONE := -719162 * DAY

  /** Prints local milliseconds as wall text; parses wall text as if it were UTC, `None` standing for NaN. */
  datatype Codec = Codec(print_: int -> string, parse: string -> Option<int>)

  ghost predicate ParsesMinutes(codec: Codec) {
    forall v: string :: codec.parse(v).Some? ==> codec.parse(v).value % MINUTE == 0 && codec.parse(v).value >= YEAR_ZERO
  }

  ghost predicate UndoesPrinting(codec: Codec, local: int) {
    codec.parse(codec.print_(local)).Some? ==> codec.parse(codec.print_(local)) == Some(local) && local >= YEAR_ONE
  }

  /** Parsed values are whole minutes from year 0 on, and printed minutes parse, if at all, to themselves. */
  ghost predicate Lawful(codec: Codec) {
    && ParsesMinutes(codec)
    && forall local: int :: local % MINUTE == 0 && local > YEAR_ZERO - DAY ==> UndoesPrinting(codec, local)
  }

  /** The offset, in milliseconds, of local time at each UTC instant. */
  type Zone = int -> int

  /** Standard time and summer time one hour apart, on whole minutes, with any pattern of transitions. */
  ghost predicate TwoValued(z: Zone, lo: int) {
    && lo % MINUTE == 0
    && -DAY < lo < DAY - 60 * MINUTE
    && forall t: int :: z(t) == lo || z(t) == lo + 60 * MINUTE
  }

  function Local(z: Zone, t: int): int { t + z(t) }

  function IsraelInput(codec: Codec, z: Zone, t: int): string { codec.print_(Local(z, t)) }

  datatype Outcome = Instant(t: int) | InvalidAppointmentTime | RangeFailure

  /** One correction of the guess by the wall text it prints; `None` when that text does not parse. */
  function Corrected(codec: Codec, z: Zone, wall: int, guess: int): Option<int> {
    match codec.parse(IsraelInput(codec, z, guess))
    case None => None
    case Some(back) => Some(guess + wall - back)
  }

  /** `n` correction rounds from `wall`, failing at the first round that fails. */
  function Rounds(codec: Codec, z: Zone, wall: int, n: nat): Option<int> {
    if n == 0 then Some(wall)
    else match Rounds(codec, z, wall, n - 1)
      case None => None
      case Some(guess) => Corrected(codec, z, wall, guess)
  }

  function Matching(codec: Codec, z: Zone, v: string, instants: seq<int>): seq<int> {
    if instants == [] then []
    else (if IsraelInput(codec, z, instants[0]) == v then [instants[0]] else [])
         + Matching(codec, z, v, instants[1..])
  }

  function Candidates(guess: int): seq<int> { [guess - HOUR, guess, guess + HOUR] }

  function Inverse(codec: Codec, z: Zone, v: string): Outcome {
    match codec.parse(v)
    case None => InvalidAppointmentTime
    case Some(wall) =>
      match Rounds(codec, z, wall, 2)
      case None => RangeFailure
      case Some(guess) =>
        var matches := Matching(codec, z, v, Candidates(guess));
        if |matches| != 1 then InvalidAppointmentTime else Instant(matches[0])
  }

  /** The field's parser, with the guess corrected in place. A text that stops parsing makes the next
      instant an invalid date, which cannot be printed. */
  method IsraelInstant(codec: Codec, z: Zone, v: string) returns (r: Outcome)
    ensures r == Inverse(codec, z, v)
  {
    var parsed := codec.parse(v);
    if parsed.None? {
      return InvalidAppointmentTime;
    }
    var wall := parsed.value;
    var guess := wall;
    for attempt := 0 to 2
      invariant Rounds(codec, z, wall, attempt) == Some(guess)
    {
      var back := codec.parse(IsraelInput(codec, z, guess));
      if back.None? {
        RoundsStayFailed(codec, z, wall, attempt + 1, 2);
        return RangeFailure;
      }
      guess := guess + wall - back.value;
    }
    var matches := Matching(codec, z, v, [guess - HOUR, guess, guess + HOUR]);
    return if |matches| != 1 then InvalidAppointmentTime else Instant(matches[0]);
  }

  lemma {:induction false} RoundsStayFailed(codec: Codec, z: Zone, wall: int, m: nat, n: nat)
    requires m <= n && Rounds(codec, z, wall, m).None?
    ensures Rounds(codec, z, wall, n).None?
  {
    if m < n {
      RoundsStayFailed(codec, z, wall, m, n - 1);
    }
  }

  // ---------- what the inversion means ----------

  /** `t` is a whole minute of the common era whose wall text is `v`. */
  ghost predicate Solves(codec: Codec, z: Zone, v: string, t: int) {
    t % MINUTE == 0 && Local(z, t) >= YEAR_ONE && IsraelInput(codec, z, t) == v
  }

  ghost predicate OnlySolution(codec: Codec, z: Zone, v: string, t: int) {
    Solves(codec, z, v, t) && forall u: int :: Solves(codec, z, v, u) ==> u == t
  }

  /** Every solution is the wall time less one of the two offsets. */
  lemma SolutionsAreTwo(codec: Codec, z: Zone, lo: int, v: string, t: int)
    requires Lawful(codec) && TwoValued(z, lo)
    requires codec.parse(v).Some? && Solves(codec, z, v, t)
    ensures Local(z, t) == codec.parse(v).value
    ensures t == codec.parse(v).value - lo || t == codec.parse(v).value - lo - HOUR
  {
    assert z(t) == lo || z(t) == lo + HOUR;
    assert UndoesPrinting(codec, Local(z, t));
  }

  /** Whatever the transitions, two rounds from a wall time end on it less one of the two offsets. */
  lemma TwoRoundsReachAnOffset(codec: Codec, z: Zone, lo: int, wall: int)
    requires Lawful(codec) && TwoValued(z, lo)
    requires wall % MINUTE == 0 && wall >= YEAR_ZERO
    requires Rounds(codec, z, wall, 2).Some?
    ensures Rounds(codec, z, wall, 2).value in {wall - lo, wall - lo - HOUR}
  {
    assert Rounds(codec, z, wall, 0) == Some(wall);
    assert z(wall) == lo || z(wall) == lo + HOUR;
    assert UndoesPrinting(codec, Local(z, wall));
    var guess := wall - z(wall);
    assert Rounds(codec, z, wall, 1) == Some(guess);
    assert z(guess) == lo || z(guess) == lo + HOUR;
    assert UndoesPrinting(codec, Local(z, guess));
  }

  /** The two wall texts the corrections read back can be parsed: that of the wall time taken as an instant, and that
      of the first corrected guess. */
  ghost predicate RoundsParse(codec: Codec, z: Zone, wall: int) {
    && codec.parse(IsraelInput(codec, z, wall)).Some?
    && codec.parse(IsraelInput(codec, z, wall - z(wall))).Some?
  }

  lemma FirstRound(codec: Codec, z: Zone, lo: int, wall: int)
    requires Lawful(codec) && TwoValued(z, lo)
    requires wall % MINUTE == 0 && wall >= YEAR_ZERO
    ensures Rounds(codec, z, wall, 1) ==
            if codec.parse(IsraelInput(codec, z, wall)).None? then None else Some(wall - z(wall))
  {
    assert Rounds(codec, z, wall, 0) == Some(wall);
    assert z(wall) == lo || z(wall) == lo + HOUR;
    assert UndoesPrinting(codec, Local(z, wall));
  }

  /** Exactly when the corrections run out of readable text. */
  lemma RangeFailureIsExact(codec: Codec, z: Zone, lo: int, v: string)
    requires Lawful(codec) && TwoValued(z, lo) && codec.parse(v).Some?
    ensures Inverse(codec, z, v) == RangeFailure <==> !RoundsParse(codec, z, codec.parse(v).value)
  {
    FirstRound(codec, z, lo, codec.parse(v).value);
  }

  /** From `first` up to `end`, and nowhere else, printed wall text parses. */
  ghost predicate ReadsExactly(codec: Codec, first: int, end: int) {
    forall local: int :: local > YEAR_ZERO - DAY ==> (codec.parse(codec.print_(local)).Some? <==> first <= local < end)
  }

  /** A correction leaves that stretch: the wall time taken as an instant, or the first corrected guess, has its local
      time outside. */
  predicate Leaves(z: Zone, wall: int, first: int, end: int) {
    !(first <= wall + z(wall) < end) || !(first <= wall - z(wall) + z(wall - z(wall)) < end)
  }

  lemma LeavingIsExact(codec: Codec, z: Zone, lo: int, wall: int, first: int, end: int)
    requires TwoValued(z, lo) && ReadsExactly(codec, first, end) && wall >= YEAR_ZERO
    ensures RoundsParse(codec, z, wall) <==> !Leaves(z, wall, first, end)
  {
    var guess := wall - z(wall);
    assert z(wall) == lo || z(wall) == lo + HOUR;
    assert z(guess) == lo || z(guess) == lo + HOUR;
    assert IsraelInput(codec, z, wall) == codec.print_(wall + z(wall));
    assert IsraelInput(codec, z, guess) == codec.print_(guess + z(guess));
  }

  /** A day inside the stretch no correction leaves it; a day before it, or `lo` before its end, one always does. */
  lemma LeavingFromAfar(z: Zone, lo: int, wall: int, first: int, end: int)
    requires TwoValued(z, lo)
    ensures first + DAY <= wall <= end - DAY ==> !Leaves(z, wall, first, end)
    ensures wall + DAY <= first || wall + lo >= end ==> Leaves(z, wall, first, end)
  {
    var guess := wall - z(wall);
    assert z(wall) == lo || z(wall) == lo + HOUR;
    assert z(guess) == lo || z(guess) == lo + HOUR;
  }

  /** Near a wall time, printing the text is all a candidate needs to be a solution. */
  lemma CandidateSolves(codec: Codec, z: Zone, lo: int, v: string, t: int)
    requires Lawful(codec) && TwoValued(z, lo) && codec.parse(v).Some?
    requires t % MINUTE == 0 && t + lo >= codec.parse(v).value - 2 * HOUR
    ensures Solves(codec, z, v, t) <==> IsraelInput(codec, z, t) == v
  {
    assert z(t) == lo || z(t) == lo + HOUR;
    assert UndoesPrinting(codec, Local(z, t));
  }

  lemma MatchingThree(codec: Codec, z: Zone, v: string, a: int, b: int, c: int)
    ensures Matching(codec, z, v, [a, b, c]) ==
            (if IsraelInput(codec, z, a) == v then [a] else [])
            + (if IsraelInput(codec, z, b) == v then [b] else [])
            + (if IsraelInput(codec, z, c) == v then [c] else [])
  {
    assert [a, b, c][1..] == [b, c] && [b, c][1..] == [c] && [c][1..] == [];
    assert Matching(codec, z, v, []) == [];
    assert Matching(codec, z, v, [c]) == if IsraelInput(codec, z, c) == v then [c] else [];
    assert Matching(codec, z, v, [b, c]) ==
           (if IsraelInput(codec, z, b) == v then [b] else []) + Matching(codec, z, v, [c]);
  }

  /** For every text that parses: the result is an instant exactly when the two texts the corrections read back parse
      and that instant is the only one with the given wall text. */
  lemma InverseIsExact(codec: Codec, z: Zone, lo: int, v: string, t: int)
    requires Lawful(codec) && TwoValued(z, lo)
    requires codec.parse(v).Some?
    ensures Inverse(codec, z, v) == Instant(t) <==> RoundsParse(codec, z, codec.parse(v).value) && OnlySolution(codec, z, v, t)
  {
    RangeFailureIsExact(codec, z, lo, v);
    if RoundsParse(codec, z, codec.parse(v).value) {
      ReadableInverse(codec, z, lo, v, t);
    }
  }

  lemma ReadableInverse(codec: Codec, z: Zone, lo: int, v: string, t: int)
    requires Lawful(codec) && TwoValued(z, lo)
    requires codec.parse(v).Some? && Inverse(codec, z, v) != RangeFailure
    ensures Inverse(codec, z, v) == Instant(t) <==> OnlySolution(codec, z, v, t)
  {
    var wall := codec.parse(v).value;
    TwoRoundsReachAnOffset(codec, z, lo, wall);
    var g := Rounds(codec, z, wall, 2).value;
    CandidateSolves(codec, z, lo, v, g - HOUR);
    CandidateSolves(codec, z, lo, v, g);
    CandidateSolves(codec, z, lo, v, g + HOUR);
    MatchingThree(codec, z, v, g - HOUR, g, g + HOUR);
    forall u: int | Solves(codec, z, v, u) ensures u in {g - HOUR, g, g + HOUR} {
      SolutionsAreTwo(codec, z, lo, v, u);
    }
    if OnlySolution(codec, z, v, t) {
      assert t in {g - HOUR, g, g + HOUR};
      assert forall u: int :: u in {g - HOUR, g, g + HOUR} && u != t ==> !Solves(codec, z, v, u);
    }
  }
}
