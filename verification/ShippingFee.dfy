/** The shipping fee field: shekel text with up to two decimals, stored in agorot. */
module ShippingFee {
  import opened Digits

  const MAX := 2147483647

  datatype Parsed = Amount(agorot: nat) | Malformed | TooHigh

  // ---------- trimming ----------

  /** White space and line terminators, as `trim` removes them (section 22.1.3.32 of ECMA-262). */
  predicate Space(c: char) {
    || '\t' <= c <= '\r' || c == ' ' || c == '\U{a0}' || c == '\U{1680}' || '\U{2000}' <= c <= '\U{200a}'
    || c == '\U{2028}' || c == '\U{2029}' || c == '\U{202f}' || c == '\U{205f}' || c == '\U{3000}' || c == '\U{feff}'
  }

  function TrimStart(s: string): string {
    if s != "" && Space(s[0]) then TrimStart(s[1..]) else s
  }

  function TrimEnd(s: string): string {
    if s != "" && Space(s[|s| - 1]) then TrimEnd(s[..|s| - 1]) else s
  }

  function Trim(s: string): string { TrimEnd(TrimStart(s)) }

  // ---------- the field ----------

  /** `(agorot / 100).toFixed(2)`, on exact hundredths. */
  function Print(agorot: nat): string {
    Decimal(agorot / 100) + "." + Pad2(agorot % 100)
  }

  /** How many digits `s` begins with. */
  function DigitPrefix(s: string): (n: nat)
    ensures n <= |s| && AllDigits(s[..n]) && (n < |s| ==> !IsDigit(s[n]))
  {
    if s == "" || !IsDigit(s[0]) then 0
    else
      var n := DigitPrefix(s[1..]) + 1;
      assert s[..n] == [s[0]] + s[1..][..n - 1];
      n
  }

  predicate Fraction(s: string) {
    s == "" || (s[0] == '.' && 2 <= |s| <= 3 && AllDigits(s[1..]))
  }

  function PadEnd(digits: string): (padded: string)
    requires AllDigits(digits) && |digits| <= 2
    ensures AllDigits(padded) && |padded| == 2
  {
    if |digits| == 0 then "00" else if |digits| == 1 then digits + "0" else digits
  }

  function FractionDigits(s: string): (digits: string)
    requires Fraction(s)
    ensures AllDigits(digits) && |digits| <= 2
  {
    if s == "" then "" else s[1..]
  }

  /** The submit handler's pattern match and conversion. */
  function Parse(text: string): Parsed {
    var t := Trim(text);
    var n := DigitPrefix(t);
    if !(1 <= n <= 8) || !Fraction(t[n..]) then Malformed
    else
      var agorot := Value(t[..n]) * 100 + Value(PadEnd(FractionDigits(t[n..])));
      if agorot > MAX then TooHigh else Amount(agorot)
  }

  // ---------- what it accepts ----------

  /** One to eight digits of shekels, and nothing, one or two digits after a point. */
  ghost predicate Denotes(text: string, whole: string, fraction: string) {
    && AllDigits(whole) && 1 <= |whole| <= 8
    && AllDigits(fraction) && |fraction| <= 2
    && Trim(text) == whole + if fraction == "" then "" else "." + fraction
  }

  function Agorot(whole: string, fraction: string): nat
    requires AllDigits(whole) && AllDigits(fraction) && |fraction| <= 2
  {
    Value(whole) * 100 + Value(PadEnd(fraction))
  }

  lemma {:induction false} DigitPrefixOf(whole: string, rest: string)
    requires AllDigits(whole) && (rest == "" || !IsDigit(rest[0]))
    ensures DigitPrefix(whole + rest) == |whole|
  {
    if whole == "" {
      assert whole + rest == rest;
    } else {
      assert (whole + rest)[1..] == whole[1..] + rest;
      DigitPrefixOf(whole[1..], rest);
    }
  }

  /** A text that denotes an amount is read as that amount, or refused only for being above the bound. */
  lemma DenotedIsParsed(text: string, whole: string, fraction: string)
    requires Denotes(text, whole, fraction)
    ensures Parse(text) == if Agorot(whole, fraction) > MAX then TooHigh else Amount(Agorot(whole, fraction))
  {
    var rest := if fraction == "" then "" else "." + fraction;
    DigitPrefixOf(whole, rest);
    assert Trim(text)[..|whole|] == whole && Trim(text)[|whole|..] == rest;
    assert rest != "" ==> rest[1..] == fraction;
  }

  /** Conversely every text that is not refused as malformed denotes the amount it is read as. */
  lemma ParsedIsDenoted(text: string) returns (whole: string, fraction: string)
    requires Parse(text) != Malformed
    ensures Denotes(text, whole, fraction)
    ensures Parse(text).Amount? ==> Parse(text).agorot == Agorot(whole, fraction) <= MAX
    ensures Parse(text).TooHigh? ==> Agorot(whole, fraction) > MAX
  {
    var t := Trim(text);
    var n := DigitPrefix(t);
    whole, fraction := t[..n], FractionDigits(t[n..]);
    assert t == t[..n] + t[n..];
    assert t[n..] != "" ==> t[n..] == "." + fraction;
    DenotedIsParsed(text, whole, fraction);
  }

  // ---------- round trip ----------

  lemma TrimKeeps(s: string)
    requires s != "" && !Space(s[0]) && !Space(s[|s| - 1])
    ensures Trim(s) == s
  {
  }

  lemma Pad2Value(n: nat)
    requires n < 100
    ensures AllDigits(Pad2(n)) && Value(Pad2(n)) == n
  {
    var tens := [DigitChar(n / 10)];
    assert tens[..0] == "";
    assert Value(tens) == n / 10;
    assert Pad2(n)[..1] == tens;
  }

  /** Every amount a fee can have is read back from its text. */
  lemma ParseAfterPrint(agorot: nat)
    requires agorot <= 2147483647
    ensures Parse(Print(agorot)) == Amount(agorot)
  {
    var whole, fraction := Decimal(agorot / 100), Pad2(agorot % 100);
    ValueOfDecimal(agorot / 100);
    assert PowerOfTen(8) == 100000000;
    DecimalFits(agorot / 100, 8);
    Pad2Value(agorot % 100);
    TrimKeeps(Print(agorot));
    assert Print(agorot) == whole + ("." + fraction);
    DenotedIsParsed(Print(agorot), whole, fraction);
  }

  /** The text of an amount is its shekels, a point and two digits of agorot. */
  lemma PrintIsTwoDecimals(agorot: nat)
    ensures var text := Print(agorot);
            var n := |text|;
            && n >= 4 && text[n - 3] == '.' && AllDigits(text[..n - 3]) && AllDigits(text[n - 2..])
            && 100 * Value(text[..n - 3]) + Value(text[n - 2..]) == agorot
  {
    var whole, fraction := Decimal(agorot / 100), Pad2(agorot % 100);
    ValueOfDecimal(agorot / 100);
    Pad2Value(agorot % 100);
    assert Print(agorot) == whole + "." + fraction;
    assert Print(agorot)[..|whole|] == whole && Print(agorot)[|whole| + 1..] == fraction;
  }

  predicate Blank(s: string) { forall i :: 0 <= i < |s| ==> Space(s[i]) }

  lemma {:induction false} TrimStartOfConcat(a: string, b: string)
    ensures TrimStart(a + b) == if Blank(a) then TrimStart(b) else TrimStart(a) + b
    ensures Blank(a) <==> TrimStart(a) == ""
  {
    if a == "" {
      assert a + b == b;
    } else if Space(a[0]) {
      TrimStartOfConcat(a[1..], b);
      assert (a + b)[1..] == a[1..] + b;
      assert Blank(a) <==> Blank(a[1..]) by {
        assert forall i :: 1 <= i < |a| ==> a[i] == a[1..][i - 1];
      }
    }
  }

  lemma {:induction false} TrimEndOfConcat(a: string, b: string)
    requires Blank(b)
    ensures TrimEnd(a + b) == TrimEnd(a)
  {
    if b == "" {
      assert a + b == a;
    } else {
      assert (a + b)[..|a + b| - 1] == a + b[..|b| - 1];
      TrimEndOfConcat(a, b[..|b| - 1]);
    }
  }

  /** White space around the amount makes no difference. */
  lemma BlanksAroundDoNotMatter(before: string, text: string, behind: string)
    requires Blank(before) && Blank(behind)
    ensures Parse(before + text + behind) == Parse(text)
  {
    assert before + text + behind == before + (text + behind);
    TrimStartOfConcat(before, text + behind);
    TrimStartOfConcat(text, behind);
    TrimStartOfConcat(behind, "");
    assert behind + "" == behind;
    TrimEndOfConcat(TrimStart(text), behind);
  }

  function Plain(whole: string, fraction: string): string {
    whole + if fraction == "" then "" else "." + fraction
  }

  lemma PlainForm(whole: string, fraction: string)
    requires AllDigits(whole) && 1 <= |whole| <= 8 && AllDigits(fraction) && |fraction| <= 2
    ensures Parse(Plain(whole, fraction)) ==
            if Agorot(whole, fraction) > MAX then TooHigh else Amount(Agorot(whole, fraction))
  {
    TrimKeeps(Plain(whole, fraction));
    DenotedIsParsed(Plain(whole, fraction), whole, fraction);
  }

  lemma PaddingAgrees(whole: string, f: string, g: string)
    requires AllDigits(whole) && 1 <= |whole| <= 8
    requires AllDigits(f) && |f| <= 2 && AllDigits(g) && |g| <= 2 && PadEnd(f) == PadEnd(g)
    ensures Parse(Plain(whole, f)) == Parse(Plain(whole, g))
  {
    PlainForm(whole, f);
    PlainForm(whole, g);
  }

  /** "n", "n.0" and "n.00" are the same fee, and so are "n.d" and "n.d0". */
  lemma ShortFormsAgree(whole: string, d: char)
    requires AllDigits(whole) && 1 <= |whole| <= 8 && IsDigit(d)
    ensures Parse(Plain(whole, "")) == Parse(Plain(whole, "0")) == Parse(Plain(whole, "00"))
    ensures Parse(Plain(whole, [d])) == Parse(Plain(whole, [d] + "0"))
  {
    PaddingAgrees(whole, "", "0");
    PaddingAgrees(whole, "", "00");
    PaddingAgrees(whole, [d], [d] + "0");
  }
}
