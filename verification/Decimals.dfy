/** Fixed-point decimal text to scaled 64-bit integers and back, without rounding. */
module Decimals {
  import opened Arithmetic
  import opened Text
  import opened Wrappers

  datatype DecimalParseError =
    | Empty
    | MissingDigits
    | InvalidCharacter
    | NegativeNotAllowed
    | TooManyFractionalDigits
    | Overflow

  type Parsed = Result<Int64, DecimalParseError>

  // ---- what the parser answers, error by error ----

  function ParseFraction(rest: string, digits: nat, scaled: Int64, negative: bool): Parsed
    requires scaled >= 0
  {
    if rest != "" && rest[0] == '.' then
      var tail := rest[1..];
      var m := DigitRun(tail);
      if m == 0 then Failure(MissingDigits)
      else if m > digits then Failure(TooManyFractionalDigits)
      else
        var total := scaled + Scaled(Value(tail[..m]), digits - m);
        if total > INT64_MAX then Failure(Overflow)
        else if m < |tail| then Failure(InvalidCharacter)
        else Success(if negative then -total else total)
    else if rest != "" then Failure(InvalidCharacter)
    else Success(if negative then -scaled else scaled)
  }

  function ParseMagnitude(body: string, digits: nat, negative: bool): Parsed {
    var n := DigitRun(body);
    if n == 0 then Failure(MissingDigits)
    else if Scaled(Value(body[..n]), digits) > INT64_MAX then Failure(Overflow)
    else ParseFraction(body[n..], digits, Scaled(Value(body[..n]), digits), negative)
  }

  function ParseScaled(text: string, digits: nat, allowNegative: bool): Parsed {
    if text == "" then Failure(Empty)
    else if text[0] == '-' && !allowNegative then Failure(NegativeNotAllowed)
    else if text[0] == '-' then ParseMagnitude(text[1..], digits, true)
    else ParseMagnitude(text, digits, false)
  }

  // ---- the parser ----

  /** Appends one digit unless the result would leave the 64-bit range. */
  method AccumulateDigit(value: Int64, digit: int) returns (ok: bool, next: Int64)
    requires value >= 0 && 0 <= digit < 10
    ensures ok <==> value * 10 + digit <= INT64_MAX
    ensures next == if ok then value * 10 + digit else value
  {
    if value > (INT64_MAX - digit) / 10 {
      return false, value;
    }
    return true, value * 10 + digit;
  }

  /** A longer run of digits denotes at least as much, so an overflow on the way is an overflow. */
  lemma {:induction false} ValueGrows(s: string, n: nat, m: nat)
    requires n <= m <= DigitRun(s)
    ensures AllDigits(s[..n]) && AllDigits(s[..m]) && Value(s[..n]) <= Value(s[..m])
    decreases m - n
  {
    RunPrefix(s, n);
    RunPrefix(s, m);
    if n < m {
      RunPrefix(s, n + 1);
      ValueStep(s, n);
      ValueGrows(s, n + 1, m);
    }
  }

  method ReadWhole(body: string) returns (ok: bool, value: Int64, n: nat)
    ensures ok <==> Value(body[..DigitRun(body)]) <= INT64_MAX
    ensures ok ==> n == DigitRun(body) && value == Value(body[..n])
  {
    ok, value, n := true, 0, 0;
    RunStops(body, 0);
    while n < |body| && IsDigit(body[n])
      invariant n <= DigitRun(body) && AllDigits(body[..n])
      invariant ok && value == Value(body[..n])
      invariant n < |body| && IsDigit(body[n]) <==> n < DigitRun(body)
    {
      RunPrefix(body, n + 1);
      ValueStep(body, n);
      ValueGrows(body, n + 1, DigitRun(body));
      ok, value := AccumulateDigit(value, DigitValue(body[n]));
      if !ok { return; }
      n := n + 1;
      RunStops(body, n);
    }
  }

  lemma {:induction false} ScaleGrows(value: nat, i: nat, digits: nat)
    requires i <= digits
    ensures Scaled(value, i) <= Scaled(value, digits)
    decreases digits - i
  {
    if i < digits {
      ScaleGrows(value, i + 1, digits);
    }
  }

  method ScaleUp(whole: Int64, digits: nat) returns (ok: bool, value: Int64)
    requires whole >= 0
    ensures ok <==> Scaled(whole, digits) <= INT64_MAX
    ensures ok ==> value == Scaled(whole, digits)
  {
    ok, value := true, whole;
    for i := 0 to digits
      invariant ok && value == Scaled(whole, i)
    {
      ScaleGrows(whole, i + 1, digits);
      ok, value := AccumulateDigit(value, 0);
      if !ok { return; }
    }
  }

  method PowerOfTen(exponent: nat) returns (result: nat)
    ensures result == Pow10(exponent)
  {
    result := 1;
    for i := 0 to exponent
      invariant result == Pow10(i)
    {
      result := result * 10;
    }
  }

  method ReadFraction(rest: string, digits: nat, value: Int64, negative: bool) returns (r: Parsed)
    requires value >= 0
    ensures r == ParseFraction(rest, digits, value, negative)
  {
    if rest == "" {
      return Success(if negative then -value else value);
    }
    if rest[0] != '.' {
      return Failure(InvalidCharacter);
    }
    var tail := rest[1..];
    var m := 0;
    RunStops(tail, 0);
    while m < |tail| && IsDigit(tail[m])
      invariant m <= DigitRun(tail)
      invariant m < |tail| && IsDigit(tail[m]) <==> m < DigitRun(tail)
    {
      m := m + 1;
      RunStops(tail, m);
    }
    if m == 0 {
      return Failure(MissingDigits);
    }
    if m > digits {
      return Failure(TooManyFractionalDigits);
    }
    var fraction := 0;
    for i := 0 to m
      invariant AllDigits(tail[..i]) && fraction == Value(tail[..i])
    {
      RunPrefix(tail, i + 1);
      ValueStep(tail, i);
      fraction := fraction * 10 + DigitValue(tail[i]);
    }
    var pad := PowerOfTen(digits - m);
    assert tail[..m] == tail[..DigitRun(tail)];
    ScaledIsProduct(fraction, digits - m);
    fraction := fraction * pad;
    if value > INT64_MAX - fraction {
      return Failure(Overflow);
    }
    if m < |tail| {
      return Failure(InvalidCharacter);
    }
    return Success(if negative then -(value + fraction) else value + fraction);
  }

  method ParseScaledDecimal(text: string, digits: nat, allowNegative: bool) returns (r: Parsed)
    requires digits <= 9
    ensures r == ParseScaled(text, digits, allowNegative)
  {
    if text == "" {
      return Failure(Empty);
    }
    var body, negative := text, false;
    if text[0] == '-' {
      if !allowNegative {
        return Failure(NegativeNotAllowed);
      }
      body, negative := text[1..], true;
    }
    var ok, whole, n := ReadWhole(body);
    ghost var run := DigitRun(body);
    ScaleGrows(Value(body[..run]), 0, digits);
    if !ok {
      assert run != 0 by { assert body[..0] == ""; }
      return Failure(Overflow);
    }
    if n == 0 {
      return Failure(MissingDigits);
    }
    var value;
    ok, value := ScaleUp(whole, digits);
    if !ok {
      return Failure(Overflow);
    }
    r := ReadFraction(body[n..], digits, value, negative);
  }

  // ---- the grammar, and exact agreement with it ----

  /** [-] digits [. digits], the shape of every number on the wire. */
  function Signed(negative: bool, body: string): string {
    if negative then "-" + body else body
  }

  datatype Numeral = Numeral(negative: bool, whole: string, fraction: Option<string>)
  {
    predicate WellFormed(digits: nat, allowNegative: bool) {
      && whole != "" && AllDigits(whole)
      && (fraction.Some? ==> AllDigits(fraction.value) && 1 <= |fraction.value| <= digits)
      && (negative ==> allowNegative)
    }

    function Tail(): string {
      if fraction.Some? then "." + fraction.value else ""
    }

    function Render(): string {
      Signed(negative, whole + Tail())
    }

    /** The exact number, times 10^digits, without its sign. */
    function Magnitude(digits: nat): (m: int)
      requires WellFormed(digits, true)
      ensures m >= 0
    {
      Scaled(Value(whole), digits)
      + if fraction.Some? then Scaled(Value(fraction.value), digits - |fraction.value|) else 0
    }

    function Denotes(digits: nat): int
      requires WellFormed(digits, true)
    {
      if negative then -Magnitude(digits) else Magnitude(digits)
    }
  }

  lemma FractionRead(f: string, digits: nat, scaled: Int64, negative: bool)
    requires scaled >= 0 && AllDigits(f) && 1 <= |f| <= digits
    ensures var total := scaled + Scaled(Value(f), digits - |f|);
      ParseFraction("." + f, digits, scaled, negative) ==
        if total > INT64_MAX then Failure(Overflow) else Success(if negative then -total else total)
  {
    var rest := "." + f;
    assert rest[1..] == f;
    DigitRunOf(f, "");
    assert f + "" == f && f[..|f|] == f;
  }

  lemma WholeRead(whole: string, rest: string, digits: nat, negative: bool)
    requires whole != "" && AllDigits(whole) && (rest == "" || rest[0] == '.')
    ensures var scaled := Scaled(Value(whole), digits);
      ParseMagnitude(whole + rest, digits, negative) ==
        if scaled > INT64_MAX then Failure(Overflow) else ParseFraction(rest, digits, scaled, negative)
  {
    var body := whole + rest;
    DigitRunOf(whole, rest);
    assert body[..|whole|] == whole && body[|whole|..] == rest;
  }

  lemma SignRead(body: string, digits: nat, negative: bool, allowNegative: bool)
    requires body != "" && body[0] != '-' && (negative ==> allowNegative)
    ensures ParseScaled(Signed(negative, body), digits, allowNegative) == ParseMagnitude(body, digits, negative)
  {
    assert ("-" + body)[1..] == body;
  }

  /** Every well-formed numeral in range is accepted, with exactly its value; out of range is Overflow. */
  lemma ParseComplete(num: Numeral, digits: nat, allowNegative: bool)
    requires num.WellFormed(digits, allowNegative)
    ensures ParseScaled(num.Render(), digits, allowNegative) ==
      if num.Magnitude(digits) <= INT64_MAX then Success(num.Denotes(digits)) else Failure(Overflow)
  {
    SignRead(num.whole + num.Tail(), digits, num.negative, allowNegative);
    WholeRead(num.whole, num.Tail(), digits, num.negative);
    var scaled := Scaled(Value(num.whole), digits);
    if num.fraction.Some? && scaled <= INT64_MAX {
      FractionRead(num.fraction.value, digits, scaled, num.negative);
    }
  }

  function NumeralOf(text: string): Numeral
    requires text != ""
  {
    if text[0] == '-' then BodyOf(true, text[1..]) else BodyOf(false, text)
  }

  function BodyOf(negative: bool, body: string): Numeral {
    var n := DigitRun(body);
    Numeral(negative, body[..n], if n < |body| then Some(body[n + 1..]) else None)
  }

  lemma FractionSound(rest: string, digits: nat, scaled: Int64, negative: bool)
    requires scaled >= 0 && rest != "" && ParseFraction(rest, digits, scaled, negative).Success?
    ensures rest == "." + rest[1..] && AllDigits(rest[1..]) && 1 <= |rest[1..]| <= digits
  {
    var tail := rest[1..];
    assert tail[..|tail|] == tail;
  }

  lemma BodySound(body: string, digits: nat, negative: bool)
    requires ParseMagnitude(body, digits, negative).Success?
    ensures var num := BodyOf(negative, body);
      num.WellFormed(digits, true) && num.whole + num.Tail() == body
  {
    var n := DigitRun(body);
    if n < |body| {
      FractionSound(body[n..], digits, Scaled(Value(body[..n]), digits), negative);
      assert body[n..][1..] == body[n + 1..];
    }
  }

  /** Nothing else is accepted. */
  lemma ParseSound(text: string, digits: nat, allowNegative: bool)
    requires ParseScaled(text, digits, allowNegative).Success?
    ensures text != ""
    ensures var num := NumeralOf(text);
      && num.WellFormed(digits, allowNegative) && num.Render() == text
      && num.Magnitude(digits) <= INT64_MAX
      && ParseScaled(text, digits, allowNegative).value == num.Denotes(digits)
  {
    if text[0] == '-' {
      BodySound(text[1..], digits, true);
      assert text == "-" + text[1..];
    } else {
      BodySound(text, digits, false);
    }
    ParseComplete(NumeralOf(text), digits, allowNegative);
  }

  /** Parsing succeeds with v exactly when the text is a numeral of the grammar whose scaled value is v and fits. */
  lemma ParseExact(text: string, digits: nat, allowNegative: bool, v: Int64)
    ensures ParseScaled(text, digits, allowNegative) == Success(v) <==>
      exists num: Numeral ::
        && num.WellFormed(digits, allowNegative) && num.Render() == text
        && num.Magnitude(digits) <= INT64_MAX && num.Denotes(digits) == v
  {
    if ParseScaled(text, digits, allowNegative) == Success(v) {
      ParseSound(text, digits, allowNegative);
    }
    forall num: Numeral | num.WellFormed(digits, allowNegative) && num.Render() == text
                          && num.Magnitude(digits) <= INT64_MAX && num.Denotes(digits) == v
      ensures ParseScaled(text, digits, allowNegative) == Success(v)
    {
      ParseComplete(num, digits, allowNegative);
    }
  }

  // ---- refusals ----

  /**
   Any text cut at the ends of its digit runs: a sign, whole digits, a point with further digits, and
   whatever is left. The runs may be empty.
   */
  datatype Cut = Cut(negative: bool, whole: string, fraction: Option<string>, rest: string)
  {
    predicate AtRunEnds() {
      && AllDigits(whole) && (fraction.Some? ==> AllDigits(fraction.value))
      && (rest != "" ==> !IsDigit(rest[0]) && (fraction.None? ==> rest[0] != '.'))
    }

    function Body(): string {
      whole + if fraction.Some? then "." + (fraction.value + rest) else rest
    }

    /** The numbers read before anything else is looked at. */
    function WholeUnits(digits: nat): (n: nat)
      requires AtRunEnds()
    {
      Scaled(Value(whole), digits)
    }

    function Units(digits: nat): (n: nat)
      requires AtRunEnds() && (fraction.Some? ==> |fraction.value| <= digits)
    {
      WholeUnits(digits) + if fraction.Some? then Scaled(Value(fraction.value), digits - |fraction.value|) else 0
    }
  }

  lemma TailCut(fraction: string, rest: string, digits: nat, scaled: Int64, negative: bool)
    requires scaled >= 0 && AllDigits(fraction) && (rest != "" ==> !IsDigit(rest[0]))
    ensures ParseFraction("." + (fraction + rest), digits, scaled, negative) ==
      if fraction == "" then Failure(MissingDigits)
      else if |fraction| > digits then Failure(TooManyFractionalDigits)
      else if scaled + Scaled(Value(fraction), digits - |fraction|) > INT64_MAX then Failure(Overflow)
      else if rest != "" then Failure(InvalidCharacter)
      else Success(if negative then -(scaled + Scaled(Value(fraction), digits - |fraction|))
                   else scaled + Scaled(Value(fraction), digits - |fraction|))
  {
    var all := "." + (fraction + rest);
    assert all[1..] == fraction + rest;
    DigitRunOf(fraction, rest);
    assert (fraction + rest)[..|fraction|] == fraction;
  }

  lemma BodyCut(cut: Cut, digits: nat)
    requires cut.AtRunEnds()
    ensures var tail := if cut.fraction.Some? then "." + (cut.fraction.value + cut.rest) else cut.rest;
      ParseMagnitude(cut.Body(), digits, cut.negative) ==
        if cut.whole == "" then Failure(MissingDigits)
        else if cut.WholeUnits(digits) > INT64_MAX then Failure(Overflow)
        else ParseFraction(tail, digits, cut.WholeUnits(digits), cut.negative)
  {
    var tail := if cut.fraction.Some? then "." + (cut.fraction.value + cut.rest) else cut.rest;
    DigitRunOf(cut.whole, tail);
    assert cut.Body()[..|cut.whole|] == cut.whole && cut.Body()[|cut.whole|..] == tail;
  }

  lemma RunCut(text: string) returns (run: string, rest: string)
    ensures text == run + rest && AllDigits(run) && (rest != "" ==> !IsDigit(rest[0]))
  {
    run, rest := text[..DigitRun(text)], text[DigitRun(text)..];
  }

  lemma UnsignedCut(negative: bool, body: string) returns (cut: Cut)
    ensures cut.AtRunEnds() && cut.negative == negative && cut.Body() == body
  {
    var whole, after := RunCut(body);
    if after != "" && after[0] == '.' {
      var fraction, rest := RunCut(after[1..]);
      cut := Cut(negative, whole, Some(fraction), rest);
      assert after == "." + (fraction + rest);
    } else {
      cut := Cut(negative, whole, None, after);
    }
  }

  /** Every text has such a cut. */
  lemma CutOf(text: string) returns (cut: Cut)
    ensures cut.AtRunEnds() && cut.negative == (text != "" && text[0] == '-') && Signed(cut.negative, cut.Body()) == text
  {
    if text != "" && text[0] == '-' {
      cut := UnsignedCut(true, text[1..]);
      assert text == "-" + text[1..];
    } else {
      cut := UnsignedCut(false, text);
    }
  }

  /** What is wrong with a text, if anything: signs first, then digits and their number, the range, and what follows. */
  lemma RefusedExactly(text: string, cut: Cut, digits: nat, allowNegative: bool)
    requires cut.AtRunEnds() && cut.negative == (text != "" && text[0] == '-') && Signed(cut.negative, cut.Body()) == text
    requires text != "" && (cut.negative ==> allowNegative)
    ensures var r := ParseScaled(text, digits, allowNegative);
      var fits := cut.WholeUnits(digits) <= INT64_MAX;
      var enough := cut.fraction.Some? ==> 1 <= |cut.fraction.value| <= digits;
      && (r == Failure(MissingDigits) <==> cut.whole == "" || (fits && cut.fraction == Some("")))
      && (r == Failure(TooManyFractionalDigits) <==> cut.whole != "" && fits && cut.fraction.Some? && |cut.fraction.value| > digits)
      && (r == Failure(Overflow) <==> cut.whole != "" && (!fits || (enough && cut.Units(digits) > INT64_MAX)))
      && (r == Failure(InvalidCharacter) <==> cut.whole != "" && fits && enough && cut.Units(digits) <= INT64_MAX && cut.rest != "")
      && r !in {Failure(Empty), Failure(NegativeNotAllowed)}
  {
    assert cut.negative ==> text[1..] == cut.Body();
    BodyCut(cut, digits);
    if cut.whole != "" && cut.WholeUnits(digits) <= INT64_MAX && cut.fraction.Some? {
      TailCut(cut.fraction.value, cut.rest, digits, cut.WholeUnits(digits), cut.negative);
    }
  }

  /** No text at all, and a sign where none is allowed. */
  lemma RefusedAtOnce(text: string, digits: nat, allowNegative: bool)
    ensures ParseScaled(text, digits, allowNegative) == Failure(Empty) <==> text == ""
    ensures ParseScaled(text, digits, allowNegative) == Failure(NegativeNotAllowed) <==> text != "" && text[0] == '-' && !allowNegative
  {}

  // ---- the printer ----

  function AbsoluteValue(x: int): nat {
    if x < 0 then -x else x
  }

  function Quotient(m: nat, p: nat): nat
    requires p > 0
  {
    m / p
  }

  function Remainder(m: nat, p: nat): nat
    requires p > 0
  {
    m % p
  }

  function FormatScaledDecimal(units: Int64, digits: nat): string {
    var magnitude := AbsoluteValue(units);
    var scale := Pow10(digits);
    Signed(units < 0, Decimal(Quotient(magnitude, scale))
                      + if digits == 0 then "" else "." + Padded(Remainder(magnitude, scale), digits))
  }

  function CanonicalNumeral(units: Int64, digits: nat): Numeral {
    var magnitude := AbsoluteValue(units);
    var scale := Pow10(digits);
    Numeral(units < 0, Decimal(Quotient(magnitude, scale)),
            if digits == 0 then None else Some(Padded(Remainder(magnitude, scale), digits)))
  }

  lemma FormatDenotes(units: Int64, digits: nat)
    ensures var num := CanonicalNumeral(units, digits);
      && num.WellFormed(digits, true) && num.Render() == FormatScaledDecimal(units, digits)
      && num.Denotes(digits) == units
  {
    var magnitude := AbsoluteValue(units);
    var p := Pow10(digits);
    var high, low := Quotient(magnitude, p), Remainder(magnitude, p);
    ScaledIsProduct(high, digits);
    assert magnitude == high * p + low;
    if digits > 0 {
      PaddedValue(low, digits);
    }
  }

  /** Formatting then parsing is the identity, for every 64-bit value but the minimum. */
  lemma FormatParse(units: Int64, digits: nat, allowNegative: bool)
    requires allowNegative || units >= 0
    ensures ParseScaled(FormatScaledDecimal(units, digits), digits, allowNegative) ==
      if units == INT64_MIN then Failure(Overflow) else Success(units)
  {
    FormatDenotes(units, digits);
    ParseComplete(CanonicalNumeral(units, digits), digits, allowNegative);
  }

  /** No superfluous zeros, all fractional digits present, and no negative zero. */
  predicate Canonical(num: Numeral, digits: nat) {
    && num.WellFormed(digits, true)
    && (num.whole[0] == '0' ==> num.whole == "0")
    && (if digits == 0 then num.fraction.None? else num.fraction.Some? && |num.fraction.value| == digits)
    && (num.negative ==> num.Magnitude(digits) > 0)
  }

  /** Whole part and fraction of a canonical numeral are quotient and remainder of its magnitude. */
  lemma CanonicalParts(num: Numeral, digits: nat)
    requires Canonical(num, digits)
    ensures var low: nat := if digits == 0 then 0 else Value(num.fraction.value);
      && low < Pow10(digits) && num.Magnitude(digits) == Value(num.whole) * Pow10(digits) + low
  {
    ScaledIsProduct(Value(num.whole), digits);
    if digits > 0 {
      ValueBound(num.fraction.value);
    }
  }

  lemma CanonicalFormats(num: Numeral, digits: nat, m: nat)
    requires Canonical(num, digits) && m == num.Magnitude(digits)
    ensures Quotient(m, Pow10(digits)) == Value(num.whole)
    ensures digits > 0 ==> Remainder(m, Pow10(digits)) == Value(num.fraction.value)
  {
    CanonicalParts(num, digits);
    DivModUnique(m, Value(num.whole), if digits == 0 then 0 else Value(num.fraction.value), Pow10(digits));
  }

  /** Parsing then formatting is the identity on canonical text. */
  lemma ParseFormat(num: Numeral, digits: nat)
    requires Canonical(num, digits) && num.Magnitude(digits) <= INT64_MAX
    ensures ParseScaled(num.Render(), digits, true) == Success(num.Denotes(digits))
    ensures FormatScaledDecimal(num.Denotes(digits), digits) == num.Render()
  {
    ParseComplete(num, digits, true);
    CanonicalFormats(num, digits, num.Magnitude(digits));
    if digits > 0 {
      PaddedOfValue(num.fraction.value);
    }
    DecimalOfValue(num.whole);
  }
}
