/** RFC 3339 text and microsecond instants. */
module Timestamps {
  import opened Arithmetic
  import opened Calendar
  import opened Text
  import opened Wrappers

  datatype TimestampParseError = Empty | MalformedFormat | InvalidDate | InvalidTime | InvalidOffset

  type Parsed = Result<int, TimestampParseError>

  const MICROS_PER_SECOND: int := 1_000_000
  const MICROS_PER_MINUTE: int := 60_000_000
  const MICROS_PER_HOUR: int := 3_600_000_000
  const MICROS_PER_DAY: int := 86_400_000_000

  // ---- what a timestamp text says ----

  datatype Zone = Utc(letter: char) | Offset(negative: bool, hours: int, minutes: int)

  datatype Stamp = Stamp(date: Date, separator: char, hour: int, minute: int, second: int,
                         fraction: Option<string>, zone: Zone)

  predicate ZoneReadable(zone: Zone) {
    match zone
    case Utc(letter) => letter == 'Z' || letter == 'z'
    case Offset(_, hours, minutes) => 0 <= hours < 100 && 0 <= minutes < 100
  }

  /** Every field has the width the format gives it; whether the values exist is a separate question. */
  predicate Readable(s: Stamp) {
    && 0 <= s.date.year < 10000 && 0 <= s.date.month < 100 && 0 <= s.date.day < 100
    && (s.separator == 'T' || s.separator == 't')
    && 0 <= s.hour < 100 && 0 <= s.minute < 100 && 0 <= s.second < 100
    && (s.fraction.Some? ==> s.fraction.value != "" && AllDigits(s.fraction.value))
    && ZoneReadable(s.zone)
  }

  predicate OffsetExists(zone: Zone) {
    zone.Offset? ==> zone.hours <= 23 && zone.minutes <= 59
  }

  predicate TimeExists(s: Stamp) {
    s.hour <= 23 && s.minute <= 59 && s.second <= 59
  }

  predicate WellFormed(s: Stamp) {
    Readable(s) && OffsetExists(s.zone) && ValidDate(s.date) && TimeExists(s)
  }

  function RenderZone(zone: Zone): string
    requires ZoneReadable(zone)
  {
    match zone
    case Utc(letter) => [letter]
    case Offset(negative, hours, minutes) =>
      [if negative then '-' else '+'] + (Padded(hours, 2) + (":" + Padded(minutes, 2)))
  }

  function RenderTail(s: Stamp): string
    requires Readable(s)
  {
    (if s.fraction.Some? then "." + s.fraction.value else "") + RenderZone(s.zone)
  }

  /** Year, month, ..., second with their separators, then the rest. */
  function Joined(year: string, month: string, day: string, separator: char,
                  hour: string, minute: string, second: string, tail: string): string {
    year + ("-" + (month + ("-" + (day + ([separator] + (hour + (":" + (minute + (":" + (second + tail))))))))))
  }

  function Render(s: Stamp): string
    requires Readable(s)
  {
    Joined(Padded(s.date.year, 4), Padded(s.date.month, 2), Padded(s.date.day, 2), s.separator,
           Padded(s.hour, 2), Padded(s.minute, 2), Padded(s.second, 2), RenderTail(s))
  }

  /** Fraction of a second in microseconds, digits beyond the sixth cut off. */
  function FractionMicros(f: string): int
    requires AllDigits(f)
  {
    Value(f) * MICROS_PER_SECOND / Pow10(|f|)
  }

  function OffsetMicros(zone: Zone): int {
    match zone
    case Utc(_) => 0
    case Offset(negative, hours, minutes) =>
      (if negative then -1 else 1) * (hours * MICROS_PER_HOUR + minutes * MICROS_PER_MINUTE)
  }

  /** Local time of day on the local date, less the offset. */
  function Denotes(s: Stamp): int
    requires WellFormed(s)
  {
    DaysFromCivil(s.date) * MICROS_PER_DAY
    + s.hour * MICROS_PER_HOUR + s.minute * MICROS_PER_MINUTE + s.second * MICROS_PER_SECOND
    + (if s.fraction.Some? then FractionMicros(s.fraction.value) else 0)
    - OffsetMicros(s.zone)
  }

  // ---- reading the text ----

  predicate DigitsAt(text: string, at: nat, count: nat) {
    at + count <= |text| && AllDigits(text[at..at + count])
  }

  function NumberAt(text: string, at: nat, count: nat): nat
    requires DigitsAt(text, at, count)
  {
    Value(text[at..at + count])
  }

  /** The nineteen characters every timestamp starts with. */
  predicate HasHead(text: string) {
    && |text| >= 19
    && DigitsAt(text, 0, 4) && text[4] == '-' && DigitsAt(text, 5, 2) && text[7] == '-' && DigitsAt(text, 8, 2)
    && (text[10] == 'T' || text[10] == 't')
    && DigitsAt(text, 11, 2) && text[13] == ':' && DigitsAt(text, 14, 2) && text[16] == ':' && DigitsAt(text, 17, 2)
  }

  /** A zone designator, and what follows it. */
  function ReadZone(zone: string): Result<(Zone, string), TimestampParseError> {
    if zone == "" then Failure(MalformedFormat)
    else if zone[0] == 'Z' || zone[0] == 'z' then Success((Utc(zone[0]), zone[1..]))
    else if zone[0] == '+' || zone[0] == '-' then
      if DigitsAt(zone, 1, 2) && |zone| > 3 && zone[3] == ':' && DigitsAt(zone, 4, 2) then
        var offset := Offset(zone[0] == '-', NumberAt(zone, 1, 2), NumberAt(zone, 4, 2));
        if OffsetExists(offset) then Success((offset, zone[6..])) else Failure(InvalidOffset)
      else Failure(MalformedFormat)
    else Failure(MalformedFormat)
  }

  /** An optional fraction, and what follows it. */
  function ReadFraction(tail: string): Result<(Option<string>, string), TimestampParseError> {
    if tail == "" || tail[0] != '.' then Success((None, tail))
    else
      var n := DigitRun(tail[1..]);
      if n == 0 then Failure(MalformedFormat) else Success((Some(tail[1..][..n]), tail[1..][n..]))
  }

  function ReadStamp(text: string): Result<Stamp, TimestampParseError> {
    if text == "" then Failure(Empty)
    else if |text| < 20 || !HasHead(text) then Failure(MalformedFormat)
    else match ReadFraction(text[19..])
      case Failure(e) => Failure(e)
      case Success((fraction, zoneText)) =>
        match ReadZone(zoneText)
        case Failure(e) => Failure(e)
        case Success((zone, rest)) =>
          if rest != "" then Failure(MalformedFormat)
          else
            var date := Date(NumberAt(text, 0, 4), NumberAt(text, 5, 2), NumberAt(text, 8, 2));
            var stamp := Stamp(date, text[10], NumberAt(text, 11, 2), NumberAt(text, 14, 2), NumberAt(text, 17, 2), fraction, zone);
            if !ValidDate(date) then Failure(InvalidDate)
            else if !TimeExists(stamp) then Failure(InvalidTime)
            else Success(stamp)
  }

  lemma TwoDigits(text: string, at: nat)
    requires DigitsAt(text, at, 2)
    ensures NumberAt(text, at, 2) < 100
  {
    ValueBound(text[at..at + 2]);
    assert Pow10(2) == 100;
  }

  lemma ReadZoneReadable(zone: string)
    requires ReadZone(zone).Success?
    ensures var (z, rest) := ReadZone(zone).value;
      ZoneReadable(z) && OffsetExists(z) && RenderZone(z) + rest == zone
  {
    if zone[0] == '+' || zone[0] == '-' {
      TwoDigits(zone, 1);
      TwoDigits(zone, 4);
      PaddedOfValue(zone[1..3]);
      PaddedOfValue(zone[4..6]);
      assert zone == [zone[0]] + (zone[1..3] + (":" + zone[4..6])) + zone[6..];
    } else {
      assert zone == [zone[0]] + zone[1..];
    }
  }

  lemma ReadFractionSound(tail: string)
    requires ReadFraction(tail).Success?
    ensures var (fraction, rest) := ReadFraction(tail).value;
      && (fraction.Some? ==> fraction.value != "" && AllDigits(fraction.value))
      && (if fraction.Some? then "." + fraction.value else "") + rest == tail
  {
    if tail != "" && tail[0] == '.' {
      var n := DigitRun(tail[1..]);
      assert tail == "." + tail[1..][..n] + tail[1..][n..];
    }
  }

  lemma HeadParts(text: string)
    requires HasHead(text)
    ensures text == Joined(text[0..4], text[5..7], text[8..10], text[10], text[11..13], text[14..16], text[17..19], text[19..])
  {
    assert text[17..] == text[17..19] + text[19..];
    assert text[14..] == text[14..16] + (":" + text[17..]);
    assert text[11..] == text[11..13] + (":" + text[14..]);
    assert text[8..] == text[8..10] + ([text[10]] + text[11..]);
    assert text[5..] == text[5..7] + ("-" + text[8..]);
    assert text == text[0..4] + ("-" + text[5..]);
  }

  lemma JoinedParts(year: string, month: string, day: string, separator: char,
                    hour: string, minute: string, second: string, tail: string)
    requires |year| == 4 && |month| == |day| == |hour| == |minute| == |second| == 2
    ensures var text := Joined(year, month, day, separator, hour, minute, second, tail);
      && |text| == 19 + |tail|
      && text[0..4] == year && text[4] == '-' && text[5..7] == month && text[7] == '-' && text[8..10] == day
      && text[10] == separator && text[11..13] == hour && text[13] == ':' && text[14..16] == minute
      && text[16] == ':' && text[17..19] == second && text[19..] == tail
  {
    var s := second + tail;
    var m := minute + (":" + s);
    var h := hour + (":" + m);
    var d := day + ([separator] + h);
    var o := month + ("-" + d);
    var text := year + ("-" + o);
    assert text[5..] == o && text[8..] == d && text[11..] == h && text[14..] == m && text[17..] == s;
    assert s[..2] == second && s[2..] == tail;
    assert m[..2] == minute && h[..2] == hour && d[..2] == day && o[..2] == month;
    assert text[17..19] == s[..2] && text[14..16] == m[..2] && text[11..13] == h[..2];
    assert text[8..10] == d[..2] && text[5..7] == o[..2];
    assert text[19..] == s[2..];
    assert text[7] == o[2] && text[10] == d[2] && text[13] == h[2] && text[16] == m[2];
  }

  /** What is read renders to exactly the text; and whatever is refused for its date or time has the right shape. */
  lemma ReadStampSound(text: string)
    returns (s: Stamp)
    requires ReadStamp(text).Success? || ReadStamp(text).error in {InvalidDate, InvalidTime}
    ensures Readable(s) && Render(s) == text
    ensures ReadStamp(text).Success? ==> WellFormed(s) && ReadStamp(text) == Success(s)
  {
    ReadFractionSound(text[19..]);
    var (fraction, zoneText) := ReadFraction(text[19..]).value;
    ZoneErrors(zoneText);
    ReadZoneReadable(zoneText);
    var (zone, rest) := ReadZone(zoneText).value;
    assert RenderZone(zone) == zoneText;
    s := StampAt(text, fraction, zone);
    StampAtRenders(text, fraction, zone);
  }

  /** The numbers of the head, with a fraction and a zone. */
  function StampAt(text: string, fraction: Option<string>, zone: Zone): Stamp
    requires HasHead(text)
  {
    Stamp(Date(NumberAt(text, 0, 4), NumberAt(text, 5, 2), NumberAt(text, 8, 2)), text[10],
          NumberAt(text, 11, 2), NumberAt(text, 14, 2), NumberAt(text, 17, 2), fraction, zone)
  }

  lemma StampAtRenders(text: string, fraction: Option<string>, zone: Zone)
    requires HasHead(text) && ZoneReadable(zone) && (fraction.Some? ==> fraction.value != "" && AllDigits(fraction.value))
    requires (if fraction.Some? then "." + fraction.value else "") + RenderZone(zone) == text[19..]
    ensures Readable(StampAt(text, fraction, zone)) && Render(StampAt(text, fraction, zone)) == text
  {
    HeadParts(text);
    ReadDigits(text);
    assert RenderTail(StampAt(text, fraction, zone)) == text[19..];
  }

  lemma ZoneErrors(zone: string)
    ensures ReadZone(zone).Failure? ==> ReadZone(zone).error in {MalformedFormat, InvalidOffset}
  {}

  lemma StampWellFormed(text: string)
    requires ReadStamp(text).Success?
    ensures WellFormed(ReadStamp(text).value) && Render(ReadStamp(text).value) == text
  {
    var s := ReadStampSound(text);
  }

  lemma ReadDigits(text: string)
    requires HasHead(text)
    ensures NumberAt(text, 0, 4) < 10000
    ensures Padded(NumberAt(text, 0, 4), 4) == text[0..4]
    ensures forall at :: at in {5, 8, 11, 14, 17} ==>
      DigitsAt(text, at, 2) && NumberAt(text, at, 2) < 100 && Padded(NumberAt(text, at, 2), 2) == text[at..at + 2]
  {
    ValueBound(text[0..4]);
    assert Pow10(4) == 100 * Pow10(2);
    PaddedOfValue(text[0..4]);
    forall at | at in {5, 8, 11, 14, 17}
      ensures DigitsAt(text, at, 2) && NumberAt(text, at, 2) < 100 && Padded(NumberAt(text, at, 2), 2) == text[at..at + 2]
    {
      TwoDigits(text, at);
      PaddedOfValue(text[at..at + 2]);
    }
  }

  /** Text of the right shape is read, or refused for its offset, its date or its time of day, in that order. */
  lemma ReadStampAnswers(s: Stamp)
    requires Readable(s)
    ensures ReadStamp(Render(s)) ==
      if !OffsetExists(s.zone) then Failure(InvalidOffset) else if !ValidDate(s.date) then Failure(InvalidDate)
      else if !TimeExists(s) then Failure(InvalidTime) else Success(s)
  {
    var text := Render(s);
    var tail := RenderTail(s);
    JoinedParts(Padded(s.date.year, 4), Padded(s.date.month, 2), Padded(s.date.day, 2), s.separator,
                Padded(s.hour, 2), Padded(s.minute, 2), Padded(s.second, 2), tail);
    assert Pow10(2) == 100 && Pow10(4) == 100 * Pow10(2);
    PaddedValue(s.date.year, 4);
    PaddedValue(s.date.month, 2);
    PaddedValue(s.date.day, 2);
    PaddedValue(s.hour, 2);
    PaddedValue(s.minute, 2);
    PaddedValue(s.second, 2);
    ReadTailComplete(s);
    assert HasHead(text);
  }

  /** And every well-formed timestamp is read back. */
  lemma ReadStampComplete(s: Stamp)
    requires WellFormed(s)
    ensures ReadStamp(Render(s)) == Success(s)
  {
    ReadStampAnswers(s);
  }

  lemma ReadTailComplete(s: Stamp)
    requires Readable(s)
    ensures RenderTail(s) != ""
    ensures ReadFraction(RenderTail(s)) == Success((s.fraction, RenderZone(s.zone)))
    ensures ReadZone(RenderZone(s.zone)) == if OffsetExists(s.zone) then Success((s.zone, "")) else Failure(InvalidOffset)
  {
    var zone := RenderZone(s.zone);
    ReadZoneComplete(s.zone);
    if s.fraction.Some? {
      var f := s.fraction.value;
      assert RenderTail(s)[1..] == f + zone;
      DigitRunOf(f, zone);
      assert (f + zone)[..|f|] == f && (f + zone)[|f|..] == zone;
    } else {
      assert RenderTail(s) == zone;
    }
  }

  lemma ReadZoneComplete(zone: Zone)
    requires ZoneReadable(zone)
    ensures RenderZone(zone) != "" && !IsDigit(RenderZone(zone)[0]) && RenderZone(zone)[0] != '.'
    ensures ReadZone(RenderZone(zone)) == if OffsetExists(zone) then Success((zone, "")) else Failure(InvalidOffset)
  {
    var text := RenderZone(zone);
    if zone.Offset? {
      var h, m := Padded(zone.hours, 2), Padded(zone.minutes, 2);
      assert Pow10(2) == 100;
      PaddedValue(zone.hours, 2);
      PaddedValue(zone.minutes, 2);
      assert text[1..3] == h && text[4..6] == m && text[3] == ':' && text[6..] == "";
    } else {
      assert text[1..] == "";
    }
  }

  // ---- the parser ----

  function ParsedTimestamp(text: string): Parsed {
    match ReadStamp(text)
    case Failure(e) => Failure(e)
    case Success(s) => StampWellFormed(text); Success(Denotes(s))
  }

  /** Exactly `count` digits; the index moves only on success. */
  method ReadFixedDigits(text: string, index: nat, count: nat) returns (ok: bool, next: nat, value: nat)
    ensures ok <==> DigitsAt(text, index, count)
    ensures ok ==> next == index + count && value == NumberAt(text, index, count)
    ensures !ok ==> next == index
  {
    ok, next, value := false, index, 0;
    if index + count > |text| {
      return;
    }
    var field := text[index..index + count];
    for offset := 0 to count
      invariant AllDigits(field[..offset]) && value == Value(field[..offset])
      invariant forall i :: 0 <= i < offset ==> IsDigit(field[i])
    {
      if !IsDigit(text[index + offset]) {
        assert !IsDigit(field[offset]);
        return;
      }
      assert IsDigit(field[offset]);
      assert AllDigits(field[..offset + 1]);
      ValueStep(field, offset);
      value := value * 10 + DigitValue(text[index + offset]);
    }
    assert field[..count] == field;
    return true, index + count, value;
  }

  method Consume(text: string, index: nat, expected: char) returns (ok: bool, next: nat)
    ensures ok <==> index < |text| && text[index] == expected
    ensures next == if ok then index + 1 else index
  {
    if index >= |text| || text[index] != expected {
      return false, index;
    }
    return true, index + 1;
  }

  /** Year, month and day with their separators, up to the date/time separator. */
  method ReadDatePart(text: string) returns (ok: bool, date: Date, index: nat)
    ensures ok <==> DigitsAt(text, 0, 4) && |text| > 4 && text[4] == '-' && DigitsAt(text, 5, 2)
                    && |text| > 7 && text[7] == '-' && DigitsAt(text, 8, 2)
    ensures ok ==> index == 10 && date == Date(NumberAt(text, 0, 4), NumberAt(text, 5, 2), NumberAt(text, 8, 2))
  {
    var year, month, day;
    date, index := Date(0, 0, 0), 0;
    ok, index, year := ReadFixedDigits(text, index, 4);
    if !ok { return; }
    ok, index := Consume(text, index, '-');
    if !ok { return; }
    ok, index, month := ReadFixedDigits(text, index, 2);
    if !ok { return; }
    ok, index := Consume(text, index, '-');
    if !ok { return; }
    ok, index, day := ReadFixedDigits(text, index, 2);
    if !ok { return; }
    date := Date(year, month, day);
  }

  method ReadTimePart(text: string, start: nat) returns (ok: bool, hour: nat, minute: nat, second: nat, index: nat)
    requires start == 11
    ensures ok <==> DigitsAt(text, 11, 2) && |text| > 13 && text[13] == ':' && DigitsAt(text, 14, 2)
                    && |text| > 16 && text[16] == ':' && DigitsAt(text, 17, 2)
    ensures ok ==> index == 19 && hour == NumberAt(text, 11, 2) && minute == NumberAt(text, 14, 2) && second == NumberAt(text, 17, 2)
  {
    hour, minute, second, index := 0, 0, 0, start;
    ok, index, hour := ReadFixedDigits(text, index, 2);
    if !ok { return; }
    ok, index := Consume(text, index, ':');
    if !ok { return; }
    ok, index, minute := ReadFixedDigits(text, index, 2);
    if !ok { return; }
    ok, index := Consume(text, index, ':');
    if !ok { return; }
    ok, index, second := ReadFixedDigits(text, index, 2);
  }

  /** First six digits of a fraction, padded with zeros: the code's way of cutting to microseconds. */
  function SixDigits(f: string): int
    requires AllDigits(f)
  {
    if |f| >= 6 then Value(f[..6]) else Scaled(Value(f), 6 - |f|)
  }

  lemma PowerQuotient(v: nat, k: nat)
    requires k <= 6
    ensures v * MICROS_PER_SECOND / Pow10(k) == Scaled(v, 6 - k)
  {
    MillionIsPow();
    Pow10Sum(k, 6 - k);
    ScaledIsProduct(v, 6 - k);
    var p, q := Pow10(k), Pow10(6 - k);
    Regroup(v, p, q);
    DivModUnique(v * MICROS_PER_SECOND, v * q, 0, p);
  }

  lemma Regroup(v: int, p: int, q: int)
    ensures v * (p * q) == v * q * p
  {}

  lemma MillionIsPow()
    ensures Pow10(6) == MICROS_PER_SECOND
  {
    assert Pow10(2) == 100;
    assert Pow10(4) == 100 * Pow10(2);
    assert Pow10(6) == 100 * Pow10(4);
  }

  lemma {:induction false} Pow10Sum(a: nat, b: nat)
    ensures Pow10(a + b) == Pow10(a) * Pow10(b)
  {
    ScaledIsProduct(Pow10(a), b);
    if b > 0 {
      Pow10Sum(a, b - 1);
      ScaledIsProduct(Pow10(a), b - 1);
    }
  }

  /** Cutting at the sixth digit is rounding down to a microsecond. */
  lemma SixDigitsTruncate(f: string)
    requires AllDigits(f)
    ensures SixDigits(f) == FractionMicros(f)
  {
    if |f| <= 6 {
      PowerQuotient(Value(f), |f|);
      if |f| == 6 { assert f[..6] == f; }
    } else {
      var high, low := f[..6], f[6..];
      assert f == high + low;
      ValueConcat(high, low);
      ValueBound(low);
      ScaledIsProduct(Value(high), |low|);
      MillionIsPow();
      Pow10Sum(|low|, 6);
      CutBelow(Value(high), Value(low), Pow10(|low|), MICROS_PER_SECOND);
    }
  }

  lemma CutBelow(high: nat, low: nat, p: nat, m: nat)
    requires low < p && m > 0
    ensures p * m > 0
    ensures (high * p + low) * m / (p * m) == high
  {
    MulMonotone(low + 1, p, m);
    MulMonotone(1, p, m);
    var x := (high * p + low) * m;
    Distribute(high, p, low, m);
    MulMonotone(0, low, m);
    DivModUnique(x, high, low * m, p * m);
  }

  lemma Distribute(high: int, p: int, low: int, m: int)
    ensures (high * p + low) * m == high * (p * m) + low * m
  {}

  method ReadFractionPart(text: string, start: nat) returns (ok: bool, micros: int, index: nat)
    requires start == 19 && |text| >= 20
    ensures ok <==> ReadFraction(text[19..]).Success?
    ensures ok ==> var (fraction, rest) := ReadFraction(text[19..]).value;
      && index <= |text| && rest == text[index..]
      && (fraction.Some? ==> AllDigits(fraction.value))
      && micros == if fraction.Some? then FractionMicros(fraction.value) else 0
  {
    ok, micros, index := true, 0, start;
    if text[index] != '.' {
      return;
    }
    index := index + 1;
    var begin := index;
    ghost var tail := text[19..][1..];
    assert tail == text[20..];
    RunStops(tail, 0);
    while index < |text| && IsDigit(text[index])
      invariant 20 <= index <= |text| && index - 20 <= DigitRun(tail)
      invariant index < |text| && IsDigit(text[index]) <==> index - 20 < DigitRun(tail)
    {
      index := index + 1;
      RunStops(tail, index - 20);
    }
    if index == begin {
      ok := false;
      return;
    }
    ghost var f := tail[..DigitRun(tail)];
    assert text[begin..index] == f;
    micros := CutToMicros(text[begin..index]);
    SixDigitsTruncate(f);
    assert tail[index - 20..] == text[index..];
  }

  /** The six-step loop over the fraction digits. */
  method CutToMicros(f: string) returns (micros: int)
    requires AllDigits(f)
    ensures micros == SixDigits(f)
  {
    micros := 0;
    for offset := 0 to 6
      invariant micros == if offset <= |f| then Value(f[..offset]) else Scaled(Value(f), offset - |f|)
    {
      if offset < |f| {
        assert AllDigits(f[..offset + 1]);
        ValueStep(f, offset);
        micros := micros * 10 + DigitValue(f[offset]);
      } else {
        assert f[..|f|] == f;
        micros := micros * 10;
      }
    }
    assert |f| < 6 || f[..6] == f[..6];
  }

  method ReadZonePart(text: string, start: nat) returns (error: Option<TimestampParseError>, offset: int, index: nat)
    requires start <= |text|
    ensures ReadZone(text[start..]).Failure? <==> error.Some?
    ensures error.Some? ==> ReadZone(text[start..]) == Failure(error.value)
    ensures error.None? ==> var (zone, rest) := ReadZone(text[start..]).value;
      && index <= |text| && rest == text[index..] && offset == OffsetMicros(zone)
  {
    error, offset, index := None, 0, start;
    if index >= |text| {
      error := Some(MalformedFormat);
      return;
    }
    ghost var zone := text[start..];
    if text[index] == 'Z' || text[index] == 'z' {
      index := index + 1;
      assert zone[1..] == text[index..];
      return;
    }
    if text[index] != '+' && text[index] != '-' {
      error := Some(MalformedFormat);
      return;
    }
    assert start + 3 <= |text| ==> zone[1..3] == text[start + 1..start + 3];
    assert start + 6 <= |text| ==> zone[4..6] == text[start + 4..start + 6];
    assert start + 3 < |text| ==> zone[3] == text[start + 3];
    var ok, hours, minutes;
    ok, index, hours := ReadFixedDigits(text, start + 1, 2);
    if ok {
      ok, index := Consume(text, index, ':');
    }
    if ok {
      ok, index, minutes := ReadFixedDigits(text, index, 2);
    }
    if !ok {
      error := Some(MalformedFormat);
      return;
    }
    if hours > 23 || minutes > 59 {
      error := Some(InvalidOffset);
      return;
    }
    assert zone[6..] == text[index..];
    offset := hours * MICROS_PER_HOUR + minutes * MICROS_PER_MINUTE;
    if text[start] == '-' {
      offset := -offset;
    }
  }

  method ParseRfc3339(text: string) returns (r: Parsed)
    ensures r == ParsedTimestamp(text)
  {
    if text == "" {
      return Failure(Empty);
    }
    if |text| < 20 {
      return Failure(MalformedFormat);
    }
    var ok, date, index := ReadDatePart(text);
    if !ok {
      return Failure(MalformedFormat);
    }
    ok, index := Consume(text, index, 'T');
    if !ok {
      ok, index := Consume(text, index, 't');
    }
    if !ok {
      return Failure(MalformedFormat);
    }
    var hour, minute, second;
    ok, hour, minute, second, index := ReadTimePart(text, index);
    if !ok {
      return Failure(MalformedFormat);
    }
    assert HasHead(text);
    var micros;
    ok, micros, index := ReadFractionPart(text, index);
    if !ok {
      return Failure(MalformedFormat);
    }
    var error, offset;
    error, offset, index := ReadZonePart(text, index);
    if error.Some? {
      return Failure(error.value);
    }
    if index != |text| {
      return Failure(MalformedFormat);
    }
    if !ValidDate(date) {
      return Failure(InvalidDate);
    }
    if hour > 23 || minute > 59 || second > 59 {
      return Failure(InvalidTime);
    }
    return Success(DaysFromCivil(date) * MICROS_PER_DAY + hour * MICROS_PER_HOUR + minute * MICROS_PER_MINUTE
                   + second * MICROS_PER_SECOND + micros - offset);
  }

  /** Accepted exactly when well formed, with exactly the instant the text denotes. */
  lemma ParseExact(text: string, instant: int)
    ensures ParsedTimestamp(text) == Success(instant) <==>
      exists s: Stamp :: WellFormed(s) && Render(s) == text && Denotes(s) == instant
  {
    if ParsedTimestamp(text) == Success(instant) {
      StampWellFormed(text);
      assert Denotes(ReadStamp(text).value) == instant;
    }
    forall s: Stamp | WellFormed(s) && Render(s) == text && Denotes(s) == instant
      ensures ParsedTimestamp(text) == Success(instant)
    {
      ReadStampComplete(s);
    }
  }

  /** Microseconds: an offset of +hh:mm makes the instant that much earlier, -hh:mm that much later. */
  function SpelledOut(s: Stamp): int
    requires WellFormed(s)
  {
    var seconds := (s.hour * 60 + s.minute) * 60 + s.second;
    var local := DaysFromCivil(s.date) * 86_400_000_000 + seconds * 1_000_000 + if s.fraction.Some? then FractionMicros(s.fraction.value) else 0;
    match s.zone
    case Utc(_) => local
    case Offset(negative, hours, minutes) =>
      if negative then local + (hours * 60 + minutes) * 60_000_000 else local - (hours * 60 + minutes) * 60_000_000
  }

  lemma DenotesSpelledOut(s: Stamp)
    requires WellFormed(s)
    ensures Denotes(s) == SpelledOut(s)
  {}

  /** The instant of a text. */
  lemma InstantSpelledOut(s: Stamp)
    requires WellFormed(s)
    ensures ParsedTimestamp(Render(s)) == Success(SpelledOut(s))
  {
    RenderedRead(s);
    DenotesSpelledOut(s);
  }

  lemma RenderedRead(s: Stamp)
    requires WellFormed(s)
    ensures ParsedTimestamp(Render(s)) == Success(Denotes(s))
  {
    ReadStampComplete(s);
  }

  /** Text of the right shape: what is wrong with it, if anything. */
  lemma StampRefused(s: Stamp)
    requires Readable(s)
    ensures ParsedTimestamp(Render(s)) == Failure(InvalidOffset) <==> s.zone.Offset? && (s.zone.hours > 23 || s.zone.minutes > 59)
    ensures ParsedTimestamp(Render(s)) == Failure(InvalidDate) <==> OffsetExists(s.zone) && !ValidDate(s.date)
    ensures ParsedTimestamp(Render(s)) == Failure(InvalidTime) <==>
            OffsetExists(s.zone) && ValidDate(s.date) && (s.hour > 23 || s.minute > 59 || s.second > 59)
    ensures ParsedTimestamp(Render(s)) !in {Failure(Empty), Failure(MalformedFormat)}
  {
    ReadStampAnswers(s);
  }

  /** Any other text is empty or malformed, unless a wrong offset is met before the end. */
  lemma TextRefused(text: string)
    requires forall s: Stamp :: Readable(s) ==> Render(s) != text
    ensures ParsedTimestamp(text) == Failure(Empty) <==> text == ""
    ensures text != "" ==> ParsedTimestamp(text) in {Failure(MalformedFormat), Failure(InvalidOffset)}
  {
    if ReadStamp(text).Success? || ReadStamp(text).error in {InvalidDate, InvalidTime} {
      var s := ReadStampSound(text);
      assert false;
    }
    FractionErrors(text);
  }

  lemma FractionErrors(text: string)
    ensures ReadStamp(text).Failure? ==> (ReadStamp(text).error == Empty <==> text == "")
  {
    if |text| >= 20 && HasHead(text) && ReadFraction(text[19..]).Success? {
      ZoneErrors(ReadFraction(text[19..]).value.1);
    }
  }
}
