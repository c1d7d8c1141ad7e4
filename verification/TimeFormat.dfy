/** Instants to text: RFC 3339 and the compact stamp of segment names, and the order of both. */
module TimeFormat {
  import opened Calendar
  import opened Text
  import opened Timestamps
  import opened Wrappers

  /** An instant split into calendar date and time of day, rounding days down before 1970 too. */
  datatype Fields = Fields(date: Date, hour: int, minute: int, second: int, micros: int)

  predicate ValidFields(f: Fields) {
    ValidDate(f.date) && 0 <= f.hour < 24 && 0 <= f.minute < 60 && 0 <= f.second < 60 && 0 <= f.micros < MICROS_PER_SECOND
  }

  function InstantOf(f: Fields): int
    requires ValidFields(f)
  {
    DaysFromCivil(f.date) * MICROS_PER_DAY
    + f.hour * MICROS_PER_HOUR + f.minute * MICROS_PER_MINUTE + f.second * MICROS_PER_SECOND + f.micros
  }

  function FieldsOf(instant: int): (f: Fields)
    ensures ValidFields(f) && InstantOf(f) == instant
  {
    var days := instant / MICROS_PER_DAY;
    var ofDay := instant % MICROS_PER_DAY;
    var hours := ofDay / MICROS_PER_HOUR;
    var minutes := (ofDay - hours * MICROS_PER_HOUR) / MICROS_PER_MINUTE;
    var seconds := (ofDay - hours * MICROS_PER_HOUR - minutes * MICROS_PER_MINUTE) / MICROS_PER_SECOND;
    var micros := ofDay - hours * MICROS_PER_HOUR - minutes * MICROS_PER_MINUTE - seconds * MICROS_PER_SECOND;
    Fields(CivilFromDays(days), hours, minutes, seconds, micros)
  }

  /** Counting starts at midnight of 1 January 1970. */
  lemma EpochFields()
    ensures FieldsOf(0) == Fields(Date(1970, 1, 1), 0, 0, 0, 0)
  {
    EpochIsDayZero();
    CivilRoundTrip(Date(1970, 1, 1));
  }

  /** {:0width} of a natural number that may be too wide to pad. */
  function AtLeast(n: nat, width: nat): string {
    if n < Pow10(width) then Padded(n, width) else Decimal(n)
  }

  /** {:04} of a year; the sign counts towards the width. */
  function YearText(year: int): string {
    if year < 0 then "-" + AtLeast(-year, 3) else AtLeast(year, 4)
  }

  /** A natural number in decimal, padded with zeros only up to the width. */
  predicate PaddedTo(text: string, n: nat, width: nat) {
    AllDigits(text) && Value(text) == n && |text| >= width && (|text| > width ==> text[0] != '0')
  }

  lemma AtLeastReads(n: nat, width: nat)
    requires width > 0
    ensures PaddedTo(AtLeast(n, width), n, width)
  {
    if n < Pow10(width) {
      PaddedValue(n, width);
    } else {
      ValueBound(Decimal(n));
      if |Decimal(n)| < width {
        Pow10Grows(|Decimal(n)|, width);
      }
      PositivePower(width);
    }
  }

  lemma PositivePower(width: nat)
    requires width > 0
    ensures Pow10(width) >= 10
  {
    Pow10Grows(1, width);
  }

  /** A year in at least four characters: its digits, after a minus sign if it is negative. */
  lemma YearReads(year: int)
    ensures if year < 0 then YearText(year) != "" && YearText(year)[0] == '-' && PaddedTo(YearText(year)[1..], -year, 3)
            else PaddedTo(YearText(year), year, 4)
  {
    if year < 0 {
      AtLeastReads(-year, 3);
      assert ("-" + AtLeast(-year, 3))[1..] == AtLeast(-year, 3);
    } else {
      AtLeastReads(year, 4);
    }
  }

  function FormatRfc3339(instant: int): string {
    var f := FieldsOf(instant);
    Joined(YearText(f.date.year), Padded(f.date.month, 2), Padded(f.date.day, 2), 'T',
           Padded(f.hour, 2), Padded(f.minute, 2), Padded(f.second, 2), "." + Padded(f.micros, 6) + "Z")
  }

  predicate FourDigitYear(instant: int) {
    0 <= FieldsOf(instant).date.year <= 9999
  }

  function StampOf(f: Fields): Stamp
    requires ValidFields(f)
  {
    Stamp(f.date, 'T', f.hour, f.minute, f.second, Some(Padded(f.micros, 6)), Utc('Z'))
  }

  lemma Widths()
    ensures Pow10(2) == 100 && Pow10(4) == 10000 && Pow10(6) == MICROS_PER_SECOND
  {
    assert Pow10(4) == 100 * Pow10(2);
    MillionIsPow();
  }

  lemma FormatIsRender(instant: int)
    requires FourDigitYear(instant)
    ensures var s := StampOf(FieldsOf(instant));
      WellFormed(s) && Render(s) == FormatRfc3339(instant) && Denotes(s) == instant
  {
    var f := FieldsOf(instant);
    Widths();
    PaddedValue(f.micros, 6);
    SixDigitsTruncate(Padded(f.micros, 6));
    assert Padded(f.micros, 6)[..6] == Padded(f.micros, 6);
  }

  /** Formatting then parsing is the identity exactly for years 0000 to 9999, before 1970 included. */
  lemma FormatParse(instant: int)
    ensures ParsedTimestamp(FormatRfc3339(instant)) == Success(instant) <==> FourDigitYear(instant)
  {
    if FourDigitYear(instant) {
      FormatIsRender(instant);
      ReadStampComplete(StampOf(FieldsOf(instant)));
    } else {
      OutOfRangeRejected(instant);
    }
  }

  lemma FormatOf(instant: int, f: Fields, year: string, month: string, day: string, hour: string, minute: string, second: string, micros: string)
    requires FieldsOf(instant) == f && year == YearText(f.date.year) && month == Padded(f.date.month, 2) && day == Padded(f.date.day, 2)
    requires hour == Padded(f.hour, 2) && minute == Padded(f.minute, 2) && second == Padded(f.second, 2) && micros == Padded(f.micros, 6)
    ensures FormatRfc3339(instant) == Joined(year, month, day, 'T', hour, minute, second, "." + micros + "Z")
  {}

  lemma EpochYear()
    ensures YearText(1970) == "1970"
  {
    Widths();
    YearDigits();
  }

  /** Which fixes the zero point of both directions. */
  lemma EpochText()
    ensures FormatRfc3339(0) == Joined("1970", "01", "01", 'T', "00", "00", "00", "." + "000000" + "Z")
    ensures ParsedTimestamp(FormatRfc3339(0)) == Success(0)
  {
    EpochFields();
    EpochYear();
    PairDigits();
    MicroDigits();
    FormatOf(0, Fields(Date(1970, 1, 1), 0, 0, 0, 0), "1970", "01", "01", "00", "00", "00", "000000");
    FormatParse(0);
  }

  lemma YearDigits()
    ensures Padded(1970, 4) == "1970"
  {
    PaddedStep(1, 1, "", '1');
    PaddedStep(19, 2, "1", '9');
    PaddedStep(197, 3, "19", '7');
    PaddedStep(1970, 4, "197", '0');
  }

  lemma PairDigits()
    ensures Padded(1, 2) == "01" && Padded(0, 2) == "00"
  {
    PaddedStep(0, 1, "", '0');
    PaddedStep(1, 2, "0", '1');
    PaddedStep(0, 2, "0", '0');
  }

  lemma MicroDigits()
    ensures Padded(0, 6) == "000000"
  {
    PairDigits();
    PaddedStep(0, 3, "00", '0');
    PaddedStep(0, 4, "000", '0');
    PaddedStep(0, 5, "0000", '0');
    PaddedStep(0, 6, "00000", '0');
  }

  lemma PaddedStep(n: nat, width: nat, front: string, last: char)
    requires width > 0 && Padded(n / 10, width - 1) == front && DigitChar(n % 10) == last
    ensures Padded(n, width) == front + [last]
  {}

  lemma OutOfRangeRejected(instant: int)
    requires !FourDigitYear(instant)
    ensures ParsedTimestamp(FormatRfc3339(instant)).Failure?
  {
    var year := FieldsOf(instant).date.year;
    var text := FormatRfc3339(instant);
    Widths();
    if year < 0 {
      assert text[0] == '-';
      SignHasNoHead(text);
    } else {
      WideDecimal(year);
      assert text[4] == Decimal(year)[4];
    }
  }

  lemma SignHasNoHead(text: string)
    requires |text| >= 4 && text[0] == '-'
    ensures !HasHead(text)
  {
    assert text[0..4][0] == text[0];
  }

  lemma WideDecimal(n: nat)
    requires n >= 10000
    ensures |Decimal(n)| > 4
  {
    ValueBound(Decimal(n));
    Pow10Grows(|Decimal(n)|, 4);
    assert Pow10(4) == 100 * Pow10(2);
  }

  lemma {:induction false} Pow10Grows(a: nat, b: nat)
    ensures a <= b ==> Pow10(a) <= Pow10(b)
  {
    if a < b {
      Pow10Grows(a, b - 1);
    }
  }

  // ---- text order is time order ----

  predicate TimeBefore(a: Fields, b: Fields) {
    || a.hour < b.hour
    || (a.hour == b.hour &&
        (|| a.minute < b.minute
         || (a.minute == b.minute && (a.second < b.second || (a.second == b.second && a.micros < b.micros)))))
  }

  predicate FieldsBefore(a: Fields, b: Fields) {
    DateBefore(a.date, b.date) || (a.date == b.date && TimeBefore(a, b))
  }

  lemma FieldsMonotone(a: Fields, b: Fields)
    requires ValidFields(a) && ValidFields(b) && FieldsBefore(a, b)
    ensures InstantOf(a) < InstantOf(b)
  {
    if DateBefore(a.date, b.date) {
      DaysMonotone(a.date, b.date);
    }
  }

  lemma FieldsTrichotomy(a: Fields, b: Fields)
    ensures FieldsBefore(a, b) || FieldsBefore(b, a) || a == b
  {}

  lemma FieldsOrder(s: int, t: int)
    ensures FieldsBefore(FieldsOf(s), FieldsOf(t)) <==> s < t
    ensures FieldsOf(s) == FieldsOf(t) <==> s == t
  {
    InstantOrder(s, t, FieldsOf(s), FieldsOf(t));
  }

  lemma InstantOrder(s: int, t: int, a: Fields, b: Fields)
    requires ValidFields(a) && ValidFields(b) && s == InstantOf(a) && t == InstantOf(b)
    ensures FieldsBefore(a, b) <==> s < t
    ensures a == b <==> s == t
  {
    FieldsTrichotomy(a, b);
    if FieldsBefore(a, b) { FieldsMonotone(a, b); }
    if FieldsBefore(b, a) { FieldsMonotone(b, a); }
  }

  /** One fixed-width number, a fixed separator, and the rest. */
  lemma FieldOrder(n: nat, m: nat, width: nat, separator: string, x: string, y: string)
    requires n < Pow10(width) && m < Pow10(width)
    ensures Before(Padded(n, width) + (separator + x), Padded(m, width) + (separator + y))
            <==> n < m || (n == m && Before(x, y))
  {
    BeforeConcat(Padded(n, width), separator + x, Padded(m, width), separator + y);
    PaddedOrder(n, m, width);
    BeforeConcat(separator, x, separator, y);
    BeforeTotal(separator, separator);
  }

  function TimeText(f: Fields): string
    requires ValidFields(f)
  {
    Padded(f.hour, 2) + (":" + (Padded(f.minute, 2) + (":" + (Padded(f.second, 2) + ("." + Padded(f.micros, 6) + "Z")))))
  }

  function DateText(d: Date, rest: string): string
    requires ValidDate(d) && d.year >= 0
  {
    Padded(d.year, 4) + ("-" + (Padded(d.month, 2) + ("-" + (Padded(d.day, 2) + ("T" + rest)))))
  }

  lemma TimeTextOrder(a: Fields, b: Fields)
    requires ValidFields(a) && ValidFields(b)
    ensures Before(TimeText(a), TimeText(b)) <==> TimeBefore(a, b)
  {
    Widths();
    var u1, u2 := "." + Padded(a.micros, 6) + "Z", "." + Padded(b.micros, 6) + "Z";
    MicrosOrder(a.micros, b.micros);
    var s1, s2 := Padded(a.second, 2) + u1, Padded(b.second, 2) + u2;
    SecondOrder(a.second, b.second, u1, u2);
    var m1, m2 := Padded(a.minute, 2) + (":" + s1), Padded(b.minute, 2) + (":" + s2);
    FieldOrder(a.minute, b.minute, 2, ":", s1, s2);
    FieldOrder(a.hour, b.hour, 2, ":", m1, m2);
  }

  lemma DateTextOrder(a: Date, b: Date, x: string, y: string)
    requires ValidDate(a) && ValidDate(b) && 0 <= a.year <= 9999 && 0 <= b.year <= 9999
    ensures Before(DateText(a, x), DateText(b, y)) <==> DateBefore(a, b) || (a == b && Before(x, y))
  {
    Widths();
    var d1, d2 := Padded(a.day, 2) + ("T" + x), Padded(b.day, 2) + ("T" + y);
    FieldOrder(a.day, b.day, 2, "T", x, y);
    var o1, o2 := Padded(a.month, 2) + ("-" + d1), Padded(b.month, 2) + ("-" + d2);
    FieldOrder(a.month, b.month, 2, "-", d1, d2);
    FieldOrder(a.year, b.year, 4, "-", o1, o2);
  }

  /** In years 0000 to 9999, formatted instants compare as text exactly as they do in time. */
  lemma TextOrderIsTimeOrder(s: int, t: int)
    requires FourDigitYear(s) && FourDigitYear(t)
    ensures Before(FormatRfc3339(s), FormatRfc3339(t)) <==> s < t
  {
    var a, b := FieldsOf(s), FieldsOf(t);
    FieldsOrder(s, t);
    TimeTextOrder(a, b);
    DateTextOrder(a.date, b.date, TimeText(a), TimeText(b));
    FormatParts(s);
    FormatParts(t);
  }

  lemma FormatParts(t: int)
    requires FourDigitYear(t)
    ensures FormatRfc3339(t) == DateText(FieldsOf(t).date, TimeText(FieldsOf(t)))
  {
    Widths();
  }

  lemma MicrosOrder(n: nat, m: nat)
    requires n < MICROS_PER_SECOND && m < MICROS_PER_SECOND
    ensures Before("." + Padded(n, 6) + "Z", "." + Padded(m, 6) + "Z") <==> n < m
  {
    Widths();
    BeforeConcat("." + Padded(n, 6), "Z", "." + Padded(m, 6), "Z");
    BeforeConcat(".", Padded(n, 6), ".", Padded(m, 6));
    BeforeTotal("Z", "Z");
    BeforeTotal(".", ".");
    PaddedOrder(n, m, 6);
  }

  lemma SecondOrder(n: nat, m: nat, x: string, y: string)
    requires n < 100 && m < 100
    ensures Before(Padded(n, 2) + x, Padded(m, 2) + y) <==> n < m || (n == m && Before(x, y))
  {
    Widths();
    BeforeConcat(Padded(n, 2), x, Padded(m, 2), y);
    PaddedOrder(n, m, 2);
  }

  // ---- the compact stamp of a segment name ----

  /** 20260825T090847Z: the formatted instant without punctuation, cut before the fraction. */
  function CompactStamp(f: Fields): string
    requires ValidFields(f) && f.date.year >= 0
  {
    Padded(f.date.year, 4) + (Padded(f.date.month, 2) + (Padded(f.date.day, 2) +
      ("T" + (Padded(f.hour, 2) + (Padded(f.minute, 2) + (Padded(f.second, 2) + "Z"))))))
  }

  /** The characters a stamp keeps of a text: up to a '.', skipping '-' and ':', at most `room` of them. */
  function Squeeze(text: string, room: nat): string {
    if text == "" || room == 0 || text[0] == '.' then ""
    else if text[0] == '-' || text[0] == ':' then Squeeze(text[1..], room)
    else [text[0]] + Squeeze(text[1..], room - 1)
  }

  method SqueezeText(text: string, room: nat) returns (stamp: string)
    ensures stamp == Squeeze(text, room)
  {
    stamp := "";
    var i := 0;
    while i < |text| && |stamp| < room
      invariant i <= |text| && |stamp| <= room
      invariant stamp + Squeeze(text[i..], room - |stamp|) == Squeeze(text, room)
    {
      if text[i] == '.' {
        break;
      }
      assert text[i..][1..] == text[i + 1..];
      if text[i] != '-' && text[i] != ':' {
        assert stamp + ([text[i]] + Squeeze(text[i + 1..], room - |stamp| - 1))
            == stamp + [text[i]] + Squeeze(text[i + 1..], room - |stamp| - 1);
        stamp := stamp + [text[i]];
      }
      i := i + 1;
    }
    assert Squeeze(text[i..], room - |stamp|) == "";
  }

  method SegmentStamp(instant: int) returns (stamp: string)
    ensures stamp == Squeeze(FormatRfc3339(instant), 15) + "Z"
  {
    stamp := SqueezeText(FormatRfc3339(instant), 15);
    stamp := stamp + "Z";
  }

  lemma {:induction false} SqueezeRun(run: string, rest: string, room: nat)
    requires Plain(run) && |run| <= room
    ensures Squeeze(run + rest, room) == run + Squeeze(rest, room - |run|)
  {
    if run == "" {
      assert run + rest == rest;
    } else {
      assert (run + rest)[1..] == run[1..] + rest;
      SqueezeRun(run[1..], rest, room - 1);
      assert run == [run[0]] + run[1..];
    }
  }

  lemma SqueezeSeparator(separator: char, rest: string, room: nat)
    requires separator == '-' || separator == ':'
    ensures Squeeze([separator] + rest, room) == Squeeze(rest, room)
  {
    assert ([separator] + rest)[1..] == rest;
    if room == 0 { assert Squeeze(rest, 0) == ""; }
  }

  lemma DigitsPass(n: nat, width: nat)
    ensures Plain(Padded(n, width))
  {
    var s := Padded(n, width);
    forall i | 0 <= i < width ensures s[i] !in {'.', '-', ':'} { assert IsDigit(s[i]); }
  }

  /** In years 0000 to 9999 the loop produces the compact stamp. */
  lemma StampIsCompact(instant: int)
    requires FourDigitYear(instant)
    ensures Squeeze(FormatRfc3339(instant), 15) + "Z" == CompactStamp(FieldsOf(instant))
  {
    var f := FieldsOf(instant);
    Widths();
    var y, o, d := Padded(f.date.year, 4), Padded(f.date.month, 2), Padded(f.date.day, 2);
    var h, m, s := Padded(f.hour, 2), Padded(f.minute, 2), Padded(f.second, 2);
    DigitsPass(f.date.year, 4);
    DigitsPass(f.date.month, 2);
    DigitsPass(f.date.day, 2);
    DigitsPass(f.hour, 2);
    DigitsPass(f.minute, 2);
    DigitsPass(f.second, 2);
    var tail := "." + Padded(f.micros, 6) + "Z";
    SqueezeParts(y, o, d, h, m, s, tail);
    assert y + (o + (d + ("T" + (h + (m + s))))) + "Z" == CompactStamp(f);
  }

  predicate Plain(run: string) {
    forall i :: 0 <= i < |run| ==> run[i] !in {'.', '-', ':'}
  }

  lemma SqueezeTime(h: string, m: string, s: string, tail: string)
    requires |h| == |m| == |s| == 2 && tail != "" && tail[0] == '.'
    requires Plain(h) && Plain(m) && Plain(s)
    ensures Squeeze(h + (":" + (m + (":" + (s + tail)))), 6) == h + (m + s)
  {
    SqueezeRun(s, tail, 2);
    SqueezeSeparator(':', s + tail, 2);
    SqueezeRun(m, ":" + (s + tail), 4);
    SqueezeSeparator(':', m + (":" + (s + tail)), 4);
    SqueezeRun(h, ":" + (m + (":" + (s + tail))), 6);
  }

  lemma SqueezeParts(y: string, o: string, d: string, h: string, m: string, s: string, tail: string)
    requires |y| == 4 && |o| == |d| == |h| == |m| == |s| == 2 && tail != "" && tail[0] == '.'
    requires Plain(y) && Plain(o) && Plain(d) && Plain(h) && Plain(m) && Plain(s)
    ensures Squeeze(Joined(y, o, d, 'T', h, m, s, tail), 15) == y + (o + (d + ("T" + (h + (m + s)))))
  {
    var t5 := h + (":" + (m + (":" + (s + tail))));
    SqueezeTime(h, m, s, tail);
    SqueezeRun("T", t5, 7);
    SqueezeDate(y, o, d, "T" + t5);
  }

  lemma SqueezeDate(y: string, o: string, d: string, rest: string)
    requires |y| == 4 && |o| == |d| == 2 && Plain(y) && Plain(o) && Plain(d)
    ensures Squeeze(y + ("-" + (o + ("-" + (d + rest)))), 15) == y + (o + (d + Squeeze(rest, 7)))
  {
    SqueezeRun(d, rest, 9);
    var t3 := d + rest;
    SqueezeSeparator('-', t3, 9);
    SqueezeRun(o, "-" + t3, 11);
    var t2 := o + ("-" + t3);
    SqueezeSeparator('-', t2, 11);
    SqueezeRun(y, "-" + t2, 15);
  }

  lemma ClockOrder(a: Fields, b: Fields)
    requires ValidFields(a) && ValidFields(b)
    ensures var s1, s2 := Padded(a.second, 2) + "Z", Padded(b.second, 2) + "Z";
      var m1, m2 := Padded(a.minute, 2) + s1, Padded(b.minute, 2) + s2;
      Before(Padded(a.hour, 2) + m1, Padded(b.hour, 2) + m2) ==> TimeBefore(a, b)
  {
    BeforeTotal("Z", "Z");
    var s1, s2 := Padded(a.second, 2) + "Z", Padded(b.second, 2) + "Z";
    SecondOrder(a.second, b.second, "Z", "Z");
    SecondOrder(a.minute, b.minute, s1, s2);
    SecondOrder(a.hour, b.hour, Padded(a.minute, 2) + s1, Padded(b.minute, 2) + s2);
  }

  lemma DayOrder(a: Date, b: Date, x: string, y: string)
    requires ValidDate(a) && ValidDate(b) && 0 <= a.year <= 9999 && 0 <= b.year <= 9999
    ensures var d1, d2 := Padded(a.day, 2) + ("T" + x), Padded(b.day, 2) + ("T" + y);
      var o1, o2 := Padded(a.month, 2) + d1, Padded(b.month, 2) + d2;
      Before(Padded(a.year, 4) + o1, Padded(b.year, 4) + o2) <==> DateBefore(a, b) || (a == b && Before(x, y))
  {
    Widths();
    var d1, d2 := Padded(a.day, 2) + ("T" + x), Padded(b.day, 2) + ("T" + y);
    FieldOrder(a.day, b.day, 2, "T", x, y);
    var o1, o2 := Padded(a.month, 2) + d1, Padded(b.month, 2) + d2;
    SecondOrder(a.month, b.month, d1, d2);
    BeforeConcat(Padded(a.year, 4), o1, Padded(b.year, 4), o2);
    PaddedOrder(a.year, b.year, 4);
  }

  /** A later instant never has a stamp that sorts earlier; all stamps have one width. */
  lemma StampOrder(s: int, t: int)
    requires FourDigitYear(s) && FourDigitYear(t) && s <= t
    ensures var a, b := CompactStamp(FieldsOf(s)), CompactStamp(FieldsOf(t));
      |a| == |b| == 16 && (a == b || Before(a, b))
  {
    var a, b := FieldsOf(s), FieldsOf(t);
    FieldsOrder(t, s);
    ClockOrder(b, a);
    DayOrder(b.date, a.date, Padded(b.hour, 2) + (Padded(b.minute, 2) + (Padded(b.second, 2) + "Z")),
             Padded(a.hour, 2) + (Padded(a.minute, 2) + (Padded(a.second, 2) + "Z")));
    BeforeTotal(CompactStamp(a), CompactStamp(b));
  }
}
