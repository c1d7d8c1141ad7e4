/** What a journal line, or a session's self-description, has to say to be read; and what else is said of it. */
module JournalDocuments {
  import opened Arithmetic
  import opened Events
  import opened JournalRecords
  import opened JsonValues
  import opened Prices
  import opened SessionMetadata
  import opened WireMessages
  import opened Wrappers
  import opened WsProtocol
  import Digits = Text

  /** A number without a minus sign for x, in 64 bits. */
  predicate SaysCount(value: Option<Json>, x: int) {
    SaysNumber(value, x) && value.value.n >= 0
  }

  predicate SaysText(value: Option<Json>, s: string) {
    value == Some(Text(s))
  }

  // ---- journal lines ----

  /** The texts of the record kinds. */
  predicate Names(text: string, kind: RecordKind) {
    || (text == "session_started" && kind == SessionStarted) || (text == "message" && kind == Message)
    || (text == "connection_lost" && kind == ConnectionLost) || (text == "gap_detected" && kind == GapDetected)
    || (text == "snapshot_applied" && kind == SnapshotApplied) || (text == "session_ended" && kind == SessionEnded)
  }

  predicate NamesSome(text: string) {
    text in {"session_started", "message", "connection_lost", "gap_detected", "snapshot_applied", "session_ended"}
  }

  /** An optional number that is missing, or no number, is none. */
  predicate SaysNumberOrNone(value: Option<Json>, x: Option<Int64>) {
    if x.Some? then SaysNumber(value, x.value) else value.None? || !value.value.Number?
  }

  predicate SaysCountOrNone(value: Option<Json>, x: Option<Uint64>) {
    if x.Some? then SaysCount(value, x.value) else value.None? || !value.value.Number? || value.value.n < 0
  }

  predicate SaysTextOrNone(value: Option<Json>, s: Option<string>) {
    if s.Some? then SaysText(value, s.value) else value.None? || !value.value.Text?
  }

  /** Version 1 in its 32 bits, the kind by name, and each field under its own name. */
  ghost predicate SaysRecord(doc: Fields, r: JournalRecord) {
    && IsUnsigned(Find(doc, "v")) && (doc["v"].n - 1) % TWO32 == 0
    && (exists text {:trigger Names(text, r.kind)} :: SaysText(Find(doc, "kind"), text) && Names(text, r.kind))
    && SaysNumber(Find(doc, "t_local_us"), r.localTime) && SaysCount(Find(doc, "conn"), r.connection)
    && SaysText(Find(doc, "type"), r.messageType) && SaysText(Find(doc, "payload"), r.payload)
    && SaysNumberOrNone(Find(doc, "t_exchange_us"), r.exchangeTime) && SaysNumberOrNone(Find(doc, "sid"), r.subscription)
    && SaysCountOrNone(Find(doc, "seq"), r.sequence)
    && SaysTextOrNone(Find(doc, "ticker"), r.ticker) && SaysTextOrNone(Find(doc, "market_id"), r.marketId)
  }

  lemma KindNamed(text: string, kind: RecordKind)
    ensures KindOf(text) == Some(kind) <==> Names(text, kind)
    ensures KindOf(text).None? <==> !NamesSome(text)
  {}

  lemma NumberRead(value: Option<Json>, x: Int64)
    ensures SaysNumber(value, x) <==> IsInteger(value) && ToInt64(value.value.n) == x
  {
    if IsInteger(value) {
      Congruent(value.value.n, x);
    }
  }

  lemma OptionalNumberRead(value: Option<Json>, x: Option<Int64>)
    ensures SaysNumberOrNone(value, x) <==> OptionalInt64(value) == x
  {
    NumberRead(value, if x.Some? then x.value else 0);
  }

  lemma CountRead(value: Option<Json>, x: Uint64)
    ensures SaysCount(value, x) <==> IsUnsigned(value) && value.value.n % TWO64 == x
  {
    if IsInteger(value) {
      HeldAs(value.value.n, x, 0, TWO64);
    }
  }

  /** A line's document is read as r exactly if that is what it says. */
  lemma RecordExact(doc: Fields, r: JournalRecord)
    ensures DecodeDocument(doc) == Success(r) <==> SaysRecord(doc, r)
  {
    if IsUnsigned(Find(doc, "v")) {
      HeldAs(doc["v"].n, 1, 0, TWO32);
    }
    CountRead(Find(doc, "conn"), r.connection);
    CountRead(Find(doc, "seq"), if r.sequence.Some? then r.sequence.value else 0);
    NumberRead(Find(doc, "t_local_us"), r.localTime);
    OptionalNumberRead(Find(doc, "t_exchange_us"), r.exchangeTime);
    OptionalNumberRead(Find(doc, "sid"), r.subscription);
    if IsText(Find(doc, "kind")) {
      KindNamed(doc["kind"].s, r.kind);
    }
  }

  const REQUIRED := ["v", "kind", "t_local_us", "conn", "type", "payload"]

  /** The i-th required field is there and of its type; the first two are also of the right value. */
  predicate Present(doc: Fields, i: nat)
    requires i < 6
  {
    var value := Find(doc, REQUIRED[i]);
    && value.Some?
    && if i == 0 || i == 3 then value.value.Number? && value.value.n >= 0
       else if i == 2 then value.value.Number?
       else value.value.Text?
  }

  predicate Passed(doc: Fields, i: nat)
    requires i < 6
  {
    && Present(doc, i)
    && (i == 0 ==> doc["v"].n % TWO32 == 1)
    && (i == 1 ==> NamesSome(doc["kind"].s))
  }

  predicate StopsAt(doc: Fields, i: nat)
    requires i < 6
  {
    !Passed(doc, i) && forall j :: 0 <= j < i ==> Passed(doc, j)
  }

  /** The first required field that does not pass names the failure. */
  lemma RecordRefused(doc: Fields, i: nat)
    requires i < 6 && StopsAt(doc, i)
    ensures DecodeDocument(doc) == Failure(
      if !Present(doc, i) then JournalError(JournalErrorKind.MissingField, 0, REQUIRED[i])
      else if i == 0 then JournalError(UnsupportedVersion, 0, Digits.Decimal(doc["v"].n))
      else JournalError(MalformedRecord, 0, doc["kind"].s))
  {
    assert forall j :: 0 <= j < i ==> Passed(doc, j);
    if i > 0 { assert Passed(doc, 0); }
    if i > 1 { assert Passed(doc, 1); KindNamed(doc["kind"].s, Message); }
    if i > 2 { assert Passed(doc, 2); }
    if i > 3 { assert Passed(doc, 3); }
    if i > 4 { assert Passed(doc, 4); }
    if i == 1 && Present(doc, 1) { KindNamed(doc["kind"].s, Message); }
  }

  /** A line that is no object, or no document at all. */
  lemma LineRefused(codec: Codec, line: string)
    ensures match codec.parse(line)
      case Some(Object(doc)) => Decode(codec, line) == DecodeDocument(doc)
      case _ => Decode(codec, line) == Failure(JournalError(MalformedRecord, 0, ""))
  {}

  // ---- the self-description ----

  /** A band field that is absent is 0; one that is there is a number, held in 32 bits. */
  predicate SaysBandField(value: Option<Json>, y: int) {
    -TWO31 <= y < TWO31 && match value
    case None => y == 0
    case Some(v) => v.Number? && (v.n - y) % TWO32 == 0
  }

  predicate SaysBand(value: Json, band: PriceRange) {
    && value.Object?
    && SaysBandField(Find(value.fields, "start"), band.start) && SaysBandField(Find(value.fields, "end"), band.end)
    && SaysBandField(Find(value.fields, "step"), band.step)
  }

  predicate SaysGrid(bands: seq<Json>, grid: seq<PriceRange>) {
    |bands| == |grid| && forall i :: 0 <= i < |grid| ==> SaysBand(bands[i], grid[i])
  }

  predicate SaysMetadata(doc: Fields, m: Metadata) {
    && SaysText(Find(doc, "market_ticker"), m.ticker)
    && Find(doc, "price_convention").Some? && Find(doc, "price_convention").value.Text?
    && (m.convention == NoLegPricing <==> SaysText(Find(doc, "price_convention"), "no_leg"))
    && (SaysText(Find(doc, "build"), m.build) || (m.build == "" && SaysTextOrNone(Find(doc, "build"), None)))
    && match Find(doc, "price_ranges")
       case Some(Array(bands)) => SaysGrid(bands, m.grid)
       case _ => m.grid == []
  }

  lemma BandFieldRead(band: Fields, field: string, y: int)
    ensures BandField(band, field) == Success(y) <==> SaysBandField(Find(band, field), y)
  {
    match Find(band, field)
    case Some(Number(n)) =>
      if -TWO31 <= y < TWO31 {
        HeldAs(n, y, -TWO31, TWO32);
      }
    case _ =>
  }

  lemma BandRead(value: Json, band: PriceRange)
    ensures DecodeBand(value) == Success(band) <==> SaysBand(value, band)
  {
    if value.Object? {
      BandFieldRead(value.fields, "start", band.start);
      BandFieldRead(value.fields, "end", band.end);
      BandFieldRead(value.fields, "step", band.step);
    }
  }

  lemma {:induction false} GridRead(bands: seq<Json>, grid: seq<PriceRange>)
    ensures DecodeGrid(bands) == Success(grid) <==> SaysGrid(bands, grid)
  {
    if bands != [] && grid != [] {
      BandRead(bands[0], grid[0]);
      GridRead(bands[1..], grid[1..]);
      GridSplit(bands, grid);
      assert grid == [grid[0]] + grid[1..];
    }
  }

  lemma GridSplit(bands: seq<Json>, grid: seq<PriceRange>)
    requires bands != [] && grid != []
    ensures SaysGrid(bands, grid) <==> SaysBand(bands[0], grid[0]) && SaysGrid(bands[1..], grid[1..])
  {
    if SaysBand(bands[0], grid[0]) && SaysGrid(bands[1..], grid[1..]) {
      forall i | 0 <= i < |grid| ensures SaysBand(bands[i], grid[i]) {
        assert i > 0 ==> bands[i] == bands[1..][i - 1] && grid[i] == grid[1..][i - 1];
      }
    }
  }

  /** A session's description is read as m exactly if that is what it says. */
  lemma MetadataExact(doc: Fields, m: Metadata)
    ensures DecodeFields(doc) == Success(m) <==> SaysMetadata(doc, m)
  {
    match Find(doc, "price_ranges")
    case Some(Array(bands)) => GridRead(bands, m.grid);
    case _ =>
  }

  predicate ReadableField(value: Option<Json>) {
    value.Some? ==> value.value.Number?
  }

  predicate Readable(value: Json) {
    && value.Object? && ReadableField(Find(value.fields, "start"))
    && ReadableField(Find(value.fields, "end")) && ReadableField(Find(value.fields, "step"))
  }

  ghost predicate FirstUnreadable(bands: seq<Json>, i: nat) {
    i < |bands| && !Readable(bands[i]) && forall j :: 0 <= j < i ==> Readable(bands[j])
  }

  lemma {:induction false} GridRefused(bands: seq<Json>, i: nat)
    requires FirstUnreadable(bands, i)
    ensures DecodeGrid(bands) == Failure(if bands[i].Object? then BandTypeError else Field("price_ranges"))
  {
    if i > 0 {
      assert Readable(bands[0]);
      forall j | 0 <= j < i - 1 ensures Readable(bands[1..][j]) {
        assert bands[1..][j] == bands[j + 1];
      }
      GridRefused(bands[1..], i - 1);
    }
  }

  /** The first thing missing from a description names the failure; bands are looked at last, in order. */
  lemma MetadataRefused(doc: Fields)
    ensures DecodeFields(doc) == Failure(Field("market_ticker")) <==> SaysTextOrNone(Find(doc, "market_ticker"), None)
    ensures DecodeFields(doc) == Failure(Field("price_convention")) <==>
            !SaysTextOrNone(Find(doc, "market_ticker"), None) && SaysTextOrNone(Find(doc, "price_convention"), None)
    ensures !SaysTextOrNone(Find(doc, "market_ticker"), None) && !SaysTextOrNone(Find(doc, "price_convention"), None) ==>
      match Find(doc, "price_ranges")
      case Some(Array(bands)) => forall i: nat | FirstUnreadable(bands, i) ::
        DecodeFields(doc) == Failure(if bands[i].Object? then BandTypeError else Field("price_ranges"))
      case _ => DecodeFields(doc).Success?
  {
    match Find(doc, "price_ranges")
    case Some(Array(bands)) =>
      GridFailures(bands);
      forall i: nat | FirstUnreadable(bands, i)
        ensures DecodeGrid(bands) == Failure(if bands[i].Object? then BandTypeError else Field("price_ranges"))
      {
        GridRefused(bands, i);
      }
    case _ =>
  }

  lemma {:induction false} GridFailures(bands: seq<Json>)
    ensures DecodeGrid(bands).Failure? ==> DecodeGrid(bands).error in {BandTypeError, Field("price_ranges")}
  {
    if bands != [] {
      GridFailures(bands[1..]);
    }
  }
}
