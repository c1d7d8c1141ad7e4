/** What the venue's documents say, field by field, and that the parser hears exactly that. */
module WireMessages {
  import opened Amounts
  import opened Arithmetic
  import opened Book
  import opened BookRuns
  import opened Decimals
  import opened Events
  import opened JsonValues
  import opened Prices
  import opened Sorting
  import opened Timestamps
  import opened Wrappers
  import opened WsProtocol

  // ---- values ----

  /** The text is a numeral of the wire grammar for `units`, counted in 10^-digits. */
  ghost predicate Amount(text: string, digits: nat, signed: bool, units: int) {
    exists num: Numeral ::
      && num.WellFormed(digits, signed) && num.Render() == text
      && num.Magnitude(digits) <= INT64_MAX && num.Denotes(digits) == units
  }

  ghost predicate SaysAmount(value: Option<Json>, digits: nat, signed: bool, units: int) {
    value.Some? && value.value.Text? && Amount(value.value.s, digits, signed, units)
  }

  /** A price is a 32-bit amount. */
  ghost predicate SaysPrice(value: Option<Json>, price: int) {
    price <= INT32_MAX && SaysAmount(value, 4, false, price)
  }

  /** A JSON integer for x, in 64 bits. */
  predicate SaysNumber(value: Option<Json>, x: int) {
    value.Some? && value.value.Number? && (value.value.n - x) % TWO64 == 0
  }

  /** Sides are named by outcome or by book position. */
  predicate SaysSide(value: Option<Json>, side: BookSide) {
    match side
    case Bid => value == Some(Text("yes")) || value == Some(Text("bid"))
    case Ask => value == Some(Text("no")) || value == Some(Text("ask"))
  }

  /** A price of $p on the NO side is $(1-p) in YES terms; YES-leg pricing quotes the latter. */
  function Published(price: int, side: BookSide, convention: PriceConvention): int {
    if side.Ask? && convention.NoLegPricing? then UNITS_PER_DOLLAR - price else price
  }

  ghost predicate Instant(text: string, t: int) {
    exists s: Stamp :: Timestamps.WellFormed(s) && Render(s) == text && Timestamps.Denotes(s) == t
  }

  /** Milliseconds if they are given, else the timestamp text if it is one, else nothing. */
  ghost predicate SaysTime(body: Fields, t: Option<int>) {
    match Find(body, "ts_ms")
    case Some(Number(n)) => t == Some(1000 * ToInt64(n))
    case _ =>
      match Find(body, "ts")
      case Some(Text(s)) => if t.Some? then Instant(s, t.value) else forall i: int :: !Instant(s, i)
      case _ => t.None?
  }

  // ---- messages ----

  /** The envelope: what kind of message, of which market, subscription and number. Other fields are free. */
  predicate SaysHeader(root: Fields, kind: string, ticker: string, sid: int, sequence: int) {
    && Find(root, "type") == Some(Text(kind)) && SaysNumber(Find(root, "sid"), sid) && SaysNumber(Find(root, "seq"), sequence)
    && Find(root, "msg").Some? && Find(root, "msg").value.Object?
    && Find(root["msg"].fields, "market_ticker") == Some(Text(ticker))
  }

  /** A delta, its time of sending aside. */
  ghost predicate SaysDelta(root: Fields, d: BookDelta, convention: PriceConvention) {
    && SaysHeader(root, "orderbook_delta", d.ticker, d.subscription, d.sequence)
    && var body := root["msg"].fields;
       && SaysSide(Find(body, "side"), d.side)
       && SaysPrice(Find(body, "price_dollars"), Published(d.price, d.side, convention))
       && SaysAmount(Find(body, "delta_fp"), 2, true, d.delta)
  }

  ghost predicate SaysLevel(entry: Json, level: BookLevel, side: BookSide, convention: PriceConvention) {
    && entry.Array? && |entry.items| == 2
    && SaysPrice(Some(entry.items[0]), Published(level.price, side, convention))
    && SaysAmount(Some(entry.items[1]), 2, false, level.quantity)
  }

  /** One side entry by entry; absent and null mean empty. */
  ghost predicate SaysLevels(value: Option<Json>, levels: seq<BookLevel>, side: BookSide, convention: PriceConvention) {
    match value
    case None => levels == []
    case Some(Null) => levels == []
    case Some(Array(entries)) =>
      |entries| == |levels| && forall i :: 0 <= i < |entries| ==> SaysLevel(entries[i], levels[i], side, convention)
    case Some(_) => false
  }

  ghost predicate SaysSides(root: Fields, bids: seq<BookLevel>, asks: seq<BookLevel>, convention: PriceConvention)
    requires Find(root, "msg").Some? && Find(root, "msg").value.Object?
  {
    && SaysLevels(Find(root["msg"].fields, "yes_dollars_fp"), bids, Bid, convention)
    && SaysLevels(Find(root["msg"].fields, "no_dollars_fp"), asks, Ask, convention)
  }

  /** A snapshot with its levels in any order; entries that repeat a price agree on its size. */
  ghost predicate SaysSnapshot(root: Fields, s: BookSnapshot, convention: PriceConvention) {
    && SaysHeader(root, "orderbook_snapshot", s.ticker, s.subscription, s.sequence)
    && OneSizePerPrice(s.bids) && OneSizePerPrice(s.asks)
    && exists bids, asks :: SaysSides(root, bids, asks, convention)
         && multiset(bids) == multiset(s.bids) && multiset(asks) == multiset(s.asks)
  }

  // ---- reading values ----

  lemma AmountReads(text: string, digits: nat, signed: bool, units: Int64)
    ensures ParseScaled(text, digits, signed) == Success(units) <==> Amount(text, digits, signed, units)
  {
    Decimals.ParseExact(text, digits, signed, units);
  }

  lemma AmountFits(text: string, digits: nat, signed: bool, units: int)
    requires Amount(text, digits, signed, units)
    ensures -INT64_MAX <= units <= INT64_MAX && (!signed ==> units >= 0)
  {}

  lemma PriceReads(text: string, price: int)
    ensures ParsePrice(text) == Success(price) <==> price <= INT32_MAX && Amount(text, 4, false, price)
  {
    if INT64_MIN <= price <= INT64_MAX {
      AmountReads(text, 4, false, price);
      PriceNonNegative(text);
    } else if Amount(text, 4, false, price) {
      AmountFits(text, 4, false, price);
    }
  }

  lemma PriceFieldReads(body: Fields, field: string, price: int)
    ensures PriceField(body, field) == Success(price) <==> SaysPrice(Find(body, field), price)
  {
    match Find(body, field)
    case Some(Text(s)) => PriceReads(s, price);
    case _ =>
  }

  lemma QuantityFieldReads(body: Fields, field: string, signed: bool, units: Int64)
    ensures QuantityField(body, field, signed) == Success(units) <==> SaysAmount(Find(body, field), 2, signed, units)
  {
    match Find(body, field)
    case Some(Text(s)) => AmountReads(s, 2, signed, units);
    case _ =>
  }

  lemma Congruent(n: int, x: Int64)
    ensures ToInt64(n) == x <==> (n - x) % TWO64 == 0
  {
    HeldAs(n, x, INT64_MIN, TWO64);
  }

  lemma CongruentWord(n: int, x: Uint64)
    ensures Word(ToInt64(n)) == x <==> (n - x) % TWO64 == 0
  {
    var k := (n - INT64_MIN) / TWO64;
    assert ToInt64(n) == n - k * TWO64;
    var w := ToInt64(n) / TWO64;
    assert Word(ToInt64(n)) == n - (k + w) * TWO64;
    if (n - x) % TWO64 == 0 {
      DivModUnique(n, (n - x) / TWO64, x, TWO64);
      DivModUnique(n, k + w, Word(ToInt64(n)), TWO64);
    } else if Word(ToInt64(n)) == x {
      DivModUnique(n - x, k + w, 0, TWO64);
    }
  }

  lemma IntegerFieldReads(root: Fields, field: string, x: Int64)
    ensures IntegerField(root, field) == Success(x) <==> SaysNumber(Find(root, field), x)
  {
    match Find(root, field)
    case Some(Number(n)) => Congruent(n, x);
    case _ =>
  }

  lemma SequenceFieldReads(root: Fields, field: string, x: Uint64)
    ensures IntegerField(root, field).Success? && Word(IntegerField(root, field).value) == x <==> SaysNumber(Find(root, field), x)
  {
    match Find(root, field)
    case Some(Number(n)) => CongruentWord(n, x);
    case _ =>
  }

  lemma TimeReads(body: Fields, t: Option<int>)
    ensures ExchangeTime(body) == t <==> SaysTime(body, t)
  {
    match Find(body, "ts")
    case Some(Text(s)) =>
      TextTimeReads(s, t);
    case _ =>
  }

  lemma InstantReads(text: string, t: int)
    ensures ParsedTimestamp(text) == Success(t) <==> Instant(text, t)
  {
    Timestamps.ParseExact(text, t);
  }

  /** The instant a text says, or that it says none. */
  lemma TextTimeReads(text: string, t: Option<int>)
    ensures (match ParsedTimestamp(text) case Success(i) => t == Some(i) case Failure(_) => t == None) <==>
            if t.Some? then Instant(text, t.value) else forall i: int :: !Instant(text, i)
  {
    if t.Some? {
      InstantReads(text, t.value);
    } else if ParsedTimestamp(text).Success? {
      InstantReads(text, ParsedTimestamp(text).value);
    } else {
      forall i: int ensures !Instant(text, i) {
        InstantReads(text, i);
      }
    }
  }

  lemma SideFieldReads(body: Fields, side: BookSide)
    ensures StringField(body, "side").Success? && BookSideFromString(StringField(body, "side").value) == Some(side) <==>
            SaysSide(Find(body, "side"), side)
  {}

  lemma Reflects(published: int, price: int, side: BookSide, convention: PriceConvention)
    ensures YesPriceFromBookEntry(published, side, convention) == price <==> published == Published(price, side, convention)
  {}

  // ---- deltas ----

  lemma HeaderReads(root: Fields, kind: string, ticker: string, sid: Int64, sequence: Uint64)
    requires Find(root, "msg").Some? && Find(root, "msg").value.Object?
    ensures SaysHeader(root, kind, ticker, sid, sequence) <==>
      && StringField(root, "type") == Success(kind)
      && StringField(root["msg"].fields, "market_ticker") == Success(ticker)
      && IntegerField(root, "sid") == Success(sid)
      && IntegerField(root, "seq").Success? && Word(IntegerField(root, "seq").value) == sequence
  {
    IntegerFieldReads(root, "sid", sid);
    SequenceFieldReads(root, "seq", sequence);
  }

  /** What the fields of a delta have to be read as. */
  predicate DeltaFields(root: Fields, body: Fields, d: BookDelta, convention: PriceConvention) {
    && IntegerField(root, "sid") == Success(d.subscription)
    && IntegerField(root, "seq").Success? && Word(IntegerField(root, "seq").value) == d.sequence
    && StringField(body, "market_ticker") == Success(d.ticker)
    && StringField(body, "side").Success? && BookSideFromString(StringField(body, "side").value) == Some(d.side)
    && PriceField(body, "price_dollars") == Success(Published(d.price, d.side, convention))
    && QuantityField(body, "delta_fp", true) == Success(d.delta)
    && ExchangeTime(body) == d.exchangeTime
  }

  lemma DeltaParses(root: Fields, body: Fields, d: BookDelta, convention: PriceConvention)
    ensures ParseDelta(root, body, convention) == Success(DeltaEvent(d)) <==> DeltaFields(root, body, d, convention)
  {
    if PriceField(body, "price_dollars").Success? {
      Reflects(PriceField(body, "price_dollars").value, d.price, d.side, convention);
    }
  }

  lemma DeltaFieldsSaid(root: Fields, d: BookDelta, convention: PriceConvention)
    requires Find(root, "msg").Some? && Find(root, "msg").value.Object?
    ensures var body := root["msg"].fields;
      SaysDelta(root, d, convention) && SaysTime(body, d.exchangeTime) <==>
      StringField(root, "type") == Success("orderbook_delta") && DeltaFields(root, body, d, convention)
  {
    var body := root["msg"].fields;
    HeaderReads(root, "orderbook_delta", d.ticker, d.subscription, d.sequence);
    SideFieldReads(body, d.side);
    PriceFieldReads(body, "price_dollars", Published(d.price, d.side, convention));
    QuantityFieldReads(body, "delta_fp", true, d.delta);
    TimeReads(body, d.exchangeTime);
  }

  lemma OnlyDeltas(root: Fields, d: BookDelta, convention: PriceConvention)
    ensures ParseDocument(Object(root), convention) == Success(DeltaEvent(d)) <==>
      && StringField(root, "type") == Success("orderbook_delta")
      && Find(root, "msg").Some? && Find(root, "msg").value.Object?
      && ParseDelta(root, root["msg"].fields, convention) == Success(DeltaEvent(d))
  {}

  /** A document is heard as a delta exactly if its fields say that delta and that time. */
  lemma DeltaExact(root: Fields, d: BookDelta, convention: PriceConvention)
    ensures ParseDocument(Object(root), convention) == Success(DeltaEvent(d)) <==>
            SaysDelta(root, d, convention) && SaysTime(root["msg"].fields, d.exchangeTime)
  {
    OnlyDeltas(root, d, convention);
    if Find(root, "msg").Some? && Find(root, "msg").value.Object? {
      DeltaFieldsSaid(root, d, convention);
      DeltaParses(root, root["msg"].fields, d, convention);
    }
  }

  // ---- snapshots ----

  lemma LevelReads(entry: Json, level: BookLevel, side: BookSide, convention: PriceConvention)
    ensures (ReadLevel(entry).Some? && Reflected(ReadLevel(entry).value, side, convention) == level) <==>
            SaysLevel(entry, level, side, convention)
  {
    if entry.Array? && |entry.items| == 2 && entry.items[0].Text? && entry.items[1].Text? {
      PriceReads(entry.items[0].s, Published(level.price, side, convention));
      AmountReads(entry.items[1].s, 2, false, level.quantity);
      if ReadLevel(entry).Some? {
        Reflects(ReadLevel(entry).value.price, level.price, side, convention);
      }
    }
  }

  ghost predicate SaysEntries(entries: seq<Json>, levels: seq<BookLevel>, side: BookSide, convention: PriceConvention) {
    Pairwise((e, l) => SaysLevel(e, l, side, convention), entries, levels)
  }

  ghost predicate Pairwise<A, B>(p: (A, B) -> bool, xs: seq<A>, ys: seq<B>) {
    |xs| == |ys| && forall i :: 0 <= i < |xs| ==> p(xs[i], ys[i])
  }

  lemma PairwiseLast<A, B>(p: (A, B) -> bool, xs: seq<A>, ys: seq<B>)
    requires xs != [] && ys != []
    ensures Pairwise(p, xs, ys) <==> Pairwise(p, xs[..|xs| - 1], ys[..|ys| - 1]) && p(xs[|xs| - 1], ys[|ys| - 1])
  {
    var n := |xs| - 1;
    if Pairwise(p, xs[..n], ys[..|ys| - 1]) && p(xs[n], ys[|ys| - 1]) {
      forall i | 0 <= i < |xs| ensures p(xs[i], ys[i]) {
        if i < n {
          assert p(xs[..n][i], ys[..|ys| - 1][i]);
        }
      }
    }
    if Pairwise(p, xs, ys) {
      forall i | 0 <= i < n ensures p(xs[..n][i], ys[..|ys| - 1][i]) {
        assert p(xs[i], ys[i]);
      }
    }
  }

  lemma ReadLast(entries: seq<Json>, levels: seq<BookLevel>, side: BookSide, convention: PriceConvention)
    requires entries != []
    ensures LevelsFrom(entries, side, convention) == Some(levels) <==>
      && levels != [] && LevelsFrom(entries[..|entries| - 1], side, convention) == Some(levels[..|levels| - 1])
      && ReadLevel(entries[|entries| - 1]).Some?
      && Reflected(ReadLevel(entries[|entries| - 1]).value, side, convention) == levels[|levels| - 1]
  {
    if levels != [] {
      assert levels == levels[..|levels| - 1] + [levels[|levels| - 1]];
    }
  }

  lemma {:induction false} EntriesRead(entries: seq<Json>, levels: seq<BookLevel>, side: BookSide, convention: PriceConvention)
    ensures LevelsFrom(entries, side, convention) == Some(levels) <==> SaysEntries(entries, levels, side, convention)
  {
    if entries != [] {
      ReadLast(entries, levels, side, convention);
      if levels != [] {
        EntriesRead(entries[..|entries| - 1], levels[..|levels| - 1], side, convention);
        LevelReads(entries[|entries| - 1], levels[|levels| - 1], side, convention);
        PairwiseLast((e, l) => SaysLevel(e, l, side, convention), entries, levels);
      }
    }
  }

  lemma SideReads(body: Fields, field: string, levels: seq<BookLevel>, side: BookSide, convention: PriceConvention)
    ensures SideOf(body, field, side, convention) == Some(levels) <==> SaysLevels(Find(body, field), levels, side, convention)
  {
    match Find(body, field)
    case Some(Array(entries)) => EntriesRead(entries, levels, side, convention);
    case _ =>
  }

  /** The sides of a document, as read. */
  predicate SidesRead(body: Fields, bids: seq<BookLevel>, asks: seq<BookLevel>, convention: PriceConvention) {
    && SideOf(body, "yes_dollars_fp", Bid, convention) == Some(bids)
    && SideOf(body, "no_dollars_fp", Ask, convention) == Some(asks)
  }

  lemma SidesSaid(root: Fields, bids: seq<BookLevel>, asks: seq<BookLevel>, convention: PriceConvention)
    requires Find(root, "msg").Some? && Find(root, "msg").value.Object?
    ensures SaysSides(root, bids, asks, convention) <==> SidesRead(root["msg"].fields, bids, asks, convention)
  {
    SideReads(root["msg"].fields, "yes_dollars_fp", bids, Bid, convention);
    SideReads(root["msg"].fields, "no_dollars_fp", asks, Ask, convention);
  }

  function SortedSnapshot(s: BookSnapshot, bids: seq<BookLevel>, asks: seq<BookLevel>): BookSnapshot {
    s.(bids := Sort(BestBidFirst, bids), asks := Sort(BestAskFirst, asks))
  }

  lemma SnapshotParses(root: Fields, body: Fields, s: BookSnapshot, bids: seq<BookLevel>, asks: seq<BookLevel>, convention: PriceConvention)
    requires SidesRead(body, bids, asks, convention)
    ensures ParseSnapshot(root, body, convention) == Success(SnapshotEvent(s)) <==>
      && IntegerField(root, "sid") == Success(s.subscription)
      && IntegerField(root, "seq").Success? && Word(IntegerField(root, "seq").value) == s.sequence
      && StringField(body, "market_ticker") == Success(s.ticker)
      && s == SortedSnapshot(s, bids, asks)
  {}

  lemma ParsedSides(root: Fields, body: Fields, convention: PriceConvention)
    requires ParseSnapshot(root, body, convention).Success?
    ensures SideOf(body, "yes_dollars_fp", Bid, convention).Some? && SideOf(body, "no_dollars_fp", Ask, convention).Some?
  {}

  lemma OnlySnapshots(root: Fields, s: BookSnapshot, convention: PriceConvention)
    ensures ParseDocument(Object(root), convention) == Success(SnapshotEvent(s)) <==>
      && StringField(root, "type") == Success("orderbook_snapshot")
      && Find(root, "msg").Some? && Find(root, "msg").value.Object?
      && ParseSnapshot(root, root["msg"].fields, convention) == Success(SnapshotEvent(s))
  {}

  lemma SnapshotSaid(root: Fields, s: BookSnapshot, bids: seq<BookLevel>, asks: seq<BookLevel>, convention: PriceConvention)
    requires Find(root, "msg").Some? && Find(root, "msg").value.Object? && SaysSides(root, bids, asks, convention)
    ensures ParseDocument(Object(root), convention) == Success(SnapshotEvent(s)) <==>
            SaysHeader(root, "orderbook_snapshot", s.ticker, s.subscription, s.sequence) && s == SortedSnapshot(s, bids, asks)
  {
    SidesSaid(root, bids, asks, convention);
    HeaderReads(root, "orderbook_snapshot", s.ticker, s.subscription, s.sequence);
    OnlySnapshots(root, s, convention);
    SnapshotParses(root, root["msg"].fields, s, bids, asks, convention);
  }

  /** A document is heard as a snapshot exactly if its fields say it, its sides being the levels said, best first. */
  lemma SnapshotExact(root: Fields, s: BookSnapshot, convention: PriceConvention)
    ensures ParseDocument(Object(root), convention) == Success(SnapshotEvent(s)) <==>
      && SaysHeader(root, "orderbook_snapshot", s.ticker, s.subscription, s.sequence)
      && exists bids, asks :: SaysSides(root, bids, asks, convention) && s == SortedSnapshot(s, bids, asks)
  {
    if ParseDocument(Object(root), convention) == Success(SnapshotEvent(s)) {
      OnlySnapshots(root, s, convention);
      var body := root["msg"].fields;
      ParsedSides(root, body, convention);
      var bids := SideOf(body, "yes_dollars_fp", Bid, convention).value;
      var asks := SideOf(body, "no_dollars_fp", Ask, convention).value;
      SidesSaid(root, bids, asks, convention);
      SnapshotSaid(root, s, bids, asks, convention);
    } else if SaysHeader(root, "orderbook_snapshot", s.ticker, s.subscription, s.sequence) {
      if bids, asks :| SaysSides(root, bids, asks, convention) && s == SortedSnapshot(s, bids, asks) {
        SnapshotSaid(root, s, bids, asks, convention);
      }
    }
  }

  // ---- from a message of the venue to what the book is told ----

  ghost predicate Says(root: Fields, input: Input, convention: PriceConvention) {
    match input
    case ReceiveSnapshot(s) => SaysSnapshot(root, s, convention)
    case ReceiveDelta(d) => SaysDelta(root, d, convention)
    case Disconnect => false
  }

  function EventFor(input: Input): MarketEvent
    requires !input.Disconnect?
  {
    match input
    case ReceiveSnapshot(s) => SnapshotEvent(s)
    case ReceiveDelta(d) => DeltaEvent(d)
  }

  lemma SnapshotHeard(root: Fields, s: BookSnapshot, convention: PriceConvention) returns (heard: Input)
    requires SaysSnapshot(root, s, convention)
    ensures SameMessage(heard, ReceiveSnapshot(s)) && ParseDocument(Object(root), convention) == Success(EventFor(heard))
  {
    var bids, asks :| SaysSides(root, bids, asks, convention) && multiset(bids) == multiset(s.bids) && multiset(asks) == multiset(s.asks);
    PriceOrders();
    SortSorts(BestBidFirst, bids);
    SortSorts(BestAskFirst, asks);
    heard := ReceiveSnapshot(SortedSnapshot(s, bids, asks));
    SnapshotSaid(root, heard.s, bids, asks, convention);
  }

  lemma DeltaSaidTimed(root: Fields, d: BookDelta, convention: PriceConvention)
    requires SaysDelta(root, d, convention)
    ensures ParseDocument(Object(root), convention) == Success(DeltaEvent(d.(exchangeTime := ExchangeTime(root["msg"].fields))))
  {
    var timed := d.(exchangeTime := ExchangeTime(root["msg"].fields));
    TimeReads(root["msg"].fields, timed.exchangeTime);
    DeltaExact(root, timed, convention);
  }

  lemma DeltaHeard(root: Fields, d: BookDelta, convention: PriceConvention) returns (heard: Input)
    requires SaysDelta(root, d, convention)
    ensures SameMessage(heard, ReceiveDelta(d)) && ParseDocument(Object(root), convention) == Success(EventFor(heard))
  {
    DeltaSaidTimed(root, d, convention);
    heard := ReceiveDelta(d.(exchangeTime := ExchangeTime(root["msg"].fields)));
  }

  /** However the venue spells a message, the book is told that message. */
  lemma MessageHeard(root: Fields, input: Input, convention: PriceConvention) returns (heard: Input)
    requires Says(root, input, convention)
    ensures SameMessage(heard, input) && ParseDocument(Object(root), convention) == Success(EventFor(heard))
  {
    match input
    case ReceiveSnapshot(s) => heard := SnapshotHeard(root, s, convention);
    case ReceiveDelta(d) => heard := DeltaHeard(root, d, convention);
  }
}
