/** Which messages can be put on the wire: every one within the ranges of the fields, and no other. */
module VenueDocuments {
  import opened Amounts
  import opened Arithmetic
  import opened BookRuns
  import opened Decimals
  import opened Events
  import opened JsonValues
  import opened WireMessages
  import opened Wrappers
  import opened WsProtocol

  /** A price as the convention quotes it is an unsigned 32-bit amount. */
  predicate Quotable(price: int, side: BookSide, convention: PriceConvention) {
    0 <= Published(price, side, convention) <= INT32_MAX
  }

  predicate QuotableSide(levels: seq<BookLevel>, side: BookSide, convention: PriceConvention) {
    forall i :: 0 <= i < |levels| ==> Quotable(levels[i].price, side, convention) && levels[i].quantity >= 0
  }

  /** The least 64-bit change has no magnitude in 64 bits, hence no text. */
  ghost predicate Sendable(input: Input, convention: PriceConvention) {
    match input
    case ReceiveDelta(d) => Quotable(d.price, d.side, convention) && d.delta != INT64_MIN
    case ReceiveSnapshot(s) =>
      && QuotableSide(s.bids, Bid, convention) && QuotableSide(s.asks, Ask, convention)
      && OneSizePerPrice(s.bids) && OneSizePerPrice(s.asks)
    case Disconnect => false
  }

  // ---- a document for each ----

  function AmountText(units: Int64, digits: nat): Json {
    Text(FormatScaledDecimal(units, digits))
  }

  lemma AmountTextSays(units: Int64, digits: nat, signed: bool)
    requires units != INT64_MIN && (signed || units >= 0)
    ensures SaysAmount(Some(AmountText(units, digits)), digits, signed, units)
  {
    FormatParse(units, digits, signed);
    AmountReads(FormatScaledDecimal(units, digits), digits, signed, units);
  }

  function PriceText(price: int, side: BookSide, convention: PriceConvention): Json
    requires Quotable(price, side, convention)
  {
    AmountText(Published(price, side, convention), 4)
  }

  function EntryFor(level: BookLevel, side: BookSide, convention: PriceConvention): Json
    requires Quotable(level.price, side, convention)
  {
    Array([PriceText(level.price, side, convention), AmountText(level.quantity, 2)])
  }

  lemma EntrySays(level: BookLevel, side: BookSide, convention: PriceConvention)
    requires Quotable(level.price, side, convention) && level.quantity >= 0
    ensures SaysLevel(EntryFor(level, side, convention), level, side, convention)
  {
    AmountTextSays(Published(level.price, side, convention), 4, false);
    AmountTextSays(level.quantity, 2, false);
  }

  function EntriesFor(levels: seq<BookLevel>, side: BookSide, convention: PriceConvention): (entries: seq<Json>)
    requires QuotableSide(levels, side, convention)
    ensures |entries| == |levels|
  {
    seq(|levels|, i requires 0 <= i < |levels| => EntryFor(levels[i], side, convention))
  }

  lemma EntriesSay(levels: seq<BookLevel>, side: BookSide, convention: PriceConvention)
    requires QuotableSide(levels, side, convention)
    ensures SaysLevels(Some(Array(EntriesFor(levels, side, convention))), levels, side, convention)
  {
    forall i | 0 <= i < |levels| ensures SaysLevel(EntriesFor(levels, side, convention)[i], levels[i], side, convention) {
      EntrySays(levels[i], side, convention);
    }
  }

  function Envelope(kind: string, sid: int, sequence: int, body: Fields): Fields {
    map["type" := Text(kind), "sid" := Number(sid), "seq" := Number(sequence), "msg" := Object(body)]
  }

  lemma EnvelopeSays(kind: string, sid: int, sequence: int, body: Fields, ticker: string)
    requires Find(body, "market_ticker") == Some(Text(ticker))
    ensures SaysHeader(Envelope(kind, sid, sequence, body), kind, ticker, sid, sequence)
    ensures Envelope(kind, sid, sequence, body)["msg"] == Object(body)
  {}

  function SideText(side: BookSide): Json {
    Text(if side.Bid? then "yes" else "no")
  }

  function DeltaBody(ticker: string, side: Json, price: Json, change: Json): Fields {
    map["market_ticker" := Text(ticker), "side" := side, "price_dollars" := price, "delta_fp" := change]
  }

  function SnapshotBody(ticker: string, bids: Json, asks: Json): Fields {
    map["market_ticker" := Text(ticker), "yes_dollars_fp" := bids, "no_dollars_fp" := asks]
  }

  function DocumentFor(input: Input, convention: PriceConvention): Fields
    requires Sendable(input, convention)
  {
    match input
    case ReceiveDelta(d) =>
      Envelope("orderbook_delta", d.subscription, d.sequence,
               DeltaBody(d.ticker, SideText(d.side), PriceText(d.price, d.side, convention), AmountText(d.delta, 2)))
    case ReceiveSnapshot(s) =>
      Envelope("orderbook_snapshot", s.subscription, s.sequence,
               SnapshotBody(s.ticker, Array(EntriesFor(s.bids, Bid, convention)), Array(EntriesFor(s.asks, Ask, convention))))
  }

  lemma DeltaDocumentSays(d: BookDelta, convention: PriceConvention)
    requires Sendable(ReceiveDelta(d), convention)
    ensures SaysDelta(DocumentFor(ReceiveDelta(d), convention), d, convention)
  {
    AmountTextSays(Published(d.price, d.side, convention), 4, false);
    AmountTextSays(d.delta, 2, true);
    DeltaOf(d, SideText(d.side), PriceText(d.price, d.side, convention), AmountText(d.delta, 2), convention);
  }

  lemma DeltaOf(d: BookDelta, side: Json, price: Json, change: Json, convention: PriceConvention)
    requires SaysSide(Some(side), d.side) && SaysPrice(Some(price), Published(d.price, d.side, convention))
    requires SaysAmount(Some(change), 2, true, d.delta)
    ensures SaysDelta(Envelope("orderbook_delta", d.subscription, d.sequence, DeltaBody(d.ticker, side, price, change)), d, convention)
  {
    EnvelopeSays("orderbook_delta", d.subscription, d.sequence, DeltaBody(d.ticker, side, price, change), d.ticker);
  }

  lemma SnapshotDocumentSays(s: BookSnapshot, convention: PriceConvention)
    requires Sendable(ReceiveSnapshot(s), convention)
    ensures SaysSnapshot(DocumentFor(ReceiveSnapshot(s), convention), s, convention)
  {
    EntriesSay(s.bids, Bid, convention);
    EntriesSay(s.asks, Ask, convention);
    SnapshotOf(s, Array(EntriesFor(s.bids, Bid, convention)), Array(EntriesFor(s.asks, Ask, convention)), convention);
  }

  lemma SnapshotOf(s: BookSnapshot, bids: Json, asks: Json, convention: PriceConvention)
    requires OneSizePerPrice(s.bids) && OneSizePerPrice(s.asks)
    requires SaysLevels(Some(bids), s.bids, Bid, convention) && SaysLevels(Some(asks), s.asks, Ask, convention)
    ensures SaysSnapshot(Envelope("orderbook_snapshot", s.subscription, s.sequence, SnapshotBody(s.ticker, bids, asks)), s, convention)
  {
    var body := SnapshotBody(s.ticker, bids, asks);
    var root := Envelope("orderbook_snapshot", s.subscription, s.sequence, body);
    EnvelopeSays("orderbook_snapshot", s.subscription, s.sequence, body, s.ticker);
    assert SaysSides(root, s.bids, s.asks, convention);
  }

  // ---- and for no other ----

  lemma SaidLevelQuotable(entry: Json, level: BookLevel, side: BookSide, convention: PriceConvention)
    requires SaysLevel(entry, level, side, convention)
    ensures Quotable(level.price, side, convention) && level.quantity >= 0
  {
    AmountFits(entry.items[0].s, 4, false, Published(level.price, side, convention));
    AmountFits(entry.items[1].s, 2, false, level.quantity);
  }

  lemma SaidSideQuotable(value: Option<Json>, said: seq<BookLevel>, levels: seq<BookLevel>, side: BookSide, convention: PriceConvention)
    requires SaysLevels(value, said, side, convention) && multiset(said) == multiset(levels)
    ensures QuotableSide(levels, side, convention)
  {
    forall i | 0 <= i < |levels| ensures Quotable(levels[i].price, side, convention) && levels[i].quantity >= 0 {
      assert levels[i] in multiset(said);
      var k :| 0 <= k < |said| && said[k] == levels[i];
      SaidLevelQuotable(value.value.items[k], said[k], side, convention);
    }
  }

  lemma SaidIsSendable(root: Fields, input: Input, convention: PriceConvention)
    requires Says(root, input, convention)
    ensures Sendable(input, convention)
  {
    var body := root["msg"].fields;
    match input
    case ReceiveDelta(d) =>
      AmountFits(body["price_dollars"].s, 4, false, Published(d.price, d.side, convention));
      AmountFits(body["delta_fp"].s, 2, true, d.delta);
    case ReceiveSnapshot(s) =>
      var bids, asks :| SaysSides(root, bids, asks, convention) && multiset(bids) == multiset(s.bids) && multiset(asks) == multiset(s.asks);
      SaidSideQuotable(Find(body, "yes_dollars_fp"), bids, s.bids, Bid, convention);
      SaidSideQuotable(Find(body, "no_dollars_fp"), asks, s.asks, Ask, convention);
  }

  /** A message has a document that says it exactly if its prices and sizes are in the ranges of the fields. */
  lemma DocumentExistsIff(input: Input, convention: PriceConvention)
    ensures (exists root :: Says(root, input, convention)) <==> Sendable(input, convention)
  {
    if root :| Says(root, input, convention) {
      SaidIsSendable(root, input, convention);
    }
    if Sendable(input, convention) {
      DocumentSays(input, convention);
    }
  }

  lemma DocumentSays(input: Input, convention: PriceConvention)
    requires Sendable(input, convention)
    ensures Says(DocumentFor(input, convention), input, convention)
  {
    match input
    case ReceiveDelta(d) => DeltaDocumentSays(d, convention);
    case ReceiveSnapshot(s) => SnapshotDocumentSays(s, convention);
  }

  // ---- further fields ----

  const ENVELOPE_FIELDS: set<string> := {"type", "sid", "seq", "msg"}
  const BODY_FIELDS: set<string> := {"market_ticker", "side", "price_dollars", "delta_fp", "yes_dollars_fp", "no_dollars_fp"}

  /** `long` is `short` with further fields. */
  ghost predicate Extends(long: Fields, short: Fields, fields: set<string>) {
    forall f :: f in fields ==> Find(long, f) == Find(short, f)
  }

  /** Further fields, of the envelope and of the body, do not change what a document says. */
  lemma FurtherFieldsFree(root: Fields, long: Fields, input: Input, convention: PriceConvention)
    requires Says(root, input, convention)
    requires Extends(long, root, ENVELOPE_FIELDS - {"msg"}) && Find(long, "msg").Some? && Find(long, "msg").value.Object?
    requires Extends(long["msg"].fields, root["msg"].fields, BODY_FIELDS)
    ensures Says(long, input, convention)
  {
    HeaderExtends(root, long);
    var short, body := root["msg"].fields, long["msg"].fields;
    match input
    case ReceiveDelta(d) =>
      assert Find(body, "side") == Find(short, "side") && Find(body, "delta_fp") == Find(short, "delta_fp");
      assert Find(body, "price_dollars") == Find(short, "price_dollars");
    case ReceiveSnapshot(s) =>
      var bids, asks :| SaysSides(root, bids, asks, convention) && multiset(bids) == multiset(s.bids) && multiset(asks) == multiset(s.asks);
      assert Find(body, "yes_dollars_fp") == Find(short, "yes_dollars_fp") && Find(body, "no_dollars_fp") == Find(short, "no_dollars_fp");
      assert SaysSides(long, bids, asks, convention);
  }

  lemma HeaderExtends(root: Fields, long: Fields)
    requires Find(root, "msg").Some? && Find(root, "msg").value.Object?
    requires Extends(long, root, ENVELOPE_FIELDS - {"msg"}) && Find(long, "msg").Some? && Find(long, "msg").value.Object?
    requires Extends(long["msg"].fields, root["msg"].fields, BODY_FIELDS)
    ensures forall kind, ticker, sid, sequence :: SaysHeader(root, kind, ticker, sid, sequence) ==> SaysHeader(long, kind, ticker, sid, sequence)
  {
    assert Find(long, "type") == Find(root, "type") && Find(long, "sid") == Find(root, "sid") && Find(long, "seq") == Find(root, "seq");
    assert Find(long["msg"].fields, "market_ticker") == Find(root["msg"].fields, "market_ticker");
  }
}
