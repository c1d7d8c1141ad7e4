/** Trades, acknowledgements, errors and unknown messages: exactly when they are heard; and what is said of the rest. */
module OtherMessages {
  import opened Events
  import opened JsonValues
  import opened WireMessages
  import opened Wrappers
  import opened WsProtocol

  const KNOWN_KINDS := {"orderbook_snapshot", "orderbook_delta", "trade", "subscribed", "error"}

  // ---- what the documents say ----

  predicate SaysInteger(value: Option<Json>) {
    value.Some? && value.value.Number?
  }

  predicate SaysWords(value: Option<Json>) {
    value.Some? && value.value.Text?
  }

  predicate NamesSide(value: Option<Json>) {
    value in {Some(Text("yes")), Some(Text("bid")), Some(Text("no")), Some(Text("ask"))}
  }

  predicate Body(root: Fields, kind: string) {
    Find(root, "type") == Some(Text(kind)) && Find(root, "msg").Some? && Find(root, "msg").value.Object?
  }

  /** A trade of a market; one of three fields names the taker's side. */
  ghost predicate SaysTrade(root: Fields, ticker: string) {
    && Body(root, "trade") && SaysInteger(Find(root, "sid"))
    && var body := root["msg"].fields;
       && Find(body, "market_ticker") == Some(Text(ticker)) && SaysWords(Find(body, "trade_id"))
       && (exists price :: SaysPrice(Find(body, "yes_price_dollars"), price))
       && (exists size :: SaysAmount(Find(body, "count_fp"), 2, false, size))
       && (Find(body, "is_block_trade").Some? ==> Find(body, "is_block_trade").value.Boolean?)
       && (NamesSide(Find(body, "taker_side")) || NamesSide(Find(body, "taker_outcome_side")) || NamesSide(Find(body, "taker_book_side")))
  }

  predicate SaysAck(root: Fields) {
    && Body(root, "subscribed") && SaysInteger(Find(root, "id"))
    && SaysWords(Find(root["msg"].fields, "channel")) && SaysInteger(Find(root["msg"].fields, "sid"))
  }

  /** An error of the venue; the market is named or not. */
  predicate SaysError(root: Fields, ticker: Option<string>) {
    && Body(root, "error") && SaysInteger(Find(root["msg"].fields, "code")) && SaysWords(Find(root["msg"].fields, "msg"))
    && match ticker
       case Some(t) => Find(root["msg"].fields, "market_ticker") == Some(Text(t))
       case None => !SaysWords(Find(root["msg"].fields, "market_ticker"))
  }

  /** A message of a kind that is not known. */
  predicate SaysUnknown(root: Fields, kind: string) {
    Find(root, "type") == Some(Text(kind)) && kind !in KNOWN_KINDS
  }

  // ---- trades ----

  lemma PriceSaid(body: Fields, field: string)
    ensures PriceField(body, field).Success? <==> exists price :: SaysPrice(Find(body, field), price)
  {
    if PriceField(body, field).Success? {
      PriceFieldReads(body, field, PriceField(body, field).value);
    }
    if price :| SaysPrice(Find(body, field), price) {
      PriceFieldReads(body, field, price);
    }
  }

  lemma SizeSaid(body: Fields, field: string, signed: bool)
    ensures QuantityField(body, field, signed).Success? <==> exists size :: SaysAmount(Find(body, field), 2, signed, size)
  {
    if QuantityField(body, field, signed).Success? {
      QuantityFieldReads(body, field, signed, QuantityField(body, field, signed).value);
    }
    if size :| SaysAmount(Find(body, field), 2, signed, size) {
      AmountFits(Find(body, field).value.s, 2, signed, size);
      QuantityFieldReads(body, field, signed, size);
    }
  }

  lemma TakerNamed(body: Fields)
    ensures TakerSide(body, ["taker_side", "taker_outcome_side", "taker_book_side"]).Some? <==>
      NamesSide(Find(body, "taker_side")) || NamesSide(Find(body, "taker_outcome_side")) || NamesSide(Find(body, "taker_book_side"))
  {
    TakerStep(body, "taker_side", ["taker_outcome_side", "taker_book_side"]);
    TakerStep(body, "taker_outcome_side", ["taker_book_side"]);
    TakerStep(body, "taker_book_side", []);
    assert ["taker_side"] + ["taker_outcome_side", "taker_book_side"] == ["taker_side", "taker_outcome_side", "taker_book_side"];
    assert ["taker_outcome_side"] + ["taker_book_side"] == ["taker_outcome_side", "taker_book_side"];
    assert ["taker_book_side"] + [] == ["taker_book_side"];
  }

  lemma TakerStep(body: Fields, field: string, rest: seq<string>)
    ensures TakerSide(body, [field] + rest).Some? <==> NamesSide(Find(body, field)) || TakerSide(body, rest).Some?
  {
    assert ([field] + rest)[1..] == rest;
  }

  lemma TradeBody(root: Fields, body: Fields, ticker: string)
    ensures ParseTrade(root, body) == Success(TradeEvent(ticker)) <==>
      && SaysInteger(Find(root, "sid"))
      && Find(body, "market_ticker") == Some(Text(ticker)) && SaysWords(Find(body, "trade_id"))
      && PriceField(body, "yes_price_dollars").Success? && QuantityField(body, "count_fp", false).Success?
      && (Find(body, "is_block_trade").Some? ==> Find(body, "is_block_trade").value.Boolean?)
      && TakerSide(body, ["taker_side", "taker_outcome_side", "taker_book_side"]).Some?
  {}

  lemma OnlyTrades(root: Fields, ticker: string, convention: PriceConvention)
    ensures ParseDocument(Object(root), convention) == Success(TradeEvent(ticker)) <==>
            Body(root, "trade") && ParseTrade(root, root["msg"].fields) == Success(TradeEvent(ticker))
  {}

  /** A document is heard as a trade exactly if its fields say one, under either convention. */
  lemma TradeExact(root: Fields, ticker: string, convention: PriceConvention)
    ensures ParseDocument(Object(root), convention) == Success(TradeEvent(ticker)) <==> SaysTrade(root, ticker)
  {
    OnlyTrades(root, ticker, convention);
    if Body(root, "trade") {
      var body := root["msg"].fields;
      TradeBody(root, body, ticker);
      PriceSaid(body, "yes_price_dollars");
      SizeSaid(body, "count_fp", false);
      TakerNamed(body);
    }
  }

  // ---- the other kinds ----

  lemma AckExact(root: Fields, convention: PriceConvention)
    ensures ParseDocument(Object(root), convention) == Success(AckEvent) <==> SaysAck(root)
  {}

  lemma ErrorExact(root: Fields, ticker: Option<string>, convention: PriceConvention)
    ensures ParseDocument(Object(root), convention) == Success(ErrorEvent(ticker)) <==> SaysError(root, ticker)
  {}

  lemma UnhandledExact(root: Fields, kind: string, convention: PriceConvention)
    ensures ParseDocument(Object(root), convention) == Success(UnhandledEvent(kind)) <==> SaysUnknown(root, kind)
  {}

  // ---- what is wrong with a document that is not heard ----

  datatype Need = Integer | Words | Price | Size(signed: bool) | Side

  /** The complaint about one required field. */
  ghost function Lacks(fields: Fields, field: string, need: Need): Option<WsParseError> {
    match Find(fields, field)
    case None => Some(WsParseError(MissingField, field))
    case Some(value) =>
      if need.Integer? then if value.Number? then None else Some(WsParseError(WrongFieldType, field))
      else if !value.Text? then Some(WsParseError(WrongFieldType, field))
      else match need
        case Price => if exists p :: SaysPrice(Some(value), p) then None else Some(WsParseError(InvalidPrice, field))
        case Size(signed) =>
          if exists x :: SaysAmount(Some(value), 2, signed, x) then None else Some(WsParseError(InvalidQuantity, field))
        case Side => if NamesSide(Some(value)) then None else Some(WsParseError(InvalidSide, field))
        case _ => None
  }

  /** The first of two complaints. */
  function Or(a: Option<WsParseError>, b: Option<WsParseError>): Option<WsParseError> {
    if a.Some? then a else b
  }

  function Complain(wrong: bool, kind: WsErrorKind, field: string): Option<WsParseError> {
    if wrong then Some(WsParseError(kind, field)) else None
  }

  /** Envelope before body, fields in their order. */
  ghost function DeltaLacks(root: Fields, body: Fields): Option<WsParseError> {
    Or(Lacks(root, "sid", Integer), Or(Lacks(root, "seq", Integer), Or(Lacks(body, "market_ticker", Words),
       Or(Lacks(body, "side", Side), Or(Lacks(body, "price_dollars", Price), Lacks(body, "delta_fp", Size(true)))))))
  }

  ghost function SnapshotLacks(root: Fields, body: Fields, convention: PriceConvention): Option<WsParseError> {
    Or(Lacks(root, "sid", Integer), Or(Lacks(root, "seq", Integer), Or(Lacks(body, "market_ticker", Words),
       Or(Complain(!exists bids :: SaysLevels(Find(body, "yes_dollars_fp"), bids, Bid, convention), MalformedLevel, "yes_dollars_fp"),
          Complain(!exists asks :: SaysLevels(Find(body, "no_dollars_fp"), asks, Ask, convention), MalformedLevel, "no_dollars_fp")))))
  }

  ghost function TradeLacks(root: Fields, body: Fields): Option<WsParseError> {
    var flag := Find(body, "is_block_trade");
    Or(Lacks(root, "sid", Integer), Or(Lacks(body, "market_ticker", Words), Or(Lacks(body, "trade_id", Words),
       Or(Lacks(body, "yes_price_dollars", Price), Or(Lacks(body, "count_fp", Size(false)),
       Or(Complain(flag.Some? && !flag.value.Boolean?, WrongFieldType, "is_block_trade"),
          Complain(!NamesSide(Find(body, "taker_side")) && !NamesSide(Find(body, "taker_outcome_side"))
                   && !NamesSide(Find(body, "taker_book_side")), InvalidSide, "taker_side")))))))
  }

  ghost function AckLacks(root: Fields, body: Fields): Option<WsParseError> {
    Or(Lacks(root, "id", Integer), Or(Lacks(body, "channel", Words), Lacks(body, "sid", Integer)))
  }

  ghost function ErrorLacks(body: Fields): Option<WsParseError> {
    Or(Lacks(body, "code", Integer), Lacks(body, "msg", Words))
  }

  ghost function BodyLacks(root: Fields, body: Fields, kind: string, convention: PriceConvention): Option<WsParseError> {
    if kind == "orderbook_snapshot" then SnapshotLacks(root, body, convention)
    else if kind == "orderbook_delta" then DeltaLacks(root, body)
    else if kind == "trade" then TradeLacks(root, body)
    else if kind == "subscribed" then AckLacks(root, body)
    else ErrorLacks(body)
  }

  ghost function DocumentLacks(document: Json, convention: PriceConvention): Option<WsParseError> {
    if !document.Object? then Some(WsParseError(NotAnObject, ""))
    else if Lacks(document.fields, "type", Words).Some? then Lacks(document.fields, "type", Words)
    else
      var kind := document.fields["type"].s;
      if kind !in KNOWN_KINDS then None
      else if !Body(document.fields, kind) then Some(WsParseError(MissingField, "msg"))
      else
        BodyLacks(document.fields, document.fields["msg"].fields, kind, convention)
  }

  function ErrorIn(r: Result<MarketEvent, WsParseError>): Option<WsParseError> {
    match r
    case Success(_) => None
    case Failure(e) => Some(e)
  }

  lemma TextReads(fields: Fields, field: string)
    ensures match StringField(fields, field)
      case Success(_) => Lacks(fields, field, Words) == None
      case Failure(e) => Lacks(fields, field, Words) == Some(e)
  {}

  lemma IntegerReads(fields: Fields, field: string)
    ensures match IntegerField(fields, field)
      case Success(_) => Lacks(fields, field, Integer) == None
      case Failure(e) => Lacks(fields, field, Integer) == Some(e)
  {}

  lemma PriceReadsOr(fields: Fields, field: string)
    ensures match PriceField(fields, field)
      case Success(_) => Lacks(fields, field, Price) == None
      case Failure(e) => Lacks(fields, field, Price) == Some(e)
  {
    PriceSaid(fields, field);
  }

  lemma SizeReadsOr(fields: Fields, field: string, signed: bool)
    ensures match QuantityField(fields, field, signed)
      case Success(_) => Lacks(fields, field, Size(signed)) == None
      case Failure(e) => Lacks(fields, field, Size(signed)) == Some(e)
  {
    SizeSaid(fields, field, signed);
  }

  lemma DeltaComplaint(root: Fields, body: Fields, convention: PriceConvention)
    ensures ErrorIn(ParseDelta(root, body, convention)) == DeltaLacks(root, body)
  {
    IntegerReads(root, "sid");
    IntegerReads(root, "seq");
    TextReads(body, "market_ticker");
    PriceReadsOr(body, "price_dollars");
    SizeReadsOr(body, "delta_fp", true);
  }

  lemma SideReadsOr(body: Fields, field: string, side: BookSide, convention: PriceConvention)
    ensures SideOf(body, field, side, convention).Some? <==> exists levels :: SaysLevels(Find(body, field), levels, side, convention)
  {
    if SideOf(body, field, side, convention).Some? {
      SideReads(body, field, SideOf(body, field, side, convention).value, side, convention);
    }
    if levels :| SaysLevels(Find(body, field), levels, side, convention) {
      SideReads(body, field, levels, side, convention);
    }
  }

  lemma SnapshotComplaint(root: Fields, body: Fields, convention: PriceConvention)
    ensures ErrorIn(ParseSnapshot(root, body, convention)) == SnapshotLacks(root, body, convention)
  {
    IntegerReads(root, "sid");
    IntegerReads(root, "seq");
    TextReads(body, "market_ticker");
    SideReadsOr(body, "yes_dollars_fp", Bid, convention);
    SideReadsOr(body, "no_dollars_fp", Ask, convention);
  }

  lemma TradeComplaint(root: Fields, body: Fields)
    ensures ErrorIn(ParseTrade(root, body)) == TradeLacks(root, body)
  {
    IntegerReads(root, "sid");
    TextReads(body, "market_ticker");
    TextReads(body, "trade_id");
    PriceReadsOr(body, "yes_price_dollars");
    SizeReadsOr(body, "count_fp", false);
    TakerNamed(body);
  }

  lemma AckComplaint(root: Fields, body: Fields)
    ensures ErrorIn(ParseSubscribed(root, body)) == AckLacks(root, body)
  {
    IntegerReads(root, "id");
    TextReads(body, "channel");
    IntegerReads(body, "sid");
  }

  lemma ErrorComplaint(body: Fields)
    ensures ErrorIn(ParseError(body)) == ErrorLacks(body)
  {
    IntegerReads(body, "code");
    TextReads(body, "msg");
  }

  function BodyParser(root: Fields, body: Fields, kind: string, convention: PriceConvention): Result<MarketEvent, WsParseError> {
    if kind == "orderbook_snapshot" then ParseSnapshot(root, body, convention)
    else if kind == "orderbook_delta" then ParseDelta(root, body, convention)
    else if kind == "trade" then ParseTrade(root, body)
    else if kind == "subscribed" then ParseSubscribed(root, body)
    else ParseError(body)
  }

  lemma BodyComplaint(root: Fields, body: Fields, kind: string, convention: PriceConvention)
    ensures ErrorIn(BodyParser(root, body, kind, convention)) == BodyLacks(root, body, kind, convention)
  {
    if kind == "orderbook_snapshot" {
      SnapshotComplaint(root, body, convention);
    } else if kind == "orderbook_delta" {
      DeltaComplaint(root, body, convention);
    } else if kind == "trade" {
      TradeComplaint(root, body);
    } else if kind == "subscribed" {
      AckComplaint(root, body);
    } else {
      ErrorComplaint(body);
    }
  }

  lemma WithBody(root: Fields, kind: string, convention: PriceConvention)
    requires Body(root, kind) && kind in KNOWN_KINDS
    ensures ParseDocument(Object(root), convention) == BodyParser(root, root["msg"].fields, kind, convention)
  {}

  lemma WithoutBody(document: Json, convention: PriceConvention)
    requires document.Object? ==> forall kind :: kind in KNOWN_KINDS ==> !Body(document.fields, kind)
    ensures ErrorIn(ParseDocument(document, convention)) == DocumentLacks(document, convention)
  {}

  /** A document that is not heard is refused for the first thing wrong with it, envelope before body. */
  lemma RefusedForFirst(document: Json, convention: PriceConvention)
    ensures ErrorIn(ParseDocument(document, convention)) == DocumentLacks(document, convention)
  {
    if kind :| document.Object? && kind in KNOWN_KINDS && Body(document.fields, kind) {
      WithBody(document.fields, kind, convention);
      BodyComplaint(document.fields, document.fields["msg"].fields, kind, convention);
    } else {
      WithoutBody(document, convention);
    }
  }
}
