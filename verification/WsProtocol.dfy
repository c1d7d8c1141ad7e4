/** WebSocket messages to normalized events. */
module WsProtocol {
  import opened Amounts
  import opened Arithmetic
  import opened Book
  import opened Events
  import opened JsonValues
  import opened Prices
  import opened Sorting
  import opened Timestamps
  import opened Wrappers

  datatype WsErrorKind =
    | MalformedJson | NotAnObject | MissingField | WrongFieldType
    | InvalidPrice | InvalidQuantity | InvalidSide | MalformedLevel

  datatype WsParseError = WsParseError(kind: WsErrorKind, field: string)

  type Fields = map<string, Json>

  // ---- typed fields ----

  function StringField(fields: Fields, field: string): Result<string, WsParseError> {
    match Find(fields, field)
    case None => Failure(WsParseError(MissingField, field))
    case Some(Text(s)) => Success(s)
    case Some(_) => Failure(WsParseError(WrongFieldType, field))
  }

  function IntegerField(fields: Fields, field: string): Result<Int64, WsParseError> {
    match Find(fields, field)
    case None => Failure(WsParseError(MissingField, field))
    case Some(Number(n)) => Success(ToInt64(n))
    case Some(_) => Failure(WsParseError(WrongFieldType, field))
  }

  function PriceField(fields: Fields, field: string): Result<int, WsParseError> {
    match StringField(fields, field)
    case Failure(e) => Failure(e)
    case Success(text) =>
      match ParsePrice(text)
      case Failure(_) => Failure(WsParseError(InvalidPrice, field))
      case Success(price) => Success(price)
  }

  function QuantityField(fields: Fields, field: string, signed: bool): Result<Int64, WsParseError> {
    match StringField(fields, field)
    case Failure(e) => Failure(e)
    case Success(text) =>
      match (if signed then ParseQuantityDelta(text) else ParseQuantity(text))
      case Failure(_) => Failure(WsParseError(InvalidQuantity, field))
      case Success(units) => Success(units)
  }

  /** The millisecond field when it is an integer, else the text field when it parses. */
  function ExchangeTime(fields: Fields): Option<int> {
    match Find(fields, "ts_ms")
    case Some(Number(n)) => Some(1000 * ToInt64(n))
    case _ =>
      match Find(fields, "ts")
      case Some(Text(s)) =>
        (match ParsedTimestamp(s)
         case Success(t) => Some(t)
         case Failure(_) => None)
      case _ => None
  }

  // ---- sides and levels ----

  function BookSideFromString(text: string): Option<BookSide> {
    if text == "yes" || text == "bid" then Some(Bid)
    else if text == "no" || text == "ask" then Some(Ask)
    else None
  }

  /** Only NO-side prices under no-leg pricing are reflected. */
  function YesPriceFromBookEntry(published: int, side: BookSide, convention: PriceConvention): int {
    if side.Bid? || convention.YesLegPricing? then published else YesPriceFromNo(published)
  }

  function ReadLevel(entry: Json): Option<BookLevel> {
    match entry
    case Array(items) =>
      if |items| != 2 || !items[0].Text? || !items[1].Text? then None
      else
        (match (ParsePrice(items[0].s), ParseQuantity(items[1].s))
         case (Success(price), Success(quantity)) => Some(BookLevel(price, quantity))
         case _ => None)
    case _ => None
  }

  function Reflected(level: BookLevel, side: BookSide, convention: PriceConvention): BookLevel {
    level.(price := YesPriceFromBookEntry(level.price, side, convention))
  }

  function LevelsFrom(entries: seq<Json>, side: BookSide, convention: PriceConvention): Option<seq<BookLevel>> {
    if entries == [] then Some([])
    else
      var n := |entries| - 1;
      match (LevelsFrom(entries[..n], side, convention), ReadLevel(entries[n]))
      case (Some(levels), Some(level)) => Some(levels + [Reflected(level, side, convention)])
      case _ => None
  }

  lemma {:induction false} LevelsFromPrefix(entries: seq<Json>, side: BookSide, convention: PriceConvention, n: nat)
    requires n <= |entries| && LevelsFrom(entries[..n], side, convention).None?
    ensures LevelsFrom(entries, side, convention).None?
    decreases |entries|
  {
    if n == |entries| {
      assert entries[..n] == entries;
    } else {
      var init := entries[..|entries| - 1];
      assert init[..n] == entries[..n];
      LevelsFromPrefix(init, side, convention, n);
    }
  }

  function SideOf(message: Fields, field: string, side: BookSide, convention: PriceConvention): Option<seq<BookLevel>> {
    match Find(message, field)
    case None => Some([])
    case Some(Null) => Some([])
    case Some(Array(entries)) => LevelsFrom(entries, side, convention)
    case Some(_) => None
  }

  /** One side of a snapshot, read entry by entry; an absent array is an empty side. */
  method ReadLevels(message: Fields, field: string, side: BookSide, convention: PriceConvention)
    returns (ok: bool, out: seq<BookLevel>)
    ensures if ok then SideOf(message, field, side, convention) == Some(out)
            else SideOf(message, field, side, convention).None?
  {
    out := [];
    if field !in message || message[field].Null? {
      return true, out;
    }
    if !message[field].Array? {
      return false, out;
    }
    ok, out := ReadEntries(message[field].items, side, convention);
  }

  method ReadEntries(entries: seq<Json>, side: BookSide, convention: PriceConvention) returns (ok: bool, out: seq<BookLevel>)
    ensures if ok then LevelsFrom(entries, side, convention) == Some(out) else LevelsFrom(entries, side, convention).None?
  {
    out := [];
    for i := 0 to |entries|
      invariant LevelsFrom(entries[..i], side, convention) == Some(out)
    {
      assert entries[..i + 1][..i] == entries[..i];
      var level := ReadLevel(entries[i]);
      if level.None? {
        LevelsFromPrefix(entries, side, convention, i + 1);
        return false, out;
      }
      out := out + [level.value.(price := YesPriceFromBookEntry(level.value.price, side, convention))];
    }
    assert entries[..|entries|] == entries;
    return true, out;
  }

  predicate BestBidFirst(a: BookLevel, b: BookLevel) {
    a.price > b.price
  }

  predicate BestAskFirst(a: BookLevel, b: BookLevel) {
    a.price < b.price
  }

  // ---- messages ----

  function ParseSnapshot(root: Fields, message: Fields, convention: PriceConvention): Result<MarketEvent, WsParseError> {
    match IntegerField(root, "sid")
    case Failure(e) => Failure(e)
    case Success(sid) =>
      match IntegerField(root, "seq")
      case Failure(e) => Failure(e)
      case Success(sequence) =>
        match StringField(message, "market_ticker")
        case Failure(e) => Failure(e)
        case Success(ticker) =>
          SnapshotFrom(ticker, sid, Word(sequence), SideOf(message, "yes_dollars_fp", Bid, convention),
                       SideOf(message, "no_dollars_fp", Ask, convention))
  }

  /** Reflecting NO levels reverses their order, so ordering is imposed: best bid first, best ask first. */
  function SnapshotFrom(ticker: string, sid: Int64, sequence: Uint64, bids: Option<seq<BookLevel>>, asks: Option<seq<BookLevel>>):
    Result<MarketEvent, WsParseError>
  {
    if bids.None? then Failure(WsParseError(MalformedLevel, "yes_dollars_fp"))
    else if asks.None? then Failure(WsParseError(MalformedLevel, "no_dollars_fp"))
    else Success(SnapshotEvent(BookSnapshot(ticker, sid, sequence, Sort(BestBidFirst, bids.value), Sort(BestAskFirst, asks.value))))
  }

  function ParseDelta(root: Fields, message: Fields, convention: PriceConvention): Result<MarketEvent, WsParseError> {
    match (IntegerField(root, "sid"), IntegerField(root, "seq"))
    case (Failure(e), _) => Failure(e)
    case (Success(_), Failure(e)) => Failure(e)
    case (Success(sid), Success(sequence)) =>
      match (StringField(message, "market_ticker"), StringField(message, "side"))
      case (Failure(e), _) => Failure(e)
      case (Success(_), Failure(e)) => Failure(e)
      case (Success(ticker), Success(sideText)) =>
        var side := BookSideFromString(sideText);
        if side.None? then Failure(WsParseError(InvalidSide, "side"))
        else
          match (PriceField(message, "price_dollars"), QuantityField(message, "delta_fp", true))
          case (Failure(e), _) => Failure(e)
          case (Success(_), Failure(e)) => Failure(e)
          case (Success(published), Success(change)) =>
            Success(DeltaEvent(BookDelta(ticker, sid, Word(sequence), side.value,
                                         YesPriceFromBookEntry(published, side.value, convention), change,
                                         ExchangeTime(message))))
  }

  function TakerSide(message: Fields, fields: seq<string>): Option<BookSide> {
    if fields == [] then None
    else match Find(message, fields[0])
      case Some(Text(s)) =>
        if BookSideFromString(s).Some? then BookSideFromString(s) else TakerSide(message, fields[1..])
      case _ => TakerSide(message, fields[1..])
  }

  /** Trades are only counted; what matters here is whether one is accepted, and for which market. */
  function ParseTrade(root: Fields, message: Fields): Result<MarketEvent, WsParseError> {
    if IntegerField(root, "sid").Failure? then Failure(IntegerField(root, "sid").error)
    else if StringField(message, "market_ticker").Failure? then Failure(StringField(message, "market_ticker").error)
    else if StringField(message, "trade_id").Failure? then Failure(StringField(message, "trade_id").error)
    else if PriceField(message, "yes_price_dollars").Failure? then Failure(PriceField(message, "yes_price_dollars").error)
    else if QuantityField(message, "count_fp", false).Failure? then Failure(QuantityField(message, "count_fp", false).error)
    else if "is_block_trade" in message && !message["is_block_trade"].Boolean? then
      Failure(WsParseError(WrongFieldType, "is_block_trade"))
    else if TakerSide(message, ["taker_side", "taker_outcome_side", "taker_book_side"]).None? then
      Failure(WsParseError(InvalidSide, "taker_side"))
    else Success(TradeEvent(StringField(message, "market_ticker").value))
  }

  function ParseSubscribed(root: Fields, message: Fields): Result<MarketEvent, WsParseError> {
    if IntegerField(root, "id").Failure? then Failure(IntegerField(root, "id").error)
    else if StringField(message, "channel").Failure? then Failure(StringField(message, "channel").error)
    else if IntegerField(message, "sid").Failure? then Failure(IntegerField(message, "sid").error)
    else Success(AckEvent)
  }

  /** The command id is optional: some errors are not a reply to anything. */
  function ParseError(message: Fields): Result<MarketEvent, WsParseError> {
    if IntegerField(message, "code").Failure? then Failure(IntegerField(message, "code").error)
    else if StringField(message, "msg").Failure? then Failure(StringField(message, "msg").error)
    else
      var ticker := StringField(message, "market_ticker");
      Success(ErrorEvent(if ticker.Success? then Some(ticker.value) else None))
  }

  function ParseDocument(root: Json, convention: PriceConvention): Result<MarketEvent, WsParseError> {
    if !root.Object? then Failure(WsParseError(NotAnObject, ""))
    else
      match StringField(root.fields, "type")
      case Failure(e) => Failure(e)
      case Success(kind) =>
        if kind !in {"orderbook_snapshot", "orderbook_delta", "trade", "subscribed", "error"} then
          Success(UnhandledEvent(kind))
        else
          match Find(root.fields, "msg")
          case Some(Object(message)) =>
            if kind == "orderbook_snapshot" then ParseSnapshot(root.fields, message, convention)
            else if kind == "orderbook_delta" then ParseDelta(root.fields, message, convention)
            else if kind == "trade" then ParseTrade(root.fields, message)
            else if kind == "subscribed" then ParseSubscribed(root.fields, message)
            else ParseError(message)
          case _ => Failure(WsParseError(MissingField, "msg"))
  }

  function ParseWsMessage(codec: Codec, text: string, convention: PriceConvention): Result<MarketEvent, WsParseError> {
    match (codec.parse)(text)
    case None => Failure(WsParseError(MalformedJson, ""))
    case Some(root) => ParseDocument(root, convention)
  }

  // ---- snapshots arrive sorted, whatever order the venue used ----

  lemma PriceOrders()
    ensures WeakOrder(BestBidFirst) && WeakOrder(BestAskFirst)
  {}

  /** Sides of a parsed snapshot are the levels read, best price first. */
  lemma SnapshotSorted(root: Fields, message: Fields, convention: PriceConvention)
    requires ParseSnapshot(root, message, convention).Success?
    ensures var s := ParseSnapshot(root, message, convention).value.snapshot;
      && Sorted(BestBidFirst, s.bids) && Sorted(BestAskFirst, s.asks)
      && SideOf(message, "yes_dollars_fp", Bid, convention).Some? && SideOf(message, "no_dollars_fp", Ask, convention).Some?
      && multiset(s.bids) == multiset(SideOf(message, "yes_dollars_fp", Bid, convention).value)
      && multiset(s.asks) == multiset(SideOf(message, "no_dollars_fp", Ask, convention).value)
  {
    PriceOrders();
    SortSorts(BestBidFirst, SideOf(message, "yes_dollars_fp", Bid, convention).value);
    SortSorts(BestAskFirst, SideOf(message, "no_dollars_fp", Ask, convention).value);
  }
}
