/** The two ways of pricing the NO side normalize to one book. */
module PriceConventions {
  import opened Arithmetic
  import opened Book
  import opened BookRuns
  import opened Events
  import opened JsonValues
  import opened MarketStates
  import opened Prices
  import opened Sorting
  import opened WireMessages
  import opened Wrappers
  import opened WsProtocol

  // ---- one side read two ways ----

  /** The levels a NO price p stands for, in YES terms. */
  function Opposite(levels: seq<BookLevel>): seq<BookLevel> {
    if levels == [] then []
    else
      var last := levels[|levels| - 1];
      Opposite(levels[..|levels| - 1]) + [last.(price := YesPriceFromNo(last.price))]
  }

  /** What a side says as it stands, prices not reflected. */
  function Quoted(body: Fields, field: string, side: BookSide): Option<seq<BookLevel>> {
    SideOf(body, field, side, YesLegPricing)
  }

  ghost predicate OnePerPrice(levels: seq<BookLevel>) {
    forall i, j :: 0 <= i < j < |levels| ==> levels[i].price != levels[j].price
  }

  /** The same levels, in any order when each price occurs once. */
  ghost predicate Rearranged(a: seq<BookLevel>, b: seq<BookLevel>) {
    a == b || (multiset(a) == multiset(b) && OnePerPrice(b))
  }

  /** Two readings of a side: neither is readable, or they hold the same levels. */
  ghost predicate SameSide(x: Option<seq<BookLevel>>, y: Option<seq<BookLevel>>) {
    if x.Some? && y.Some? then Rearranged(x.value, y.value) else x == y
  }

  lemma {:induction false} EntriesReflected(entries: seq<Json>)
    ensures match LevelsFrom(entries, Ask, YesLegPricing)
      case Some(levels) => LevelsFrom(entries, Ask, NoLegPricing) == Some(Opposite(levels))
      case None => LevelsFrom(entries, Ask, NoLegPricing) == None
  {
    if entries != [] {
      var n := |entries| - 1;
      EntriesReflected(entries[..n]);
      if LevelsFrom(entries[..n], Ask, YesLegPricing).Some? && ReadLevel(entries[n]).Some? {
        OppositeLast(LevelsFrom(entries[..n], Ask, YesLegPricing).value, ReadLevel(entries[n]).value);
      }
    }
  }

  lemma OppositeLast(levels: seq<BookLevel>, last: BookLevel)
    ensures Opposite(levels + [last]) == Opposite(levels) + [last.(price := YesPriceFromNo(last.price))]
  {
    assert (levels + [last])[..|levels|] == levels;
  }

  /** NO-leg pricing reads the opposite of what stands there. */
  lemma NoSideReflected(body: Fields)
    ensures match Quoted(body, "no_dollars_fp", Ask)
      case Some(levels) => SideOf(body, "no_dollars_fp", Ask, NoLegPricing) == Some(Opposite(levels))
      case None => SideOf(body, "no_dollars_fp", Ask, NoLegPricing) == None
  {
    match Find(body, "no_dollars_fp")
    case Some(Array(entries)) => EntriesReflected(entries);
    case _ => assert Opposite([]) == [];
  }

  /** YES bids are quoted in YES dollars either way. */
  lemma {:induction false} BidsUnaffected(entries: seq<Json>)
    ensures LevelsFrom(entries, Bid, NoLegPricing) == LevelsFrom(entries, Bid, YesLegPricing)
  {
    if entries != [] {
      BidsUnaffected(entries[..|entries| - 1]);
    }
  }

  lemma YesSideUnaffected(body: Fields)
    ensures SideOf(body, "yes_dollars_fp", Bid, NoLegPricing) == Quoted(body, "yes_dollars_fp", Bid)
  {
    match Find(body, "yes_dollars_fp")
    case Some(Array(entries)) => BidsUnaffected(entries);
    case _ =>
  }

  // ---- sorting forgets the order ----

  lemma OnceDistinct(levels: seq<BookLevel>)
    requires OnePerPrice(levels)
    ensures Distinct(BestBidFirst, levels) && Distinct(BestAskFirst, levels)
  {}

  lemma SameSort(less: (BookLevel, BookLevel) -> bool, a: seq<BookLevel>, b: seq<BookLevel>)
    requires WeakOrder(less) && multiset(a) == multiset(b) && Distinct(less, a)
    ensures Sort(less, a) == Sort(less, b)
  {
    SortSorts(less, a);
    SortSorts(less, b);
    SortedDistinctIsStrict(less, a, Sort(less, a));
    SortedDistinctIsStrict(less, a, Sort(less, b));
    SortedUnique(less, Sort(less, a), Sort(less, b));
  }

  lemma RearrangedSort(a: seq<BookLevel>, b: seq<BookLevel>)
    requires Rearranged(a, b)
    ensures Sort(BestBidFirst, a) == Sort(BestBidFirst, b) && Sort(BestAskFirst, a) == Sort(BestAskFirst, b)
  {
    if a != b {
      PriceOrders();
      OnceDistinct(b);
      SameSort(BestBidFirst, b, a);
      SameSort(BestAskFirst, b, a);
    }
  }

  lemma SameSides(ticker: string, sid: Int64, sequence: Uint64, bidsA: Option<seq<BookLevel>>, asksA: Option<seq<BookLevel>>,
                  bidsB: Option<seq<BookLevel>>, asksB: Option<seq<BookLevel>>)
    requires SameSide(bidsA, bidsB) && SameSide(asksA, asksB)
    ensures SnapshotFrom(ticker, sid, sequence, bidsA, asksA) == SnapshotFrom(ticker, sid, sequence, bidsB, asksB)
  {
    if bidsA.Some? && bidsB.Some? { RearrangedSort(bidsA.value, bidsB.value); }
    if asksA.Some? && asksB.Some? { RearrangedSort(asksA.value, asksB.value); }
  }

  // ---- messages ----

  predicate HasBody(document: Json) {
    document.Object? && Find(document.fields, "msg").Some? && Find(document.fields, "msg").value.Object?
  }

  /** Envelopes that read alike, whatever else is in them. */
  predicate SameEnvelope(ours: Json, theirs: Json, kind: string) {
    && HasBody(ours) && HasBody(theirs)
    && StringField(ours.fields, "type") == StringField(theirs.fields, "type") == Success(kind)
    && IntegerField(ours.fields, "sid") == IntegerField(theirs.fields, "sid")
    && IntegerField(ours.fields, "seq") == IntegerField(theirs.fields, "seq")
    && StringField(ours.fields["msg"].fields, "market_ticker") == StringField(theirs.fields["msg"].fields, "market_ticker")
  }

  /** A snapshot, and one with the same YES levels and the opposite NO levels, in any order and spelling. */
  ghost predicate MirroredSnapshot(ours: Json, theirs: Json) {
    && SameEnvelope(ours, theirs, "orderbook_snapshot")
    && var a, b := ours.fields["msg"].fields, theirs.fields["msg"].fields;
       && SameSide(Quoted(a, "yes_dollars_fp", Bid), Quoted(b, "yes_dollars_fp", Bid))
       && match (Quoted(a, "no_dollars_fp", Ask), Quoted(b, "no_dollars_fp", Ask))
          case (Some(x), Some(y)) => Rearranged(Opposite(x), y)
          case (None, None) => true
          case _ => false
  }

  /** The side of a delta, under either of its names. */
  function SideField(body: Fields): Result<Option<BookSide>, WsParseError> {
    match StringField(body, "side")
    case Failure(e) => Failure(e)
    case Success(text) => Success(BookSideFromString(text))
  }

  /** A delta, and one of the same change on the same side; on the NO side at the opposite price. */
  predicate MirroredDelta(ours: Json, theirs: Json) {
    && SameEnvelope(ours, theirs, "orderbook_delta")
    && var a, b := ours.fields["msg"].fields, theirs.fields["msg"].fields;
       && SideField(a) == SideField(b)
       && (match PriceField(a, "price_dollars")
           case Success(price) =>
             PriceField(b, "price_dollars") == Success(if SideField(a) == Success(Some(Ask)) then YesPriceFromNo(price) else price)
           case Failure(e) => PriceField(b, "price_dollars") == Failure(e))
       && QuantityField(a, "delta_fp", true) == QuantityField(b, "delta_fp", true)
       && ExchangeTime(a) == ExchangeTime(b)
  }

  predicate OfKind(document: Json, kind: string) {
    document.Object? && StringField(document.fields, "type") == Success(kind)
  }

  /** The same venue message under the two conventions; messages other than these two carry no book price. */
  ghost predicate Mirrored(ours: Json, theirs: Json) {
    || MirroredSnapshot(ours, theirs) || MirroredDelta(ours, theirs)
    || (ours == theirs && !(HasBody(ours) && (OfKind(ours, "orderbook_snapshot") || OfKind(ours, "orderbook_delta"))))
  }

  lemma SnapshotsAgree(ours: Json, theirs: Json)
    requires MirroredSnapshot(ours, theirs)
    ensures ParseDocument(ours, NoLegPricing) == ParseDocument(theirs, YesLegPricing)
  {
    var a, b := ours.fields["msg"].fields, theirs.fields["msg"].fields;
    YesSideUnaffected(a);
    NoSideReflected(a);
    var sid, sequence, ticker := IntegerField(ours.fields, "sid"), IntegerField(ours.fields, "seq"), StringField(a, "market_ticker");
    if sid.Success? && sequence.Success? && ticker.Success? {
      SameSides(ticker.value, sid.value, Word(sequence.value),
                SideOf(a, "yes_dollars_fp", Bid, NoLegPricing), SideOf(a, "no_dollars_fp", Ask, NoLegPricing),
                Quoted(b, "yes_dollars_fp", Bid), Quoted(b, "no_dollars_fp", Ask));
    }
  }

  lemma DeltaBodiesAgree(ours: Json, theirs: Json)
    requires MirroredDelta(ours, theirs)
    ensures ParseDelta(ours.fields, ours.fields["msg"].fields, NoLegPricing) ==
            ParseDelta(theirs.fields, theirs.fields["msg"].fields, YesLegPricing)
  {
    var a, b := ours.fields["msg"].fields, theirs.fields["msg"].fields;
    assert StringField(a, "side").Failure? ==> StringField(a, "side") == StringField(b, "side");
  }

  lemma DeltasAgree(ours: Json, theirs: Json)
    requires MirroredDelta(ours, theirs)
    ensures ParseDocument(ours, NoLegPricing) == ParseDocument(theirs, YesLegPricing)
  {
    DeltaBodiesAgree(ours, theirs);
    ReadAs(ours, "orderbook_delta", NoLegPricing);
    ReadAs(theirs, "orderbook_delta", YesLegPricing);
  }

  lemma ReadAs(document: Json, kind: string, convention: PriceConvention)
    requires HasBody(document) && StringField(document.fields, "type") == Success(kind)
    ensures var body := document.fields["msg"].fields;
      && (kind == "orderbook_delta" ==> ParseDocument(document, convention) == ParseDelta(document.fields, body, convention))
      && (kind == "orderbook_snapshot" ==> ParseDocument(document, convention) == ParseSnapshot(document.fields, body, convention))
  {}

  /** Mirrored messages normalize to one event. */
  lemma MirroredMessagesAgree(ours: Json, theirs: Json)
    requires Mirrored(ours, theirs)
    ensures ParseDocument(ours, NoLegPricing) == ParseDocument(theirs, YesLegPricing)
  {
    if MirroredSnapshot(ours, theirs) {
      SnapshotsAgree(ours, theirs);
    } else if MirroredDelta(ours, theirs) {
      DeltasAgree(ours, theirs);
    }
  }

  /**
   The other way to see it: documents that say one message of the venue, each under its own convention
   and in its own spelling, are heard as one event, if each price occurs once and the times of sending are equal.
   */
  lemma OneMessageOneEvent(x: Fields, cx: PriceConvention, y: Fields, cy: PriceConvention, message: Input)
    requires Says(x, message, cx) && Says(y, message, cy)
    requires message.ReceiveSnapshot? ==> OnePerPrice(message.s.bids) && OnePerPrice(message.s.asks)
    requires message.ReceiveDelta? ==> ExchangeTime(x["msg"].fields) == ExchangeTime(y["msg"].fields)
    ensures ParseDocument(Object(x), cx) == ParseDocument(Object(y), cy) && ParseDocument(Object(x), cx).Success?
  {
    match message
    case ReceiveSnapshot(s) =>
      SnapshotSaidSorted(x, s, cx);
      SnapshotSaidSorted(y, s, cy);
    case ReceiveDelta(d) =>
      DeltaSaidTimed(x, d, cx);
      DeltaSaidTimed(y, d, cy);
  }

  lemma SnapshotSaidSorted(root: Fields, s: BookSnapshot, convention: PriceConvention)
    requires SaysSnapshot(root, s, convention) && OnePerPrice(s.bids) && OnePerPrice(s.asks)
    ensures ParseDocument(Object(root), convention) == Success(SnapshotEvent(SortedSnapshot(s, s.bids, s.asks)))
  {
    var bids, asks :| SaysSides(root, bids, asks, convention) && multiset(bids) == multiset(s.bids) && multiset(asks) == multiset(s.asks);
    RearrangedSort(bids, s.bids);
    RearrangedSort(asks, s.asks);
    SnapshotSaid(root, SortedSnapshot(s, bids, asks), bids, asks, convention);
  }

  /** The observations a stream of messages, each with its arrival time, gives a session. */
  function Normalized(messages: seq<(Json, int)>, convention: PriceConvention): seq<Observation> {
    if messages == [] then []
    else
      var n := |messages| - 1;
      Normalized(messages[..n], convention)
      + match ParseDocument(messages[n].0, convention)
        case Success(event) => [Observed(event, messages[n].1)]
        case Failure(_) => []
  }

  /** Both conventions give the same events, hence the same book, counters and clock after every message. */
  lemma {:induction false} ConventionsAgree(market: Market, ours: seq<(Json, int)>, theirs: seq<(Json, int)>)
    requires |ours| == |theirs|
    requires forall i :: 0 <= i < |ours| ==> Mirrored(ours[i].0, theirs[i].0) && ours[i].1 == theirs[i].1
    ensures Normalized(ours, NoLegPricing) == Normalized(theirs, YesLegPricing)
    ensures Session(market, Normalized(ours, NoLegPricing)) == Session(market, Normalized(theirs, YesLegPricing))
  {
    if ours != [] {
      var n := |ours| - 1;
      ConventionsAgree(market, ours[..n], theirs[..n]);
      MirroredMessagesAgree(ours[n].0, theirs[n].0);
    }
  }
}
