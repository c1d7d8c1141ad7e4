/**
 The order book. `BookState` is the value an OrderBook holds; `SnapshotStep` and
 `DeltaStep` say what one message does to it; the class does it in place.
 */
module Book {
  import opened Arithmetic
  import opened Digest
  import opened Events
  import opened Prices
  import opened Sequences
  import opened Sorting
  import opened Wrappers

  datatype BookStatus = AwaitingSnapshot | Live

  datatype BookRejection =
    | WrongMarket
    | SubscriptionMismatch
    | DeltaBeforeSnapshot
    | SequenceGap
    | SequenceRegressed
    | PriceOutOfBounds
    | PriceOffGrid
    | NegativeSnapshotLevel
    | QuantityWouldGoNegative
    | QuantityOverflow

  predicate InvalidatesBook(rejection: BookRejection) {
    !rejection.WrongMarket? && !rejection.DeltaBeforeSnapshot?
  }

  datatype QuantityDeltaError = WouldGoNegative | Overflow

  /** Exact sum, or the reason it is not a size. */
  function ApplyQuantityDelta(quantity: Int64, delta: Int64): (r: Result<Int64, QuantityDeltaError>)
    requires quantity >= 0
    ensures r.Success? <==> 0 <= quantity + delta <= INT64_MAX
    ensures r.Success? ==> r.value == quantity + delta
    ensures r == Failure(WouldGoNegative) <==> quantity + delta < 0
  {
    if delta < 0 then
      if quantity + delta < 0 then Failure(WouldGoNegative) else Success(quantity + delta)
    else if quantity > INT64_MAX - delta then Failure(Overflow)
    else Success(quantity + delta)
  }

  type Levels = map<int, Int64>

  datatype Market = Market(ticker: string, grid: seq<PriceRange>)

  datatype BookState = BookState(status: BookStatus, bids: Levels, asks: Levels,
                                 lastSequence: Option<Uint64>, subscription: Option<Int64>)
  {
    predicate IsValid() {
      status.Live?
    }

    function Side(side: BookSide): Levels {
      if side.Bid? then bids else asks
    }

    /** Size resting at a price; an absent level holds nothing. */
    function Level(side: BookSide, price: int): Int64 {
      if price in Side(side) then Side(side)[price] else 0
    }
  }

  const EMPTY_BOOK := BookState(AwaitingSnapshot, map[], map[], None, None)

  predicate PriceAllowed(grid: seq<PriceRange>, price: int) {
    IsValidYesPrice(price) && (grid == [] || IsOnPriceGrid(price, grid))
  }

  ghost predicate LevelsSound(grid: seq<PriceRange>, levels: Levels) {
    forall p :: p in levels ==> levels[p] > 0 && PriceAllowed(grid, p)
  }

  /** What every reachable book satisfies. */
  ghost predicate Sound(market: Market, b: BookState) {
    if b.IsValid() then
      && b.lastSequence.Some? && b.subscription.Some?
      && LevelsSound(market.grid, b.bids) && LevelsSound(market.grid, b.asks)
    else b == EMPTY_BOOK
  }

  // ---- one message ----

  function ValidatePrice(grid: seq<PriceRange>, price: int): (r: Option<BookRejection>)
    ensures r.None? <==> PriceAllowed(grid, price)
  {
    if !IsValidYesPrice(price) then Some(PriceOutOfBounds)
    else if grid != [] && !IsOnPriceGrid(price, grid) then Some(PriceOffGrid)
    else None
  }

  function LevelProblem(grid: seq<PriceRange>, level: BookLevel): Option<BookRejection> {
    if ValidatePrice(grid, level.price).Some? then ValidatePrice(grid, level.price)
    else if level.quantity < 0 then Some(NegativeSnapshotLevel)
    else None
  }

  function FirstProblem(grid: seq<PriceRange>, levels: seq<BookLevel>): Option<BookRejection> {
    if levels == [] then None
    else if LevelProblem(grid, levels[0]).Some? then LevelProblem(grid, levels[0])
    else FirstProblem(grid, levels[1..])
  }

  lemma {:induction false} FirstProblemConcat(grid: seq<PriceRange>, a: seq<BookLevel>, b: seq<BookLevel>)
    ensures FirstProblem(grid, a + b) == if FirstProblem(grid, a).Some? then FirstProblem(grid, a) else FirstProblem(grid, b)
  {
    if a == [] {
      assert a + b == b;
    } else {
      assert (a + b)[1..] == a[1..] + b;
      FirstProblemConcat(grid, a[1..], b);
    }
  }

  /** Entries in order, later ones overwriting; entries without size are skipped. */
  function LevelsOf(levels: seq<BookLevel>): Levels {
    if levels == [] then map[]
    else
      var last := levels[|levels| - 1];
      var rest := LevelsOf(levels[..|levels| - 1]);
      if last.quantity > 0 then rest[last.price := last.quantity] else rest
  }

  function SnapshotStep(market: Market, b: BookState, s: BookSnapshot): (BookState, Option<BookRejection>) {
    if s.ticker != market.ticker then (b, Some(WrongMarket))
    else
      var problem := FirstProblem(market.grid, s.bids + s.asks);
      if problem.Some? then (EMPTY_BOOK, problem)
      else (BookState(Live, LevelsOf(s.bids), LevelsOf(s.asks), Some(s.sequence), Some(s.subscription)), None)
  }

  /** The successor of a sequence number is taken in unsigned 64-bit arithmetic. */
  function NextSequence(n: Uint64): Uint64 {
    (n + 1) % TWO64
  }

  function WithLevel(levels: Levels, price: int, size: Int64): Levels {
    if size == 0 then levels - {price} else levels[price := size]
  }

  function DeltaStep(market: Market, b: BookState, d: BookDelta): (BookState, Option<BookRejection>)
    requires Sound(market, b)
  {
    if d.ticker != market.ticker then (b, Some(WrongMarket))
    else if !b.IsValid() then (b, Some(DeltaBeforeSnapshot))
    else if d.subscription != b.subscription.value then (EMPTY_BOOK, Some(SubscriptionMismatch))
    else
      var expected := NextSequence(b.lastSequence.value);
      if d.sequence > expected then (EMPTY_BOOK, Some(SequenceGap))
      else if d.sequence < expected then (EMPTY_BOOK, Some(SequenceRegressed))
      else if ValidatePrice(market.grid, d.price).Some? then (EMPTY_BOOK, ValidatePrice(market.grid, d.price))
      else match ApplyQuantityDelta(b.Level(d.side, d.price), d.delta)
        case Failure(WouldGoNegative) => (EMPTY_BOOK, Some(QuantityWouldGoNegative))
        case Failure(Overflow) => (EMPTY_BOOK, Some(QuantityOverflow))
        case Success(size) =>
          var after := b.(lastSequence := Some(d.sequence));
          (if d.side.Bid? then after.(bids := WithLevel(b.bids, d.price, size))
           else after.(asks := WithLevel(b.asks, d.price, size)), None)
  }

  // ---- what one message keeps ----

  /** The last entry at `price` that carries size; the source's rule for repeated prices. */
  ghost predicate IsLastPositive(levels: seq<BookLevel>, price: int, size: Int64) {
    if exists i :: 0 <= i < |levels| && levels[i].price == price && levels[i].quantity > 0 then
      exists i ::
        && 0 <= i < |levels| && levels[i] == BookLevel(price, size) && size > 0
        && forall j :: i < j < |levels| && levels[j].price == price ==> levels[j].quantity <= 0
    else size == 0
  }

  function SizeIn(levels: Levels, price: int): Int64 {
    if price in levels then levels[price] else 0
  }

  lemma {:induction false} LevelsOfLastPositive(levels: seq<BookLevel>, price: int)
    ensures IsLastPositive(levels, price, SizeIn(LevelsOf(levels), price))
  {
    if levels != [] {
      var n := |levels| - 1;
      var rest := levels[..n];
      LevelsOfLastPositive(rest, price);
      var size := SizeIn(LevelsOf(levels), price);
      if levels[n].price == price && levels[n].quantity > 0 {
        assert levels[n] == BookLevel(price, size);
      } else if i :| 0 <= i < n && rest[i].price == price && rest[i].quantity > 0 {
        assert levels[i].price == price && levels[i].quantity > 0;
        var k :| && 0 <= k < n && rest[k] == BookLevel(price, size) && size > 0
                 && forall j :: k < j < n && rest[j].price == price ==> rest[j].quantity <= 0;
        assert levels[k] == BookLevel(price, size);
        assert forall j :: k < j < |levels| && levels[j].price == price ==> levels[j].quantity <= 0 by {
          forall j | k < j < |levels| && levels[j].price == price ensures levels[j].quantity <= 0 {
            assert j == n || rest[j] == levels[j];
          }
        }
      } else {
        assert forall i :: 0 <= i < n ==> levels[i] == rest[i];
      }
    }
  }

  lemma {:induction false} LevelsOfSound(grid: seq<PriceRange>, levels: seq<BookLevel>)
    requires forall i :: 0 <= i < |levels| ==> LevelProblem(grid, levels[i]).None?
    ensures LevelsSound(grid, LevelsOf(levels))
  {
    if levels != [] {
      LevelsOfSound(grid, levels[..|levels| - 1]);
      assert LevelProblem(grid, levels[|levels| - 1]).None?;
    }
  }

  lemma {:induction false} NoProblem(grid: seq<PriceRange>, levels: seq<BookLevel>)
    requires FirstProblem(grid, levels).None?
    ensures forall i :: 0 <= i < |levels| ==> LevelProblem(grid, levels[i]).None?
  {
    if levels != [] {
      NoProblem(grid, levels[1..]);
      forall i | 0 <= i < |levels| ensures LevelProblem(grid, levels[i]).None? {
        assert i == 0 || levels[i] == levels[1..][i - 1];
      }
    }
  }

  /** A snapshot is all or nothing, and keeps the book sound. */
  lemma SnapshotKeeps(market: Market, b: BookState, s: BookSnapshot)
    requires Sound(market, b)
    ensures var (after, rejection) := SnapshotStep(market, b, s);
      && Sound(market, after)
      && (rejection.Some? ==> after == if InvalidatesBook(rejection.value) then EMPTY_BOOK else b)
      && (rejection.None? ==> after.IsValid())
  {
    var all := s.bids + s.asks;
    if FirstProblem(market.grid, all).None? {
      NoProblem(market.grid, all);
      forall i | 0 <= i < |s.bids| ensures LevelProblem(market.grid, s.bids[i]).None? {
        assert all[i] == s.bids[i];
      }
      forall i | 0 <= i < |s.asks| ensures LevelProblem(market.grid, s.asks[i]).None? {
        assert all[|s.bids| + i] == s.asks[i];
      }
      LevelsOfSound(market.grid, s.bids);
      LevelsOfSound(market.grid, s.asks);
    } else {
      ProblemKind(market.grid, all);
    }
  }

  lemma {:induction false} ProblemKind(grid: seq<PriceRange>, levels: seq<BookLevel>)
    requires FirstProblem(grid, levels).Some?
    ensures FirstProblem(grid, levels).value in {PriceOutOfBounds, PriceOffGrid, NegativeSnapshotLevel}
  {
    if LevelProblem(grid, levels[0]).None? {
      ProblemKind(grid, levels[1..]);
    }
  }

  lemma WithLevelKeeps(grid: seq<PriceRange>, levels: Levels, price: int, size: Int64)
    requires LevelsSound(grid, levels) && PriceAllowed(grid, price) && size >= 0
    ensures LevelsSound(grid, WithLevel(levels, price, size))
    ensures forall p :: SizeIn(WithLevel(levels, price, size), p) == if p == price then size else SizeIn(levels, p)
  {}

  /** A delta moves exactly one level by exactly its amount, or empties the book, or changes nothing. */
  lemma DeltaKeeps(market: Market, b: BookState, d: BookDelta)
    requires Sound(market, b)
    ensures var (after, rejection) := DeltaStep(market, b, d);
      && Sound(market, after)
      && (rejection.Some? ==> after == if InvalidatesBook(rejection.value) then EMPTY_BOOK else b)
      && (rejection.None? ==>
            && b.IsValid() && after.IsValid()
            && d.ticker == market.ticker && after.subscription == b.subscription == Some(d.subscription)
            && after.lastSequence == Some(d.sequence) && d.sequence == NextSequence(b.lastSequence.value)
            && forall side, p :: after.Level(side, p) ==
                 b.Level(side, p) + if side == d.side && p == d.price then d.delta else 0)
  {
    var moved := ApplyQuantityDelta(b.Level(d.side, d.price), d.delta);
    if b.IsValid() && PriceAllowed(market.grid, d.price) && moved.Success? {
      WithLevelKeeps(market.grid, b.Side(d.side), d.price, moved.value);
    }
  }

  // ---- the object ----

  /** Prices of one side, best first: the order in which the map iterates. */
  function BestKeys(b: BookState, side: BookSide): (keys: seq<int>)
    ensures |keys| == |b.Side(side).Keys|
    ensures forall i :: 0 <= i < |keys| ==> keys[i] in b.Side(side)
    ensures forall k :: k in keys <==> k in b.Side(side)
  {
    if side.Bid? then Descending(b.bids.Keys) else Ascending(b.asks.Keys)
  }

  function SizesAt(keys: seq<int>, levels: Levels): (sizes: seq<Int64>)
    requires forall i :: 0 <= i < |keys| ==> keys[i] in levels
    ensures |sizes| == |keys|
    ensures forall i :: 0 <= i < |keys| ==> sizes[i] == levels[keys[i]]
  {
    if keys == [] then []
    else
      var n := |keys| - 1;
      SizesAt(keys[..n], levels) + [levels[keys[n]]]
  }

  function BestSizes(b: BookState, side: BookSide): seq<Int64> {
    SizesAt(BestKeys(b, side), b.Side(side))
  }

  function Best(n: nat, sizes: seq<int>): seq<int> {
    if n < |sizes| then sizes[..n] else sizes
  }

  /** The total `depth` accumulates. Signed overflow is undefined in the source; here it wraps. */
  function Wrapped(sizes: seq<int>): Int64 {
    ToInt64(Sum(sizes))
  }

  ghost predicate Crossed(b: BookState) {
    b.IsValid() && exists p, q :: p in b.bids && q in b.asks && p >= q
  }

  /** Conversion of a signed unit count to std::uint64_t. */
  function Word(units: int): Uint64 {
    units % TWO64
  }

  function LevelBytes(price: int, size: int): (bytes: seq<Byte>)
    ensures |bytes| == 16
  {
    LittleEndian(Word(price), 8) + LittleEndian(Word(size), 8)
  }

  /** The bytes one side contributes to the digest, level by level. */
  function SideStream(keys: seq<int>, levels: Levels): seq<Byte>
    requires forall k :: k in keys ==> k in levels
  {
    if keys == [] then []
    else
      var n := |keys| - 1;
      SideStream(keys[..n], levels) + LevelBytes(keys[n], levels[keys[n]])
  }

  function TickerBytes(ticker: string): seq<Byte> {
    seq(|ticker|, i requires 0 <= i < |ticker| => (ticker[i] as int) % 256)
  }

  const BID_MARKER: Byte := 'B' as int
  const ASK_MARKER: Byte := 'A' as int

  /** The bytes state_hash feeds to the digest after the ticker. */
  function StateStream(b: BookState): seq<Byte> {
    [Flag(b)] + LittleEndian(SequenceWord(b), 8)
    + [BID_MARKER] + BidStream(b) + [ASK_MARKER] + AskStream(b)
  }

  function Flag(b: BookState): Byte {
    if b.IsValid() then 1 else 0
  }

  /** A missing sequence number is written as 0. */
  function SequenceWord(b: BookState): Uint64 {
    if b.lastSequence.Some? then b.lastSequence.value else 0
  }

  function BidStream(b: BookState): seq<Byte> {
    SideStream(Descending(b.bids.Keys), b.bids)
  }

  function AskStream(b: BookState): seq<Byte> {
    SideStream(Ascending(b.asks.Keys), b.asks)
  }

  function StateHash(ticker: string, b: BookState): Uint64 {
    HashBytes(FNV_OFFSET_BASIS, TickerBytes(ticker) + StateStream(b))
  }

  /** The validation pass over one side: the first unacceptable level decides. */
  method FindProblem(grid: seq<PriceRange>, levels: seq<BookLevel>) returns (problem: Option<BookRejection>)
    ensures problem == FirstProblem(grid, levels)
  {
    for i := 0 to |levels|
      invariant FirstProblem(grid, levels) == FirstProblem(grid, levels[i..])
    {
      problem := ValidatePrice(grid, levels[i].price);
      if problem.Some? {
        return;
      }
      if levels[i].quantity < 0 {
        return Some(NegativeSnapshotLevel);
      }
      assert levels[i..][1..] == levels[i + 1..];
    }
    return None;
  }

  /** The pass that fills one side. */
  method CollectLevels(levels: seq<BookLevel>) returns (side: Levels)
    ensures side == LevelsOf(levels)
  {
    side := map[];
    for i := 0 to |levels|
      invariant side == LevelsOf(levels[..i])
    {
      assert levels[..i + 1][..i] == levels[..i];
      if levels[i].quantity > 0 {
        side := side[levels[i].price := levels[i].quantity];
      }
    }
    assert levels[..|levels|] == levels;
  }

  /** The depth loop: at most `levels` sizes, best first. */
  method Accumulate(sizes: seq<Int64>, levels: nat) returns (total: Int64)
    ensures total == Wrapped(Best(levels, sizes))
  {
    total := 0;
    var counted := 0;
    while counted < |sizes|
      invariant counted <= |sizes| && counted <= levels
      invariant total == Wrapped(sizes[..counted])
    {
      if counted >= levels {
        break;
      }
      assert sizes[..counted + 1][..counted] == sizes[..counted];
      WrapStep(Sum(sizes[..counted]), sizes[counted]);
      total := ToInt64(total + sizes[counted]);
      counted := counted + 1;
    }
    assert Best(levels, sizes) == sizes[..counted];
  }

  class OrderBook {
    const market: Market
    var status: BookStatus
    var bids: Levels
    var asks: Levels
    var lastSequence: Option<Uint64>
    var subscription: Option<Int64>

    function State(): BookState
      reads this
    {
      BookState(status, bids, asks, lastSequence, subscription)
    }

    ghost predicate Valid()
      reads this
    {
      Sound(market, State())
    }

    constructor (market: Market)
      ensures this.market == market && Valid() && State() == EMPTY_BOOK
    {
      this.market := market;
      status, bids, asks, lastSequence, subscription := AwaitingSnapshot, map[], map[], None, None;
    }

    method Invalidate()
      modifies this
      ensures State() == EMPTY_BOOK && Valid()
    {
      bids, asks := map[], map[];
      status := AwaitingSnapshot;
      lastSequence, subscription := None, None;
    }

    method ApplySnapshot(s: BookSnapshot) returns (rejection: Option<BookRejection>)
      requires Valid()
      modifies this
      ensures Valid() && (State(), rejection) == SnapshotStep(market, old(State()), s)
    {
      SnapshotKeeps(market, State(), s);
      if s.ticker != market.ticker {
        return Some(WrongMarket);
      }
      FirstProblemConcat(market.grid, s.bids, s.asks);
      rejection := FindProblem(market.grid, s.bids);
      if rejection.None? {
        rejection := FindProblem(market.grid, s.asks);
      }
      if rejection.Some? {
        Invalidate();
        return;
      }
      bids := CollectLevels(s.bids);
      asks := CollectLevels(s.asks);
      status := Live;
      lastSequence, subscription := Some(s.sequence), Some(s.subscription);
      return None;
    }

    method ApplyDelta(d: BookDelta) returns (rejection: Option<BookRejection>)
      requires Valid()
      modifies this
      ensures Valid() && (State(), rejection) == DeltaStep(market, old(State()), d)
    {
      DeltaKeeps(market, State(), d);
      if d.ticker != market.ticker {
        return Some(WrongMarket);
      }
      if status != Live {
        return Some(DeltaBeforeSnapshot);
      }
      if subscription.Some? && d.subscription != subscription.value {
        Invalidate();
        return Some(SubscriptionMismatch);
      }
      var expected := (lastSequence.value + 1) % TWO64;
      if d.sequence != expected {
        rejection := Some(if d.sequence > expected then SequenceGap else SequenceRegressed);
        Invalidate();
        return;
      }
      rejection := ValidatePrice(market.grid, d.price);
      if rejection.Some? {
        Invalidate();
        return;
      }
      var levels := if d.side.Bid? then bids else asks;
      var existing: Int64 := if d.price in levels then levels[d.price] else 0;
      var updated := ApplyQuantityDelta(existing, d.delta);
      if updated.Failure? {
        Invalidate();
        return Some(if updated.error.WouldGoNegative? then QuantityWouldGoNegative else QuantityOverflow);
      }
      if updated.value == 0 {
        levels := levels - {d.price};
      } else {
        levels := levels[d.price := updated.value];
      }
      if d.side.Bid? {
        bids := levels;
      } else {
        asks := levels;
      }
      lastSequence := Some(d.sequence);
      return None;
    }

    /** The highest bid of a valid book; nothing otherwise. */
    method BestBid() returns (best: Option<int>)
      ensures best.Some? <==> status.Live? && bids != map[]
      ensures best.Some? ==> best.value in bids && forall p :: p in bids ==> p <= best.value
    {
      if status != Live || |bids| == 0 {
        return None;
      }
      var keys := Descending(bids.Keys);
      assert forall p :: p in bids ==> p in keys;
      return Some(keys[0]);
    }

    /** The lowest ask of a valid book; nothing otherwise. */
    method BestAsk() returns (best: Option<int>)
      ensures best.Some? <==> status.Live? && asks != map[]
      ensures best.Some? ==> best.value in asks && forall p :: p in asks ==> best.value <= p
    {
      if status != Live || |asks| == 0 {
        return None;
      }
      var keys := Ascending(asks.Keys);
      assert forall p :: p in asks ==> p in keys;
      return Some(keys[0]);
    }

    method IsCrossed() returns (crossed: bool)
      ensures crossed <==> Crossed(State())
    {
      var bid := BestBid();
      var ask := BestAsk();
      crossed := bid.Some? && ask.Some? && bid.value >= ask.value;
    }

    /** Size resting on the best `levels` prices of one side of a valid book. */
    method Depth(side: BookSide, levels: nat) returns (total: Int64)
      ensures total == if status.Live? then Wrapped(Best(levels, BestSizes(State(), side))) else 0
    {
      if status != Live {
        return 0;
      }
      total := Accumulate(BestSizes(State(), side), levels);
    }

    method Hash() returns (digest: Uint64)
      ensures digest == StateHash(market.ticker, State())
    {
      var ticker := TickerBytes(market.ticker);
      digest := Feed(FNV_OFFSET_BASIS, ticker);
      var flag := [if status.Live? then 1 else 0];
      digest := Append(digest, ticker, flag);
      var sequence := LittleEndian(if lastSequence.Some? then lastSequence.value else 0, 8);
      digest := Append(digest, ticker + flag, sequence);
      digest := Append(digest, ticker + flag + sequence, [BID_MARKER]);
      ghost var front := ticker + flag + sequence + [BID_MARKER];
      digest := AppendSide(digest, front, Descending(bids.Keys), bids);
      front := front + SideStream(Descending(bids.Keys), bids);
      digest := Append(digest, front, [ASK_MARKER]);
      digest := AppendSide(digest, front + [ASK_MARKER], Ascending(asks.Keys), asks);
      Regroup(TickerBytes(market.ticker), flag, sequence, [BID_MARKER], SideStream(Descending(bids.Keys), bids),
              [ASK_MARKER], SideStream(Ascending(asks.Keys), asks));
    }
  }

  /** Hash further bytes into a digest that already stands for `stream`. */
  method Append(digest: Uint64, ghost stream: seq<Byte>, bytes: seq<Byte>) returns (next: Uint64)
    requires digest == HashBytes(FNV_OFFSET_BASIS, stream)
    ensures next == HashBytes(FNV_OFFSET_BASIS, stream + bytes)
  {
    next := Feed(digest, bytes);
    HashBytesConcat(FNV_OFFSET_BASIS, stream, bytes);
  }

  method AppendSide(digest: Uint64, ghost stream: seq<Byte>, keys: seq<int>, levels: Levels) returns (next: Uint64)
    requires forall k :: k in keys ==> k in levels
    requires digest == HashBytes(FNV_OFFSET_BASIS, stream)
    ensures next == HashBytes(FNV_OFFSET_BASIS, stream + SideStream(keys, levels))
  {
    next := FeedSide(digest, keys, levels);
    HashBytesConcat(FNV_OFFSET_BASIS, stream, SideStream(keys, levels));
  }

  method Feed(digest: Uint64, bytes: seq<Byte>) returns (next: Uint64)
    ensures next == HashBytes(digest, bytes)
  {
    next := digest;
    for i := 0 to |bytes|
      invariant next == HashBytes(digest, bytes[..i])
    {
      assert bytes[..i + 1][..i] == bytes[..i];
      next := HashByte(next, bytes[i]);
    }
    assert bytes[..|bytes|] == bytes;
  }

  method FeedSide(digest: Uint64, keys: seq<int>, levels: Levels) returns (next: Uint64)
    requires forall k :: k in keys ==> k in levels
    ensures next == HashBytes(digest, SideStream(keys, levels))
  {
    next := digest;
    for i := 0 to |keys|
      invariant next == HashBytes(digest, SideStream(keys[..i], levels))
    {
      assert keys[..i + 1][..i] == keys[..i];
      var head := SideStream(keys[..i], levels);
      var price, size := LittleEndian(Word(keys[i]), 8), LittleEndian(Word(levels[keys[i]]), 8);
      next := Feed(next, price);
      next := Feed(next, size);
      HashBytesConcat(digest, head, price);
      HashBytesConcat(digest, head + price, size);
      assert SideStream(keys[..i + 1], levels) == head + (price + size) == head + price + size;
    }
    assert keys[..|keys|] == keys;
  }

  lemma Regroup(t: seq<Byte>, a: seq<Byte>, b: seq<Byte>, c: seq<Byte>, d: seq<Byte>, e: seq<Byte>, f: seq<Byte>)
    ensures t + a + b + c + d + e + f == t + (a + b + c + d + e + f)
  {}
}
