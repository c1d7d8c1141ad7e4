/** What the state digest can tell apart, and what depth adds up to. */
module BookDigest {
  import opened Arithmetic
  import opened Book
  import opened Digest
  import opened Events
  import opened Prices
  import opened Sequences
  import opened Wrappers

  // ---- the byte stream, level by level ----

  lemma {:induction false} SideStreamLength(keys: seq<int>, levels: Levels)
    requires forall k :: k in keys ==> k in levels
    ensures |SideStream(keys, levels)| == 16 * |keys|
  {
    if keys != [] {
      SideStreamLength(keys[..|keys| - 1], levels);
    }
  }

  /** Level i occupies bytes 16 i to 16 i + 15. */
  lemma {:induction false} SideStreamAt(keys: seq<int>, levels: Levels, i: nat)
    requires i < |keys|
    requires forall k :: k in keys ==> k in levels
    ensures |SideStream(keys, levels)| == 16 * |keys|
    ensures SideStream(keys, levels)[16 * i..16 * i + 16] == LevelBytes(keys[i], levels[keys[i]])
  {
    var n := |keys| - 1;
    var head := SideStream(keys[..n], levels);
    SideStreamLength(keys[..n], levels);
    var all := SideStream(keys, levels);
    assert all == head + LevelBytes(keys[n], levels[keys[n]]);
    if i < n {
      SideStreamAt(keys[..n], levels, i);
      assert all[16 * i..16 * i + 16] == head[16 * i..16 * i + 16];
    }
  }

  lemma WordId(x: int)
    requires 0 <= x < TWO64
    ensures Word(x) == x
  {}

  lemma LevelBytesInjective(p1: int, s1: int, p2: int, s2: int)
    requires 0 <= p1 < TWO64 && 0 <= s1 < TWO64 && 0 <= p2 < TWO64 && 0 <= s2 < TWO64
    requires LevelBytes(p1, s1) == LevelBytes(p2, s2)
    ensures p1 == p2 && s1 == s2
  {
    Halves(LittleEndian(Word(p1), 8), LittleEndian(Word(s1), 8), LittleEndian(Word(p2), 8), LittleEndian(Word(s2), 8));
    WordInjective(Word(p1), Word(p2));
    WordInjective(Word(s1), Word(s2));
    WordId(p1);
    WordId(p2);
    WordId(s1);
    WordId(s2);
  }

  /** Equal streams of equally many levels list the same levels. */
  lemma SideStreamInjective(keys1: seq<int>, levels1: Levels, keys2: seq<int>, levels2: Levels)
    requires |keys1| == |keys2|
    requires forall k :: k in keys1 ==> k in levels1 && IsValidYesPrice(k) && levels1[k] > 0
    requires forall k :: k in keys2 ==> k in levels2 && IsValidYesPrice(k) && levels2[k] > 0
    requires SideStream(keys1, levels1) == SideStream(keys2, levels2)
    ensures keys1 == keys2 && forall k :: k in keys1 ==> levels1[k] == levels2[k]
  {
    forall i | 0 <= i < |keys1| ensures keys1[i] == keys2[i] && levels1[keys1[i]] == levels2[keys2[i]] {
      assert keys1[i] in keys1 && keys2[i] in keys2;
      SideStreamAt(keys1, levels1, i);
      SideStreamAt(keys2, levels2, i);
      LevelBytesInjective(keys1[i], levels1[keys1[i]], keys2[i], levels2[keys2[i]]);
    }
  }

  lemma SplitStreams(f1: Byte, q1: seq<Byte>, r1: seq<Byte>, f2: Byte, q2: seq<Byte>, r2: seq<Byte>)
    requires |q1| == |q2| == 8
    requires [f1] + q1 + [BID_MARKER] + r1 == [f2] + q2 + [BID_MARKER] + r2
    ensures f1 == f2 && q1 == q2 && r1 == r2
  {
    var s1, s2 := [f1] + q1 + [BID_MARKER] + r1, [f2] + q2 + [BID_MARKER] + r2;
    assert s1[0] == f1 && s2[0] == f2;
    assert q1 == s1[1..9] && q2 == s2[1..9];
    assert r1 == s1[10..] && r2 == s2[10..];
  }

  lemma StreamShape(b: BookState)
    ensures StateStream(b) ==
      [Flag(b)] + LittleEndian(SequenceWord(b), 8) + [BID_MARKER] + (BidStream(b) + [ASK_MARKER] + AskStream(b))
  {
    Group([Flag(b)] + LittleEndian(SequenceWord(b), 8) + [BID_MARKER], BidStream(b), [ASK_MARKER], AskStream(b));
  }

  lemma Group(front: seq<Byte>, x: seq<Byte>, y: seq<Byte>, z: seq<Byte>)
    ensures front + x + y + z == front + (x + y + z)
  {
  }

  // ---- the digest of the stream ----

  /** Two books of one market whose streams have one length and differ in a single byte have different hashes. */
  lemma SingleByteDifferenceDetected(ticker: string, b1: BookState, b2: BookState, i: nat)
    requires |StateStream(b1)| == |StateStream(b2)| && i < |StateStream(b1)|
    requires StateStream(b1)[i] != StateStream(b2)[i]
    requires forall k :: 0 <= k < |StateStream(b1)| && k != i ==> StateStream(b1)[k] == StateStream(b2)[k]
    ensures StateHash(ticker, b1) != StateHash(ticker, b2)
  {
    var t := TickerBytes(ticker);
    HashBytesConcat(FNV_OFFSET_BASIS, t, StateStream(b1));
    HashBytesConcat(FNV_OFFSET_BASIS, t, StateStream(b2));
    OneByteDetected(HashBytes(FNV_OFFSET_BASIS, t), StateStream(b1), StateStream(b2), i);
  }

  /** In particular one missed message that left the levels alone shows, unless the low byte carried. */
  lemma MissedSequenceDetected(ticker: string, b: BookState)
    requires b.lastSequence.Some? && b.lastSequence.value % 256 != 255
    ensures StateHash(ticker, b) != StateHash(ticker, b.(lastSequence := Some(b.lastSequence.value + 1)))
  {
    var n := b.lastSequence.value;
    var next := b.(lastSequence := Some(n + 1));
    var rest := LittleEndian(n / 256, 7);
    LowByte(n, 8);
    LowByteOfNext(n, 8);
    StreamLow(b, n % 256, rest);
    StreamLow(next, n % 256 + 1, rest);
    OneApart(ticker, b, next, Flag(b), n % 256, rest + [BID_MARKER] + (BidStream(b) + [ASK_MARKER] + AskStream(b)));
  }

  lemma StreamLow(b: BookState, low: Byte, rest: seq<Byte>)
    requires LittleEndian(SequenceWord(b), 8) == [low] + rest
    ensures StateStream(b) == [Flag(b), low] + (rest + [BID_MARKER] + (BidStream(b) + [ASK_MARKER] + AskStream(b)))
  {
    StreamShape(b);
    SecondByte(Flag(b), low, rest, BidStream(b) + [ASK_MARKER] + AskStream(b));
  }

  lemma OneApart(ticker: string, b: BookState, next: BookState, flag: Byte, low: Byte, tail: seq<Byte>)
    requires low < 255
    requires StateStream(b) == [flag, low] + tail && StateStream(next) == [flag, low + 1] + tail
    ensures StateHash(ticker, b) != StateHash(ticker, next)
  {
    SingleByteDifferenceDetected(ticker, b, next, 1);
  }

  lemma SecondByte(flag: Byte, low: Byte, rest: seq<Byte>, tail: seq<Byte>)
    ensures [flag] + ([low] + rest) + [BID_MARKER] + tail == [flag, low] + (rest + [BID_MARKER] + tail)
  {}

  // ---- depth ----

  /** The first n keys are the n best: every other key is worse than each of them. */
  lemma BestKeysFirst(b: BookState, side: BookSide, i: nat, j: nat)
    requires i < j < |BestKeys(b, side)|
    ensures if side.Bid? then BestKeys(b, side)[i] > BestKeys(b, side)[j] else BestKeys(b, side)[i] < BestKeys(b, side)[j]
    ensures multiset(BestKeys(b, side)) == multiset(b.Side(side).Keys)
  {
    var keys := BestKeys(b, side);
    KeysOnce(keys, b.Side(side).Keys);
  }

  lemma {:induction false} KeysOnce(keys: seq<int>, all: set<int>)
    requires forall k :: k in keys <==> k in all
    requires forall i, j :: 0 <= i < j < |keys| ==> keys[i] != keys[j]
    ensures multiset(keys) == multiset(all)
  {
    if keys == [] {
      assert forall k :: k !in all;
    } else {
      assert keys[0] !in keys[1..];
      assert forall k :: k in keys ==> k == keys[0] || k in keys[1..];
      KeysOnce(keys[1..], all - {keys[0]});
      assert keys == [keys[0]] + keys[1..];
    }
  }

  lemma SizesBetween(b: BookState, side: BookSide, high: int)
    requires forall p :: p in b.Side(side) ==> 0 < b.Side(side)[p] <= high
    ensures forall i :: 0 <= i < |BestSizes(b, side)| ==> 0 <= BestSizes(b, side)[i] <= high
  {
    var keys, sizes := BestKeys(b, side), BestSizes(b, side);
    forall i | 0 <= i < |sizes| ensures 0 <= sizes[i] <= high {
      assert keys[i] in b.Side(side);
    }
  }

  lemma SoundSizes(market: Market, b: BookState, side: BookSide)
    requires Sound(market, b)
    ensures forall p :: p in b.Side(side) ==> 0 < b.Side(side)[p] <= INT64_MAX
  {}

  lemma ExactOfSide(b: BookState, side: BookSide, n: nat)
    requires forall p :: p in b.Side(side) ==> 0 < b.Side(side)[p] <= INT64_MAX
    ensures var sizes := Best(n, BestSizes(b, side));
      Wrapped(sizes) == Sum(sizes) <==> Sum(sizes) <= INT64_MAX
  {
    SizesBetween(b, side, INT64_MAX);
    WrappedIff(BestSizes(b, side), n);
  }

  /** Depth is the exact total just when that total is a 64-bit size. */
  lemma DepthExactIff(market: Market, b: BookState, side: BookSide, n: nat)
    requires Sound(market, b)
    ensures Wrapped(Best(n, BestSizes(b, side))) == Sum(Best(n, BestSizes(b, side)))
            <==> Sum(Best(n, BestSizes(b, side))) <= INT64_MAX
  {
    SoundSizes(market, b, side);
    ExactOfSide(b, side, n);
  }

  lemma WrappedIff(all: seq<int>, n: nat)
    requires forall i :: 0 <= i < |all| ==> 0 <= all[i] <= INT64_MAX
    ensures var sizes := Best(n, all);
      Wrapped(sizes) == Sum(sizes) <==> Sum(sizes) <= INT64_MAX
  {
    SumNonNegative(Best(n, all));
  }

  const LEVEL_CAP: int := INT64_MAX / (UNITS_PER_DOLLAR + 1)

  lemma SideOnGrid(market: Market, b: BookState, side: BookSide)
    requires Sound(market, b) && ValidGrid(market.grid)
    ensures |b.Side(side).Keys| <= TickTotal(market.grid) <= UNITS_PER_DOLLAR + 1
  {
    forall p | p in b.Side(side).Keys ensures IsOnPriceGrid(p, market.grid) {
      assert p in b.Side(side);
    }
    GridBound(market.grid, b.Side(side).Keys);
  }

  /** On a validated grid with bounded levels, depth never overflows and grows with the number of levels asked for. */
  lemma DepthOnGrid(market: Market, b: BookState, side: BookSide, n: nat, m: nat)
    requires Sound(market, b) && ValidGrid(market.grid) && n <= m
    requires forall p :: p in b.Side(side) ==> b.Side(side)[p] <= LEVEL_CAP
    ensures |b.Side(side).Keys| <= TickTotal(market.grid) <= UNITS_PER_DOLLAR + 1
    ensures Wrapped(Best(n, BestSizes(b, side))) == Sum(Best(n, BestSizes(b, side)))
    ensures 0 <= Wrapped(Best(n, BestSizes(b, side))) <= Wrapped(Best(m, BestSizes(b, side)))
  {
    SideOnGrid(market, b, side);
    SoundSizes(market, b, side);
    DepthOfSide(b, side, n, m);
  }

  lemma DepthOfSide(b: BookState, side: BookSide, n: nat, m: nat)
    requires n <= m && |b.Side(side).Keys| <= UNITS_PER_DOLLAR + 1
    requires forall p :: p in b.Side(side) ==> 0 < b.Side(side)[p] <= LEVEL_CAP
    ensures Wrapped(Best(n, BestSizes(b, side))) == Sum(Best(n, BestSizes(b, side)))
    ensures 0 <= Wrapped(Best(n, BestSizes(b, side))) <= Wrapped(Best(m, BestSizes(b, side)))
  {
    SizesBetween(b, side, LEVEL_CAP);
    PrefixTotals(BestSizes(b, side), n, m);
    WrappedExact(Best(n, BestSizes(b, side)));
    WrappedExact(Best(m, BestSizes(b, side)));
  }

  lemma WrappedExact(sizes: seq<int>)
    requires 0 <= Sum(sizes) <= INT64_MAX
    ensures Wrapped(sizes) == Sum(sizes)
  {}

  lemma CapTimes(n: nat)
    requires n <= UNITS_PER_DOLLAR + 1
    ensures n * LEVEL_CAP <= INT64_MAX
  {
    MulMonotone(n, UNITS_PER_DOLLAR + 1, LEVEL_CAP);
  }

  lemma TotalFits(sizes: seq<int>)
    requires |sizes| <= UNITS_PER_DOLLAR + 1
    requires forall i :: 0 <= i < |sizes| ==> 0 <= sizes[i] <= LEVEL_CAP
    ensures 0 <= Sum(sizes) <= INT64_MAX
  {
    SumNonNegative(sizes);
    SumAtMost(sizes, LEVEL_CAP);
    CapTimes(|sizes|);
  }

  lemma PrefixBelow(less: seq<int>, extra: seq<int>)
    requires forall i :: 0 <= i < |extra| ==> extra[i] >= 0
    ensures Sum(less) <= Sum(less + extra)
  {
    SumConcat(less, extra);
    SumNonNegative(extra);
  }

  lemma PrefixTotals(sizes: seq<int>, n: nat, m: nat)
    requires n <= m && |sizes| <= UNITS_PER_DOLLAR + 1
    requires forall i :: 0 <= i < |sizes| ==> 0 <= sizes[i] <= LEVEL_CAP
    ensures 0 <= Sum(Best(n, sizes)) <= Sum(Best(m, sizes)) <= INT64_MAX
  {
    var less, more := Best(n, sizes), Best(m, sizes);
    assert more == less + more[|less|..];
    PrefixBelow(less, more[|less|..]);
    TotalFits(less);
    TotalFits(more);
  }

  // ---- an overflow ----

  const HUGE: Int64 := 0x4000_0000_0000_0000

  lemma OneEntry(level: BookLevel)
    requires level.quantity > 0 && IsValidYesPrice(level.price)
    ensures LevelsOf([level]) == map[level.price := level.quantity] && FirstProblem([], [level]).None?
  {
    assert [level][..0] == [] && [level][1..] == [];
  }

  lemma TwoEntries(a: BookLevel, b: BookLevel)
    requires a.quantity > 0 && b.quantity > 0 && IsValidYesPrice(a.price) && IsValidYesPrice(b.price)
    ensures LevelsOf([a, b]) == map[a.price := a.quantity][b.price := b.quantity] && FirstProblem([], [a, b] + []).None?
  {
    OneEntry(a);
    OneEntry(b);
    FirstProblemConcat([], [a], [b]);
    assert [a] + [b] == [a, b] == [a, b] + [];
    assert [a, b][..1] == [a];
  }

  lemma LikeSizes(keys: seq<int>, levels: Levels, size: Int64)
    requires |keys| == 2 && keys[0] in levels && keys[1] in levels && levels[keys[0]] == levels[keys[1]] == size
    ensures SizesAt(keys, levels) == [size, size]
  {}

  lemma TwoLikeSizes(b: BookState, p: int, q: int, size: Int64)
    requires p != q && b.bids.Keys == {p, q} && b.bids[p] == b.bids[q] == size
    ensures BestSizes(b, Bid) == [size, size]
  {
    var keys := BestKeys(b, Bid);
    assert |{p, q}| == 2;
    assert keys[0] in b.bids.Keys && keys[1] in b.bids.Keys;
    LikeSizes(keys, b.bids, size);
  }

  lemma TwoHugeSum(sizes: seq<Int64>)
    requires sizes == [HUGE, HUGE]
    ensures Sum(Best(2, sizes)) == INT64_MAX + 1 && Wrapped(Best(2, sizes)) == INT64_MIN
  {
    SumConcat([HUGE], [HUGE]);
    assert [HUGE][..0] == [] && [HUGE] + [HUGE] == sizes;
    assert Best(2, sizes) == sizes;
  }

  function HugeBook(n: Uint64, sid: Int64, p: int, q: int): BookState {
    BookState(Live, map[p := HUGE][q := HUGE], map[], Some(n), Some(sid))
  }

  function HugeSnapshot(n: Uint64, sid: Int64, p: int, q: int): BookSnapshot {
    BookSnapshot("M", sid, n, [BookLevel(p, HUGE), BookLevel(q, HUGE)], [])
  }

  lemma HugeAccepted(n: Uint64, sid: Int64, p: int, q: int)
    requires IsValidYesPrice(p) && IsValidYesPrice(q)
    ensures SnapshotStep(Market("M", []), EMPTY_BOOK, HugeSnapshot(n, sid, p, q)) == (HugeBook(n, sid, p, q), None)
  {
    TwoEntries(BookLevel(p, HUGE), BookLevel(q, HUGE));
  }

  /** Any two levels of 2^62 units are a book whose depth leaves the 64-bit range. */
  lemma DepthOverflows(n: Uint64, sid: Int64, p: int, q: int)
    requires p != q && IsValidYesPrice(p) && IsValidYesPrice(q)
    ensures var (b, rejection) := SnapshotStep(Market("M", []), EMPTY_BOOK, HugeSnapshot(n, sid, p, q));
      && rejection.None? && Sum(Best(2, BestSizes(b, Bid))) == INT64_MAX + 1
      && Wrapped(Best(2, BestSizes(b, Bid))) == INT64_MIN
  {
    HugeAccepted(n, sid, p, q);
    assert HugeBook(n, sid, p, q).bids.Keys == {p, q};
    TwoLikeSizes(HugeBook(n, sid, p, q), p, q, HUGE);
    TwoHugeSum(BestSizes(HugeBook(n, sid, p, q), Bid));
  }

  // ---- the ticker ----

  /** Books alike but for one character of the ticker have different hashes. */
  lemma TickerDetected(t1: string, t2: string, i: nat, b: BookState)
    requires |t1| == |t2| && i < |t1| && t1[i] as int % 256 != t2[i] as int % 256
    requires forall k :: 0 <= k < |t1| && k != i ==> t1[k] == t2[k]
    ensures StateHash(t1, b) != StateHash(t2, b)
  {
    HashBytesConcat(FNV_OFFSET_BASIS, TickerBytes(t1), StateStream(b));
    HashBytesConcat(FNV_OFFSET_BASIS, TickerBytes(t2), StateStream(b));
    OneByteDetected(FNV_OFFSET_BASIS, TickerBytes(t1), TickerBytes(t2), i);
    if StateHash(t1, b) == StateHash(t2, b) {
      HashBytesInjective(HashBytes(FNV_OFFSET_BASIS, TickerBytes(t1)), HashBytes(FNV_OFFSET_BASIS, TickerBytes(t2)), StateStream(b));
    }
  }
}
