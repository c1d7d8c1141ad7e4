/** Exactly when two books feed the same bytes to the state digest. */
module StreamCollisions {
  import opened Arithmetic
  import opened Book
  import opened BookDigest
  import opened Collections
  import opened Digest
  import opened Events
  import opened Prices
  import opened Sequences
  import opened Sorting
  import opened Wrappers

  const TOP_UNIT: int := 0x100_0000_0000_0000

  // ---- a level read one byte late ----

  lemma Pow256Of7()
    ensures Pow256(7) == TOP_UNIT
  {
    assert Pow256(7) == 256 * (256 * (256 * Pow256(4)));
    assert Pow256(4) == 256 * (256 * Pow256(2));
    assert Pow256(2) == 256 * (256 * Pow256(0));
  }

  /** Eight bytes after a byte t: seven of them, then whatever fills up. */
  lemma LateWord(t: Byte, x: nat)
    requires x < TOP_UNIT
    ensures LittleEndian(t + 256 * x, 8) == [t] + LittleEndian(x, 7)
  {
    LowByte(t + 256 * x, 8);
    assert (t + 256 * x) / 256 == x && (t + 256 * x) % 256 == t;
  }

  lemma LowSeven(x: nat)
    ensures LittleEndian(x, 8)[..7] == LittleEndian(x % TOP_UNIT, 7)
    ensures LittleEndian(x, 8)[7] == x / TOP_UNIT % 256
  {
    Pow256Of7();
    LittleEndianPrefix(x, 7);
    LittleEndianPeriod(x % TOP_UNIT, x / TOP_UNIT, 7);
    TopByte(x);
  }

  /** Price and size that a byte t and the first fifteen bytes of level (p, s) spell. */
  function LatePrice(t: Byte, p: int): int {
    t + 256 * p
  }

  function LateSize(s: int): int {
    256 * (s % TOP_UNIT)
  }

  lemma LevelBytesOf(p: Uint64, s: Uint64)
    ensures LevelBytes(p, s) == LittleEndian(p, 8) + LittleEndian(s, 8)
  {
    WordId(p);
    WordId(s);
  }

  lemma LateFits(t: Byte, p: nat, s: nat)
    requires p < TOP_UNIT
    ensures 0 <= LatePrice(t, p) < TWO64 && 0 <= LateSize(s) < TWO64
  {}

  lemma PriceParts(t: Byte, p: nat) returns (low: seq<Byte>)
    requires p < TOP_UNIT
    ensures |low| == 7 && LittleEndian(p, 8) == low + [0] && LittleEndian(LatePrice(t, p), 8) == [t] + low
  {
    low := LittleEndian(p, 7);
    LowSeven(p);
    LateWord(t, p);
    assert p % TOP_UNIT == p && p / TOP_UNIT == 0;
    FrontAndLast(LittleEndian(p, 8), low, 0);
  }

  lemma TopOf(s: nat)
    requires s < TWO64
    ensures s / TOP_UNIT % 256 == s / TOP_UNIT && s / TOP_UNIT < 256
  {}

  lemma SizeParts(s: nat) returns (low: seq<Byte>)
    requires s < TWO64
    ensures |low| == 7 && LittleEndian(s, 8) == low + [s / TOP_UNIT] && LittleEndian(LateSize(s), 8) == [0] + low
  {
    low := LittleEndian(s % TOP_UNIT, 7);
    TopOf(s);
    LowSeven(s);
    LateZero(s % TOP_UNIT);
    FrontAndLast(LittleEndian(s, 8), low, s / TOP_UNIT);
  }

  lemma LateZero(x: nat)
    requires x < TOP_UNIT
    ensures LittleEndian(256 * x, 8) == [0] + LittleEndian(x, 7)
  {
    LateWord(0, x);
    assert 0 + 256 * x == 256 * x;
  }

  lemma FrontAndLast(bytes: seq<Byte>, front: seq<Byte>, last: Byte)
    requires |bytes| == 8 && bytes[..7] == front && bytes[7] == last
    ensures bytes == front + [last]
  {}

  lemma LateLevel(t: Byte, p: nat, s: nat)
    requires p < TOP_UNIT && s < TWO64
    ensures 0 <= LatePrice(t, p) < TWO64 && 0 <= LateSize(s) < TWO64
    ensures LevelBytes(LatePrice(t, p), LateSize(s)) == [t] + LevelBytes(p, s)[..15]
    ensures LevelBytes(p, s)[15] == s / TOP_UNIT
  {
    LateFits(t, p, s);
    LevelBytesOf(p, s);
    LevelBytesOf(LatePrice(t, p), LateSize(s));
    var price := PriceParts(t, p);
    var size := SizeParts(s);
    LateBytes(t, price, size, s / TOP_UNIT);
  }

  lemma LateBytes(t: Byte, price: seq<Byte>, size: seq<Byte>, top: Byte)
    requires |price| == |size| == 7
    ensures ([t] + price) + ([0] + size) == [t] + ((price + [0]) + (size + [top]))[..15]
    ensures ((price + [0]) + (size + [top]))[15] == top
  {}

  /** Only that level spells them. */
  lemma OnlyLateLevel(k: nat, size: nat, t: Byte, p: nat, s: nat)
    requires k < TWO64 && size < TWO64 && p < TOP_UNIT && s < TWO64
    requires LevelBytes(k, size) == [t] + LevelBytes(p, s)[..15]
    ensures k == LatePrice(t, p) && size == LateSize(s)
  {
    LateLevel(t, p, s);
    LevelBytesInjective(k, size, LatePrice(t, p), LateSize(s));
  }

  // ---- sides as lists of prices ----

  lemma {:induction false} SideStreamSplit(a: seq<int>, c: seq<int>, levels: Levels)
    requires forall k :: k in a + c ==> k in levels
    ensures SideStream(a + c, levels) == SideStream(a, levels) + SideStream(c, levels)
  {
    assert forall k :: k in a || k in c ==> k in a + c;
    if c == [] {
      assert a + c == a;
    } else {
      var n := |c| - 1;
      assert (a + c)[..|a + c| - 1] == a + c[..n];
      SideStreamSplit(a, c[..n], levels);
      Associative(SideStream(a, levels), SideStream(c[..n], levels), LevelBytes(c[n], levels[c[n]]));
    }
  }

  lemma SideStreamFirst(keys: seq<int>, levels: Levels)
    requires keys != [] && forall k :: k in keys ==> k in levels
    ensures SideStream(keys, levels) == LevelBytes(keys[0], levels[keys[0]]) + SideStream(keys[1..], levels)
  {
    assert keys == [keys[0]] + keys[1..];
    SideStreamSplit([keys[0]], keys[1..], levels);
    assert [keys[0]][..0] == [];
    assert SideStream([keys[0]], levels) == SideStream([], levels) + LevelBytes(keys[0], levels[keys[0]]);
  }

  lemma {:induction false} SideStreamAgrees(keys: seq<int>, x: Levels, y: Levels)
    requires forall i :: 0 <= i < |keys| ==> keys[i] in x && keys[i] in y && x[keys[i]] == y[keys[i]]
    ensures SideStream(keys, x) == SideStream(keys, y)
  {
    if keys != [] {
      SideStreamAgrees(keys[..|keys| - 1], x, y);
    }
  }

  ghost predicate Falling(keys: seq<int>) {
    forall i, j :: 0 <= i < j < |keys| ==> keys[i] > keys[j]
  }

  ghost predicate Rising(keys: seq<int>) {
    forall i, j :: 0 <= i < j < |keys| ==> keys[i] < keys[j]
  }

  /** Prices are legal and every level has size. */
  ghost predicate Good(keys: seq<int>, levels: Levels) {
    forall i :: 0 <= i < |keys| ==> keys[i] in levels && IsValidYesPrice(keys[i]) && levels[keys[i]] > 0
  }

  lemma SideBytes(keys: seq<int>, levels: Levels)
    requires Good(keys, levels) && keys != []
    ensures |SideStream(keys, levels)| == 16 * |keys|
    ensures Good(keys[1..], levels)
    ensures SideStream(keys, levels) == LevelBytes(keys[0], levels[keys[0]]) + SideStream(keys[1..], levels)
  {
    SideStreamLength(keys, levels);
    SideStreamFirst(keys, levels);
  }

  // ---- two readings of one stream ----

  /** A bid spelled by a byte t and the front of an ask level. */
  lemma LateBid(k: int, size: int, t: Byte, p: int, s: int, after: seq<Byte>, rest: seq<Byte>)
    requires IsValidYesPrice(k) && 0 < size < TWO64 && IsValidYesPrice(p) && 0 < s < TWO64
    requires LevelBytes(k, size) + after == [t] + (LevelBytes(p, s) + rest)
    ensures k == LatePrice(t, p) && size == LateSize(s) && after == [s / TOP_UNIT] + rest
  {
    LateLevel(t, p, s);
    FrontSixteen(LevelBytes(k, size), after, t, LevelBytes(p, s), rest);
    OnlyLateLevel(k, size, t, p, s);
  }

  lemma FrontSixteen(x: seq<Byte>, after: seq<Byte>, t: Byte, bytes: seq<Byte>, rest: seq<Byte>)
    requires |x| == |bytes| == 16 && x + after == [t] + (bytes + rest)
    ensures x == [t] + bytes[..15] && after == [bytes[15]] + rest
  {
    var all := [t] + (bytes + rest);
    assert x == all[..16] && after == all[16..];
  }

  lemma LengthsLeft(bids: seq<int>, x2: Levels, rest2: seq<Byte>, asks1: seq<int>, y1: Levels)
    requires Good(bids, x2) && Good(asks1, y1) && bids != []
    requires SideStream(bids, x2) + ([ASK_MARKER] + rest2) == [ASK_MARKER] + SideStream(asks1, y1)
    ensures |asks1| >= |bids|
  {
    SideStreamLength(bids, x2);
    SideStreamLength(asks1, y1);
    assert |SideStream(bids, x2) + ([ASK_MARKER] + rest2)| == 16 * |bids| + 1 + |rest2|;
    assert |[ASK_MARKER] + SideStream(asks1, y1)| == 1 + 16 * |asks1|;
  }

  lemma FirstBid(bids: seq<int>, x2: Levels, marker: seq<Byte>, asks1: seq<int>, y1: Levels)
    requires Good(bids, x2) && Good(asks1, y1) && bids != [] && asks1 != []
    requires SideStream(bids, x2) + marker == [ASK_MARKER] + SideStream(asks1, y1)
    ensures bids[0] == LatePrice(ASK_MARKER, asks1[0]) && x2[bids[0]] == LateSize(y1[asks1[0]])
    ensures 0 <= y1[asks1[0]] / TOP_UNIT < 256
    ensures SideStream(bids[1..], x2) + marker == [y1[asks1[0]] / TOP_UNIT] + SideStream(asks1[1..], y1)
  {
    SideBytes(bids, x2);
    SideBytes(asks1, y1);
    Associative(LevelBytes(bids[0], x2[bids[0]]), SideStream(bids[1..], x2), marker);
    LateBid(bids[0], x2[bids[0]], ASK_MARKER, asks1[0], y1[asks1[0]], SideStream(bids[1..], x2) + marker, SideStream(asks1[1..], y1));
  }

  /** Read on from where the first reading has its marker: the second has exactly one bid more. */
  lemma RestReading(bids: seq<int>, x2: Levels, asks2: seq<int>, y2: Levels, asks1: seq<int>, y1: Levels)
    requires Good(bids, x2) && Good(asks2, y2) && Good(asks1, y1)
    requires Falling(bids) && Rising(asks1) && bids != []
    requires SideStream(bids, x2) + ([ASK_MARKER] + SideStream(asks2, y2)) == [ASK_MARKER] + SideStream(asks1, y1)
    ensures asks1 != [] && bids == [LatePrice(ASK_MARKER, asks1[0])] && x2[bids[0]] == LateSize(y1[asks1[0]])
    ensures y1[asks1[0]] / TOP_UNIT == ASK_MARKER
    ensures SideStream(asks2, y2) == SideStream(asks1[1..], y1)
  {
    var marker := [ASK_MARKER] + SideStream(asks2, y2);
    LengthsLeft(bids, x2, SideStream(asks2, y2), asks1, y1);
    FirstBid(bids, x2, marker, asks1, y1);
    if |bids| >= 2 {
      SecondBid(bids, x2, marker, y1[asks1[0]] / TOP_UNIT, asks1, y1);
      assert false;
    }
    assert bids == [bids[0]] && SideStream(bids[1..], x2) == [] && [] + marker == marker;
    SameHead(ASK_MARKER, SideStream(asks2, y2), y1[asks1[0]] / TOP_UNIT, SideStream(asks1[1..], y1));
  }

  lemma SameHead(a: Byte, u: seq<Byte>, c: Byte, v: seq<Byte>)
    requires [a] + u == [c] + v
    ensures a == c && u == v
  {
    assert ([a] + u)[0] == a && ([c] + v)[0] == c;
    assert u == ([a] + u)[1..] && v == ([c] + v)[1..];
  }

  /** Two bids so read would lie in the order of the asks, which is the wrong one. */
  lemma SecondBid(bids: seq<int>, x2: Levels, marker: seq<Byte>, t: Byte, asks1: seq<int>, y1: Levels)
    requires Good(bids, x2) && Good(asks1, y1) && Rising(asks1)
    requires |bids| >= 2 && asks1 != [] && marker != [] && bids[0] == LatePrice(ASK_MARKER, asks1[0])
    requires SideStream(bids[1..], x2) + marker == [t] + SideStream(asks1[1..], y1)
    ensures bids[0] < bids[1]
  {
    SideStreamLength(bids[1..], x2);
    SideStreamLength(asks1[1..], y1);
    assert |asks1| >= 2;
    SideBytes(bids[1..], x2);
    SideBytes(asks1[1..], y1);
    var p, s := asks1[1], y1[asks1[1]];
    Associative(LevelBytes(bids[1], x2[bids[1]]), SideStream(bids[1..][1..], x2), marker);
    LateBid(bids[1], x2[bids[1]], t, p, s, SideStream(bids[1..][1..], x2) + marker, SideStream(asks1[1..][1..], y1));
    assert asks1[0] < asks1[1];
  }

  /** Where the readings agree on the bids, and on what follows them. */
  lemma CommonBids(bids1: seq<int>, x1: Levels, rest1: seq<Byte>, bids2: seq<int>, x2: Levels, rest2: seq<Byte>) returns (more: seq<int>)
    requires Good(bids1, x1) && Good(bids2, x2) && |bids1| <= |bids2|
    requires SideStream(bids1, x1) + rest1 == SideStream(bids2, x2) + rest2
    ensures bids2 == bids1 + more && Good(more, x2)
    ensures forall i :: 0 <= i < |bids1| ==> bids1[i] in x2 && x1[bids1[i]] == x2[bids1[i]]
    ensures SideStream(more, x2) + rest2 == rest1
  {
    var a := bids2[..|bids1|];
    more := bids2[|bids1|..];
    assert bids2 == a + more;
    SideStreamSplit(a, more, x2);
    SideStreamLength(bids1, x1);
    SideStreamLength(a, x2);
    Associative(SideStream(a, x2), SideStream(more, x2), rest2);
    Halves(SideStream(bids1, x1), rest1, SideStream(a, x2), SideStream(more, x2) + rest2);
    SideStreamInjective(bids1, x1, a, x2);
    forall i | 0 <= i < |bids1| ensures bids1[i] in x2 && x1[bids1[i]] == x2[bids1[i]] {
      assert bids1[i] in bids1 && bids1[i] == bids2[i];
    }
  }

  // ---- lists of one side ----

  /** One list for one set of prices. */
  lemma {:induction false} FallingUnique(a: seq<int>, c: seq<int>)
    requires Falling(a) && Falling(c) && forall k :: k in a <==> k in c
    ensures a == c
  {
    SameEmptiness(a, c);
    if a != [] {
      assert a[0] in c && c[0] in a;
      forall k ensures k in a[1..] <==> k in c[1..] {
        assert k in a[1..] <==> k in a && k != a[0];
        assert k in c[1..] <==> k in c && k != c[0];
      }
      FallingUnique(a[1..], c[1..]);
      assert a == [a[0]] + a[1..] && c == [c[0]] + c[1..];
    }
  }

  lemma {:induction false} RisingUnique(a: seq<int>, c: seq<int>)
    requires Rising(a) && Rising(c) && forall k :: k in a <==> k in c
    ensures a == c
  {
    SameEmptiness(a, c);
    if a != [] {
      assert a[0] in c && c[0] in a;
      forall k ensures k in a[1..] <==> k in c[1..] {
        assert k in a[1..] <==> k in a && k != a[0];
        assert k in c[1..] <==> k in c && k != c[0];
      }
      RisingUnique(a[1..], c[1..]);
      assert a == [a[0]] + a[1..] && c == [c[0]] + c[1..];
    }
  }

  lemma SameEmptiness(a: seq<int>, c: seq<int>)
    requires forall k :: k in a <==> k in c
    ensures a == [] <==> c == []
  {
    if a != [] {
      var k := a[0];
      assert k in a;
    }
    if c != [] {
      var k := c[0];
      assert k in c;
    }
  }

  lemma FallingBack(keys: seq<int>, k: int)
    requires Falling(keys) && forall i :: 0 <= i < |keys| ==> k < keys[i]
    ensures Falling(keys + [k])
  {}

  lemma RisingFront(p: int, keys: seq<int>)
    requires Rising(keys) && forall i :: 0 <= i < |keys| ==> p < keys[i]
    ensures Rising([p] + keys)
  {}

  lemma TopSize(s: int)
    requires 0 <= s && s / TOP_UNIT == ASK_MARKER
    ensures LateSize(s) == 256 * (s - ASK_MARKER * TOP_UNIT)
  {}

  /** A best ask moved over the marker leaves the bytes as they were. */
  lemma MoveKeepsBytes(bids: seq<int>, x1: Levels, x2: Levels, asks: seq<int>, y1: Levels, y2: Levels, p: int)
    requires IsValidYesPrice(p) && p in y1 && y1[p] > 0 && y1[p] / TOP_UNIT == ASK_MARKER
    requires LatePrice(ASK_MARKER, p) in x2 && x2[LatePrice(ASK_MARKER, p)] == LateSize(y1[p])
    requires forall i :: 0 <= i < |bids| ==> bids[i] in x1 && bids[i] in x2 && x1[bids[i]] == x2[bids[i]]
    requires forall i :: 0 <= i < |asks| ==> asks[i] in y1 && asks[i] in y2 && y1[asks[i]] == y2[asks[i]]
    requires forall k :: k in [p] + asks ==> k in y1
    requires forall k :: k in bids + [LatePrice(ASK_MARKER, p)] ==> k in x2
    ensures SideStream(bids, x1) + [ASK_MARKER] + SideStream([p] + asks, y1) ==
            SideStream(bids + [LatePrice(ASK_MARKER, p)], x2) + [ASK_MARKER] + SideStream(asks, y2)
  {
    var k, s := LatePrice(ASK_MARKER, p), y1[p];
    SideStreamSplit(bids, [k], x2);
    SideStreamAgrees(bids, x1, x2);
    SideStreamFirst([k], x2);
    SideStreamFirst([p] + asks, y1);
    assert ([p] + asks)[1..] == asks && [k][1..] == [];
    SideStreamAgrees(asks, y1, y2);
    LateLevel(ASK_MARKER, p, s);
    MarkerPasses(SideStream(bids, x1), LevelBytes(p, s), LevelBytes(k, x2[k]), SideStream(asks, y2));
  }

  lemma MarkerPasses(bids: seq<Byte>, ask: seq<Byte>, bid: seq<Byte>, asks: seq<Byte>)
    requires |ask| == 16 && ask[15] == ASK_MARKER && bid == [ASK_MARKER] + ask[..15]
    ensures bids + [ASK_MARKER] + (ask + asks) == (bids + (bid + [])) + [ASK_MARKER] + asks
  {
    assert ask == ask[..15] + [ASK_MARKER];
  }

  /** The prices of a side, in iteration order, with what a sound book knows of them. */
  ghost predicate Covers(keys: seq<int>, levels: Levels) {
    Good(keys, levels) && forall k :: k in levels ==> k in keys
  }

  /** The second sides are the first with the best ask, at p, turned into the worst bid. */
  ghost predicate MovesAt(x1: Levels, y1: Levels, x2: Levels, y2: Levels, p: int) {
    && p in y1 && (forall q :: q in y1 ==> p <= q) && y1[p] / TOP_UNIT == ASK_MARKER
    && (forall q :: q in x1 ==> LatePrice(ASK_MARKER, p) < q)
    && y2 == y1 - {p}
    && (forall q :: q in x2 <==> q in x1 || q == LatePrice(ASK_MARKER, p))
    && x2[LatePrice(ASK_MARKER, p)] == 256 * (y1[p] - ASK_MARKER * TOP_UNIT)
    && forall q :: q in x1 ==> x2[q] == x1[q]
  }

  lemma MovedBids(x1: Levels, y1: Levels, x2: Levels, y2: Levels, p: int, bids1: seq<int>, bids2: seq<int>)
    requires MovesAt(x1, y1, x2, y2, p) && Covers(bids1, x1) && Covers(bids2, x2) && Falling(bids1) && Falling(bids2)
    ensures bids2 == bids1 + [LatePrice(ASK_MARKER, p)]
  {
    var k := LatePrice(ASK_MARKER, p);
    FallingBack(bids1, k);
    forall q ensures q in bids2 <==> q in bids1 + [k] {
      InCovered(q, bids1, x1);
      InCovered(q, bids2, x2);
    }
    FallingUnique(bids2, bids1 + [k]);
  }

  lemma MovedAsks(x1: Levels, y1: Levels, x2: Levels, y2: Levels, p: int, asks1: seq<int>, asks2: seq<int>)
    requires MovesAt(x1, y1, x2, y2, p) && Covers(asks1, y1) && Covers(asks2, y2) && Rising(asks1) && Rising(asks2)
    ensures asks1 == [p] + asks2
  {
    forall i | 0 <= i < |asks2| ensures p < asks2[i] {
      assert asks2[i] in y2;
    }
    RisingFront(p, asks2);
    forall q ensures q in asks1 <==> q in [p] + asks2 {
      InCovered(q, asks1, y1);
      InCovered(q, asks2, y2);
    }
    RisingUnique(asks1, [p] + asks2);
  }

  lemma InCovered(q: int, keys: seq<int>, levels: Levels)
    requires Covers(keys, levels)
    ensures q in keys <==> q in levels
  {}

  /** A moved best ask leaves the stream as it was. */
  lemma MoveKeepsStream(bids1: seq<int>, x1: Levels, asks1: seq<int>, y1: Levels, bids2: seq<int>, x2: Levels, asks2: seq<int>, y2: Levels, p: int)
    requires Covers(bids1, x1) && Covers(asks1, y1) && Covers(bids2, x2) && Covers(asks2, y2)
    requires Falling(bids1) && Rising(asks1) && Falling(bids2) && Rising(asks2) && MovesAt(x1, y1, x2, y2, p)
    ensures SideStream(bids1, x1) + [ASK_MARKER] + SideStream(asks1, y1) == SideStream(bids2, x2) + [ASK_MARKER] + SideStream(asks2, y2)
  {
    MovedBids(x1, y1, x2, y2, p, bids1, bids2);
    MovedAsks(x1, y1, x2, y2, p, asks1, asks2);
    assert asks1[0] == p;
    TopSize(y1[p]);
    forall i | 0 <= i < |asks2| ensures y1[asks2[i]] == y2[asks2[i]] {
      assert asks2[i] in y2;
    }
    MoveKeepsBytes(bids1, x1, x2, asks2, y1, y2, p);
  }

  lemma WithoutFirst(asks1: seq<int>, y1: Levels, asks2: seq<int>, y2: Levels)
    requires Covers(asks1, y1) && Covers(asks2, y2) && Rising(asks1) && asks1 != [] && asks2 == asks1[1..]
    requires forall i :: 0 <= i < |asks2| ==> y1[asks2[i]] == y2[asks2[i]]
    ensures y2 == y1 - {asks1[0]} && forall q :: q in y1 ==> asks1[0] <= q
  {
    var p := asks1[0];
    if y2 != y1 - {p} {
      var k := MapDifference(y2, y1 - {p});
      InCovered(k, asks1, y1);
      InCovered(k, asks2, y2);
    }
    forall q | q in y1 ensures p <= q {
      InCovered(q, asks1, y1);
    }
  }

  lemma WithLast(bids1: seq<int>, x1: Levels, bids2: seq<int>, x2: Levels, k: int)
    requires Covers(bids1, x1) && Covers(bids2, x2) && Falling(bids2) && bids2 == bids1 + [k]
    requires forall i :: 0 <= i < |bids1| ==> bids1[i] in x2 && x1[bids1[i]] == x2[bids1[i]]
    ensures forall q :: q in x2 <==> q in x1 || q == k
    ensures forall q :: q in x1 ==> k < q && q in x2 && x2[q] == x1[q]
  {
    forall q ensures q in x2 <==> q in x1 || q == k {
      InCovered(q, bids1, x1);
      InCovered(q, bids2, x2);
    }
    forall q | q in x1 ensures k < q && x2[q] == x1[q] {
      InCovered(q, bids1, x1);
      var i :| 0 <= i < |bids1| && bids1[i] == q;
      assert bids2[i] == q && bids2[|bids1|] == k;
    }
  }

  lemma MoveFound(bids1: seq<int>, x1: Levels, asks1: seq<int>, y1: Levels, bids2: seq<int>, x2: Levels, asks2: seq<int>, y2: Levels, p: int)
    requires Covers(bids1, x1) && Covers(asks1, y1) && Covers(bids2, x2) && Covers(asks2, y2)
    requires Rising(asks1) && Falling(bids2)
    requires asks1 != [] && p == asks1[0] && asks2 == asks1[1..] && y1[p] / TOP_UNIT == ASK_MARKER
    requires bids2 == bids1 + [LatePrice(ASK_MARKER, p)]
    requires LatePrice(ASK_MARKER, p) in x2 && x2[LatePrice(ASK_MARKER, p)] == LateSize(y1[p])
    requires forall i :: 0 <= i < |asks2| ==> y1[asks2[i]] == y2[asks2[i]]
    requires forall i :: 0 <= i < |bids1| ==> bids1[i] in x2 && x1[bids1[i]] == x2[bids1[i]]
    ensures MovesAt(x1, y1, x2, y2, p)
  {
    WithoutFirst(asks1, y1, asks2, y2);
    WithLast(bids1, x1, bids2, x2, LatePrice(ASK_MARKER, p));
    TopSize(y1[p]);
  }

  lemma SameAsks(asks1: seq<int>, y1: Levels, asks2: seq<int>, y2: Levels)
    requires Good(asks1, y1) && Good(asks2, y2) && SideStream(asks1, y1) == SideStream(asks2, y2)
    ensures asks1 == asks2 && forall i :: 0 <= i < |asks2| ==> y1[asks2[i]] == y2[asks2[i]]
  {
    SideStreamLength(asks1, y1);
    SideStreamLength(asks2, y2);
    SideStreamInjective(asks1, y1, asks2, y2);
    forall i | 0 <= i < |asks2| ensures y1[asks2[i]] == y2[asks2[i]] {
      assert asks2[i] in asks2;
    }
  }

  lemma TailFalls(front: seq<int>, more: seq<int>)
    requires Falling(front + more)
    ensures Falling(more)
  {
    forall i, j | 0 <= i < j < |more| ensures more[i] > more[j] {
      assert (front + more)[|front| + i] == more[i] && (front + more)[|front| + j] == more[j];
    }
  }

  lemma ReadMoveOn(bids1: seq<int>, x1: Levels, asks1: seq<int>, y1: Levels, bids2: seq<int>, x2: Levels, asks2: seq<int>, y2: Levels, more: seq<int>)
    requires Covers(bids1, x1) && Covers(asks1, y1) && Covers(bids2, x2) && Covers(asks2, y2)
    requires Rising(asks1) && Falling(bids2) && bids2 == bids1 + more && Good(more, x2) && Falling(more) && more != []
    requires forall i :: 0 <= i < |bids1| ==> bids1[i] in x2 && x1[bids1[i]] == x2[bids1[i]]
    requires SideStream(more, x2) + ([ASK_MARKER] + SideStream(asks2, y2)) == [ASK_MARKER] + SideStream(asks1, y1)
    ensures asks1 != [] && MovesAt(x1, y1, x2, y2, asks1[0])
  {
    var p := MoreRead(more, x2, asks2, y2, asks1, y1);
    MoveFound(bids1, x1, asks1, y1, bids2, x2, asks2, y2, p);
  }

  lemma MoreRead(more: seq<int>, x2: Levels, asks2: seq<int>, y2: Levels, asks1: seq<int>, y1: Levels) returns (p: int)
    requires Good(more, x2) && Good(asks2, y2) && Good(asks1, y1) && Falling(more) && Rising(asks1) && more != []
    requires SideStream(more, x2) + ([ASK_MARKER] + SideStream(asks2, y2)) == [ASK_MARKER] + SideStream(asks1, y1)
    ensures asks1 != [] && p == asks1[0] && y1[p] / TOP_UNIT == ASK_MARKER && asks2 == asks1[1..]
    ensures more == [LatePrice(ASK_MARKER, p)] && LatePrice(ASK_MARKER, p) in x2 && x2[LatePrice(ASK_MARKER, p)] == LateSize(y1[p])
    ensures forall i :: 0 <= i < |asks2| ==> asks2[i] in y1 && y1[asks2[i]] == y2[asks2[i]]
  {
    RestReading(more, x2, asks2, y2, asks1, y1);
    p := asks1[0];
    SameAsks(asks1[1..], y1, asks2, y2);
  }

  lemma MoreBids(bids1: seq<int>, x1: Levels, rest1: seq<Byte>, bids2: seq<int>, x2: Levels, rest2: seq<Byte>) returns (more: seq<int>)
    requires Good(bids1, x1) && Good(bids2, x2) && Falling(bids2) && |bids1| < |bids2|
    requires SideStream(bids1, x1) + rest1 == SideStream(bids2, x2) + rest2
    ensures bids2 == bids1 + more && Good(more, x2) && Falling(more) && more != []
    ensures forall i :: 0 <= i < |bids1| ==> bids1[i] in x2 && x1[bids1[i]] == x2[bids1[i]]
    ensures SideStream(more, x2) + rest2 == rest1
  {
    more := CommonBids(bids1, x1, rest1, bids2, x2, rest2);
    TailFalls(bids1, more);
  }

  /** When the second reading has more bids, it is the first with its best ask moved. */
  lemma ReadMove(bids1: seq<int>, x1: Levels, asks1: seq<int>, y1: Levels, bids2: seq<int>, x2: Levels, asks2: seq<int>, y2: Levels)
    requires Covers(bids1, x1) && Covers(asks1, y1) && Covers(bids2, x2) && Covers(asks2, y2)
    requires Rising(asks1) && Falling(bids2) && |bids1| < |bids2|
    requires SideStream(bids1, x1) + ([ASK_MARKER] + SideStream(asks1, y1)) == SideStream(bids2, x2) + ([ASK_MARKER] + SideStream(asks2, y2))
    ensures asks1 != [] && MovesAt(x1, y1, x2, y2, asks1[0])
  {
    var more := MoreBids(bids1, x1, [ASK_MARKER] + SideStream(asks1, y1), bids2, x2, [ASK_MARKER] + SideStream(asks2, y2));
    ReadMoveOn(bids1, x1, asks1, y1, bids2, x2, asks2, y2, more);
  }

  lemma ReadSame(bids1: seq<int>, x1: Levels, asks1: seq<int>, y1: Levels, bids2: seq<int>, x2: Levels, asks2: seq<int>, y2: Levels)
    requires Covers(bids1, x1) && Covers(asks1, y1) && Covers(bids2, x2) && Covers(asks2, y2) && |bids1| == |bids2|
    requires SideStream(bids1, x1) + ([ASK_MARKER] + SideStream(asks1, y1)) == SideStream(bids2, x2) + ([ASK_MARKER] + SideStream(asks2, y2))
    ensures x1 == x2 && y1 == y2
  {
    SideStreamLength(bids1, x1);
    SideStreamLength(bids2, x2);
    Halves(SideStream(bids1, x1), [ASK_MARKER] + SideStream(asks1, y1), SideStream(bids2, x2), [ASK_MARKER] + SideStream(asks2, y2));
    SameHead(ASK_MARKER, SideStream(asks1, y1), ASK_MARKER, SideStream(asks2, y2));
    CoveredSame(bids1, x1, bids2, x2);
    CoveredSame(asks1, y1, asks2, y2);
  }

  lemma CoveredSame(keys1: seq<int>, x1: Levels, keys2: seq<int>, x2: Levels)
    requires Covers(keys1, x1) && Covers(keys2, x2) && SideStream(keys1, x1) == SideStream(keys2, x2)
    ensures x1 == x2
  {
    SideStreamLength(keys1, x1);
    SideStreamLength(keys2, x2);
    SideStreamInjective(keys1, x1, keys2, x2);
    if x1 != x2 {
      var k := MapDifference(x1, x2);
      InCovered(k, keys1, x1);
      InCovered(k, keys2, x2);
    }
  }

  // ---- books ----

  /** b2 is b1 with its best ask turned into its worst bid. */
  ghost predicate Moves(b1: BookState, b2: BookState) {
    exists p :: MovesAt(b1.bids, b1.asks, b2.bids, b2.asks, p)
  }

  ghost predicate SameSides(b1: BookState, b2: BookState) {
    b1.bids == b2.bids && b1.asks == b2.asks
  }

  lemma SoundSides(market: Market, b: BookState)
    requires Sound(market, b)
    ensures Covers(Descending(b.bids.Keys), b.bids) && Falling(Descending(b.bids.Keys))
    ensures Covers(Ascending(b.asks.Keys), b.asks) && Rising(Ascending(b.asks.Keys))
  {
    var bids, asks := Descending(b.bids.Keys), Ascending(b.asks.Keys);
    forall i | 0 <= i < |bids| ensures bids[i] in b.bids && IsValidYesPrice(bids[i]) && b.bids[bids[i]] > 0 {
      assert bids[i] in bids;
    }
    forall i | 0 <= i < |asks| ensures asks[i] in b.asks && IsValidYesPrice(asks[i]) && b.asks[asks[i]] > 0 {
      assert asks[i] in asks;
    }
  }

  lemma Grouped(a: seq<Byte>, c: seq<Byte>, d: seq<Byte>, e: seq<Byte>)
    requires a + [ASK_MARKER] + c == d + [ASK_MARKER] + e
    ensures a + ([ASK_MARKER] + c) == d + ([ASK_MARKER] + e)
  {
    Associative(a, [ASK_MARKER], c);
    Associative(d, [ASK_MARKER], e);
  }

  lemma ListsCoincide(bids1: seq<int>, x1: Levels, asks1: seq<int>, y1: Levels, bids2: seq<int>, x2: Levels, asks2: seq<int>, y2: Levels)
    requires Covers(bids1, x1) && Covers(asks1, y1) && Covers(bids2, x2) && Covers(asks2, y2)
    requires Falling(bids1) && Rising(asks1) && Falling(bids2) && Rising(asks2)
    requires SideStream(bids1, x1) + ([ASK_MARKER] + SideStream(asks1, y1)) == SideStream(bids2, x2) + ([ASK_MARKER] + SideStream(asks2, y2))
    ensures (x1 == x2 && y1 == y2) || (exists p :: MovesAt(x1, y1, x2, y2, p)) || exists p :: MovesAt(x2, y2, x1, y1, p)
  {
    if |bids1| < |bids2| {
      ReadMove(bids1, x1, asks1, y1, bids2, x2, asks2, y2);
    } else if |bids2| < |bids1| {
      ReadMove(bids2, x2, asks2, y2, bids1, x1, asks1, y1);
    } else {
      ReadSame(bids1, x1, asks1, y1, bids2, x2, asks2, y2);
    }
  }

  lemma SidesCoincide(market: Market, b1: BookState, b2: BookState)
    requires Sound(market, b1) && Sound(market, b2)
    requires BidStream(b1) + [ASK_MARKER] + AskStream(b1) == BidStream(b2) + [ASK_MARKER] + AskStream(b2)
    ensures SameSides(b1, b2) || Moves(b1, b2) || Moves(b2, b1)
  {
    SoundSides(market, b1);
    SoundSides(market, b2);
    Grouped(BidStream(b1), AskStream(b1), BidStream(b2), AskStream(b2));
    ListsCoincide(Descending(b1.bids.Keys), b1.bids, Ascending(b1.asks.Keys), b1.asks,
                  Descending(b2.bids.Keys), b2.bids, Ascending(b2.asks.Keys), b2.asks);
  }

  lemma MovedSidesCoincide(market: Market, b1: BookState, b2: BookState)
    requires Sound(market, b1) && Sound(market, b2) && Moves(b1, b2)
    ensures BidStream(b1) + [ASK_MARKER] + AskStream(b1) == BidStream(b2) + [ASK_MARKER] + AskStream(b2)
  {
    var p :| MovesAt(b1.bids, b1.asks, b2.bids, b2.asks, p);
    SoundSides(market, b1);
    SoundSides(market, b2);
    MoveKeepsStream(Descending(b1.bids.Keys), b1.bids, Ascending(b1.asks.Keys), b1.asks,
                    Descending(b2.bids.Keys), b2.bids, Ascending(b2.asks.Keys), b2.asks, p);
  }

  /**
   The exact condition: two sound books feed the digest the same bytes if and only if they agree in
   status and last sequence number and their sides are the same, or one is the other with its best ask, whose
   size carries the marker on top, turned into its worst bid.
   */
  lemma StreamsCoincideIff(market: Market, b1: BookState, b2: BookState)
    requires Sound(market, b1) && Sound(market, b2)
    ensures StateStream(b1) == StateStream(b2) <==>
      && b1.status == b2.status && b1.lastSequence == b2.lastSequence
      && (SameSides(b1, b2) || Moves(b1, b2) || Moves(b2, b1))
  {
    StreamShape(b1);
    StreamShape(b2);
    if StateStream(b1) == StateStream(b2) {
      SplitStreams(Flag(b1), LittleEndian(SequenceWord(b1), 8), BidStream(b1) + [ASK_MARKER] + AskStream(b1),
                   Flag(b2), LittleEndian(SequenceWord(b2), 8), BidStream(b2) + [ASK_MARKER] + AskStream(b2));
      WordInjective(SequenceWord(b1), SequenceWord(b2));
      SidesCoincide(market, b1, b2);
    } else if Moves(b1, b2) {
      MovedSidesCoincide(market, b1, b2);
    } else if Moves(b2, b1) {
      MovedSidesCoincide(market, b2, b1);
    }
  }

  /** The best ask has no size with the marker on top; sizes below 2^56 never do. */
  ghost predicate BestAskUnmarked(b: BookState) {
    forall p :: p in b.asks && (forall q :: q in b.asks ==> p <= q) ==> b.asks[p] / TOP_UNIT != ASK_MARKER
  }

  /** So the stream determines a book whose best ask is unmarked, its subscription aside. */
  lemma StreamInjective(market: Market, b1: BookState, b2: BookState)
    requires Sound(market, b1) && Sound(market, b2) && BestAskUnmarked(b1) && BestAskUnmarked(b2)
    requires StateStream(b1) == StateStream(b2)
    ensures b2 == b1.(subscription := b2.subscription)
  {
    StreamsCoincideIff(market, b1, b2);
    MoveMarked(b1, b2);
    MoveMarked(b2, b1);
  }

  lemma MoveMarked(b1: BookState, b2: BookState)
    ensures Moves(b1, b2) ==> !BestAskUnmarked(b1)
  {}

  // ---- which books are ambiguous ----

  ghost predicate Lowest(levels: Levels, p: int) {
    p in levels && forall q :: q in levels ==> p <= q
  }

  /** The best ask of b, at p, can be turned into a bid of a sound book. */
  ghost predicate MovableAt(market: Market, b: BookState, p: int) {
    && Lowest(b.asks, p) && 0 < b.asks[p] - ASK_MARKER * TOP_UNIT < TOP_UNIT / 2
    && PriceAllowed(market.grid, LatePrice(ASK_MARKER, p)) && forall q :: q in b.bids ==> LatePrice(ASK_MARKER, p) < q
  }

  /** The worst bid of b can be turned into an ask, at p, of a sound book. */
  ghost predicate MovableBackAt(market: Market, b: BookState, p: int) {
    && Lowest(b.bids, LatePrice(ASK_MARKER, p)) && b.bids[LatePrice(ASK_MARKER, p)] % 256 == 0
    && PriceAllowed(market.grid, p) && forall q :: q in b.asks ==> p < q
  }

  function Moved(b: BookState, p: int): BookState
    requires p in b.asks && 0 < b.asks[p] - ASK_MARKER * TOP_UNIT < TOP_UNIT / 2
  {
    b.(bids := b.bids[LatePrice(ASK_MARKER, p) := 256 * (b.asks[p] - ASK_MARKER * TOP_UNIT)], asks := b.asks - {p})
  }

  function MovedBack(b: BookState, p: int): BookState
    requires LatePrice(ASK_MARKER, p) in b.bids && b.bids[LatePrice(ASK_MARKER, p)] > 0
  {
    var k := LatePrice(ASK_MARKER, p);
    b.(bids := b.bids - {k}, asks := b.asks[p := ASK_MARKER * TOP_UNIT + b.bids[k] / 256])
  }

  lemma MarkedSize(s: int)
    requires 0 < s - ASK_MARKER * TOP_UNIT < TOP_UNIT / 2
    ensures s / TOP_UNIT == ASK_MARKER
  {}

  lemma MovedIsSound(market: Market, b: BookState, p: int)
    requires Sound(market, b) && b.IsValid() && MovableAt(market, b, p)
    ensures Sound(market, Moved(b, p)) && MovesAt(b.bids, b.asks, Moved(b, p).bids, Moved(b, p).asks, p)
  {
    MarkedSize(b.asks[p]);
  }

  lemma MovedBackIsSound(market: Market, b: BookState, p: int)
    requires Sound(market, b) && b.IsValid() && MovableBackAt(market, b, p)
    ensures Sound(market, MovedBack(b, p)) && MovesAt(MovedBack(b, p).bids, MovedBack(b, p).asks, b.bids, b.asks, p)
  {
    var k := LatePrice(ASK_MARKER, p);
    var back := MovedBack(b, p);
    assert p !in b.asks;
    if b.asks != back.asks - {p} {
      var q := MapDifference(b.asks, back.asks - {p});
    }
  }

  lemma MovedRange(d: int)
    requires 0 < 256 * d <= INT64_MAX
    ensures 0 < d < TOP_UNIT / 2 && 256 * d % 256 == 0
  {}

  lemma SoundLevel(market: Market, b: BookState, side: BookSide, p: int)
    requires Sound(market, b) && p in b.Side(side)
    ensures 0 < b.Side(side)[p] <= INT64_MAX && PriceAllowed(market.grid, p)
  {}

  lemma MoveIsMovable(market: Market, b1: BookState, b2: BookState, p: int)
    requires Sound(market, b1) && Sound(market, b2) && MovesAt(b1.bids, b1.asks, b2.bids, b2.asks, p)
    ensures MovableAt(market, b1, p) && MovableBackAt(market, b2, p)
  {
    SoundLevel(market, b2, Bid, LatePrice(ASK_MARKER, p));
    SoundLevel(market, b1, Ask, p);
    MovedRange(b1.asks[p] - ASK_MARKER * TOP_UNIT);
  }

  lemma SharedIsMovable(market: Market, b: BookState, other: BookState)
    requires Sound(market, b) && Sound(market, other) && StateStream(other) == StateStream(b) && !SameSides(other, b)
    ensures (exists p :: MovableAt(market, b, p)) || exists p :: MovableBackAt(market, b, p)
  {
    StreamsCoincideIff(market, b, other);
    if Moves(b, other) {
      var p :| MovesAt(b.bids, b.asks, other.bids, other.asks, p);
      MoveIsMovable(market, b, other, p);
    } else {
      var p :| MovesAt(other.bids, other.asks, b.bids, b.asks, p);
      MoveIsMovable(market, other, b, p);
    }
  }

  lemma MovedShares(market: Market, b: BookState, p: int)
    requires Sound(market, b) && MovableAt(market, b, p)
    ensures Sound(market, Moved(b, p)) && StateStream(Moved(b, p)) == StateStream(b) && !SameSides(Moved(b, p), b)
  {
    MovedIsSound(market, b, p);
    assert Moves(b, Moved(b, p));
    StreamsCoincideIff(market, b, Moved(b, p));
    assert p in b.asks && p !in Moved(b, p).asks;
  }

  lemma MovedBackShares(market: Market, b: BookState, p: int)
    requires Sound(market, b) && MovableBackAt(market, b, p)
    ensures Sound(market, MovedBack(b, p)) && StateStream(MovedBack(b, p)) == StateStream(b) && !SameSides(MovedBack(b, p), b)
  {
    MovedBackIsSound(market, b, p);
    assert Moves(MovedBack(b, p), b);
    StreamsCoincideIff(market, MovedBack(b, p), b);
    assert p !in b.asks && p in MovedBack(b, p).asks;
  }

  /**
   A book shares its stream with another sound book exactly if its best ask or its worst bid can be
   moved over the marker; whether it can be is read off the book itself.
   */
  lemma AmbiguousIff(market: Market, b: BookState)
    requires Sound(market, b)
    ensures (exists other :: Sound(market, other) && StateStream(other) == StateStream(b) && !SameSides(other, b)) <==>
            (exists p :: MovableAt(market, b, p)) || exists p :: MovableBackAt(market, b, p)
  {
    if other :| Sound(market, other) && StateStream(other) == StateStream(b) && !SameSides(other, b) {
      SharedIsMovable(market, b, other);
    }
    if p :| MovableAt(market, b, p) {
      MovedShares(market, b, p);
    }
    if p :| MovableBackAt(market, b, p) {
      MovedBackShares(market, b, p);
    }
  }

  // ---- an instance ----

  const MARKER_SIZE: Int64 := ASK_MARKER * TOP_UNIT + 1

  function AskedBook(n: Uint64, sid: Int64): BookState {
    BookState(Live, map[], map[0 := MARKER_SIZE], Some(n), Some(sid))
  }

  function BidBook(n: Uint64, sid: Int64): BookState {
    BookState(Live, map[65 := 256], map[], Some(n), Some(sid))
  }

  lemma BySnapshot(n: Uint64, sid: Int64)
    ensures SnapshotStep(Market("M", []), EMPTY_BOOK, BookSnapshot("M", sid, n, [], [BookLevel(0, MARKER_SIZE)])) == (AskedBook(n, sid), None)
    ensures SnapshotStep(Market("M", []), EMPTY_BOOK, BookSnapshot("M", sid, n, [BookLevel(65, 256)], [])) == (BidBook(n, sid), None)
  {
    OneEntry(BookLevel(0, MARKER_SIZE));
    OneEntry(BookLevel(65, 256));
    assert [] + [BookLevel(0, MARKER_SIZE)] == [BookLevel(0, MARKER_SIZE)];
    assert [BookLevel(65, 256)] + [] == [BookLevel(65, 256)];
  }

  lemma AskedMoves(market: Market, n: Uint64, sid: Int64)
    requires market.grid == []
    ensures Sound(market, AskedBook(n, sid)) && MovableAt(market, AskedBook(n, sid), 0) && Moved(AskedBook(n, sid), 0) == BidBook(n, sid)
  {
    var asks: Levels := map[0 := MARKER_SIZE];
    assert asks - {0} == map[];
  }

  /**
   Two snapshots of one market, accepted by an empty book, whose books are different and have one
   stream: an ask of 65 * 2^56 + 1 units at price 0, and a bid of 256 units at price 65.
   */
  lemma MarkerSizeCollides(n: Uint64, sid: Int64)
    ensures var market := Market("M", []);
      var (asked, r1) := SnapshotStep(market, EMPTY_BOOK, BookSnapshot("M", sid, n, [], [BookLevel(0, MARKER_SIZE)]));
      var (bid, r2) := SnapshotStep(market, EMPTY_BOOK, BookSnapshot("M", sid, n, [BookLevel(65, 256)], []));
      r1.None? && r2.None? && StateStream(asked) == StateStream(bid) && asked != bid
  {
    BySnapshot(n, sid);
    AskedMoves(Market("M", []), n, sid);
    MovedShares(Market("M", []), AskedBook(n, sid), 0);
  }
}
