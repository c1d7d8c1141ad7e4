/** What depth adds up: the sizes at the best prices of a side. */
module BookDepth {
  import opened Arithmetic
  import opened Book
  import opened Collections
  import opened Events
  import opened Sequences
  import opened Sorting

  /** Size resting at a set of prices. */
  ghost function SizeOver(levels: Levels, prices: set<int>): int
    requires prices <= levels.Keys
  {
    if prices == {} then 0
    else
      var p := Min(prices);
      levels[p] + SizeOver(levels, prices - {p})
  }

  /** The prices may be taken in any order. */
  lemma {:induction false} SizeOverAny(levels: Levels, prices: set<int>, x: int)
    requires prices <= levels.Keys && x in prices
    ensures SizeOver(levels, prices) == levels[x] + SizeOver(levels, prices - {x})
    decreases |prices|
  {
    var p := Min(prices);
    if p != x {
      SizeOverAny(levels, prices - {p}, x);
      SizeOverAny(levels, prices - {x}, p);
      assert prices - {p} - {x} == prices - {x} - {p};
    }
  }

  /** The keys are the prices, each once. */
  ghost predicate Lists(keys: seq<int>, prices: set<int>) {
    (forall k :: k in keys <==> k in prices) && forall i, j :: 0 <= i < j < |keys| ==> keys[i] != keys[j]
  }

  lemma ListsFront(keys: seq<int>, prices: set<int>)
    requires keys != [] && Lists(keys, prices)
    ensures Lists(keys[..|keys| - 1], prices - {keys[|keys| - 1]})
  {
    var n := |keys| - 1;
    forall k ensures k in keys[..n] <==> k in prices - {keys[n]} {
      if k in prices - {keys[n]} {
        var i :| 0 <= i < |keys| && keys[i] == k;
        assert keys[..n][i] == k;
      }
    }
  }

  lemma {:induction false} SumIsSizeOver(keys: seq<int>, levels: Levels, prices: set<int>)
    requires Lists(keys, prices) && prices <= levels.Keys
    ensures (forall i :: 0 <= i < |keys| ==> keys[i] in levels) && |keys| == |prices|
    ensures Sum(SizesAt(keys, levels)) == SizeOver(levels, prices)
  {
    if keys == [] {
      if prices != {} {
        var x := Member(prices);
      }
    } else {
      var last := keys[|keys| - 1];
      assert last in keys;
      ListsFront(keys, prices);
      SumIsSizeOver(keys[..|keys| - 1], levels, prices - {last});
      SizeOverAny(levels, prices, last);
      SizesOneMore(keys, levels);
    }
  }

  lemma SizesOneMore(keys: seq<int>, levels: Levels)
    requires keys != [] && forall i :: 0 <= i < |keys| ==> keys[i] in levels
    ensures Sum(SizesAt(keys, levels)) == Sum(SizesAt(keys[..|keys| - 1], levels)) + levels[keys[|keys| - 1]]
  {
    var sizes := SizesAt(keys, levels);
    assert sizes[..|sizes| - 1] == SizesAt(keys[..|keys| - 1], levels);
  }

  lemma BestAreFirst(n: nat, keys: seq<int>, levels: Levels)
    requires forall i :: 0 <= i < |keys| ==> keys[i] in levels
    ensures var m := if n < |keys| then n else |keys|;
      Best(n, SizesAt(keys, levels)) == SizesAt(keys[..m], levels)
  {}

  predicate Better(side: BookSide, p: int, q: int) {
    if side.Bid? then p > q else p < q
  }

  /** The keys are the prices of the side, best first. */
  ghost predicate BestFirst(side: BookSide, keys: seq<int>, levels: Levels) {
    Lists(keys, levels.Keys) && forall i, j :: 0 <= i < j < |keys| ==> Better(side, keys[i], keys[j])
  }

  lemma KeysBestFirst(b: BookState, side: BookSide)
    ensures BestFirst(side, BestKeys(b, side), b.Side(side))
  {
    if side.Bid? {
      OrderedBestFirst(Bid, Descending(b.bids.Keys), b.bids);
    } else {
      OrderedBestFirst(Ask, Ascending(b.asks.Keys), b.asks);
    }
  }

  lemma OrderedBestFirst(side: BookSide, keys: seq<int>, levels: Levels)
    requires forall k :: k in keys <==> k in levels.Keys
    requires forall i, j :: 0 <= i < j < |keys| ==> Better(side, keys[i], keys[j])
    ensures BestFirst(side, keys, levels)
  {}

  function First(keys: seq<int>, m: nat): set<int>
    requires m <= |keys|
  {
    set k | k in keys[..m]
  }

  lemma FirstListed(keys: seq<int>, all: set<int>, m: nat)
    requires m <= |keys| && Lists(keys, all)
    ensures Lists(keys[..m], First(keys, m)) && First(keys, m) <= all
  {
    forall k | k in keys[..m] ensures k in all { assert k in keys; }
  }

  /** The first m keys are better than the others. */
  lemma FirstBetter(side: BookSide, keys: seq<int>, levels: Levels, m: nat, p: int, q: int)
    requires m <= |keys| && BestFirst(side, keys, levels) && p in First(keys, m) && q in levels.Keys - First(keys, m)
    ensures Better(side, p, q)
  {
    var i :| 0 <= i < m && keys[..m][i] == p;
    assert q in keys;
    var j :| 0 <= j < |keys| && keys[j] == q;
    NotAmongFirst(keys, m, j);
  }

  lemma NotAmongFirst(keys: seq<int>, m: nat, j: nat)
    requires j < |keys| && m <= |keys| && keys[j] !in First(keys, m)
    ensures j >= m
  {}

  ghost predicate AreBest(side: BookSide, levels: Levels, best: set<int>) {
    best <= levels.Keys && forall p, q :: p in best && q in levels.Keys - best ==> Better(side, p, q)
  }

  lemma FirstAreBest(side: BookSide, keys: seq<int>, levels: Levels, m: nat)
    requires m <= |keys| && BestFirst(side, keys, levels)
    ensures AreBest(side, levels, First(keys, m)) && |First(keys, m)| == m
    ensures (forall i :: 0 <= i < m ==> keys[..m][i] in levels) && Sum(SizesAt(keys[..m], levels)) == SizeOver(levels, First(keys, m))
  {
    FirstListed(keys, levels.Keys, m);
    SumIsSizeOver(keys[..m], levels, First(keys, m));
    forall p, q | p in First(keys, m) && q in levels.Keys - First(keys, m) ensures Better(side, p, q) {
      FirstBetter(side, keys, levels, m, p, q);
    }
  }

  /**
   Depth over n levels is the size at the n best prices, or at all of them if there are fewer: each is
   better than every price of the side that is not among them. The size wraps if it does not fit.
   */
  lemma DepthIsBest(b: BookState, side: BookSide, n: nat) returns (best: set<int>)
    ensures AreBest(side, b.Side(side), best) && |best| == if n < |b.Side(side).Keys| then n else |b.Side(side).Keys|
    ensures Wrapped(Best(n, BestSizes(b, side))) == ToInt64(SizeOver(b.Side(side), best))
  {
    var keys := BestKeys(b, side);
    var m := if n < |keys| then n else |keys|;
    KeysBestFirst(b, side);
    FirstAreBest(side, keys, b.Side(side), m);
    BestAreFirst(n, keys, b.Side(side));
    best := First(keys, m);
  }

  lemma OneBest(side: BookSide, levels: Levels, top: set<int>, best: int)
    requires best in levels && forall p :: p in levels && p != best ==> Better(side, best, p)
    requires AreBest(side, levels, top) && |top| == 1
    ensures top == {best}
  {
    var p := Member(top);
    OnlyMember(top, p);
    NotBothBetter(side, p, best);
  }

  lemma OnlyMember(s: set<int>, p: int)
    requires p in s && |s| == 1
    ensures s == {p}
  {
    assert |s - {p}| == 0;
  }

  lemma NotBothBetter(side: BookSide, p: int, q: int)
    ensures !(Better(side, p, q) && Better(side, q, p))
  {}

  lemma SizeOverOne(levels: Levels, p: int)
    requires p in levels
    ensures SizeOver(levels, {p}) == levels[p]
  {
    SizeOverAny(levels, {p}, p);
    assert {p} - {p} == {};
  }

  /** No price of the side is better. */
  ghost predicate IsBest(side: BookSide, levels: Levels, best: int) {
    best in levels && forall p :: p in levels && p != best ==> Better(side, best, p)
  }

  lemma TopSize(side: BookSide, levels: Levels, top: set<int>, best: int)
    requires IsBest(side, levels, best) && AreBest(side, levels, top)
    requires |top| == (if 1 < |levels.Keys| then 1 else |levels.Keys|)
    ensures SizeOver(levels, top) == levels[best]
  {
    SubsetCount({best}, levels.Keys);
    OneBest(side, levels, top, best);
    SizeOverOne(levels, best);
  }

  /** Depth over one level, when one price is the best. */
  lemma TopDepth(b: BookState, side: BookSide, levels: Levels, best: int)
    requires levels == b.Side(side) && IsBest(side, levels, best)
    ensures Wrapped(Best(1, BestSizes(b, side))) == ToInt64(levels[best])
  {
    var top := DepthIsBest(b, side, 1);
    TopSize(side, levels, top, best);
  }

  /** One level of depth is the size at the best price. */
  lemma TopOfBook(b: BookState, side: BookSide, best: int)
    requires IsBest(side, b.Side(side), best)
    ensures Wrapped(Best(1, BestSizes(b, side))) == b.Level(side, best)
  {
    TopDepth(b, side, b.Side(side), best);
    AsItIs(b.Side(side)[best]);
  }

  lemma AsItIs(x: Int64)
    ensures ToInt64(x) == x
  {}
}
