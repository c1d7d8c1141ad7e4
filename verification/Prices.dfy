/** Prices in $0.0001 units, a market's tick grid, and the grid validator. */
module Prices {
  import opened Arithmetic
  import opened Collections
  import opened Wrappers

  const UNITS_PER_DOLLAR: int := 10_000

  /** Start, end and step of one band; all in price units. */
  datatype PriceRange = PriceRange(start: int, end: int, step: int)

  predicate IsValidYesPrice(price: int) {
    0 <= price <= UNITS_PER_DOLLAR
  }

  function YesPriceFromNo(noPrice: int): int {
    UNITS_PER_DOLLAR - noPrice
  }

  predicate OnBand(price: int, band: PriceRange) {
    band.step > 0 && band.start <= price <= band.end && (price - band.start) % band.step == 0
  }

  predicate IsOnPriceGrid(price: int, ranges: seq<PriceRange>) {
    exists i :: 0 <= i < |ranges| && OnBand(price, ranges[i])
  }

  // ---- validate_price_grid ----

  datatype GridProblem = NoPriceGrid | MalformedPriceGrid | PriceGridOutOfBounds | OverlappingPriceBands

  function BandProblem(band: PriceRange): Option<GridProblem> {
    if band.step <= 0 || band.start >= band.end then Some(MalformedPriceGrid)
    else if !IsValidYesPrice(band.start) || !IsValidYesPrice(band.end) then Some(PriceGridOutOfBounds)
    else if (band.end - band.start) % band.step != 0 then Some(MalformedPriceGrid)
    else None
  }

  predicate Disjoint(a: PriceRange, b: PriceRange) {
    a.end < b.start || b.end < a.start
  }

  ghost predicate BandsDisjoint(ranges: seq<PriceRange>) {
    forall i, j :: 0 <= i < j < |ranges| ==> Disjoint(ranges[i], ranges[j])
  }

  ghost predicate BandsSound(ranges: seq<PriceRange>) {
    forall i :: 0 <= i < |ranges| ==> BandProblem(ranges[i]).None?
  }

  ghost predicate ValidGrid(ranges: seq<PriceRange>) {
    ranges != [] && BandsSound(ranges) && BandsDisjoint(ranges)
  }

  /** Accepts exactly the valid grids, and otherwise names the first problem in the order of the checks. */
  method ValidatePriceGrid(ranges: seq<PriceRange>) returns (problem: Option<GridProblem>)
    ensures problem.None? <==> ValidGrid(ranges)
    ensures problem == Some(NoPriceGrid) <==> ranges == []
    ensures problem == Some(OverlappingPriceBands) <==> ranges != [] && BandsSound(ranges) && !BandsDisjoint(ranges)
    ensures forall i :: 0 <= i < |ranges| && BandsSound(ranges[..i]) && BandProblem(ranges[i]).Some?
                        ==> problem == BandProblem(ranges[i])
  {
    if ranges == [] {
      return Some(NoPriceGrid);
    }
    for i := 0 to |ranges|
      invariant forall k :: 0 <= k < i ==> BandProblem(ranges[k]).None?
    {
      var band := ranges[i];
      if band.step <= 0 || band.start >= band.end {
        return Some(MalformedPriceGrid);
      }
      if !IsValidYesPrice(band.start) || !IsValidYesPrice(band.end) {
        return Some(PriceGridOutOfBounds);
      }
      if (band.end - band.start) % band.step != 0 {
        return Some(MalformedPriceGrid);
      }
    }
    for left := 0 to |ranges|
      invariant forall i, j :: 0 <= i < left && i < j < |ranges| ==> Disjoint(ranges[i], ranges[j])
    {
      for right := left + 1 to |ranges|
        invariant forall j :: left < j < right ==> Disjoint(ranges[left], ranges[j])
      {
        if !(ranges[left].end < ranges[right].start || ranges[right].end < ranges[left].start) {
          assert !Disjoint(ranges[left], ranges[right]);
          return Some(OverlappingPriceBands);
        }
      }
    }
    return None;
  }

  /** A validated grid is unambiguous and every band tops out on a tick. */
  lemma GridUnambiguous(ranges: seq<PriceRange>, price: int)
    requires ValidGrid(ranges) && IsOnPriceGrid(price, ranges)
    ensures exists i ::
      && 0 <= i < |ranges| && OnBand(price, ranges[i])
      && forall j :: 0 <= j < |ranges| && OnBand(price, ranges[j]) ==> j == i
    ensures IsValidYesPrice(price)
  {
    var i :| 0 <= i < |ranges| && OnBand(price, ranges[i]);
    assert BandProblem(ranges[i]).None?;
    forall j | 0 <= j < |ranges| && OnBand(price, ranges[j]) ensures j == i {
      assert Disjoint(ranges[i], ranges[j]) || Disjoint(ranges[j], ranges[i]) || i == j;
    }
  }

  lemma BandEndsOnGrid(ranges: seq<PriceRange>, i: nat)
    requires ValidGrid(ranges) && i < |ranges|
    ensures IsOnPriceGrid(ranges[i].start, ranges) && IsOnPriceGrid(ranges[i].end, ranges)
  {
    assert BandProblem(ranges[i]).None?;
    assert OnBand(ranges[i].start, ranges[i]) && OnBand(ranges[i].end, ranges[i]);
  }

  // ---- how many levels a grid can hold ----

  ghost function BandPrices(band: PriceRange): set<int> {
    set p | band.start <= p <= band.end && OnBand(p, band)
  }

  ghost function GridPrices(ranges: seq<PriceRange>): set<int> {
    if ranges == [] then {} else BandPrices(ranges[0]) + GridPrices(ranges[1..])
  }

  function TickCount(band: PriceRange): int
    requires band.step > 0
  {
    (band.end - band.start) / band.step + 1
  }

  function TickTotal(ranges: seq<PriceRange>): int
    requires forall i :: 0 <= i < |ranges| ==> ranges[i].step > 0
  {
    if ranges == [] then 0 else TickCount(ranges[0]) + TickTotal(ranges[1..])
  }

  lemma {:induction false} GridPricesExact(ranges: seq<PriceRange>, p: int)
    ensures p in GridPrices(ranges) <==> IsOnPriceGrid(p, ranges)
  {
    if ranges != [] {
      GridPricesExact(ranges[1..], p);
      if i :| 0 <= i < |ranges[1..]| && OnBand(p, ranges[1..][i]) {
        assert OnBand(p, ranges[i + 1]);
      }
      if i :| 0 <= i < |ranges| && OnBand(p, ranges[i]) {
        assert i == 0 || OnBand(p, ranges[1..][i - 1]);
      }
    }
  }

  function Below(band: PriceRange): PriceRange {
    band.(end := band.end - band.step)
  }

  /** A multiple of m below k * m is at most (k - 1) * m. */
  lemma MultipleBelow(a: int, k: int, m: int)
    requires m > 0 && a % m == 0 && a < k * m
    ensures a <= (k - 1) * m
  {
    RemainderZero(a, m);
    var q := a / m;
    if q >= k {
      MulMonotone(k, q, m);
    } else {
      MulMonotone(q, k - 1, m);
    }
  }

  lemma BelowWidth(band: PriceRange)
    requires band.step > 0 && band.start < band.end && (band.end - band.start) % band.step == 0
    ensures var below := Below(band);
            && below.start <= below.end && (below.end - below.start) % below.step == 0
            && TickCount(band) == TickCount(below) + 1
  {
    var k := (band.end - band.start) / band.step;
    RemainderZero(band.end - band.start, band.step);
    MultipleBelow(0, k, band.step);
    DivModUnique(band.end - band.step - band.start, k - 1, 0, band.step);
  }

  /** Peeling the top tick off a band. */
  lemma OnBelow(band: PriceRange, p: int)
    requires band.step > 0 && band.start < band.end && (band.end - band.start) % band.step == 0
    ensures OnBand(p, band) <==> OnBand(p, Below(band)) || p == band.end
    ensures !OnBand(band.end, Below(band))
  {
    if OnBand(p, band) && p != band.end {
      RemainderZero(band.end - band.start, band.step);
      MultipleBelow(p - band.start, (band.end - band.start) / band.step, band.step);
    }
  }

  lemma BandPeel(band: PriceRange)
    requires band.step > 0 && band.start < band.end && (band.end - band.start) % band.step == 0
    ensures BandPrices(band) == BandPrices(Below(band)) + {band.end}
    ensures band.end !in BandPrices(Below(band))
  {
    forall p ensures p in BandPrices(band) <==> p in BandPrices(Below(band)) || p == band.end {
      OnBelow(band, p);
    }
  }

  lemma {:induction false} BandPricesCount(band: PriceRange)
    requires band.step > 0 && band.start <= band.end && (band.end - band.start) % band.step == 0
    ensures |BandPrices(band)| == TickCount(band)
    decreases band.end - band.start
  {
    if band.start == band.end {
      assert BandPrices(band) == {band.start};
    } else {
      BandPeel(band);
      BelowWidth(band);
      BandPricesCount(Below(band));
    }
  }

  lemma {:induction false} GridPricesCount(ranges: seq<PriceRange>)
    requires BandsSound(ranges) && BandsDisjoint(ranges)
    ensures |GridPrices(ranges)| == TickTotal(ranges)
  {
    if ranges != [] {
      var rest := ranges[1..];
      assert BandProblem(ranges[0]).None?;
      assert BandsSound(rest) && BandsDisjoint(rest) by {
        forall i | 0 <= i < |rest| ensures BandProblem(rest[i]).None? {
          assert BandProblem(ranges[i + 1]).None?;
        }
        forall i, j | 0 <= i < j < |rest| ensures Disjoint(rest[i], rest[j]) {
          assert Disjoint(ranges[i + 1], ranges[j + 1]);
        }
      }
      GridPricesCount(rest);
      BandPricesCount(ranges[0]);
      forall p | p in BandPrices(ranges[0]) ensures p !in GridPrices(rest) {
        GridPricesExact(rest, p);
        forall i | 0 <= i < |rest| ensures !OnBand(p, rest[i]) {
          assert Disjoint(ranges[0], ranges[i + 1]);
        }
      }
    }
  }

  ghost function PricesUpTo(n: nat): (s: set<int>)
    ensures |s| == n + 1
    ensures forall p :: p in s <==> 0 <= p <= n
  {
    if n == 0 then {0} else PricesUpTo(n - 1) + {n}
  }

  /** However a book side is filled on a validated grid, it holds at most one level per tick. */
  lemma GridBound(ranges: seq<PriceRange>, prices: set<int>)
    requires ValidGrid(ranges)
    requires forall p :: p in prices ==> IsOnPriceGrid(p, ranges)
    ensures |prices| <= TickTotal(ranges) <= UNITS_PER_DOLLAR + 1
  {
    forall p ensures p in GridPrices(ranges) <==> IsOnPriceGrid(p, ranges) { GridPricesExact(ranges, p); }
    GridPricesCount(ranges);
    SubsetCount(prices, GridPrices(ranges));
    forall p | p in GridPrices(ranges) ensures IsValidYesPrice(p) { GridUnambiguous(ranges, p); }
    SubsetCount(GridPrices(ranges), PricesUpTo(UNITS_PER_DOLLAR));
  }

  // ---- which grids are accepted, spelled out ----

  /** A band of positive width within the settlement bounds, a whole number of steps wide. */
  ghost predicate WholeBand(band: PriceRange) {
    0 <= band.start < band.end <= 10_000 && band.step > 0 && exists k: int :: band.end == band.start + k * band.step
  }

  lemma WholeSteps(width: int, step: int)
    requires step > 0
    ensures width % step == 0 <==> exists k: int :: width == k * step
  {
    if width % step == 0 {
      assert width == (width / step) * step;
    }
    if k: int :| width == k * step {
      DivModUnique(width, k, 0, step);
    }
  }

  /** What is wrong with a band, if anything. */
  lemma BandAnswers(band: PriceRange)
    ensures BandProblem(band) == None <==> WholeBand(band)
    ensures BandProblem(band) == Some(PriceGridOutOfBounds) <==>
            band.step > 0 && band.start < band.end && (band.start < 0 || band.end > 10_000)
    ensures BandProblem(band) == Some(MalformedPriceGrid) <==>
            || band.step <= 0 || band.start >= band.end
            || (0 <= band.start && band.end <= 10_000 && forall k: int :: band.end != band.start + k * band.step)
    ensures BandProblem(band) in {None, Some(PriceGridOutOfBounds), Some(MalformedPriceGrid)}
  {
    if band.step > 0 {
      WholeSteps(band.end - band.start, band.step);
      if k: int :| band.end == band.start + k * band.step {
        assert band.end - band.start == k * band.step;
      }
      if k: int :| band.end - band.start == k * band.step {
        assert band.end == band.start + k * band.step;
      }
    }
  }

  predicate Covers(band: PriceRange, price: int) {
    band.start <= price <= band.end
  }

  lemma ApartIff(a: PriceRange, b: PriceRange)
    requires a.start <= a.end && b.start <= b.end
    ensures Disjoint(a, b) <==> forall p: int :: !(Covers(a, p) && Covers(b, p))
  {
    var p := if a.start >= b.start then a.start else b.start;
    assert Disjoint(a, b) || (Covers(a, p) && Covers(b, p));
  }

  /** The accepted grids: at least one band, each whole, and no price in the span of two. */
  lemma GridsAccepted(ranges: seq<PriceRange>)
    ensures ValidGrid(ranges) <==>
      && ranges != [] && (forall i :: 0 <= i < |ranges| ==> WholeBand(ranges[i]))
      && forall i, j, p: int :: 0 <= i < j < |ranges| ==> !(Covers(ranges[i], p) && Covers(ranges[j], p))
  {
    BandsSoundIff(ranges);
    if BandsSound(ranges) {
      ApartThroughout(ranges);
    }
  }

  lemma BandsSoundIff(ranges: seq<PriceRange>)
    ensures BandsSound(ranges) <==> forall i :: 0 <= i < |ranges| ==> WholeBand(ranges[i])
  {
    forall i | 0 <= i < |ranges| ensures BandProblem(ranges[i]).None? <==> WholeBand(ranges[i]) {
      BandAnswers(ranges[i]);
    }
  }

  lemma ApartThroughout(ranges: seq<PriceRange>)
    requires BandsSound(ranges)
    ensures BandsDisjoint(ranges) <==>
            forall i, j, p: int :: 0 <= i < j < |ranges| ==> !(Covers(ranges[i], p) && Covers(ranges[j], p))
  {
    forall i, j | 0 <= i < j < |ranges|
      ensures Disjoint(ranges[i], ranges[j]) <==> forall p: int :: !(Covers(ranges[i], p) && Covers(ranges[j], p))
    {
      assert BandProblem(ranges[i]).None? && BandProblem(ranges[j]).None?;
      ApartIff(ranges[i], ranges[j]);
    }
  }
}
