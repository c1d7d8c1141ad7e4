/** Which answer the book gives to which message, reason by reason. */
module BookAnswers {
  import opened Arithmetic
  import opened Book
  import opened BookRuns
  import opened Events
  import opened Prices
  import opened Wrappers

  // ---- deltas ----

  /** The delta is for this book and its subscription, and the book is valid. */
  ghost predicate Addressed(market: Market, b: BookState, d: BookDelta) {
    d.ticker == market.ticker && b.IsValid() && b.subscription == Some(d.subscription) && b.lastSequence.Some?
  }

  /** Numbers after n were left out: d is later than the one that follows n. */
  predicate SkipsAhead(n: Uint64, sequence: Uint64) {
    if n == TWO64 - 1 then sequence > 0 else sequence > n + 1
  }

  predicate NotNew(n: Uint64, sequence: Uint64) {
    n < TWO64 - 1 && sequence <= n
  }

  ghost predicate InSequence(market: Market, b: BookState, d: BookDelta) {
    Addressed(market, b, d) && if b.lastSequence.value == TWO64 - 1 then d.sequence == 0 else d.sequence == b.lastSequence.value + 1
  }

  predicate InBounds(price: int) {
    0 <= price <= 10_000
  }

  /** On some band of the grid; without a grid every price is. */
  predicate OnGrid(grid: seq<PriceRange>, price: int) {
    grid != [] ==> exists i ::
      && 0 <= i < |grid| && grid[i].step > 0 && grid[i].start <= price <= grid[i].end
      && (price - grid[i].start) % grid[i].step == 0
  }

  ghost predicate Placed(market: Market, b: BookState, d: BookDelta) {
    InSequence(market, b, d) && InBounds(d.price) && OnGrid(market.grid, d.price)
  }

  lemma GridSpelledOut(grid: seq<PriceRange>, price: int)
    ensures PriceAllowed(grid, price) <==> InBounds(price) && OnGrid(grid, price)
    ensures ValidatePrice(grid, price) == Some(PriceOutOfBounds) <==> !InBounds(price)
    ensures ValidatePrice(grid, price) == Some(PriceOffGrid) <==> InBounds(price) && !OnGrid(grid, price)
  {
    if i :| 0 <= i < |grid| && OnBand(price, grid[i]) {
      assert grid[i].step > 0;
    }
    if grid != [] && OnGrid(grid, price) {
      var i :| && 0 <= i < |grid| && grid[i].step > 0 && grid[i].start <= price <= grid[i].end
               && (price - grid[i].start) % grid[i].step == 0;
      assert OnBand(price, grid[i]);
    }
  }

  /** Every reason a delta can be refused for, exactly when it is, and what is left of the book. */
  lemma DeltaAnswers(market: Market, b: BookState, d: BookDelta)
    requires Sound(market, b)
    ensures var (after, answer) := Step(market, b, ReceiveDelta(d));
      && (answer == Some(WrongMarket) <==> d.ticker != market.ticker)
      && (answer == Some(DeltaBeforeSnapshot) <==> d.ticker == market.ticker && !b.IsValid())
      && (answer == Some(SubscriptionMismatch) <==>
            d.ticker == market.ticker && b.IsValid() && b.subscription != Some(d.subscription))
      && (answer == Some(SequenceGap) <==> Addressed(market, b, d) && SkipsAhead(b.lastSequence.value, d.sequence))
      && (answer == Some(SequenceRegressed) <==> Addressed(market, b, d) && NotNew(b.lastSequence.value, d.sequence))
      && (answer == Some(PriceOutOfBounds) <==> InSequence(market, b, d) && !InBounds(d.price))
      && (answer == Some(PriceOffGrid) <==> InSequence(market, b, d) && InBounds(d.price) && !OnGrid(market.grid, d.price))
      && (answer == Some(QuantityWouldGoNegative) <==> Placed(market, b, d) && b.Level(d.side, d.price) + d.delta < 0)
      && (answer == Some(QuantityOverflow) <==> Placed(market, b, d) && b.Level(d.side, d.price) + d.delta > INT64_MAX)
      && (answer == None <==> Placed(market, b, d) && 0 <= b.Level(d.side, d.price) + d.delta <= INT64_MAX)
      && (answer in {Some(WrongMarket), Some(DeltaBeforeSnapshot)} ==> after == b)
      && (answer !in {None, Some(WrongMarket), Some(DeltaBeforeSnapshot)} ==> after == EMPTY_BOOK)
  {
    GridSpelledOut(market.grid, d.price);
  }

  // ---- snapshots ----

  predicate Fine(grid: seq<PriceRange>, level: BookLevel) {
    InBounds(level.price) && OnGrid(grid, level.price) && level.quantity >= 0
  }

  /** Entry i is the first of the list that is not fine. */
  ghost predicate FirstFault(grid: seq<PriceRange>, entries: seq<BookLevel>, i: nat) {
    i < |entries| && !Fine(grid, entries[i]) && forall j :: 0 <= j < i ==> Fine(grid, entries[j])
  }

  function Fault(grid: seq<PriceRange>, level: BookLevel): BookRejection {
    if !InBounds(level.price) then PriceOutOfBounds else if !OnGrid(grid, level.price) then PriceOffGrid else NegativeSnapshotLevel
  }

  lemma {:induction false} ProblemIsFirstFault(grid: seq<PriceRange>, entries: seq<BookLevel>) returns (i: nat)
    ensures i <= |entries| && forall j :: 0 <= j < i ==> Fine(grid, entries[j])
    ensures if i < |entries| then FirstFault(grid, entries, i) && FirstProblem(grid, entries) == Some(Fault(grid, entries[i]))
            else FirstProblem(grid, entries) == None
  {
    if entries == [] {
      i := 0;
    } else {
      GridSpelledOut(grid, entries[0].price);
      if !Fine(grid, entries[0]) {
        i := 0;
      } else {
        var k := ProblemIsFirstFault(grid, entries[1..]);
        i := k + 1;
        forall j | 0 <= j < i ensures Fine(grid, entries[j]) {
          assert j > 0 ==> entries[j] == entries[1..][j - 1];
        }
      }
    }
  }

  /** Refused for r: that is what is wrong with the first entry that is not fine. */
  ghost predicate RefusedFor(grid: seq<PriceRange>, entries: seq<BookLevel>, r: BookRejection) {
    exists i: nat :: FirstFault(grid, entries, i) && r == Fault(grid, entries[i])
  }

  lemma ProblemExactly(grid: seq<PriceRange>, entries: seq<BookLevel>)
    ensures FirstProblem(grid, entries) == None <==> forall e :: e in entries ==> Fine(grid, e)
    ensures forall r :: FirstProblem(grid, entries) == Some(r) <==> RefusedFor(grid, entries, r)
  {
    var i := ProblemIsFirstFault(grid, entries);
    if i < |entries| {
      assert entries[i] in entries;
      forall k: nat | FirstFault(grid, entries, k) ensures k == i {}
    } else {
      forall e | e in entries ensures Fine(grid, e) {
        var k :| 0 <= k < |entries| && entries[k] == e;
      }
    }
  }

  /**
   A snapshot is refused for its market, or for its first entry, bids before asks, that is out of
   bounds, else off the grid, else negative; only the last kind of refusal empties the book.
   */
  lemma SnapshotAnswers(market: Market, b: BookState, s: BookSnapshot)
    requires Sound(market, b)
    ensures var (after, answer) := Step(market, b, ReceiveSnapshot(s));
      && (answer == Some(WrongMarket) <==> s.ticker != market.ticker)
      && (answer == None <==> s.ticker == market.ticker && forall e :: e in s.bids + s.asks ==> Fine(market.grid, e))
      && (forall r | r != WrongMarket ::
            answer == Some(r) <==> s.ticker == market.ticker && RefusedFor(market.grid, s.bids + s.asks, r))
      && (answer == Some(WrongMarket) ==> after == b)
      && (answer.Some? && answer != Some(WrongMarket) ==> after == EMPTY_BOOK)
      && (answer == None ==> after.IsValid() && after.lastSequence == Some(s.sequence) && after.subscription == Some(s.subscription))
  {
    ProblemExactly(market.grid, s.bids + s.asks);
    assert !RefusedFor(market.grid, s.bids + s.asks, WrongMarket);
  }
}
