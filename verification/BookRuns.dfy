/** The book over whole runs: refinement to "snapshot plus deltas", recovery, and "never silently wrong". */
module BookRuns {
  import opened Arithmetic
  import opened Book
  import opened Collections
  import opened Events
  import opened Prices
  import opened Sequences
  import opened Sorting
  import opened Wrappers

  /** What can reach one book. A lost message is one that does not appear; repeats and reorderings just appear. */
  datatype Input = ReceiveSnapshot(s: BookSnapshot) | ReceiveDelta(d: BookDelta) | Disconnect

  function Step(market: Market, b: BookState, input: Input): (result: (BookState, Option<BookRejection>))
    requires Sound(market, b)
    ensures Sound(market, result.0)
  {
    match input
    case ReceiveSnapshot(s) => SnapshotKeeps(market, b, s); SnapshotStep(market, b, s)
    case ReceiveDelta(d) => DeltaKeeps(market, b, d); DeltaStep(market, b, d)
    case Disconnect => (EMPTY_BOOK, None)
  }

  function Run(market: Market, start: BookState, inputs: seq<Input>): (b: BookState)
    requires Sound(market, start)
    ensures Sound(market, b)
  {
    if inputs == [] then start
    else Step(market, Run(market, start, inputs[..|inputs| - 1]), inputs[|inputs| - 1]).0
  }

  lemma {:induction false} RunConcat(market: Market, start: BookState, a: seq<Input>, c: seq<Input>)
    requires Sound(market, start)
    ensures Run(market, start, a + c) == Run(market, Run(market, start, a), c)
  {
    if c == [] {
      assert a + c == a;
    } else {
      assert (a + c)[..|a + c| - 1] == a + c[..|c| - 1];
      RunConcat(market, start, a, c[..|c| - 1]);
    }
  }

  /** A rejection empties the book or leaves it alone, exactly as InvalidatesBook says. */
  lemma RejectionEffect(market: Market, b: BookState, input: Input)
    requires Sound(market, b)
    ensures var (after, rejection) := Step(market, b, input);
      rejection.Some? ==> after == if InvalidatesBook(rejection.value) then EMPTY_BOOK else b
    ensures var (after, rejection) := Step(market, b, input);
      b.IsValid() && !after.IsValid() ==> input.Disconnect? || (rejection.Some? && InvalidatesBook(rejection.value))
  {
    match input
    case ReceiveSnapshot(s) => SnapshotKeeps(market, b, s);
    case ReceiveDelta(d) => DeltaKeeps(market, b, d);
    case Disconnect =>
  }

  // ---- soundness is reachability ----

  function EntriesOf(keys: seq<int>, levels: Levels): seq<BookLevel>
    requires forall i :: 0 <= i < |keys| ==> keys[i] in levels
  {
    if keys == [] then []
    else EntriesOf(keys[..|keys| - 1], levels) + [BookLevel(keys[|keys| - 1], levels[keys[|keys| - 1]])]
  }

  lemma {:induction false} EntriesKeep(keys: seq<int>, levels: Levels)
    requires forall i :: 0 <= i < |keys| ==> keys[i] in levels && levels[keys[i]] > 0
    ensures forall p :: p in LevelsOf(EntriesOf(keys, levels)) ==> p in levels && LevelsOf(EntriesOf(keys, levels))[p] == levels[p]
    ensures forall p :: p in LevelsOf(EntriesOf(keys, levels)) <==> p in keys
  {
    if keys != [] {
      var n := |keys| - 1;
      EntriesKeep(keys[..n], levels);
      var entries := EntriesOf(keys, levels);
      assert entries[..|entries| - 1] == EntriesOf(keys[..n], levels);
      assert keys == keys[..n] + [keys[n]];
    }
  }

  lemma {:induction false} EntriesAllowed(grid: seq<PriceRange>, keys: seq<int>, levels: Levels, i: nat)
    requires LevelsSound(grid, levels) && forall i :: 0 <= i < |keys| ==> keys[i] in levels
    requires i < |EntriesOf(keys, levels)|
    ensures LevelProblem(grid, EntriesOf(keys, levels)[i]).None?
  {
    if i < |EntriesOf(keys[..|keys| - 1], levels)| {
      EntriesAllowed(grid, keys[..|keys| - 1], levels, i);
    }
  }

  lemma SideListed(grid: seq<PriceRange>, levels: Levels) returns (entries: seq<BookLevel>)
    requires LevelsSound(grid, levels)
    ensures LevelsOf(entries) == levels && forall i :: 0 <= i < |entries| ==> LevelProblem(grid, entries[i]).None?
  {
    var keys := Ascending(levels.Keys);
    forall i | 0 <= i < |keys| ensures keys[i] in levels && levels[keys[i]] > 0 {
      assert keys[i] in keys;
    }
    entries := EntriesOf(keys, levels);
    EntriesKeep(keys, levels);
    if LevelsOf(entries) != levels {
      var k := MapDifference(LevelsOf(entries), levels);
    }
    forall i | 0 <= i < |entries| ensures LevelProblem(grid, entries[i]).None? {
      EntriesAllowed(grid, keys, levels, i);
    }
  }

  /** Every valid sound book is what some snapshot makes of an empty one: what holds of sound books is about real ones. */
  lemma SoundIsReached(market: Market, b: BookState) returns (s: BookSnapshot)
    requires Sound(market, b) && b.IsValid()
    ensures SnapshotStep(market, EMPTY_BOOK, s) == (b, None)
  {
    var bids := SideListed(market.grid, b.bids);
    var asks := SideListed(market.grid, b.asks);
    s := BookSnapshot(market.ticker, b.subscription.value, b.lastSequence.value, bids, asks);
    NoneFound(market.grid, bids);
    NoneFound(market.grid, asks);
    FirstProblemConcat(market.grid, bids, asks);
  }

  lemma {:induction false} NoneFound(grid: seq<PriceRange>, levels: seq<BookLevel>)
    requires forall i :: 0 <= i < |levels| ==> LevelProblem(grid, levels[i]).None?
    ensures FirstProblem(grid, levels).None?
  {
    if levels != [] {
      NoneFound(grid, levels[1..]);
    }
  }

  // ---- refinement ----

  predicate OwnSnapshot(market: Market, input: Input) {
    input.ReceiveSnapshot? && input.s.ticker == market.ticker
  }

  predicate OwnDelta(market: Market, input: Input) {
    input.ReceiveDelta? && input.d.ticker == market.ticker
  }

  function Entries(s: BookSnapshot, side: BookSide): seq<BookLevel> {
    if side.Bid? then s.bids else s.asks
  }

  /** Total change this market's deltas ask for at one level. */
  function DeltaSum(market: Market, inputs: seq<Input>, side: BookSide, price: int): int {
    if inputs == [] then 0
    else
      var last := inputs[|inputs| - 1];
      DeltaSum(market, inputs[..|inputs| - 1], side, price)
      + if OwnDelta(market, last) && last.d.side == side && last.d.price == price then last.d.delta else 0
  }

  function DeltaCount(market: Market, inputs: seq<Input>): nat {
    if inputs == [] then 0
    else DeltaCount(market, inputs[..|inputs| - 1]) + if OwnDelta(market, inputs[|inputs| - 1]) then 1 else 0
  }

  /** `b` is what snapshot `s` plus the deltas in `later` add up to. */
  ghost predicate AddsUp(market: Market, s: BookSnapshot, later: seq<Input>, b: BookState) {
    && b.subscription == Some(s.subscription)
    && b.lastSequence == Some((s.sequence + DeltaCount(market, later)) % TWO64)
    && (forall i :: 0 <= i < |later| ==> !later[i].Disconnect?)
    && forall side, p :: b.Level(side, p) == SizeIn(LevelsOf(Entries(s, side)), p) + DeltaSum(market, later, side, p)
  }

  /** `k` is the position of this market's latest snapshot in the run. */
  ghost predicate LatestSnapshot(market: Market, inputs: seq<Input>, k: nat) {
    && k < |inputs| && OwnSnapshot(market, inputs[k])
    && forall i :: k < i < |inputs| ==> !OwnSnapshot(market, inputs[i])
  }

  lemma {:induction false} ValidNeedsSnapshot(market: Market, inputs: seq<Input>) returns (k: nat)
    requires Run(market, EMPTY_BOOK, inputs).IsValid()
    ensures LatestSnapshot(market, inputs, k)
  {
    var n := |inputs| - 1;
    if OwnSnapshot(market, inputs[n]) {
      k := n;
    } else {
      StaysValid(market, Run(market, EMPTY_BOOK, inputs[..n]), inputs[n]);
      k := ValidNeedsSnapshot(market, inputs[..n]);
      assert forall i :: k < i < n ==> inputs[..n][i] == inputs[i];
    }
  }

  /** Only a snapshot makes a book valid; anything else adds its own change to a book that was valid. */
  lemma StaysValid(market: Market, b: BookState, input: Input)
    requires Sound(market, b) && !OwnSnapshot(market, input) && Step(market, b, input).0.IsValid()
    ensures b.IsValid() && !input.Disconnect?
    ensures var after := Step(market, b, input).0;
      && after.subscription == b.subscription
      && after.lastSequence == Some(if OwnDelta(market, input) then NextSequence(b.lastSequence.value) else b.lastSequence.value)
      && forall side, p :: after.Level(side, p) == b.Level(side, p) + DeltaSum(market, [input], side, p)
  {
    RejectionEffect(market, b, input);
    if input.ReceiveDelta? { DeltaKeeps(market, b, input.d); }
    assert [input][..0] == [];
  }

  lemma LastApart(market: Market, before: seq<Input>, last: Input, side: BookSide, price: int)
    ensures DeltaSum(market, before + [last], side, price) ==
            DeltaSum(market, before, side, price) + DeltaSum(market, [last], side, price)
    ensures DeltaCount(market, before + [last]) == DeltaCount(market, before) + if OwnDelta(market, last) then 1 else 0
  {
    assert (before + [last])[..|before|] == before;
    assert [last][..0] == [];
  }

  lemma {:induction false} SinceSnapshot(market: Market, inputs: seq<Input>, k: nat)
    requires LatestSnapshot(market, inputs, k)
    requires Run(market, EMPTY_BOOK, inputs).IsValid()
    ensures AddsUp(market, inputs[k].s, inputs[k + 1..], Run(market, EMPTY_BOOK, inputs))
  {
    var n := |inputs| - 1;
    var b := Run(market, EMPTY_BOOK, inputs[..n]);
    if k == n {
      SnapshotKeeps(market, b, inputs[k].s);
      assert inputs[k + 1..] == [];
    } else {
      StaysValid(market, b, inputs[n]);
      SinceSnapshot(market, inputs[..n], k);
      DropSlice(inputs, k);
      AddOne(market, inputs[k].s, inputs[..n][k + 1..], inputs[n], b);
    }
  }

  lemma NextAfter(n: nat)
    ensures NextSequence(n % TWO64) == (n + 1) % TWO64
  {}

  lemma DropSlice<T>(xs: seq<T>, k: nat)
    requires k < |xs| - 1
    ensures xs[k + 1..] == xs[..|xs| - 1][k + 1..] + [xs[|xs| - 1]]
  {}

  lemma AddOne(market: Market, s: BookSnapshot, before: seq<Input>, last: Input, b: BookState)
    requires Sound(market, b) && b.IsValid() && AddsUp(market, s, before, b)
    requires !OwnSnapshot(market, last) && Step(market, b, last).0.IsValid()
    ensures AddsUp(market, s, before + [last], Step(market, b, last).0)
  {
    StaysValid(market, b, last);
    var after := Step(market, b, last).0;
    LastApart(market, before, last, Bid, 0);
    NextAfter(s.sequence + DeltaCount(market, before));
    forall side, p
      ensures after.Level(side, p) == SizeIn(LevelsOf(Entries(s, side)), p) + DeltaSum(market, before + [last], side, p)
    {
      LastApart(market, before, last, side, p);
      assert b.Level(side, p) == SizeIn(LevelsOf(Entries(s, side)), p) + DeltaSum(market, before, side, p);
    }
  }

  /** A snapshot for this market makes the past irrelevant. */
  lemma Recovery(market: Market, start: BookState, inputs: seq<Input>, k: nat)
    requires Sound(market, start) && k < |inputs| && OwnSnapshot(market, inputs[k])
    ensures Run(market, start, inputs[k..]) == Run(market, EMPTY_BOOK, inputs)
  {
    var before := Run(market, EMPTY_BOOK, inputs[..k]);
    assert inputs == inputs[..k] + inputs[k..];
    RunConcat(market, EMPTY_BOOK, inputs[..k], inputs[k..]);
    assert inputs[k..] == [inputs[k]] + inputs[k + 1..];
    RunConcat(market, start, [inputs[k]], inputs[k + 1..]);
    RunConcat(market, before, [inputs[k]], inputs[k + 1..]);
    RunOne(market, start, inputs[k]);
    RunOne(market, before, inputs[k]);
  }

  lemma RunOne(market: Market, start: BookState, input: Input)
    requires Sound(market, start)
    ensures Run(market, start, [input]) == Step(market, start, input).0
  {
    assert [input][..0] == [];
  }

  /**
   A valid book is its latest snapshot plus every delta received since, and nothing else: in
   particular every one of those deltas was accepted, and nothing before the snapshot matters.
   */
  lemma Refinement(market: Market, inputs: seq<Input>) returns (k: nat)
    requires Run(market, EMPTY_BOOK, inputs).IsValid()
    ensures LatestSnapshot(market, inputs, k)
    ensures AddsUp(market, inputs[k].s, inputs[k + 1..], Run(market, EMPTY_BOOK, inputs))
    ensures Run(market, EMPTY_BOOK, inputs[k..]) == Run(market, EMPTY_BOOK, inputs)
  {
    k := ValidNeedsSnapshot(market, inputs);
    SinceSnapshot(market, inputs, k);
    Recovery(market, EMPTY_BOOK, inputs, k);
  }

  // ---- one message, several spellings ----

  /** Entries that repeat a price agree on its size, those without size aside. */
  ghost predicate OneSizePerPrice(levels: seq<BookLevel>) {
    forall i, j :: 0 <= i < j < |levels| && levels[i].price == levels[j].price && levels[i].quantity > 0 && levels[j].quantity > 0 ==>
      levels[i].quantity == levels[j].quantity
  }

  /** The same entries in another order, where order does not matter. */
  ghost predicate SameLevels(a: seq<BookLevel>, b: seq<BookLevel>) {
    a == b || (multiset(a) == multiset(b) && OneSizePerPrice(b))
  }

  /** Messages that tell a book the same: the order of entries and the time of sending aside. */
  ghost predicate SameMessage(x: Input, y: Input) {
    match (x, y)
    case (ReceiveSnapshot(s), ReceiveSnapshot(t)) =>
      && s.ticker == t.ticker && s.subscription == t.subscription && s.sequence == t.sequence
      && SameLevels(s.bids, t.bids) && SameLevels(s.asks, t.asks)
    case (ReceiveDelta(d), ReceiveDelta(e)) => d == e.(exchangeTime := d.exchangeTime)
    case (Disconnect, Disconnect) => true
    case _ => false
  }

  lemma {:induction false} LevelsOfPositive(levels: seq<BookLevel>)
    ensures forall p :: p in LevelsOf(levels) ==> LevelsOf(levels)[p] > 0
  {
    if levels != [] {
      LevelsOfPositive(levels[..|levels| - 1]);
    }
  }

  /** Some entry at this price carries size. */
  ghost predicate Rests(levels: seq<BookLevel>, price: int) {
    exists i :: 0 <= i < |levels| && levels[i].price == price && levels[i].quantity > 0
  }

  lemma RestsMoves(a: seq<BookLevel>, b: seq<BookLevel>, price: int)
    requires multiset(a) == multiset(b)
    ensures Rests(a, price) ==> Rests(b, price)
  {
    if i :| 0 <= i < |a| && a[i].price == price && a[i].quantity > 0 {
      assert a[i] in multiset(b);
      var k :| 0 <= k < |b| && b[k] == a[i];
    }
  }

  lemma SameSize(a: seq<BookLevel>, b: seq<BookLevel>, price: int, x: Int64, y: Int64)
    requires multiset(a) == multiset(b) && OneSizePerPrice(a)
    requires IsLastPositive(a, price, x) && IsLastPositive(b, price, y)
    ensures x == y
  {
    RestsMoves(a, b, price);
    RestsMoves(b, a, price);
    if Rests(a, price) {
      var m :| 0 <= m < |b| && b[m] == BookLevel(price, y) && y > 0;
      assert b[m] in multiset(a);
      var n :| 0 <= n < |a| && a[n] == b[m];
      var k :| 0 <= k < |a| && a[k] == BookLevel(price, x) && x > 0;
      assert k < n || n < k || k == n;
    }
  }

  lemma SameLevelsSameSide(a: seq<BookLevel>, b: seq<BookLevel>)
    requires SameLevels(a, b)
    ensures LevelsOf(a) == LevelsOf(b)
  {
    if LevelsOf(a) != LevelsOf(b) {
      LevelsOfPositive(a);
      LevelsOfPositive(b);
      var p := MapDifference(LevelsOf(a), LevelsOf(b));
      LevelsOfLastPositive(a, p);
      LevelsOfLastPositive(b, p);
      SameSize(b, a, p, SizeIn(LevelsOf(b), p), SizeIn(LevelsOf(a), p));
    }
  }

  /** The book of a list of entries with entry i moved to its end. */
  lemma MovedLast(levels: seq<BookLevel>, i: nat) returns (moved: seq<BookLevel>)
    requires i < |levels| && levels[i].quantity > 0
    ensures multiset(moved) == multiset(levels) && SizeIn(LevelsOf(moved), levels[i].price) == levels[i].quantity
  {
    var rest := levels[..i] + levels[i + 1..];
    moved := rest + [levels[i]];
    assert moved[..|rest|] == rest;
    assert levels == levels[..i] + ([levels[i]] + levels[i + 1..]);
  }

  /**
   The order of a snapshot's entries, which an unstable sort leaves open among equal prices, does not
   matter to the book exactly if entries that repeat a price agree on its size.
   */
  lemma OrderIrrelevantIff(levels: seq<BookLevel>)
    ensures (forall other :: multiset(other) == multiset(levels) ==> LevelsOf(other) == LevelsOf(levels)) <==> OneSizePerPrice(levels)
  {
    if OneSizePerPrice(levels) {
      forall other | multiset(other) == multiset(levels) ensures LevelsOf(other) == LevelsOf(levels) {
        SameLevelsSameSide(other, levels);
      }
    } else {
      var i, j :| 0 <= i < j < |levels| && levels[i].price == levels[j].price && levels[i].quantity > 0
                  && levels[j].quantity > 0 && levels[i].quantity != levels[j].quantity;
      var x := MovedLast(levels, i);
      var y := MovedLast(levels, j);
      assert LevelsOf(x) != LevelsOf(y);
    }
  }

  lemma {:induction false} ProblemFound(grid: seq<PriceRange>, levels: seq<BookLevel>, i: nat)
    requires i < |levels| && LevelProblem(grid, levels[i]).Some?
    ensures FirstProblem(grid, levels).Some?
  {
    if i > 0 {
      ProblemFound(grid, levels[1..], i - 1);
    }
  }

  /** Whether a list has a problem does not depend on its order. */
  lemma SameProblems(grid: seq<PriceRange>, a: seq<BookLevel>, b: seq<BookLevel>)
    requires multiset(a) == multiset(b) && FirstProblem(grid, a).None?
    ensures FirstProblem(grid, b).None?
  {
    if FirstProblem(grid, b).Some? {
      var i := ProblemAt(grid, b);
      assert b[i] in multiset(a);
      var k :| 0 <= k < |a| && a[k] == b[i];
      ProblemFound(grid, a, k);
    }
  }

  lemma {:induction false} ProblemAt(grid: seq<PriceRange>, levels: seq<BookLevel>) returns (i: nat)
    requires FirstProblem(grid, levels).Some?
    ensures i < |levels| && LevelProblem(grid, levels[i]).Some?
  {
    if LevelProblem(grid, levels[0]).Some? {
      i := 0;
    } else {
      var k := ProblemAt(grid, levels[1..]);
      i := k + 1;
    }
  }

  /** Spellings of one message leave a book in one state. */
  lemma SameEffect(market: Market, b: BookState, x: Input, y: Input)
    requires Sound(market, b) && SameMessage(x, y)
    ensures Step(market, b, x).0 == Step(market, b, y).0
  {
    if x.ReceiveSnapshot? {
      SameSnapshotEffect(market, b, x.s, y.s);
    }
  }

  lemma SameSnapshotEffect(market: Market, b: BookState, s: BookSnapshot, t: BookSnapshot)
    requires SameMessage(ReceiveSnapshot(s), ReceiveSnapshot(t))
    ensures SnapshotStep(market, b, s).0 == SnapshotStep(market, b, t).0
  {
    SameLevelsSameSide(s.bids, t.bids);
    SameLevelsSameSide(s.asks, t.asks);
    assert multiset(s.bids + s.asks) == multiset(t.bids + t.asks);
    if FirstProblem(market.grid, s.bids + s.asks).None? {
      SameProblems(market.grid, s.bids + s.asks, t.bids + t.asks);
    } else if FirstProblem(market.grid, t.bids + t.asks).None? {
      SameProblems(market.grid, t.bids + t.asks, s.bids + s.asks);
    }
  }

  // ---- never silently wrong ----

  /**
   `venue(sid, n)` is the one message the venue numbered n on subscription sid. The venue's own level
   after message n, as an exact integer: from an empty book, through messages 0 to n.
   */
  function VenueLevel(market: Market, venue: (int, nat) -> Input, sid: int, n: nat, side: BookSide, price: int): int {
    var message := venue(sid, n);
    if OwnSnapshot(market, message) then SizeIn(LevelsOf(Entries(message.s, side)), price)
    else
      (if n == 0 then 0 else VenueLevel(market, venue, sid, n - 1, side, price))
      + if OwnDelta(market, message) && message.d.side == side && message.d.price == price then message.d.delta else 0
  }

  /** The venue message of that subscription and number. */
  function Own(venue: (int, nat) -> Input, input: Input): Input {
    match input
    case ReceiveSnapshot(s) => venue(s.subscription, s.sequence)
    case ReceiveDelta(d) => venue(d.subscription, d.sequence)
    case Disconnect => Disconnect
  }

  /** The input is a spelling of the venue message of that subscription and number. */
  ghost predicate Named(venue: (int, nat) -> Input, input: Input) {
    SameMessage(input, Own(venue, input))
  }

  /** No delta of this market is numbered 0; the venue numbers from 1. */
  predicate Numbered(market: Market, input: Input) {
    OwnDelta(market, input) ==> input.d.sequence >= 1
  }

  ghost predicate AgreesWithVenue(market: Market, venue: (int, nat) -> Input, b: BookState)
    requires b.lastSequence.Some? && b.subscription.Some?
  {
    forall side, p :: b.Level(side, p) == VenueLevel(market, venue, b.subscription.value, b.lastSequence.value, side, p)
  }

  /**
   Whatever the channel drops, repeats, reorders or cuts off, a book that says it is valid holds
   exactly the venue's levels as of the sequence number it reports. Only messages since some point where
   the book was not valid matter, so each connection may number its subscriptions and messages anew.
   */
  lemma {:induction false} NeverSilentlyWrong(market: Market, venue: (int, nat) -> Input, inputs: seq<Input>, since: nat)
    requires since <= |inputs| && !Run(market, EMPTY_BOOK, inputs[..since]).IsValid()
    requires forall i :: since <= i < |inputs| ==> Named(venue, inputs[i]) && Numbered(market, inputs[i])
    ensures var b := Run(market, EMPTY_BOOK, inputs);
      b.IsValid() ==> AgreesWithVenue(market, venue, b)
  {
    if |inputs| == since {
      FullPrefix(inputs);
    } else {
      var n := |inputs| - 1;
      FrontPrefix(inputs, since);
      NeverSilentlyWrong(market, venue, inputs[..n], since);
      VenueStep(market, venue, Run(market, EMPTY_BOOK, inputs[..n]), inputs[n]);
    }
  }

  lemma VenueStep(market: Market, venue: (int, nat) -> Input, b: BookState, input: Input)
    requires Sound(market, b) && Named(venue, input) && Numbered(market, input)
    requires !OwnSnapshot(market, input) && b.IsValid() ==> AgreesWithVenue(market, venue, b)
    ensures var after := Step(market, b, input).0;
      after.IsValid() ==> AgreesWithVenue(market, venue, after)
  {
    SameEffect(market, b, input, Own(venue, input));
    OwnStep(market, venue, b, Own(venue, input));
  }

  lemma OwnStep(market: Market, venue: (int, nat) -> Input, b: BookState, input: Input)
    requires Sound(market, b) && Own(venue, input) == input && Numbered(market, input)
    requires !OwnSnapshot(market, input) && b.IsValid() ==> AgreesWithVenue(market, venue, b)
    ensures var after := Step(market, b, input).0;
      after.IsValid() ==> AgreesWithVenue(market, venue, after)
  {
    RejectionEffect(market, b, input);
    var (after, rejection) := Step(market, b, input);
    if rejection.None? && input.ReceiveDelta? {
      DeltaKeeps(market, b, input.d);
      forall side, p ensures after.Level(side, p) ==
        VenueLevel(market, venue, after.subscription.value, after.lastSequence.value, side, p)
      {
        assert b.Level(side, p) ==
          VenueLevel(market, venue, b.subscription.value, b.lastSequence.value, side, p);
      }
    }
  }

  // ---- number 0 after 2^64 - 1 ----

  lemma NoLevelsMeansEmpty(market: Market, b: BookState)
    requires Sound(market, b) && b.IsValid()
    ensures (forall side, p :: b.Level(side, p) == 0) <==> b.bids == map[] && b.asks == map[]
  {
    if b.bids != map[] {
      var p := Member(b.bids.Keys);
      assert b.Level(Bid, p) > 0;
    } else if b.asks != map[] {
      var p := Member(b.asks.Keys);
      assert b.Level(Ask, p) > 0;
    }
  }

  /**
   A book at 2^64 - 1 expects 0. When it accepts a delta the venue numbered 0, the result is the
   venue's book after message 0 exactly if the book held nothing.
   */
  lemma NumberZeroAgreesIff(market: Market, venue: (int, nat) -> Input, b: BookState, d: BookDelta)
    requires Sound(market, b) && DeltaStep(market, b, d).1.None?
    requires d.sequence == 0 && venue(d.subscription, 0) == ReceiveDelta(d)
    ensures b.lastSequence == Some(TWO64 - 1)
    ensures AgreesWithVenue(market, venue, Step(market, b, ReceiveDelta(d)).0) <==> b.bids == map[] && b.asks == map[]
  {
    DeltaKeeps(market, b, d);
    var after := Step(market, b, ReceiveDelta(d)).0;
    forall side, p
      ensures after.Level(side, p) == VenueLevel(market, venue, d.subscription, 0, side, p) <==> b.Level(side, p) == 0
    {}
    NoLevelsMeansEmpty(market, b);
  }

  /** Such a run: the valid book holds 15 where the venue's book, begun with message 0, holds 5. */
  lemma WrapAroundBreaksIt(venue: (int, nat) -> Input)
    requires venue(1, TWO64 - 1) == ReceiveSnapshot(BookSnapshot("M", 1, TWO64 - 1, [BookLevel(5000, 10)], []))
    requires venue(1, 0) == ReceiveDelta(BookDelta("M", 1, 0, Bid, 5000, 5, None))
    ensures var market, inputs := Market("M", []), [venue(1, TWO64 - 1), venue(1, 0)];
      && (forall i :: 0 <= i < |inputs| ==> Named(venue, inputs[i]))
      && var b := Run(market, EMPTY_BOOK, inputs);
         && b.IsValid() && b.Level(Bid, 5000) == 15 && VenueLevel(market, venue, 1, 0, Bid, 5000) == 5
         && !AgreesWithVenue(market, venue, b)
  {
    var market := Market("M", []);
    var s, d := venue(1, TWO64 - 1), venue(1, 0);
    assert [s, d][..1] == [s] && [s][..0] == [];
    assert s.s.bids[..0] == [];
    assert LevelsOf(s.s.bids) == map[5000 := 10];
    var all := s.s.bids + s.s.asks;
    assert all == [BookLevel(5000, 10)] && all[1..] == [];
    var b1 := Run(market, EMPTY_BOOK, [s]);
    assert b1 == Step(market, EMPTY_BOOK, s).0;
    assert b1.Level(Bid, 5000) == 10;
    var b := Run(market, EMPTY_BOOK, [s, d]);
    assert b.Level(Bid, 5000) == 15;
  }

  // ---- and not by being invalid all the time ----

  /** What this market's messages must be for an undisturbed book to follow them. */
  ghost predicate Acceptable(market: Market, venue: (int, nat) -> Input, sid: int, n: nat) {
    match venue(sid, n)
    case ReceiveSnapshot(s) =>
      s.ticker == market.ticker && s.subscription == sid && s.sequence == n && FirstProblem(market.grid, s.bids + s.asks).None?
    case ReceiveDelta(d) =>
      && d.ticker == market.ticker && d.subscription == sid && d.sequence == n && PriceAllowed(market.grid, d.price)
      && 0 <= VenueLevel(market, venue, sid, n, d.side, d.price) <= INT64_MAX
    case Disconnect => false
  }

  function Delivered(venue: (int, nat) -> Input, sid: int, first: nat, count: nat): seq<Input> {
    if count == 0 then [] else Delivered(venue, sid, first, count - 1) + [venue(sid, first + count - 1)]
  }

  /** From any state, a snapshot and the messages after it, complete and in order, give the venue's book. */
  lemma {:induction false} TracksVenue(market: Market, venue: (int, nat) -> Input, start: BookState,
                                       sid: Int64, first: nat, count: nat)
    requires Sound(market, start) && count >= 1 && first + count <= TWO64
    requires venue(sid, first).ReceiveSnapshot?
    requires forall n :: first <= n < first + count ==> Acceptable(market, venue, sid, n)
    ensures var b := Run(market, start, Delivered(venue, sid, first, count));
      && b.IsValid() && b.lastSequence == Some(first + count - 1) && b.subscription == Some(sid)
      && AgreesWithVenue(market, venue, b)
  {
    var before := Delivered(venue, sid, first, count - 1);
    var n := first + count - 1;
    var message := venue(sid, n);
    assert (before + [message])[..|before|] == before;
    if count > 1 {
      TracksVenue(market, venue, start, sid, first, count - 1);
    }
    TrackOne(market, venue, Run(market, start, before), sid, n);
  }

  lemma TrackOne(market: Market, venue: (int, nat) -> Input, b: BookState, sid: Int64, n: nat)
    requires Sound(market, b) && n < TWO64 && Acceptable(market, venue, sid, n)
    requires venue(sid, n).ReceiveDelta? ==>
      n >= 1 && b.IsValid() && b.lastSequence == Some(n - 1) && b.subscription == Some(sid) && AgreesWithVenue(market, venue, b)
    ensures var after := Step(market, b, venue(sid, n)).0;
      && after.IsValid() && after.lastSequence == Some(n) && after.subscription == Some(sid)
      && AgreesWithVenue(market, venue, after)
  {
    var message := venue(sid, n);
    if message.ReceiveDelta? {
      var d := message.d;
      assert b.Level(d.side, d.price) == VenueLevel(market, venue, sid, n - 1, d.side, d.price);
      assert VenueLevel(market, venue, sid, n, d.side, d.price) == b.Level(d.side, d.price) + d.delta;
    }
    OwnStep(market, venue, b, message);
  }
}
