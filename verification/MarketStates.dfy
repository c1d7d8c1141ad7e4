/** A book plus the counters and the invalid-time clock of one session. */
module MarketStates {
  import opened Book
  import opened BookRuns
  import opened Events
  import opened Sequences
  import opened Wrappers

  datatype Stats = Stats(
    snapshots: nat, deltas: nat, trades: nat, acks: nat, errors: nat, unhandled: nat,
    sequenceGaps: nat, rejectedDeltas: nat, rejectedSnapshots: nat, disconnections: nat, crossedObservations: nat,
    invalidTime: int)

  const NO_STATS := Stats(0, 0, 0, 0, 0, 0, 0, 0, 0, 0, 0, 0)

  /** Times are microseconds of the local clock. */
  datatype MarketValue = MarketValue(book: BookState, stats: Stats, invalidSince: Option<int>)

  const NEW_MARKET := MarketValue(EMPTY_BOOK, NO_STATS, None)

  ghost function NoteValidity(v: MarketValue, at: int): MarketValue {
    var timed :=
      if !v.book.IsValid() && v.invalidSince.None? then v.(invalidSince := Some(at))
      else if v.book.IsValid() && v.invalidSince.Some? then
        v.(stats := v.stats.(invalidTime := v.stats.invalidTime + (at - v.invalidSince.value)), invalidSince := None)
      else v;
    if Crossed(v.book) then
      timed.(stats := timed.stats.(crossedObservations := timed.stats.crossedObservations + 1))
    else timed
  }

  /** The counters an event moves, given what the book said to it. */
  function Count(s: Stats, event: MarketEvent, rejection: Option<BookRejection>): Stats {
    match event
    case SnapshotEvent(_) =>
      s.(snapshots := s.snapshots + 1, rejectedSnapshots := s.rejectedSnapshots + if rejection.Some? then 1 else 0)
    case DeltaEvent(_) =>
      s.(deltas := s.deltas + 1, rejectedDeltas := s.rejectedDeltas + (if rejection.Some? then 1 else 0),
         sequenceGaps := s.sequenceGaps + if rejection == Some(SequenceGap) then 1 else 0)
    case TradeEvent(_) => s.(trades := s.trades + 1)
    case AckEvent => s.(acks := s.acks + 1)
    case ErrorEvent(_) => s.(errors := s.errors + 1)
    case UnhandledEvent(_) => s.(unhandled := s.unhandled + 1)
  }

  function BookStep(market: Market, b: BookState, event: MarketEvent): (result: (BookState, Option<BookRejection>))
    requires Sound(market, b)
    ensures Sound(market, result.0)
  {
    match event
    case SnapshotEvent(s) => Step(market, b, ReceiveSnapshot(s))
    case DeltaEvent(d) => Step(market, b, ReceiveDelta(d))
    case _ => (b, None)
  }

  ghost function EventStep(market: Market, v: MarketValue, event: MarketEvent, at: int): (after: MarketValue)
    requires Sound(market, v.book)
    ensures Sound(market, after.book)
  {
    var (b, rejection) := BookStep(market, v.book, event);
    NoteValidity(v.(book := b, stats := Count(v.stats, event, rejection)), at)
  }

  ghost function DisconnectStep(v: MarketValue, at: int): MarketValue {
    NoteValidity(v.(book := EMPTY_BOOK, stats := v.stats.(disconnections := v.stats.disconnections + 1)), at)
  }

  function FinishStep(v: MarketValue, at: int): MarketValue {
    if v.invalidSince.Some? then
      v.(stats := v.stats.(invalidTime := v.stats.invalidTime + (at - v.invalidSince.value)), invalidSince := None)
    else v
  }

  class MarketState {
    const book: OrderBook
    var stats: Stats
    var invalidSince: Option<int>

    function Value(): MarketValue
      reads this, book
    {
      MarketValue(book.State(), stats, invalidSince)
    }

    ghost predicate Valid()
      reads this, book
    {
      book.Valid()
    }

    constructor (market: Market)
      ensures Valid() && fresh(book) && book.market == market && Value() == NEW_MARKET
    {
      book := new OrderBook(market);
      stats, invalidSince := NO_STATS, None;
    }

    method ObserveValidity(at: int)
      modifies this
      ensures Value() == NoteValidity(old(Value()), at)
    {
      if book.status != Live && invalidSince.None? {
        invalidSince := Some(at);
      } else if book.status == Live && invalidSince.Some? {
        stats := stats.(invalidTime := stats.invalidTime + (at - invalidSince.value));
        invalidSince := None;
      }
      var crossed := book.IsCrossed();
      if crossed {
        stats := stats.(crossedObservations := stats.crossedObservations + 1);
      }
    }

    method Apply(event: MarketEvent, at: int) returns (rejection: Option<BookRejection>)
      requires Valid()
      modifies this, book
      ensures Valid() && Value() == EventStep(book.market, old(Value()), event, at)
      ensures rejection == BookStep(book.market, old(book.State()), event).1
    {
      rejection := None;
      match event {
        case SnapshotEvent(s) =>
          stats := stats.(snapshots := stats.snapshots + 1);
          rejection := book.ApplySnapshot(s);
          if rejection.Some? {
            stats := stats.(rejectedSnapshots := stats.rejectedSnapshots + 1);
          }
        case DeltaEvent(d) =>
          stats := stats.(deltas := stats.deltas + 1);
          rejection := book.ApplyDelta(d);
          if rejection.Some? {
            stats := stats.(rejectedDeltas := stats.rejectedDeltas + 1);
            if rejection == Some(SequenceGap) {
              stats := stats.(sequenceGaps := stats.sequenceGaps + 1);
            }
          }
        case TradeEvent(_) => stats := stats.(trades := stats.trades + 1);
        case AckEvent => stats := stats.(acks := stats.acks + 1);
        case ErrorEvent(_) => stats := stats.(errors := stats.errors + 1);
        case UnhandledEvent(_) => stats := stats.(unhandled := stats.unhandled + 1);
      }
      ObserveValidity(at);
    }

    method OnDisconnected(at: int)
      modifies this, book
      ensures Valid() && Value() == DisconnectStep(old(Value()), at)
    {
      stats := stats.(disconnections := stats.disconnections + 1);
      book.Invalidate();
      ObserveValidity(at);
    }

    method Finish(at: int)
      requires Valid()
      modifies this
      ensures Valid() && Value() == FinishStep(old(Value()), at)
    {
      if invalidSince.Some? {
        stats := stats.(invalidTime := stats.invalidTime + (at - invalidSince.value));
        invalidSince := None;
      }
    }
  }

  // ---- whole sessions ----

  datatype Observation = Observed(event: MarketEvent, at: int) | Lost(at: int)

  ghost function ObservationStep(market: Market, v: MarketValue, o: Observation): (after: MarketValue)
    requires Sound(market, v.book)
    ensures Sound(market, after.book)
  {
    match o
    case Observed(event, at) => EventStep(market, v, event, at)
    case Lost(at) => DisconnectStep(v, at)
  }

  ghost function Session(market: Market, observations: seq<Observation>): (v: MarketValue)
    ensures Sound(market, v.book)
  {
    if observations == [] then NEW_MARKET
    else
      var n := |observations| - 1;
      ObservationStep(market, Session(market, observations[..n]), observations[n])
  }

  /** What an observation means to the book. */
  function InputOf(o: Observation): seq<Input> {
    match o
    case Observed(SnapshotEvent(s), _) => [ReceiveSnapshot(s)]
    case Observed(DeltaEvent(d), _) => [ReceiveDelta(d)]
    case Observed(_, _) => []
    case Lost(_) => [Disconnect]
  }

  /** The messages of a session that concern the book, in order. */
  function BookInputs(observations: seq<Observation>): seq<Input> {
    if observations == [] then []
    else
      var n := |observations| - 1;
      BookInputs(observations[..n]) + InputOf(observations[n])
  }

  lemma ObservationBook(market: Market, v: MarketValue, o: Observation)
    requires Sound(market, v.book)
    ensures ObservationStep(market, v, o).book == Run(market, v.book, InputOf(o))
  {
    if InputOf(o) != [] {
      assert InputOf(o) == [InputOf(o)[0]];
      RunOne(market, v.book, InputOf(o)[0]);
    }
  }

  /** A session's book is the book of its inputs: everything proved of runs holds of sessions. */
  lemma {:induction false} SessionBook(market: Market, observations: seq<Observation>)
    ensures Session(market, observations).book == Run(market, EMPTY_BOOK, BookInputs(observations))
  {
    if observations != [] {
      var n := |observations| - 1;
      SessionBook(market, observations[..n]);
      ObservationBook(market, Session(market, observations[..n]), observations[n]);
      RunConcat(market, EMPTY_BOOK, BookInputs(observations[..n]), InputOf(observations[n]));
    }
  }

  /** A book message that is the venue's own of its subscription and sequence number. */
  ghost predicate Genuine(market: Market, venue: (int, nat) -> Input, o: Observation) {
    match o
    case Observed(SnapshotEvent(s), _) => Named(venue, ReceiveSnapshot(s))
    case Observed(DeltaEvent(d), _) => Named(venue, ReceiveDelta(d)) && Numbered(market, ReceiveDelta(d))
    case _ => true
  }

  lemma ObservationAgrees(market: Market, venue: (int, nat) -> Input, v: MarketValue, o: Observation)
    requires Sound(market, v.book) && Genuine(market, venue, o)
    requires v.book.IsValid() ==> AgreesWithVenue(market, venue, v.book)
    ensures var b := ObservationStep(market, v, o).book;
      b.IsValid() ==> AgreesWithVenue(market, venue, b)
  {
    ObservationBook(market, v, o);
    if InputOf(o) != [] {
      assert InputOf(o) == [InputOf(o)[0]];
      RunOne(market, v.book, InputOf(o)[0]);
      VenueStep(market, venue, v.book, InputOf(o)[0]);
    }
  }

  /**
   A session whose book messages, since some point where the book was not valid, are the venue's own is
   never silently wrong, whatever else it observes.
   */
  lemma {:induction false} SessionNeverSilentlyWrong(market: Market, venue: (int, nat) -> Input, observations: seq<Observation>, since: nat)
    requires since <= |observations| && !Session(market, observations[..since]).book.IsValid()
    requires forall i :: since <= i < |observations| ==> Genuine(market, venue, observations[i])
    ensures var b := Session(market, observations).book;
      b.IsValid() ==> AgreesWithVenue(market, venue, b)
  {
    if |observations| == since {
      FullPrefix(observations);
    } else {
      var n := |observations| - 1;
      FrontPrefix(observations, since);
      SessionNeverSilentlyWrong(market, venue, observations[..n], since);
      ObservationAgrees(market, venue, Session(market, observations[..n]), observations[n]);
    }
  }

  /** Elapsed time after each observation that left the book invalid, up to the end. */
  ghost function InvalidElapsed(market: Market, observations: seq<Observation>, end: int): int {
    if observations == [] then 0
    else
      var n := |observations| - 1;
      var at := observations[n].at;
      InvalidElapsed(market, observations[..n], at)
      + if Session(market, observations).book.IsValid() then 0 else end - at
  }

  /** The clock runs exactly while an observation has left the book invalid. */
  lemma {:induction false} ClockRuns(market: Market, observations: seq<Observation>, end: int)
    ensures var v := Session(market, observations);
      && (v.invalidSince.Some? <==> observations != [] && !v.book.IsValid())
      && v.stats.invalidTime + (if v.invalidSince.Some? then end - v.invalidSince.value else 0)
         == InvalidElapsed(market, observations, end)
  {
    if observations != [] {
      var n := |observations| - 1;
      ClockRuns(market, observations[..n], observations[n].at);
    }
  }

  /** Invalid-time accounting telescopes to the sum over consecutive observations. */
  lemma InvalidTimeTelescopes(market: Market, observations: seq<Observation>, end: int)
    ensures FinishStep(Session(market, observations), end).stats.invalidTime == InvalidElapsed(market, observations, end)
  {
    ClockRuns(market, observations, end);
  }

  ghost predicate NonDecreasing(observations: seq<Observation>, end: int) {
    && (forall i, j :: 0 <= i < j < |observations| ==> observations[i].at <= observations[j].at)
    && forall i :: 0 <= i < |observations| ==> observations[i].at <= end
  }

  lemma {:induction false} InvalidTimeBounds(market: Market, observations: seq<Observation>, end: int)
    requires observations != [] && NonDecreasing(observations, end)
    ensures 0 <= InvalidElapsed(market, observations, end) <= end - observations[0].at
  {
    var n := |observations| - 1;
    if n > 0 {
      InvalidTimeBounds(market, observations[..n], observations[n].at);
    } else {
      assert observations[..0] == [];
    }
  }

  function EventTotal(s: Stats): nat {
    s.snapshots + s.deltas + s.trades + s.acks + s.errors + s.unhandled
  }

  function EventCount(observations: seq<Observation>): nat {
    if observations == [] then 0
    else EventCount(observations[..|observations| - 1]) + if observations[|observations| - 1].Observed? then 1 else 0
  }

  /** How the counters of a session relate to each other and to the number of events and observations. */
  predicate Tally(s: Stats, events: nat, observations: nat) {
    && EventTotal(s) == events && s.disconnections == observations - events
    && s.sequenceGaps <= s.rejectedDeltas <= s.deltas && s.rejectedSnapshots <= s.snapshots
    && s.crossedObservations <= events
  }

  lemma CountTally(s: Stats, event: MarketEvent, rejection: Option<BookRejection>, events: nat, observations: nat)
    requires Tally(s, events, observations)
    ensures Tally(Count(s, event, rejection), events + 1, observations + 1)
    ensures Count(s, event, rejection).crossedObservations <= events
  {}

  lemma NoteTally(v: MarketValue, at: int, events: nat, observations: nat)
    requires Tally(v.stats, events, observations)
    requires Crossed(v.book) ==> v.stats.crossedObservations < events
    ensures Tally(NoteValidity(v, at).stats, events, observations)
  {}

  lemma StepTally(market: Market, v: MarketValue, o: Observation, events: nat, observations: nat)
    requires Sound(market, v.book) && Tally(v.stats, events, observations)
    ensures Tally(ObservationStep(market, v, o).stats, events + (if o.Observed? then 1 else 0), observations + 1)
  {
    match o
    case Observed(event, at) =>
      var (b, rejection) := BookStep(market, v.book, event);
      CountTally(v.stats, event, rejection, events, observations);
      NoteTally(v.(book := b, stats := Count(v.stats, event, rejection)), at, events + 1, observations + 1);
    case Lost(at) =>
      var s := v.stats.(disconnections := v.stats.disconnections + 1);
      NoteTally(v.(book := EMPTY_BOOK, stats := s), at, events, observations + 1);
  }

  /** Every event is counted once, and rejections and gaps are counted among them. */
  lemma {:induction false} EveryEventCounted(market: Market, observations: seq<Observation>)
    ensures Tally(Session(market, observations).stats, EventCount(observations), |observations|)
  {
    if observations != [] {
      var n := |observations| - 1;
      EveryEventCounted(market, observations[..n]);
      StepTally(market, Session(market, observations[..n]), observations[n], EventCount(observations[..n]), n);
    }
  }
}
