/** What each counter of a session counts. */
module SessionCounters {
  import opened Book
  import opened BookAnswers
  import opened Events
  import opened MarketStates
  import opened Arithmetic

  datatype Counter =
    | Snapshots | Deltas | Trades | Acks | Errors | Unhandled
    | SequenceGaps | RejectedDeltas | RejectedSnapshots | Disconnections | CrossedObservations

  function Reading(s: Stats, c: Counter): nat {
    match c
    case Snapshots => s.snapshots
    case Deltas => s.deltas
    case Trades => s.trades
    case Acks => s.acks
    case Errors => s.errors
    case Unhandled => s.unhandled
    case SequenceGaps => s.sequenceGaps
    case RejectedDeltas => s.rejectedDeltas
    case RejectedSnapshots => s.rejectedSnapshots
    case Disconnections => s.disconnections
    case CrossedObservations => s.crossedObservations
  }

  /** A delta the book takes: the next of its subscription, at a legal price, to a size in range. */
  ghost predicate Takes(market: Market, b: BookState, d: BookDelta) {
    Placed(market, b, d) && 0 <= b.Level(d.side, d.price) + d.delta <= INT64_MAX
  }

  /** Whether an observation counts, by what it is and by the books before and after it. */
  ghost predicate Counted(market: Market, before: BookState, o: Observation, after: BookState, c: Counter) {
    match c
    case Disconnections => o.Lost?
    case CrossedObservations => after.IsValid() && exists p, q :: p in after.bids && q in after.asks && p >= q
    case Snapshots => o.Observed? && o.event.SnapshotEvent?
    case Deltas => o.Observed? && o.event.DeltaEvent?
    case Trades => o.Observed? && o.event.TradeEvent?
    case Acks => o.Observed? && o.event.AckEvent?
    case Errors => o.Observed? && o.event.ErrorEvent?
    case Unhandled => o.Observed? && o.event.UnhandledEvent?
    case SequenceGaps =>
      && o.Observed? && o.event.DeltaEvent? && Addressed(market, before, o.event.delta)
      && SkipsAhead(before.lastSequence.value, o.event.delta.sequence)
    case RejectedDeltas => o.Observed? && o.event.DeltaEvent? && !Takes(market, before, o.event.delta)
    case RejectedSnapshots =>
      && o.Observed? && o.event.SnapshotEvent?
      && !(o.event.snapshot.ticker == market.ticker
           && forall e :: e in o.event.snapshot.bids + o.event.snapshot.asks ==> Fine(market.grid, e))
  }

  /** How many observations of a session count. */
  ghost function HowMany(market: Market, observations: seq<Observation>, c: Counter): nat {
    if observations == [] then 0
    else
      var n := |observations| - 1;
      HowMany(market, observations[..n], c)
      + if Counted(market, Session(market, observations[..n]).book, observations[n], Session(market, observations).book, c) then 1 else 0
  }

  lemma NoteReads(v: MarketValue, at: int, c: Counter)
    ensures NoteValidity(v, at).book == v.book
    ensures Reading(NoteValidity(v, at).stats, c) ==
            Reading(v.stats, c) + if c.CrossedObservations? && Crossed(v.book) then 1 else 0
  {}

  lemma EventReads(market: Market, v: MarketValue, event: MarketEvent, at: int, c: Counter)
    requires Sound(market, v.book)
    ensures var after := EventStep(market, v, event, at);
      Reading(after.stats, c) == Reading(v.stats, c) + if Counted(market, v.book, Observed(event, at), after.book, c) then 1 else 0
  {
    var (b, rejection) := BookStep(market, v.book, event);
    NoteReads(v.(book := b, stats := Count(v.stats, event, rejection)), at, c);
    match event
    case SnapshotEvent(s) => SnapshotAnswers(market, v.book, s);
    case DeltaEvent(d) => DeltaAnswers(market, v.book, d);
    case _ =>
  }

  lemma LossReads(market: Market, v: MarketValue, at: int, c: Counter)
    ensures var after := DisconnectStep(v, at);
      Reading(after.stats, c) == Reading(v.stats, c) + if Counted(market, v.book, Lost(at), after.book, c) then 1 else 0
  {
    NoteReads(v.(book := EMPTY_BOOK, stats := v.stats.(disconnections := v.stats.disconnections + 1)), at, c);
  }

  /**
   After any session every counter is the number of observations it is named for; a gap is a delta of
   the book's own market and subscription that skipped ahead of a valid book.
   */
  lemma {:induction false} CountersExact(market: Market, observations: seq<Observation>, c: Counter)
    ensures Reading(Session(market, observations).stats, c) == HowMany(market, observations, c)
  {
    if observations != [] {
      var n := |observations| - 1;
      CountersExact(market, observations[..n], c);
      match observations[n]
      case Observed(event, at) => EventReads(market, Session(market, observations[..n]), event, at, c);
      case Lost(at) => LossReads(market, Session(market, observations[..n]), at, c);
    }
  }

  /** Closing the clock a second time changes nothing. */
  lemma FinishOnce(v: MarketValue, at: int, later: int)
    ensures FinishStep(FinishStep(v, at), later) == FinishStep(v, at)
    ensures FinishStep(v, at).book == v.book && forall c :: Reading(FinishStep(v, at).stats, c) == Reading(v.stats, c)
  {}
}
