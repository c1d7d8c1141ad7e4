/** Whole recorded sessions: what the handlers' shared state is after any inputs, and that its journal replays to it. */
module CollectorRuns {
  import opened Arithmetic
  import opened Book
  import opened BookAnswers
  import opened Collector
  import opened Events
  import opened Journal
  import opened JournalReading
  import opened JournalRecords
  import opened JsonValues
  import opened LiveSession
  import opened MarketStates
  import opened Replay
  import opened SessionMetadata
  import Names = JournalNames
  import Listing = SegmentNames
  import Sorting
  import Order = Text

  /** One input, and what the outside world did to its journal write. */
  datatype SessionStep = SessionStep(input: LiveInput, io: WriteIo)

  function InputsOf(steps: seq<SessionStep>): seq<LiveInput> {
    if steps == [] then [] else InputsOf(steps[..|steps| - 1]) + [steps[|steps| - 1].input]
  }

  ghost function StepOn(setup: Setup, config: WriterConfig, s: LiveState, step: SessionStep): (after: LiveState)
    requires Ready(setup, s)
    ensures Ready(setup, after)
  {
    match step.input
    case Frame(payload, at, connection) => FrameStep(setup, config, s, payload, at, connection, step.io).0
    case Dropped(detail, at, connection) => LossStep(setup, config, s, detail, at, connection, step.io)
  }

  function Opening(config: WriterConfig, first: OpenIo): LiveState {
    LiveState(NEW_MARKET, NewWriter(config, first), 0, false, 0, 0)
  }

  /** A session: the journal opened, the header written, then the inputs one by one. */
  ghost function SessionRun(setup: Setup, config: WriterConfig, first: OpenIo, started: Int64, headerIo: WriteIo, steps: seq<SessionStep>):
    (s: LiveState)
    ensures Ready(setup, s)
  {
    if steps == [] then Recorded(setup, config, Opening(config, first), HeaderRecord(setup, started), headerIo)
    else StepOn(setup, config, SessionRun(setup, config, first, started, headerIo, steps[..|steps| - 1]), steps[|steps| - 1])
  }

  // ---- the market of a session ----

  lemma OneMoreInput(codec: Codec, m: Metadata, inputs: seq<LiveInput>, input: LiveInput)
    ensures Frames(inputs + [input]) == Frames(inputs) + if input.Frame? then 1 else 0
    ensures Unparsed(codec, m, inputs + [input]) ==
            Unparsed(codec, m, inputs) + if input.Frame? && EventOf(codec, m, input.payload).None? then 1 else 0
  {
    assert (inputs + [input])[..|inputs|] == inputs;
  }

  /** The market and the counters are those of the inputs. */
  ghost predicate Reached(setup: Setup, inputs: seq<LiveInput>, s: LiveState) {
    && s.market == LiveMarket(setup.codec, setup.metadata, inputs)
    && s.messages == Frames(inputs) && s.parseFailures == Unparsed(setup.codec, setup.metadata, inputs)
  }

  lemma StepMarket(setup: Setup, config: WriterConfig, s: LiveState, step: SessionStep)
    requires Ready(setup, s)
    ensures var after := StepOn(setup, config, s, step);
      match step.input
      case Dropped(_, at, _) =>
        after.market == DisconnectStep(s.market, at) && after.messages == s.messages && after.parseFailures == s.parseFailures
      case Frame(payload, at, _) =>
        && after.messages == s.messages + 1
        && match EventOf(setup.codec, setup.metadata, payload)
           case Some(event) =>
             after.market == EventStep(MarketOf(setup.metadata), s.market, event, at) && after.parseFailures == s.parseFailures
           case None => after.market == s.market && after.parseFailures == s.parseFailures + 1
  {}

  lemma ReachedOn(setup: Setup, config: WriterConfig, s: LiveState, inputs: seq<LiveInput>, step: SessionStep)
    requires Ready(setup, s) && Reached(setup, inputs, s)
    ensures Reached(setup, inputs + [step.input], StepOn(setup, config, s, step))
  {
    StepMarket(setup, config, s, step);
    OneMoreInput(setup.codec, setup.metadata, inputs, step.input);
    LiveMarketStep(setup.codec, setup.metadata, inputs, step.input);
  }

  /** After any inputs, whatever the journal writes do, the market is the one of the inputs. */
  lemma {:induction false} SessionMarket(setup: Setup, config: WriterConfig, first: OpenIo, started: Int64, headerIo: WriteIo, steps: seq<SessionStep>)
    ensures Reached(setup, InputsOf(steps), SessionRun(setup, config, first, started, headerIo, steps))
  {
    if steps != [] {
      var before, last := steps[..|steps| - 1], steps[|steps| - 1];
      SessionMarket(setup, config, first, started, headerIo, before);
      ReachedOn(setup, config, SessionRun(setup, config, first, started, headerIo, before), InputsOf(before), last);
    }
  }

  // ---- its journal ----

  lemma EncodeAllLast(codec: Codec, records: seq<JournalRecord>, r: JournalRecord)
    ensures EncodeAll(codec, records + [r]) == EncodeAll(codec, records) + [Encode(codec, r)]
  {
    EncodeAllConcat(codec, records, [r]);
    assert [r][1..] == [];
  }

  lemma WrittenOne(ops: seq<WriterOp>, line: string, io: WriteIo)
    ensures Written(ops + [Write(line, io)]) == Written(ops) + [line]
  {
    assert (ops + [Write(line, io)])[..|ops|] == ops;
  }

  lemma RunOneOp(config: WriterConfig, start: Writer, ops: seq<WriterOp>, op: WriterOp)
    requires start.segments != []
    ensures RunOps(config, start, ops + [op]) == OpStep(config, RunOps(config, start, ops), op).0
  {
    assert (ops + [op])[..|ops|] == ops;
  }

  /** The writes a session asks of the journal. */
  function SessionOps(setup: Setup, started: Int64, headerIo: WriteIo, steps: seq<SessionStep>): seq<WriterOp> {
    if steps == [] then [Write(Encode(setup.codec, HeaderRecord(setup, started)), headerIo)]
    else
      var last := steps[|steps| - 1];
      SessionOps(setup, started, headerIo, steps[..|steps| - 1]) + [Write(Encode(setup.codec, InputRecord(setup, last.input)), last.io)]
  }

  lemma StepWriter(setup: Setup, config: WriterConfig, s: LiveState, step: SessionStep)
    requires Ready(setup, s)
    ensures StepOn(setup, config, s, step).writer ==
            WriteStep(config, s.writer, Encode(setup.codec, InputRecord(setup, step.input)), step.io).0
  {}

  lemma {:induction false} SessionWriter(setup: Setup, config: WriterConfig, first: OpenIo, started: Int64, headerIo: WriteIo, steps: seq<SessionStep>)
    ensures SessionRun(setup, config, first, started, headerIo, steps).writer ==
            RunOps(config, NewWriter(config, first), SessionOps(setup, started, headerIo, steps))
  {
    if steps == [] {
      RunOneOp(config, NewWriter(config, first), [], Write(Encode(setup.codec, HeaderRecord(setup, started)), headerIo));
      assert [] + SessionOps(setup, started, headerIo, []) == SessionOps(setup, started, headerIo, []);
    } else {
      var before, last := steps[..|steps| - 1], steps[|steps| - 1];
      SessionWriter(setup, config, first, started, headerIo, before);
      StepWriter(setup, config, SessionRun(setup, config, first, started, headerIo, before), last);
      RunOneOp(config, NewWriter(config, first), SessionOps(setup, started, headerIo, before),
               Write(Encode(setup.codec, InputRecord(setup, last.input)), last.io));
    }
  }

  lemma HeaderWritten(setup: Setup, started: Int64, headerIo: WriteIo)
    ensures Written(SessionOps(setup, started, headerIo, [])) == EncodeAll(setup.codec, Body(setup, started, []))
  {
    var header := HeaderRecord(setup, started);
    assert [] + [header] == [header] == Body(setup, started, []);
    EncodeAllLast(setup.codec, [], header);
    WrittenOne([], Encode(setup.codec, header), headerIo);
    assert [] + SessionOps(setup, started, headerIo, []) == SessionOps(setup, started, headerIo, []);
  }

  /** The lines handed to the journal are the header and one record per input, in order. */
  lemma {:induction false} SessionWritten(setup: Setup, started: Int64, headerIo: WriteIo, steps: seq<SessionStep>)
    ensures Written(SessionOps(setup, started, headerIo, steps)) == EncodeAll(setup.codec, Body(setup, started, InputsOf(steps)))
  {
    if steps == [] {
      HeaderWritten(setup, started, headerIo);
    } else {
      var before, last := steps[..|steps| - 1], steps[|steps| - 1];
      SessionWritten(setup, started, headerIo, before);
      BodyStep(setup, started, InputsOf(before), last.input);
      EncodeAllLast(setup.codec, Body(setup, started, InputsOf(before)), InputRecord(setup, last.input));
      WrittenOne(SessionOps(setup, started, headerIo, before), Encode(setup.codec, InputRecord(setup, last.input)), last.io);
    }
  }

  // ---- the end of a session ----

  ghost function Closed(setup: Setup, config: WriterConfig, first: OpenIo, started: Int64, headerIo: WriteIo, steps: seq<SessionStep>,
                        finished: Int64, connection: Uint64, io: WriteIo, flushIo: FlushIo): LiveState {
    CloseStep(setup, config, SessionRun(setup, config, first, started, headerIo, steps), finished, connection, io, flushIo)
  }

  /** All writes of a session, the footer's included. */
  ghost function AllOps(setup: Setup, started: Int64, headerIo: WriteIo, steps: seq<SessionStep>, finished: Int64, connection: Uint64, io: WriteIo):
    seq<WriterOp>
  {
    SessionOps(setup, started, headerIo, steps)
    + [Write(Encode(setup.codec, FooterRecord(setup, InputsOf(steps), finished, connection)), io)]
  }

  lemma ClosedMarket(setup: Setup, config: WriterConfig, first: OpenIo, started: Int64, headerIo: WriteIo, steps: seq<SessionStep>,
                     finished: Int64, connection: Uint64, io: WriteIo, flushIo: FlushIo)
    ensures Closed(setup, config, first, started, headerIo, steps, finished, connection, io, flushIo).market ==
            FinalMarket(setup.codec, setup.metadata, InputsOf(steps), finished)
  {
    SessionMarket(setup, config, first, started, headerIo, steps);
  }

  lemma CloseWriter(setup: Setup, config: WriterConfig, s: LiveState, inputs: seq<LiveInput>, finished: Int64, connection: Uint64, io: WriteIo, flushIo: FlushIo)
    requires Ready(setup, s) && Reached(setup, inputs, s)
    ensures CloseStep(setup, config, s, finished, connection, io, flushIo).writer ==
            FlushStep(WriteStep(config, s.writer, Encode(setup.codec, FooterRecord(setup, inputs, finished, connection)), io).0, flushIo).0
  {}

  lemma RunToFlush(config: WriterConfig, start: Writer, ops: seq<WriterOp>, line: string, io: WriteIo, flushIo: FlushIo)
    requires start.segments != []
    ensures RunOps(config, start, ops + [Write(line, io)] + [Flush(flushIo)]) ==
            FlushStep(WriteStep(config, RunOps(config, start, ops), line, io).0, flushIo).0
  {
    RunOneOp(config, start, ops, Write(line, io));
    RunOneOp(config, start, ops + [Write(line, io)], Flush(flushIo));
  }

  lemma ClosedWriter(setup: Setup, config: WriterConfig, first: OpenIo, started: Int64, headerIo: WriteIo, steps: seq<SessionStep>,
                     finished: Int64, connection: Uint64, io: WriteIo, flushIo: FlushIo)
    ensures Closed(setup, config, first, started, headerIo, steps, finished, connection, io, flushIo).writer ==
            RunOps(config, NewWriter(config, first), AllOps(setup, started, headerIo, steps, finished, connection, io) + [Flush(flushIo)])
  {
    SessionMarket(setup, config, first, started, headerIo, steps);
    SessionWriter(setup, config, first, started, headerIo, steps);
    CloseWriter(setup, config, SessionRun(setup, config, first, started, headerIo, steps), InputsOf(steps), finished, connection, io, flushIo);
    RunToFlush(config, NewWriter(config, first), SessionOps(setup, started, headerIo, steps),
               Encode(setup.codec, FooterRecord(setup, InputsOf(steps), finished, connection)), io, flushIo);
  }

  lemma AllWritten(setup: Setup, started: Int64, headerIo: WriteIo, steps: seq<SessionStep>, finished: Int64, connection: Uint64, io: WriteIo)
    ensures Written(AllOps(setup, started, headerIo, steps, finished, connection, io)) ==
            EncodeAll(setup.codec, LiveRecords(setup, started, InputsOf(steps), finished, connection))
  {
    var footer := FooterRecord(setup, InputsOf(steps), finished, connection);
    SessionWritten(setup, started, headerIo, steps);
    EncodeAllLast(setup.codec, Body(setup, started, InputsOf(steps)), footer);
    WrittenOne(SessionOps(setup, started, headerIo, steps), Encode(setup.codec, footer), io);
  }

  /**
   What the handlers leave behind, object and files: the market of the inputs, and, if no write failed,
   segments which the directory lists in order and which replay to that market.
   */
  lemma SessionReplays(setup: Setup, options: ReplayOptions, config: WriterConfig, first: OpenIo, started: Int64, headerIo: WriteIo,
                       steps: seq<SessionStep>, finished: Int64, connection: Uint64, io: WriteIo, entries: seq<string>)
    requires Faithful(setup.codec) && StorableGrid(setup.metadata.grid)
    requires var ops := AllOps(setup, started, headerIo, steps, finished, connection, io);
      Unfailing(ops) && Names.Undisturbed(config, first, ops)
    requires var s := Closed(setup, config, first, started, headerIo, steps, finished, connection, io, FlushIo(true, true));
      multiset(Listing.Candidates(entries, config.prefix)) == multiset(Names.NamesOf(s.writer.segments))
    ensures var s := Closed(setup, config, first, started, headerIo, steps, finished, connection, io, FlushIo(true, true));
      && s.market == FinalMarket(setup.codec, setup.metadata, InputsOf(steps), finished)
      && Sorting.Sort(Order.Before, Listing.Candidates(entries, config.prefix)) == Names.NamesOf(s.writer.segments)
      && ReplayAll(setup.codec, options, SegmentItems(setup.codec, s.writer.segments)) ==
         ReplayOfSession(setup, options, started, InputsOf(steps), finished, |s.writer.segments|)
  {
    var ops := AllOps(setup, started, headerIo, steps, finished, connection, io);
    ClosedMarket(setup, config, first, started, headerIo, steps, finished, connection, io, FlushIo(true, true));
    ClosedWriter(setup, config, first, started, headerIo, steps, finished, connection, io, FlushIo(true, true));
    AllWritten(setup, started, headerIo, steps, finished, connection, io);
    JournalReproducesLive(setup, options, started, InputsOf(steps), finished, connection, config, first, ops, entries);
  }

  // ---- asking for snapshots ----

  /** What the book says to an event decides whether it is left valid. */
  lemma RejectedOrValid(market: Market, v: MarketValue, event: MarketEvent, at: int)
    requires Sound(market, v.book)
    ensures var (b, rejection) := BookStep(market, v.book, event);
      && EventStep(market, v, event, at).book == b
      && (rejection.Some? && InvalidatesBook(rejection.value) ==> !b.IsValid())
      && (event.SnapshotEvent? && rejection.None? ==> b.IsValid())
      && (!v.book.IsValid() && !event.SnapshotEvent? ==> !b.IsValid())
      && (v.book.IsValid() && !b.IsValid() ==> rejection.Some? && InvalidatesBook(rejection.value))
  {
    match event
    case SnapshotEvent(s) => SnapshotKeeps(market, v.book, s);
    case DeltaEvent(d) => DeltaKeeps(market, v.book, d);
    case _ =>
  }

  /** A request stands only while the book is invalid. */
  predicate Waiting(s: LiveState) {
    s.recoveryRequested ==> !s.market.book.IsValid()
  }

  /**
   An event that makes a valid book invalid is always answered by a reconnect request; a request is
   made only for an invalid book, and not again before the next snapshot.
   */
  lemma ReconnectAnswers(market: Market, s: LiveState, event: MarketEvent)
    requires Sound(market, s.market.book) && Waiting(s)
    ensures var (after, reconnect) := Delivered(market, s, event);
      && Waiting(after)
      && (s.market.book.IsValid() && !after.market.book.IsValid() ==> reconnect)
      && (reconnect ==> !after.market.book.IsValid() && after.recoveryRequested && (s.recoveryRequested ==> event.SnapshotEvent?))
  {
    RejectedOrValid(market, s.market, event, s.lastReceivedAt);
  }

  /**
   A new snapshot is asked for exactly when the event lost a valid book, or was a snapshot of this
   market that was refused; the request then stands until the next snapshot.
   */
  lemma ReconnectsExactly(market: Market, s: LiveState, event: MarketEvent)
    requires Sound(market, s.market.book) && Waiting(s)
    ensures var (after, reconnect) := Delivered(market, s, event);
      && (reconnect <==>
           || (s.market.book.IsValid() && !after.market.book.IsValid())
           || (event.SnapshotEvent? && event.snapshot.ticker == market.ticker && !after.market.book.IsValid()))
      && (after.recoveryRequested <==> reconnect || (s.recoveryRequested && !event.SnapshotEvent?))
      && after == s.(market := after.market, recoveryRequested := after.recoveryRequested)
  {
    RejectedOrValid(market, s.market, event, s.lastReceivedAt);
    match event
    case SnapshotEvent(snapshot) => SnapshotAnswers(market, s.market.book, snapshot);
    case DeltaEvent(delta) => DeltaAnswers(market, s.market.book, delta);
    case _ =>
  }

  /** So in every session a request stands only while the book is invalid. */
  lemma {:induction false} SessionWaits(setup: Setup, config: WriterConfig, first: OpenIo, started: Int64, headerIo: WriteIo, steps: seq<SessionStep>)
    ensures Waiting(SessionRun(setup, config, first, started, headerIo, steps))
  {
    if steps != [] {
      var before, last := steps[..|steps| - 1], steps[|steps| - 1];
      SessionWaits(setup, config, first, started, headerIo, before);
      StepWaits(setup, config, SessionRun(setup, config, first, started, headerIo, before), last);
    }
  }

  lemma StepWaits(setup: Setup, config: WriterConfig, s: LiveState, step: SessionStep)
    requires Ready(setup, s) && Waiting(s)
    ensures Waiting(StepOn(setup, config, s, step))
  {
    match step.input
    case Dropped(_, _, _) =>
    case Frame(payload, at, connection) =>
      var event := EventOf(setup.codec, setup.metadata, payload);
      if event.Some? {
        ReconnectAnswers(MarketOf(setup.metadata), RawStep(setup, config, Counted(s), payload, at, connection, event, step.io), event.value);
      }
  }
}
