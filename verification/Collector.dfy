/** The recording application's handlers: journal first, then the book. */
module Collector {
  import opened Arithmetic
  import opened Book
  import opened Events
  import opened Journal
  import opened JournalRecords
  import opened LiveSession
  import opened MarketStates
  import opened SessionMetadata
  import opened Wrappers

  /** Everything the handlers share. */
  datatype LiveState = LiveState(market: MarketValue, writer: Writer, lastReceivedAt: int, recoveryRequested: bool,
                                 messages: nat, parseFailures: nat)

  ghost predicate Ready(setup: Setup, s: LiveState) {
    Sound(MarketOf(setup.metadata), s.market.book) && s.writer.segments != []
  }

  // ---- what the handlers do ----

  /** One record to the journal; a failed write is logged and otherwise ignored. */
  function Recorded(setup: Setup, config: WriterConfig, s: LiveState, record: JournalRecord, io: WriteIo): (after: LiveState)
    requires s.writer.segments != []
    ensures after.writer.segments != []
  {
    s.(writer := WriteStep(config, s.writer, Encode(setup.codec, record), io).0)
  }

  /** An event at the instant its frame was journalled, and whether a new snapshot is asked for. */
  ghost function Delivered(market: Market, s: LiveState, event: MarketEvent): (result: (LiveState, bool))
    requires Sound(market, s.market.book)
    ensures Sound(market, result.0.market.book) && result.0.writer == s.writer
  {
    var rejection := BookStep(market, s.market.book, event).1;
    var requested := s.recoveryRequested && !event.SnapshotEvent?;
    var reconnect := rejection.Some? && InvalidatesBook(rejection.value) && !requested;
    (s.(market := EventStep(market, s.market, event, s.lastReceivedAt), recoveryRequested := requested || reconnect), reconnect)
  }

  /** A frame's record, and the instant its event will be applied at. */
  function RawStep(setup: Setup, config: WriterConfig, s: LiveState, payload: string, at: Int64, connection: Uint64,
                   event: Option<MarketEvent>, io: WriteIo): (after: LiveState)
    requires s.writer.segments != []
    ensures after.writer.segments != []
  {
    Recorded(setup, config, s, FrameRecord(payload, at, connection, event), io).(lastReceivedAt := at)
  }

  ghost function Interpreted(market: Market, s: LiveState, event: Option<MarketEvent>): (result: (LiveState, bool))
    requires Sound(market, s.market.book)
    ensures Sound(market, result.0.market.book) && result.0.writer == s.writer
  {
    match event
    case None => (s.(parseFailures := s.parseFailures + 1), false)
    case Some(e) => Delivered(market, s, e)
  }

  function Counted(s: LiveState): LiveState {
    s.(messages := s.messages + 1)
  }

  ghost function FrameStep(setup: Setup, config: WriterConfig, s: LiveState, payload: string, at: Int64, connection: Uint64, io: WriteIo):
    (result: (LiveState, bool))
    requires Ready(setup, s)
    ensures Ready(setup, result.0)
  {
    var event := EventOf(setup.codec, setup.metadata, payload);
    Interpreted(MarketOf(setup.metadata), RawStep(setup, config, Counted(s), payload, at, connection, event, io), event)
  }

  function LossRecord(setup: Setup, detail: string, at: Int64, connection: Uint64): JournalRecord {
    PlainRecord(ConnectionLost, at, connection, "connection_lost", setup.metadata.ticker, detail)
  }

  ghost function LossStep(setup: Setup, config: WriterConfig, s: LiveState, detail: string, at: Int64, connection: Uint64, io: WriteIo):
    (after: LiveState)
    requires Ready(setup, s)
    ensures Ready(setup, after)
  {
    Recorded(setup, config, s, LossRecord(setup, detail, at, connection), io).(market := DisconnectStep(s.market, at))
  }

  function EndRecord(setup: Setup, footer: Footer, finished: Int64, connection: Uint64): JournalRecord {
    PlainRecord(SessionEnded, finished, connection, "session_ended", setup.metadata.ticker, setup.footerText(footer))
  }

  /** The market is closed, the footer written from its final state, the journal flushed. */
  function CloseStep(setup: Setup, config: WriterConfig, s: LiveState, finished: Int64, connection: Uint64, io: WriteIo, flushIo: FlushIo):
    LiveState
    requires s.writer.segments != []
  {
    var v := FinishStep(s.market, finished);
    var footer := FooterOf(v.stats, s.messages, s.parseFailures, StateHash(setup.metadata.ticker, v.book));
    var kept := Recorded(setup, config, s.(market := v), EndRecord(setup, footer, finished, connection), io);
    kept.(writer := FlushStep(kept.writer, flushIo).0)
  }

  // ---- the object ----

  class Collector {
    const setup: Setup
    const market: MarketState
    const journal: JournalWriter
    var lastReceivedAt: int
    var recoveryRequested: bool
    var messagesReceived: nat
    var parseFailures: nat

    function State(): LiveState
      reads this, market, market.book, journal
    {
      LiveState(market.Value(), journal.State(), lastReceivedAt, recoveryRequested, messagesReceived, parseFailures)
    }

    ghost predicate Valid()
      reads this, market, market.book, journal
    {
      && market.Valid() && market.book.market == MarketOf(setup.metadata)
      && journal.Valid() && journal.codec == setup.codec
    }

    /** The handlers share a market and a journal. */
    constructor (setup: Setup, market: MarketState, journal: JournalWriter)
      requires market.Valid() && market.book.market == MarketOf(setup.metadata)
      requires journal.Valid() && journal.codec == setup.codec
      ensures Valid() && this.setup == setup && this.market == market && this.journal == journal
      ensures State() == LiveState(market.Value(), journal.State(), 0, false, 0, 0)
    {
      this.setup, this.market, this.journal := setup, market, journal;
      lastReceivedAt, recoveryRequested, messagesReceived, parseFailures := 0, false, 0, 0;
    }

    method Record(record: JournalRecord, io: WriteIo)
      requires Valid()
      modifies journal
      ensures Valid() && State() == Recorded(setup, journal.config, old(State()), record, io)
    {
      var _ := journal.Write(record, io);
    }

    /** Written before any market data, so that the journal describes itself. */
    method WriteHeader(started: Int64, io: WriteIo)
      requires Valid()
      modifies journal
      ensures Valid() && State() == Recorded(setup, journal.config, old(State()), HeaderRecord(setup, started), io)
    {
      Record(HeaderRecord(setup, started), io);
    }

    method OnRaw(payload: string, receivedAt: Int64, connection: Uint64, event: Option<MarketEvent>, io: WriteIo)
      requires Valid()
      modifies journal, this`lastReceivedAt
      ensures Valid() && State() == RawStep(setup, journal.config, old(State()), payload, receivedAt, connection, event, io)
    {
      lastReceivedAt := receivedAt;
      Record(FrameRecord(payload, receivedAt, connection, event), io);
    }

    method OnEvent(event: MarketEvent) returns (reconnect: bool)
      requires Valid()
      modifies market, market.book, this`recoveryRequested
      ensures Valid() && (State(), reconnect) == Delivered(MarketOf(setup.metadata), old(State()), event)
    {
      if event.SnapshotEvent? {
        recoveryRequested := false;
      }
      var rejection := market.Apply(event, lastReceivedAt);
      reconnect := rejection.Some? && InvalidatesBook(rejection.value) && !recoveryRequested;
      if reconnect {
        recoveryRequested := true;
      }
    }

    method Interpret(event: Option<MarketEvent>) returns (reconnect: bool)
      requires Valid()
      modifies market, market.book, this`recoveryRequested, this`parseFailures
      ensures Valid() && (State(), reconnect) == Interpreted(MarketOf(setup.metadata), old(State()), event)
    {
      if event.None? {
        parseFailures := parseFailures + 1;
        return false;
      }
      reconnect := OnEvent(event.value);
    }

    method Count()
      requires Valid()
      modifies this`messagesReceived
      ensures Valid() && State() == Counted(old(State()))
    {
      messagesReceived := messagesReceived + 1;
    }

    /** A frame: journalled before anything interprets it, then applied. */
    method OnMessage(payload: string, receivedAt: Int64, connection: Uint64, io: WriteIo) returns (reconnect: bool)
      requires Valid()
      modifies this, market, market.book, journal
      ensures Valid()
      ensures (State(), reconnect) == FrameStep(setup, journal.config, old(State()), payload, receivedAt, connection, io)
    {
      Count();
      var event := EventOf(setup.codec, setup.metadata, payload);
      OnRaw(payload, receivedAt, connection, event, io);
      reconnect := Interpret(event);
    }

    method OnDisconnected(detail: string, at: Int64, connection: Uint64, io: WriteIo)
      requires Valid()
      modifies journal, market, market.book
      ensures Valid() && State() == LossStep(setup, journal.config, old(State()), detail, at, connection, io)
    {
      Record(LossRecord(setup, detail, at, connection), io);
      market.OnDisconnected(at);
    }

    method Close(finished: Int64, connection: Uint64, io: WriteIo, flushIo: FlushIo)
      requires Valid()
      modifies market, journal
      ensures Valid() && State() == CloseStep(setup, journal.config, old(State()), finished, connection, io, flushIo)
    {
      market.Finish(finished);
      var digest := market.book.Hash();
      var footer := FooterOf(market.stats, messagesReceived, parseFailures, digest);
      Record(EndRecord(setup, footer, finished, connection), io);
      var _ := journal.Flush(flushIo);
    }
  }
}
