/** What a recording session journals and what it does to its market, and that replay reproduces it. */
module LiveSession {
  import opened Arithmetic
  import opened Book
  import opened Events
  import opened JournalReading
  import opened JournalRecords
  import opened JsonValues
  import opened MarketStates
  import opened Replay
  import opened Sequences
  import opened SessionMetadata
  import opened Wrappers
  import opened WsProtocol
  import J = Journal
  import Names = JournalNames
  import Listing = SegmentNames
  import Sorting
  import Order = Text

  /** What reaches the handlers: a frame, parseable or not, or the loss of the connection. */
  datatype LiveInput =
    | Frame(payload: string, at: Int64, connection: Uint64)
    | Dropped(detail: string, at: Int64, connection: Uint64)

  /** The counters the closing record carries. */
  datatype Footer = Footer(messages: nat, snapshots: nat, deltas: nat, trades: nat, gaps: nat,
                           rejectedDeltas: nat, parseFailures: nat, finalHash: Uint64)

  /** The constants of a session; footerText stands for the library's text formatting. */
  datatype Setup = Setup(codec: Codec, metadata: Metadata, footerText: Footer -> string)

  // ---- records ----

  function PlainRecord(kind: RecordKind, at: Int64, connection: Uint64, messageType: string, ticker: string, payload: string): JournalRecord {
    JournalRecord(kind, at, None, connection, None, None, messageType, Some(ticker), None, payload)
  }

  /** The header is written before any connection exists. */
  function HeaderRecord(setup: Setup, at: Int64): JournalRecord {
    PlainRecord(SessionStarted, at, 0, "session_started", setup.metadata.ticker, EncodeMetadata(setup.codec, setup.metadata))
  }

  function EventTicker(event: MarketEvent): Option<string> {
    match event
    case SnapshotEvent(s) => Some(s.ticker)
    case DeltaEvent(d) => Some(d.ticker)
    case TradeEvent(ticker) => Some(ticker)
    case ErrorEvent(ticker) => ticker
    case _ => None
  }

  function EventSequence(event: MarketEvent): Option<Uint64> {
    match event
    case SnapshotEvent(s) => Some(s.sequence)
    case DeltaEvent(d) => Some(d.sequence)
    case _ => None
  }

  function EventType(event: MarketEvent): string {
    match event
    case SnapshotEvent(_) => "orderbook_snapshot"
    case DeltaEvent(_) => "orderbook_delta"
    case TradeEvent(_) => "trade"
    case AckEvent => "subscribed"
    case ErrorEvent(_) => "error"
    case UnhandledEvent(_) => "unhandled"
  }

  function FrameRecord(payload: string, at: Int64, connection: Uint64, event: Option<MarketEvent>): JournalRecord {
    match event
    case Some(e) => JournalRecord(Message, at, None, connection, None, EventSequence(e), EventType(e), EventTicker(e), None, payload)
    case None => JournalRecord(Message, at, None, connection, None, None, "unparsed", None, None, payload)
  }

  function EventOf(codec: Codec, m: Metadata, payload: string): Option<MarketEvent> {
    match ParseWsMessage(codec, payload, m.convention)
    case Success(event) => Some(event)
    case Failure(_) => None
  }

  function InputRecord(setup: Setup, input: LiveInput): JournalRecord {
    match input
    case Frame(payload, at, connection) =>
      FrameRecord(payload, at, connection, EventOf(setup.codec, setup.metadata, payload))
    case Dropped(detail, at, connection) =>
      PlainRecord(ConnectionLost, at, connection, "connection_lost", setup.metadata.ticker, detail)
  }

  function InputRecords(setup: Setup, inputs: seq<LiveInput>): seq<JournalRecord> {
    if inputs == [] then []
    else InputRecords(setup, inputs[..|inputs| - 1]) + [InputRecord(setup, inputs[|inputs| - 1])]
  }

  function Body(setup: Setup, started: Int64, inputs: seq<LiveInput>): seq<JournalRecord> {
    [HeaderRecord(setup, started)] + InputRecords(setup, inputs)
  }

  lemma BodyStep(setup: Setup, started: Int64, inputs: seq<LiveInput>, input: LiveInput)
    ensures Body(setup, started, inputs + [input]) == Body(setup, started, inputs) + [InputRecord(setup, input)]
  {
    assert (inputs + [input])[..|inputs|] == inputs;
    Associative([HeaderRecord(setup, started)], InputRecords(setup, inputs), [InputRecord(setup, input)]);
  }

  // ---- the market ----

  function ObservationOf(codec: Codec, m: Metadata, input: LiveInput): seq<Observation> {
    match input
    case Dropped(_, at, _) => [Lost(at)]
    case Frame(payload, at, _) =>
      match EventOf(codec, m, payload)
      case Some(event) => [Observed(event, at)]
      case None => []
  }

  /** What the market state gets to see of the inputs, when they are read under m. */
  function Observations(codec: Codec, m: Metadata, inputs: seq<LiveInput>): seq<Observation> {
    if inputs == [] then []
    else Observations(codec, m, inputs[..|inputs| - 1]) + ObservationOf(codec, m, inputs[|inputs| - 1])
  }

  ghost function LiveMarket(codec: Codec, m: Metadata, inputs: seq<LiveInput>): MarketValue {
    Session(MarketOf(m), Observations(codec, m, inputs))
  }

  /** One more input moves the market by that input's observation, if it is one. */
  lemma LiveMarketStep(codec: Codec, m: Metadata, inputs: seq<LiveInput>, input: LiveInput)
    ensures LiveMarket(codec, m, inputs + [input]) ==
      match input
      case Dropped(_, at, _) => DisconnectStep(LiveMarket(codec, m, inputs), at)
      case Frame(payload, at, _) =>
        match EventOf(codec, m, payload)
        case Some(event) => EventStep(MarketOf(m), LiveMarket(codec, m, inputs), event, at)
        case None => LiveMarket(codec, m, inputs)
  {
    assert (inputs + [input])[..|inputs|] == inputs;
    var before, next := Observations(codec, m, inputs), ObservationOf(codec, m, input);
    if next != [] {
      assert next == [next[0]];
      assert (before + next)[..|before|] == before;
    } else {
      assert before + next == before;
    }
  }

  function Frames(inputs: seq<LiveInput>): nat {
    if inputs == [] then 0 else Frames(inputs[..|inputs| - 1]) + if inputs[|inputs| - 1].Frame? then 1 else 0
  }

  function Losses(inputs: seq<LiveInput>): nat {
    if inputs == [] then 0 else Losses(inputs[..|inputs| - 1]) + if inputs[|inputs| - 1].Dropped? then 1 else 0
  }

  function Unparsed(codec: Codec, m: Metadata, inputs: seq<LiveInput>): nat {
    if inputs == [] then 0
    else
      var n := |inputs| - 1;
      Unparsed(codec, m, inputs[..n])
      + if inputs[n].Frame? && EventOf(codec, m, inputs[n].payload).None? then 1 else 0
  }

  // ---- the whole session ----

  ghost function FinalMarket(codec: Codec, m: Metadata, inputs: seq<LiveInput>, finished: Int64): MarketValue {
    FinishStep(LiveMarket(codec, m, inputs), finished)
  }

  function FooterOf(s: Stats, messages: nat, parseFailures: nat, hash: Uint64): Footer {
    Footer(messages, s.snapshots, s.deltas, s.trades, s.sequenceGaps, s.rejectedDeltas, parseFailures, hash)
  }

  ghost function LiveFooter(setup: Setup, inputs: seq<LiveInput>, finished: Int64): Footer {
    var m := setup.metadata;
    var v := FinalMarket(setup.codec, m, inputs, finished);
    FooterOf(v.stats, Frames(inputs), Unparsed(setup.codec, m, inputs), StateHash(m.ticker, v.book))
  }

  ghost function FooterRecord(setup: Setup, inputs: seq<LiveInput>, finished: Int64, connection: Uint64): JournalRecord {
    PlainRecord(SessionEnded, finished, connection, "session_ended", setup.metadata.ticker,
                setup.footerText(LiveFooter(setup, inputs, finished)))
  }

  /** Everything a session journals, in order. */
  ghost function LiveRecords(setup: Setup, started: Int64, inputs: seq<LiveInput>, finished: Int64, connection: Uint64): seq<JournalRecord> {
    Body(setup, started, inputs) + [FooterRecord(setup, inputs, finished, connection)]
  }

  // ---- replaying it ----

  function LastAt(started: int, inputs: seq<LiveInput>): int {
    if inputs == [] then started else inputs[|inputs| - 1].at
  }

  /** Where a replay under metadata `used` stands after the header and the inputs. */
  ghost function Expected(codec: Codec, used: Metadata, started: int, inputs: seq<LiveInput>): Progress {
    Progress(Counts(|inputs| + 1, Frames(inputs), Losses(inputs) + 1, Unparsed(codec, used, inputs)), Some(used),
             if inputs == [] then None else Some(LiveMarket(codec, used, inputs)), Some(started), Some(LastAt(started, inputs)))
  }

  ghost function ExpectedOutcome(codec: Codec, options: ReplayOptions, used: Metadata, started: int, inputs: seq<LiveInput>): (o: Outcome)
    ensures OutcomeOk(o)
  {
    if options.stopOnParseFailure && Unparsed(codec, used, inputs) > 0 then Stopped(ParseFailure)
    else Running(Expected(codec, used, started, inputs))
  }

  /** The metadata a replay of the session goes by: the caller's, if given, else the journal's own. */
  function Used(options: ReplayOptions, setup: Setup): Metadata {
    if options.metadataOverride.Some? then options.metadataOverride.value else setup.metadata
  }

  lemma HeaderReplayed(setup: Setup, options: ReplayOptions, started: Int64)
    requires Faithful(setup.codec) && StorableGrid(setup.metadata.grid)
    ensures RecordStep(setup.codec, options, Start(options), HeaderRecord(setup, started)) ==
            ExpectedOutcome(setup.codec, options, Used(options, setup), started, [])
  {
    MetadataRoundTrip(setup.codec, setup.metadata);
  }

  lemma ExpectedMarket(codec: Codec, used: Metadata, started: int, inputs: seq<LiveInput>)
    ensures var p := Expected(codec, used, started, inputs);
      && Market0(p) == LiveMarket(codec, used, inputs) && p.metadata == Some(used) && p.first == Some(started)
  {}

  /** One record more: what it adds to the counters, and the market after it. */
  ghost function Advanced(p: Progress, at: int, messages: nat, lifecycle: nat, failures: nat, v: MarketValue): Progress {
    Progress(Counts(p.counts.records + 1, p.counts.messages + messages, p.counts.lifecycle + lifecycle, p.counts.parseFailures + failures),
             p.metadata, Some(v), if p.first.None? then Some(at) else p.first, Some(at))
  }

  lemma MessageAdvances(codec: Codec, options: ReplayOptions, p: Progress, r: JournalRecord)
    requires ProgressOk(p) && p.metadata.Some? && r.kind.Message?
    ensures RecordStep(codec, options, p, r) ==
      match EventOf(codec, p.metadata.value, r.payload)
      case Some(event) => Running(Advanced(p, r.localTime, 1, 0, 0, EventStep(MarketOf(p.metadata.value), Market0(p), event, r.localTime)))
      case None => if options.stopOnParseFailure then Stopped(ParseFailure) else Running(Advanced(p, r.localTime, 1, 0, 1, Market0(p)))
  {
    var seen := Seen(p, r.localTime);
    assert RecordStep(codec, options, p, r) == MarketStep(codec, options, seen, r);
    assert Market0(seen) == Market0(p);
  }

  lemma LossAdvances(codec: Codec, options: ReplayOptions, p: Progress, r: JournalRecord)
    requires ProgressOk(p) && p.metadata.Some? && r.kind.ConnectionLost?
    ensures RecordStep(codec, options, p, r) == Running(Advanced(p, r.localTime, 0, 1, 0, DisconnectStep(Market0(p), r.localTime)))
  {
    assert Market0(Seen(p, r.localTime)) == Market0(p);
  }

  lemma EndAdvances(codec: Codec, options: ReplayOptions, p: Progress, r: JournalRecord)
    requires ProgressOk(p) && p.metadata.Some? && r.kind.SessionEnded?
    ensures RecordStep(codec, options, p, r) == Running(Advanced(p, r.localTime, 0, 1, 0, Market0(p)))
  {
    assert Market0(Seen(p, r.localTime)) == Market0(p);
  }

  lemma ExpectedAdvances(codec: Codec, used: Metadata, started: int, inputs: seq<LiveInput>, input: LiveInput)
    ensures Expected(codec, used, started, inputs + [input]) ==
      Advanced(Expected(codec, used, started, inputs), input.at, if input.Frame? then 1 else 0, if input.Frame? then 0 else 1,
               if input.Frame? && EventOf(codec, used, input.payload).None? then 1 else 0, LiveMarket(codec, used, inputs + [input]))
  {
    assert (inputs + [input])[..|inputs|] == inputs;
  }

  /** A record made of an input takes a replay from one expected state to the next. */
  lemma InputReplayed(codec: Codec, options: ReplayOptions, used: Metadata, started: int, inputs: seq<LiveInput>, input: LiveInput, r: JournalRecord)
    requires r.localTime == input.at
    requires if input.Frame? then r.kind.Message? && r.payload == input.payload else r.kind.ConnectionLost?
    ensures ItemStep(codec, options, ExpectedOutcome(codec, options, used, started, inputs), Rec(r)) ==
            ExpectedOutcome(codec, options, used, started, inputs + [input])
  {
    var p := Expected(codec, used, started, inputs);
    assert (inputs + [input])[..|inputs|] == inputs;
    ExpectedAdvances(codec, used, started, inputs, input);
    LiveMarketStep(codec, used, inputs, input);
    ExpectedMarket(codec, used, started, inputs);
    if input.Frame? {
      MessageAdvances(codec, options, p, r);
    } else {
      LossAdvances(codec, options, p, r);
    }
  }

  lemma ReplayOneMore(codec: Codec, options: ReplayOptions, start: Outcome, records: seq<JournalRecord>, r: JournalRecord)
    requires OutcomeOk(start)
    ensures ReplayItems(codec, options, start, RecItems(records + [r])) ==
            ItemStep(codec, options, ReplayItems(codec, options, start, RecItems(records)), Rec(r))
  {
    RecItemsConcat(records, [r]);
    assert RecItems([r]) == [Rec(r)];
    var items := RecItems(records) + [Rec(r)];
    assert items[..|items| - 1] == RecItems(records);
  }

  /** The records so far replay as expected. */
  ghost predicate AsExpected(setup: Setup, options: ReplayOptions, started: Int64, inputs: seq<LiveInput>) {
    ReplayItems(setup.codec, options, Running(Start(options)), RecItems(Body(setup, started, inputs))) ==
    ExpectedOutcome(setup.codec, options, Used(options, setup), started, inputs)
  }

  lemma HeaderAlone(setup: Setup, options: ReplayOptions, started: Int64)
    requires Faithful(setup.codec) && StorableGrid(setup.metadata.grid)
    ensures AsExpected(setup, options, started, [])
  {
    var header := HeaderRecord(setup, started);
    HeaderReplayed(setup, options, started);
    ReplayOneMore(setup.codec, options, Running(Start(options)), [], header);
    assert [] + [header] == [header] == Body(setup, started, []);
  }

  lemma ExpectedStep(setup: Setup, options: ReplayOptions, started: Int64, inputs: seq<LiveInput>, input: LiveInput)
    requires AsExpected(setup, options, started, inputs)
    ensures AsExpected(setup, options, started, inputs + [input])
  {
    BodyStep(setup, started, inputs, input);
    ReplayOneMore(setup.codec, options, Running(Start(options)), Body(setup, started, inputs), InputRecord(setup, input));
    InputReplayed(setup.codec, options, Used(options, setup), started, inputs, input, InputRecord(setup, input));
  }

  lemma {:induction false} InputsReplayed(setup: Setup, options: ReplayOptions, started: Int64, inputs: seq<LiveInput>)
    requires Faithful(setup.codec) && StorableGrid(setup.metadata.grid)
    ensures AsExpected(setup, options, started, inputs)
  {
    if inputs == [] {
      HeaderAlone(setup, options, started);
    } else {
      var before, last := inputs[..|inputs| - 1], inputs[|inputs| - 1];
      assert inputs == before + [last];
      InputsReplayed(setup, options, started, before);
      ExpectedStep(setup, options, started, before, last);
    }
  }

  /** The result a market value at the last record stands for. */
  function Report(used: Metadata, segments: nat, counts: Counts, v: MarketValue, first: Option<int>, last: int): ReplayResult {
    ReplayResult(used, segments, counts, v.stats, StateHash(used.ticker, v.book), first, Some(last))
  }

  /** What a replay of the session's records returns. */
  ghost function ReplayOfSession(setup: Setup, options: ReplayOptions, started: Int64, inputs: seq<LiveInput>, finished: Int64,
                                 segments: nat): Result<ReplayResult, ReplayErrorKind>
  {
    var used := Used(options, setup);
    var v := FinalMarket(setup.codec, used, inputs, finished);
    if options.stopOnParseFailure && Unparsed(setup.codec, used, inputs) > 0 then Failure(ParseFailure)
    else Success(Report(used, segments, SessionCounts(setup.codec, used, inputs), v, Some(started), finished))
  }

  function Closing(c: Counts): Counts {
    c.(records := c.records + 1, lifecycle := c.lifecycle + 1)
  }

  lemma FooterConcludes(codec: Codec, options: ReplayOptions, p: Progress, r: JournalRecord, segments: nat)
    requires ProgressOk(p) && p.metadata.Some? && p.first.Some? && r.kind.SessionEnded?
    ensures Conclude(RecordStep(codec, options, p, r), segments) ==
      Success(Report(p.metadata.value, segments, Closing(p.counts), FinishStep(Market0(p), r.localTime), p.first, r.localTime))
  {
    EndAdvances(codec, options, p, r);
  }

  /** The counters after a whole session, header and footer included. */
  function SessionCounts(codec: Codec, used: Metadata, inputs: seq<LiveInput>): Counts {
    Counts(|inputs| + 2, Frames(inputs), Losses(inputs) + 2, Unparsed(codec, used, inputs))
  }

  lemma FooterAfterInputs(codec: Codec, options: ReplayOptions, used: Metadata, started: int, inputs: seq<LiveInput>, r: JournalRecord, segments: nat)
    requires r.kind.SessionEnded?
    ensures Conclude(RecordStep(codec, options, Expected(codec, used, started, inputs), r), segments) ==
      Success(Report(used, segments, SessionCounts(codec, used, inputs), FinishStep(LiveMarket(codec, used, inputs), r.localTime),
                     Some(started), r.localTime))
  {
    ExpectedMarket(codec, used, started, inputs);
    FooterConcludes(codec, options, Expected(codec, used, started, inputs), r, segments);
  }

  lemma FooterReplayed(setup: Setup, options: ReplayOptions, started: Int64, inputs: seq<LiveInput>, finished: Int64, r: JournalRecord, segments: nat)
    requires r.kind.SessionEnded? && r.localTime == finished
    ensures Conclude(ItemStep(setup.codec, options, ExpectedOutcome(setup.codec, options, Used(options, setup), started, inputs), Rec(r)), segments) ==
            ReplayOfSession(setup, options, started, inputs, finished, segments)
  {
    FooterAfterInputs(setup.codec, options, Used(options, setup), started, inputs, r, segments);
  }

  /**
   Live equals replay. For every sequence of frames and disconnections, replaying what the session
   journalled, however it was cut into segments, gives the live run's counters, invalid time and state
   hash: those of the session's own market when the journal's metadata are used, and those of the same
   frames under the caller's metadata otherwise.
   */
  lemma LiveEqualsReplay(setup: Setup, options: ReplayOptions, started: Int64, inputs: seq<LiveInput>, finished: Int64,
                         connection: Uint64, segments: seq<seq<ReadItem>>)
    requires Faithful(setup.codec) && StorableGrid(setup.metadata.grid)
    requires segments != [] && Flatten(segments) == RecItems(LiveRecords(setup, started, inputs, finished, connection))
    ensures ReplayAll(setup.codec, options, segments) == ReplayOfSession(setup, options, started, inputs, finished, |segments|)
  {
    var start := Running(Start(options));
    var footer := FooterRecord(setup, inputs, finished, connection);
    PartsAreItems(setup.codec, options, start, segments);
    InputsReplayed(setup, options, started, inputs);
    ReplayOneMore(setup.codec, options, start, Body(setup, started, inputs), footer);
    FooterReplayed(setup, options, started, inputs, finished, footer, |segments|);
  }

  /** The closing record agrees with the replay: its counters and hash are the ones replay computes. */
  lemma FooterAudits(setup: Setup, started: Int64, inputs: seq<LiveInput>, finished: Int64, connection: Uint64, segments: seq<seq<ReadItem>>)
    requires Faithful(setup.codec) && StorableGrid(setup.metadata.grid)
    requires segments != [] && Flatten(segments) == RecItems(LiveRecords(setup, started, inputs, finished, connection))
    ensures ReplayAll(setup.codec, ReplayOptions(None, false), segments).Success?
    ensures var r := ReplayAll(setup.codec, ReplayOptions(None, false), segments).value;
      LiveFooter(setup, inputs, finished) == FooterOf(r.market, r.counts.messages, r.counts.parseFailures, r.finalHash)
  {
    LiveEqualsReplay(setup, ReplayOptions(None, false), started, inputs, finished, connection, segments);
  }

  lemma {:induction false} SegmentItemsCount(codec: Codec, segments: seq<J.Segment>)
    ensures |SegmentItems(codec, segments)| == |segments|
  {
    if segments != [] {
      SegmentItemsCount(codec, segments[..|segments| - 1]);
    }
  }

  /**
   From the wire to the replay, through the files: whatever the flush and rotation schedule, if no
   write fails, the segments the directory lists replay to the live run.
   */
  lemma JournalReproducesLive(setup: Setup, options: ReplayOptions, started: Int64, inputs: seq<LiveInput>, finished: Int64,
                              connection: Uint64, config: J.WriterConfig, first: J.OpenIo, ops: seq<J.WriterOp>, entries: seq<string>)
    requires Faithful(setup.codec) && StorableGrid(setup.metadata.grid)
    requires J.Written(ops) == EncodeAll(setup.codec, LiveRecords(setup, started, inputs, finished, connection))
    requires J.Unfailing(ops)
    requires Names.Undisturbed(config, first, ops)
    requires multiset(Listing.Candidates(entries, config.prefix)) ==
             multiset(Names.NamesOf(J.RunOps(config, J.NewWriter(config, first), ops + [J.FINAL_FLUSH]).segments))
    ensures var files := J.RunOps(config, J.NewWriter(config, first), ops + [J.FINAL_FLUSH]).segments;
      && Sorting.Sort(Order.Before, Listing.Candidates(entries, config.prefix)) == Names.NamesOf(files)
      && ReplayAll(setup.codec, options, SegmentItems(setup.codec, files)) ==
         ReplayOfSession(setup, options, started, inputs, finished, |files|)
  {
    var files := J.RunOps(config, J.NewWriter(config, first), ops + [J.FINAL_FLUSH]).segments;
    JournalRoundTrip(setup.codec, config, first, ops, LiveRecords(setup, started, inputs, finished, connection), entries);
    SegmentItemsCount(setup.codec, files);
    LiveEqualsReplay(setup, options, started, inputs, finished, connection, SegmentItems(setup.codec, files));
  }
}
