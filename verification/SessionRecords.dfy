/** What the lines of a recorded session say about the frames and events they were written for. */
module SessionRecords {
  import opened Arithmetic
  import opened Collector
  import opened Events
  import opened JournalRecords
  import opened JsonValues
  import opened LiveSession
  import opened OtherMessages
  import opened SessionCounters
  import opened SessionMetadata
  import opened WireMessages
  import opened Wrappers
  import opened WsProtocol

  const BOOK_KINDS := {"orderbook_snapshot", "orderbook_delta"}

  /** How a heard document is labelled: by its own type, when that is a known one. */
  function LabelOf(root: Fields): string
    requires Find(root, "type").Some? && Find(root, "type").value.Text?
  {
    if root["type"].s in KNOWN_KINDS then root["type"].s else "unhandled"
  }

  /** Book messages carry their number, in 64 bits. */
  function NumberIn(root: Fields): Option<Json> {
    match (Find(root, "type"), Find(root, "seq"))
    case (Some(Text(kind)), Some(Number(n))) => if kind in BOOK_KINDS then Some(Number(n % TWO64)) else None
    case _ => None
  }

  /** The market a document is about; acknowledgements and unknown messages are about none. */
  function TickerIn(root: Fields): Option<Json> {
    match (Find(root, "type"), Find(root, "msg"))
    case (Some(Text(kind)), Some(Object(body))) =>
      if kind in KNOWN_KINDS && kind != "subscribed" && SaysWords(Find(body, "market_ticker")) then Find(body, "market_ticker") else None
    case _ => None
  }

  /** The event of a document, as a journal line labels it. */
  predicate Labels(root: Fields, event: MarketEvent) {
    && Find(root, "type").Some? && Find(root, "type").value.Text? && EventType(event) == LabelOf(root)
    && NumberOf(EventSequence(event)) == NumberIn(root) && TextOf(EventTicker(event)) == TickerIn(root)
  }

  lemma NumberKept(n: int, sequence: Uint64)
    requires (n - sequence) % TWO64 == 0
    ensures n % TWO64 == sequence
  {
    HeldAs(n, sequence, 0, TWO64);
  }

  lemma HeaderLabels(root: Fields, ticker: string, sid: int, sequence: Uint64)
    requires SaysHeader(root, "orderbook_snapshot", ticker, sid, sequence) || SaysHeader(root, "orderbook_delta", ticker, sid, sequence)
    ensures LabelOf(root) == root["type"].s && NumberIn(root) == Some(Number(sequence)) && TickerIn(root) == Some(Text(ticker))
  {
    NumberKept(root["seq"].n, sequence);
  }

  lemma TradeLabels(root: Fields, ticker: string)
    requires SaysTrade(root, ticker)
    ensures Labels(root, TradeEvent(ticker))
  {}

  lemma ErrorLabels(root: Fields, ticker: Option<string>)
    requires SaysError(root, ticker)
    ensures Labels(root, ErrorEvent(ticker))
  {}

  lemma EventLabels(root: Fields, convention: PriceConvention, event: MarketEvent)
    requires ParseDocument(Object(root), convention) == Success(event)
    ensures Labels(root, event)
  {
    match event
    case SnapshotEvent(s) =>
      SnapshotExact(root, s, convention);
      HeaderLabels(root, s.ticker, s.subscription, s.sequence);
    case DeltaEvent(d) =>
      DeltaExact(root, d, convention);
      HeaderLabels(root, d.ticker, d.subscription, d.sequence);
    case TradeEvent(ticker) =>
      TradeExact(root, ticker, convention);
      TradeLabels(root, ticker);
    case AckEvent => AckExact(root, convention);
    case ErrorEvent(ticker) =>
      ErrorExact(root, ticker, convention);
      ErrorLabels(root, ticker);
    case UnhandledEvent(kind) => UnhandledExact(root, kind, convention);
  }

  /** The payload is a document in which nothing is lacking. */
  ghost predicate Heard(codec: Codec, payload: string, convention: PriceConvention) {
    codec.parse(payload).Some? && DocumentLacks(codec.parse(payload).value, convention) == None
  }

  /** The line's own document, whatever the line is about. */
  ghost predicate LineSays(line: Option<Json>, kind: string, named: string, at: int, connection: int, payload: string,
                           sequence: Option<Json>, ticker: Option<Json>) {
    && line.Some? && line.value.Object?
    && var doc := line.value.fields;
       && Find(doc, "kind") == Some(Text(kind)) && Find(doc, "type") == Some(Text(named))
       && Find(doc, "t_local_us") == Some(Number(at)) && Find(doc, "conn") == Some(Number(connection))
       && Find(doc, "payload") == Some(Text(payload)) && Find(doc, "seq") == sequence && Find(doc, "ticker") == ticker
       && Find(doc, "t_exchange_us") == None && Find(doc, "sid") == None && Find(doc, "market_id") == None
  }

  lemma LineOf(codec: Codec, r: JournalRecord, kind: string)
    requires Faithful(codec) && kind == KindText(r.kind) && r.exchangeTime.None? && r.subscription.None? && r.marketId.None?
    ensures LineSays(codec.parse(Encode(codec, r)), kind, r.messageType, r.localTime, r.connection, r.payload,
                     NumberOf(r.sequence), TextOf(r.ticker))
  {
    DocumentDescribes(r);
    RoundTrip(codec, Object(Document(r)));
  }

  /**
   The line of a frame keeps the frame's text and the instant it was heard, and repeats type, number
   and market of the document in it; a frame that is not heard is kept as "unparsed".
   */
  lemma FrameLine(setup: Setup, payload: string, at: Int64, connection: Uint64)
    requires Faithful(setup.codec)
    ensures var line := setup.codec.parse(Encode(setup.codec, InputRecord(setup, Frame(payload, at, connection))));
      if Heard(setup.codec, payload, setup.metadata.convention) then
        var root := setup.codec.parse(payload).value.fields;
        LineSays(line, "message", LabelOf(root), at, connection, payload, NumberIn(root), TickerIn(root))
      else LineSays(line, "message", "unparsed", at, connection, payload, None, None)
  {
    var convention := setup.metadata.convention;
    LineOf(setup.codec, InputRecord(setup, Frame(payload, at, connection)), "message");
    match setup.codec.parse(payload)
    case None =>
    case Some(document) =>
      RefusedForFirst(document, convention);
      if ParseDocument(document, convention).Success? {
        EventLabels(document.fields, convention, ParseDocument(document, convention).value);
      }
  }

  /** Header, loss and end of a session, each under the session's market. */
  lemma LifecycleLines(setup: Setup, at: Int64, connection: Uint64, detail: string, footer: Footer)
    requires Faithful(setup.codec)
    ensures var ticker := Some(Text(setup.metadata.ticker));
      && LineSays(setup.codec.parse(Encode(setup.codec, HeaderRecord(setup, at))), "session_started", "session_started", at, 0,
                  EncodeMetadata(setup.codec, setup.metadata), None, ticker)
      && LineSays(setup.codec.parse(Encode(setup.codec, InputRecord(setup, Dropped(detail, at, connection)))), "connection_lost",
                  "connection_lost", at, connection, detail, None, ticker)
      && LineSays(setup.codec.parse(Encode(setup.codec, EndRecord(setup, footer, at, connection))), "session_ended", "session_ended",
                  at, connection, setup.footerText(footer), None, ticker)
  {
    LineOf(setup.codec, HeaderRecord(setup, at), "session_started");
    LineOf(setup.codec, InputRecord(setup, Dropped(detail, at, connection)), "connection_lost");
    LineOf(setup.codec, EndRecord(setup, footer, at, connection), "session_ended");
  }

  // ---- the closing counters ----

  /** The inputs of a session that are frames, and of those the ones that are not heard. */
  function FramesAt(inputs: seq<LiveInput>): set<int> {
    set i | 0 <= i < |inputs| && inputs[i].Frame?
  }

  ghost function UnheardAt(codec: Codec, convention: PriceConvention, inputs: seq<LiveInput>): set<int> {
    set i | 0 <= i < |inputs| && inputs[i].Frame? && !Heard(codec, inputs[i].payload, convention)
  }

  lemma HeardIsParsed(codec: Codec, m: Metadata, payload: string)
    ensures EventOf(codec, m, payload).Some? <==> Heard(codec, payload, m.convention)
  {
    if codec.parse(payload).Some? {
      RefusedForFirst(codec.parse(payload).value, m.convention);
    }
  }

  lemma {:induction false} FramesCounted(inputs: seq<LiveInput>)
    ensures Frames(inputs) == |FramesAt(inputs)|
  {
    if inputs == [] {
      assert FramesAt(inputs) == {};
    } else {
      var n := |inputs| - 1;
      FramesCounted(inputs[..n]);
      assert FramesAt(inputs) == FramesAt(inputs[..n]) + if inputs[n].Frame? then {n} else {};
    }
  }

  lemma {:induction false} UnheardCounted(codec: Codec, m: Metadata, inputs: seq<LiveInput>)
    ensures Unparsed(codec, m, inputs) == |UnheardAt(codec, m.convention, inputs)|
  {
    if inputs == [] {
      assert UnheardAt(codec, m.convention, inputs) == {};
    } else {
      var n := |inputs| - 1;
      UnheardCounted(codec, m, inputs[..n]);
      UnheardOneMore(codec, m.convention, inputs[..n], inputs[n]);
      assert inputs == inputs[..n] + [inputs[n]];
      if inputs[n].Frame? {
        HeardIsParsed(codec, m, inputs[n].payload);
      }
    }
  }

  lemma UnheardOneMore(codec: Codec, convention: PriceConvention, inputs: seq<LiveInput>, input: LiveInput)
    ensures |UnheardAt(codec, convention, inputs + [input])| ==
            |UnheardAt(codec, convention, inputs)| + if input.Frame? && !Heard(codec, input.payload, convention) then 1 else 0
  {
    assert UnheardAt(codec, convention, inputs + [input]) ==
           UnheardAt(codec, convention, inputs) + if input.Frame? && !Heard(codec, input.payload, convention) then {|inputs|} else {};
  }

  /** Each number of the closing record is the count of what it is named for, over the whole session. */
  lemma FooterCounts(setup: Setup, inputs: seq<LiveInput>, finished: Int64)
    ensures var footer := LiveFooter(setup, inputs, finished);
      var (market, seen) := (MarketOf(setup.metadata), Observations(setup.codec, setup.metadata, inputs));
      && footer.messages == |FramesAt(inputs)|
      && footer.parseFailures == |UnheardAt(setup.codec, setup.metadata.convention, inputs)|
      && footer.snapshots == HowMany(market, seen, Snapshots) && footer.deltas == HowMany(market, seen, Deltas)
      && footer.trades == HowMany(market, seen, Trades) && footer.gaps == HowMany(market, seen, SequenceGaps)
      && footer.rejectedDeltas == HowMany(market, seen, RejectedDeltas)
  {
    FramesCounted(inputs);
    UnheardCounted(setup.codec, setup.metadata, inputs);
    var market, seen := MarketOf(setup.metadata), Observations(setup.codec, setup.metadata, inputs);
    forall c: Counter ensures Reading(FinalMarket(setup.codec, setup.metadata, inputs, finished).stats, c) == HowMany(market, seen, c) {
      CountersExact(market, seen, c);
      FinishOnce(LiveMarket(setup.codec, setup.metadata, inputs), finished, finished);
    }
    var final := FinalMarket(setup.codec, setup.metadata, inputs, finished).stats;
    assert Reading(final, Snapshots) == final.snapshots && Reading(final, Deltas) == final.deltas && Reading(final, Trades) == final.trades;
    assert Reading(final, SequenceGaps) == final.sequenceGaps && Reading(final, RejectedDeltas) == final.rejectedDeltas;
  }
}
