/** Replaying journal segments through the same normalizer and market state as the live run. */
module Replay {
  import opened Arithmetic
  import opened Book
  import opened Events
  import opened JournalReading
  import opened JournalRecords
  import opened JsonValues
  import opened MarketStates
  import opened Sequences
  import opened SessionMetadata
  import opened Wrappers
  import opened WsProtocol

  datatype ReplayErrorKind = NoSegments | JournalFailure | MissingSessionRecord | MalformedMetadata | ParseFailure

  datatype ReplayOptions = ReplayOptions(metadataOverride: Option<Metadata>, stopOnParseFailure: bool)

  datatype Counts = Counts(records: nat, messages: nat, lifecycle: nat, parseFailures: nat)

  datatype ReplayResult = ReplayResult(metadata: Metadata, segments: nat, counts: Counts, market: Stats,
                                       finalHash: Uint64, first: Option<int>, last: Option<int>)

  /** What the replay loop carries from record to record. */
  datatype Progress = Progress(counts: Counts, metadata: Option<Metadata>, market: Option<MarketValue>,
                               first: Option<int>, last: Option<int>)

  datatype Outcome = Running(progress: Progress) | Stopped(error: ReplayErrorKind)

  ghost predicate ProgressOk(p: Progress) {
    p.market.Some? ==> p.metadata.Some? && Sound(MarketOf(p.metadata.value), p.market.value.book)
  }

  ghost predicate OutcomeOk(o: Outcome) {
    o.Running? ==> ProgressOk(o.progress)
  }

  function Start(options: ReplayOptions): Progress {
    Progress(Counts(0, 0, 0, 0), options.metadataOverride, None, None, None)
  }

  // ---- one record ----

  function Seen(p: Progress, at: int): Progress {
    p.(counts := p.counts.(records := p.counts.records + 1),
       first := if p.first.None? then Some(at) else p.first, last := Some(at))
  }

  function Lifecycle(p: Progress): Progress {
    p.(counts := p.counts.(lifecycle := p.counts.lifecycle + 1))
  }

  function StartedStep(codec: Codec, p: Progress, payload: string): Outcome {
    if p.metadata.Some? then Running(Lifecycle(p))
    else match DecodeMetadata(codec, payload)
      case Failure(_) => Stopped(MalformedMetadata)
      case Success(m) => Running(Lifecycle(p).(metadata := Some(m)))
  }

  function Market0(p: Progress): MarketValue {
    if p.market.Some? then p.market.value else NEW_MARKET
  }

  /** A message that parsed, or failed to. */
  ghost function ParsedStep(options: ReplayOptions, p: Progress, parsed: Result<MarketEvent, WsParseError>, at: int): (o: Outcome)
    requires ProgressOk(p) && p.metadata.Some?
    ensures OutcomeOk(o)
  {
    var counted := p.(counts := p.counts.(messages := p.counts.messages + 1));
    match parsed
    case Failure(_) =>
      if options.stopOnParseFailure then Stopped(ParseFailure)
      else Running(counted.(counts := counted.counts.(parseFailures := counted.counts.parseFailures + 1),
                            market := Some(Market0(p))))
    case Success(event) =>
      Running(counted.(market := Some(EventStep(MarketOf(p.metadata.value), Market0(p), event, at))))
  }

  /** A record other than a session start, when the market is known. */
  ghost function MarketStep(codec: Codec, options: ReplayOptions, p: Progress, r: JournalRecord): (o: Outcome)
    requires ProgressOk(p) && p.metadata.Some?
    ensures OutcomeOk(o)
  {
    if r.kind.ConnectionLost? then
      Running(Lifecycle(p).(market := Some(DisconnectStep(Market0(p), r.localTime))))
    else if !r.kind.Message? then Running(Lifecycle(p).(market := Some(Market0(p))))
    else ParsedStep(options, p, ParseWsMessage(codec, r.payload, p.metadata.value.convention), r.localTime)
  }

  ghost function RecordStep(codec: Codec, options: ReplayOptions, p: Progress, r: JournalRecord): (o: Outcome)
    requires ProgressOk(p)
    ensures OutcomeOk(o)
  {
    var seen := Seen(p, r.localTime);
    if r.kind.SessionStarted? then StartedStep(codec, seen, r.payload)
    else if seen.metadata.None? then Stopped(MissingSessionRecord)
    else MarketStep(codec, options, seen, r)
  }

  ghost function ItemStep(codec: Codec, options: ReplayOptions, o: Outcome, item: ReadItem): (after: Outcome)
    requires OutcomeOk(o)
    ensures OutcomeOk(after)
  {
    if o.Stopped? then o
    else match item
      case Bad(_) => Stopped(JournalFailure)
      case Rec(r) => RecordStep(codec, options, o.progress, r)
  }

  ghost function ReplayItems(codec: Codec, options: ReplayOptions, start: Outcome, items: seq<ReadItem>): (o: Outcome)
    requires OutcomeOk(start)
    ensures OutcomeOk(o)
  {
    if items == [] then start
    else ItemStep(codec, options, ReplayItems(codec, options, start, items[..|items| - 1]), items[|items| - 1])
  }

  /** Segment after segment, item after item, as the nested loops go. */
  ghost function ReplayParts(codec: Codec, options: ReplayOptions, start: Outcome, segments: seq<seq<ReadItem>>): (o: Outcome)
    requires OutcomeOk(start)
    ensures OutcomeOk(o)
  {
    if segments == [] then start
    else ReplayItems(codec, options, ReplayParts(codec, options, start, segments[..|segments| - 1]), segments[|segments| - 1])
  }

  /** The closing part of a replay that was not stopped. */
  function Conclude(o: Outcome, segments: nat): Result<ReplayResult, ReplayErrorKind> {
    match o
    case Stopped(e) => Failure(e)
    case Running(p) =>
      if p.metadata.None? then Failure(MissingSessionRecord)
      else
        var m := p.metadata.value;
        var v := if p.market.Some? && p.last.Some? then FinishStep(p.market.value, p.last.value) else Market0(p);
        Success(ReplayResult(m, segments, p.counts, v.stats, StateHash(m.ticker, v.book), p.first, p.last))
  }

  ghost function ReplayAll(codec: Codec, options: ReplayOptions, segments: seq<seq<ReadItem>>): Result<ReplayResult, ReplayErrorKind> {
    if segments == [] then Failure(NoSegments)
    else Conclude(ReplayParts(codec, options, Running(Start(options)), segments), |segments|)
  }

  // ---- the loops ----

  /** The market object once there is one, else the state it will start from. */
  function StateValue(state: MarketState?): Option<MarketValue>
    reads state, if state == null then {} else {state.book}
  {
    if state == null then None else Some(state.Value())
  }

  ghost predicate StateOk(state: MarketState?, metadata: Option<Metadata>)
    reads state, if state == null then {} else {state.book}
  {
    state != null ==> metadata.Some? && state.Valid() && state.book.market == MarketOf(metadata.value)
  }

  /** The variables of the replay loop other than the market object. */
  datatype Locals = Locals(counts: Counts, metadata: Option<Metadata>, first: Option<int>, last: Option<int>)

  ghost function ProgressOf(l: Locals, state: MarketState?): Progress
    reads state, if state == null then {} else {state.book}
  {
    Progress(l.counts, l.metadata, StateValue(state), l.first, l.last)
  }

  method ReplayMessage(options: ReplayOptions, state: MarketState, l: Locals, parsed: Result<MarketEvent, WsParseError>, at: int)
    returns (error: Option<ReplayErrorKind>, next: Locals)
    requires StateOk(state, l.metadata)
    modifies state, state.book
    ensures StateOk(state, next.metadata)
    ensures ParsedStep(options, old(ProgressOf(l, state)), parsed, at) ==
            if error.Some? then Stopped(error.value) else Running(ProgressOf(next, state))
  {
    next := l.(counts := l.counts.(messages := l.counts.messages + 1));
    if parsed.Failure? {
      next := next.(counts := next.counts.(parseFailures := next.counts.parseFailures + 1));
      return if options.stopOnParseFailure then Some(ParseFailure) else None, next;
    }
    var _ := state.Apply(parsed.value, at);
    error := None;
  }

  /** The rest of a pass once the market object exists. */
  method ReplayOnto(codec: Codec, options: ReplayOptions, state: MarketState, l: Locals, record: JournalRecord)
    returns (error: Option<ReplayErrorKind>, next: Locals)
    requires StateOk(state, l.metadata)
    modifies state, state.book
    ensures StateOk(state, next.metadata)
    ensures MarketStep(codec, options, old(ProgressOf(l, state)), record) ==
            if error.Some? then Stopped(error.value) else Running(ProgressOf(next, state))
  {
    error, next := None, l;
    if record.kind.ConnectionLost? {
      next := next.(counts := next.counts.(lifecycle := next.counts.lifecycle + 1));
      state.OnDisconnected(record.localTime);
      return;
    }
    if !record.kind.Message? {
      next := next.(counts := next.counts.(lifecycle := next.counts.lifecycle + 1));
      return;
    }
    var parsed := ParseWsMessage(codec, record.payload, l.metadata.value.convention);
    error, next := ReplayMessage(options, state, l, parsed, record.localTime);
  }

  /** A fresh market object stands for no object. */
  lemma FreshMarket(codec: Codec, options: ReplayOptions, p: Progress, r: JournalRecord)
    requires p.metadata.Some? && p.market.None?
    ensures MarketStep(codec, options, p, r) == MarketStep(codec, options, p.(market := Some(NEW_MARKET)), r)
  {}

  method CountRecord(state: MarketState?, l: Locals, at: int) returns (next: Locals)
    ensures ProgressOf(next, state) == Seen(ProgressOf(l, state), at) && next.metadata == l.metadata
  {
    next := l.(counts := l.counts.(records := l.counts.records + 1));
    if next.first.None? {
      next := next.(first := Some(at));
    }
    next := next.(last := Some(at));
  }

  /** A session start: its metadata counts when none was known. */
  method ReplayStarted(codec: Codec, state: MarketState?, l: Locals, payload: string)
    returns (error: Option<ReplayErrorKind>, next: Locals)
    requires StateOk(state, l.metadata)
    ensures StateOk(state, next.metadata)
    ensures StartedStep(codec, ProgressOf(l, state), payload) ==
            if error.Some? then Stopped(error.value) else Running(ProgressOf(next, state))
  {
    error, next := None, l.(counts := l.counts.(lifecycle := l.counts.lifecycle + 1));
    if next.metadata.None? {
      var parsed := DecodeMetadata(codec, payload);
      if parsed.Failure? {
        return Some(MalformedMetadata), next;
      }
      next := next.(metadata := Some(parsed.value));
    }
  }

  /** One pass of the inner loop. */
  method ReplayRecord(codec: Codec, options: ReplayOptions, current: MarketState?, l: Locals, record: JournalRecord)
    returns (error: Option<ReplayErrorKind>, state: MarketState?, next: Locals)
    requires StateOk(current, l.metadata)
    modifies current, if current == null then {} else {current.book}
    ensures StateOk(state, next.metadata) && (state != null && state != current ==> fresh(state) && fresh(state.book))
    ensures RecordStep(codec, options, old(ProgressOf(l, current)), record) ==
            if error.Some? then Stopped(error.value) else Running(ProgressOf(next, state))
  {
    error, state := None, current;
    next := CountRecord(state, l, record.localTime);
    if record.kind.SessionStarted? {
      error, next := ReplayStarted(codec, state, next, record.payload);
      return;
    }
    if next.metadata.None? {
      return Some(MissingSessionRecord), state, next;
    }
    if state == null {
      FreshMarket(codec, options, ProgressOf(next, null), record);
      state := new MarketState(MarketOf(next.metadata.value));
    }
    error, next := ReplayOnto(codec, options, state, next, record);
  }

  /** The inner loop: one segment, read to its end or to the first problem. */
  method ReplaySegment(codec: Codec, options: ReplayOptions, current: MarketState?, l: Locals, items: seq<ReadItem>)
    returns (error: Option<ReplayErrorKind>, state: MarketState?, next: Locals)
    requires StateOk(current, l.metadata)
    modifies current, if current == null then {} else {current.book}
    ensures StateOk(state, next.metadata) && (state != null && state != current ==> fresh(state) && fresh(state.book))
    ensures ReplayItems(codec, options, Running(old(ProgressOf(l, current))), items) ==
            if error.Some? then Stopped(error.value) else Running(ProgressOf(next, state))
  {
    error, state, next := None, current, l;
    ghost var start := Running(ProgressOf(l, current));
    for i := 0 to |items|
      invariant StateOk(state, next.metadata) && (state != null && state != current ==> fresh(state) && fresh(state.book))
      invariant error.None?
      invariant ReplayItems(codec, options, start, items[..i]) == Running(ProgressOf(next, state))
    {
      assert items[..i + 1][..i] == items[..i];
      if items[i].Bad? {
        ItemStops(codec, options, start, items, i);
        return Some(JournalFailure), state, next;
      }
      error, state, next := ReplayRecord(codec, options, state, next, items[i].record);
      if error.Some? {
        ItemStops(codec, options, start, items, i);
        return;
      }
    }
    assert items[..|items|] == items;
  }

  method ReplaySegments(codec: Codec, segments: seq<seq<ReadItem>>, options: ReplayOptions)
    returns (r: Result<ReplayResult, ReplayErrorKind>)
    ensures r == ReplayAll(codec, options, segments)
  {
    if segments == [] {
      return Failure(NoSegments);
    }
    var l := Locals(Counts(0, 0, 0, 0), options.metadataOverride, None, None);
    var state: MarketState? := null;
    ghost var start := Running(Start(options));
    for s := 0 to |segments|
      invariant StateOk(state, l.metadata) && (state != null ==> fresh(state) && fresh(state.book))
      invariant ReplayParts(codec, options, start, segments[..s]) == Running(ProgressOf(l, state))
    {
      assert segments[..s + 1][..s] == segments[..s];
      var error;
      error, state, l := ReplaySegment(codec, options, state, l, segments[s]);
      if error.Some? {
        PartStops(codec, options, start, segments, s);
        return Failure(error.value);
      }
    }
    assert segments[..|segments|] == segments;
    if l.metadata.None? {
      return Failure(MissingSessionRecord);
    }
    var m := l.metadata.value;
    if state == null {
      return Success(ReplayResult(m, |segments|, l.counts, NO_STATS, StateHash(m.ticker, EMPTY_BOOK), l.first, l.last));
    }
    if l.last.Some? {
      state.Finish(l.last.value);
    }
    var digest := state.book.Hash();
    r := Success(ReplayResult(m, |segments|, l.counts, state.stats, digest, l.first, l.last));
  }

  lemma {:induction false} StoppedStays(codec: Codec, options: ReplayOptions, e: ReplayErrorKind, items: seq<ReadItem>)
    ensures ReplayItems(codec, options, Stopped(e), items) == Stopped(e)
  {
    if items != [] {
      StoppedStays(codec, options, e, items[..|items| - 1]);
    }
  }

  /** A segment stopped at one item stays stopped through the rest. */
  lemma ItemStops(codec: Codec, options: ReplayOptions, start: Outcome, items: seq<ReadItem>, i: nat)
    requires i < |items| && OutcomeOk(start) && ReplayItems(codec, options, start, items[..i + 1]).Stopped?
    ensures ReplayItems(codec, options, start, items) == ReplayItems(codec, options, start, items[..i + 1])
  {
    assert items == items[..i + 1] + items[i + 1..];
    ItemsConcat(codec, options, start, items[..i + 1], items[i + 1..]);
    StoppedStays(codec, options, ReplayItems(codec, options, start, items[..i + 1]).error, items[i + 1..]);
  }

  lemma PartStops(codec: Codec, options: ReplayOptions, start: Outcome, segments: seq<seq<ReadItem>>, s: nat)
    requires s < |segments| && OutcomeOk(start) && ReplayParts(codec, options, start, segments[..s + 1]).Stopped?
    ensures ReplayParts(codec, options, start, segments) == ReplayParts(codec, options, start, segments[..s + 1])
  {
    assert segments == segments[..s + 1] + segments[s + 1..];
    PartsConcat(codec, options, start, segments[..s + 1], segments[s + 1..]);
    StoppedParts(codec, options, ReplayParts(codec, options, start, segments[..s + 1]).error, segments[s + 1..]);
  }

  lemma {:induction false} StoppedParts(codec: Codec, options: ReplayOptions, e: ReplayErrorKind, segments: seq<seq<ReadItem>>)
    ensures ReplayParts(codec, options, Stopped(e), segments) == Stopped(e)
  {
    if segments != [] {
      StoppedParts(codec, options, e, segments[..|segments| - 1]);
      StoppedStays(codec, options, e, segments[|segments| - 1]);
    }
  }

  lemma {:induction false} PartsConcat(codec: Codec, options: ReplayOptions, start: Outcome, a: seq<seq<ReadItem>>, b: seq<seq<ReadItem>>)
    requires OutcomeOk(start)
    ensures ReplayParts(codec, options, start, a + b) == ReplayParts(codec, options, ReplayParts(codec, options, start, a), b)
  {
    if b == [] {
      assert a + b == a;
    } else {
      assert (a + b)[..|a + b| - 1] == a + b[..|b| - 1];
      PartsConcat(codec, options, start, a, b[..|b| - 1]);
    }
  }

  lemma {:induction false} ItemsConcat(codec: Codec, options: ReplayOptions, start: Outcome, a: seq<ReadItem>, b: seq<ReadItem>)
    requires OutcomeOk(start)
    ensures ReplayItems(codec, options, start, a + b) == ReplayItems(codec, options, ReplayItems(codec, options, start, a), b)
  {
    if b == [] {
      assert a + b == a;
    } else {
      assert (a + b)[..|a + b| - 1] == a + b[..|b| - 1];
      ItemsConcat(codec, options, start, a, b[..|b| - 1]);
    }
  }

  // ---- segmentation does not matter ----

  lemma {:induction false} PartsAreItems(codec: Codec, options: ReplayOptions, start: Outcome, segments: seq<seq<ReadItem>>)
    requires OutcomeOk(start)
    ensures ReplayParts(codec, options, start, segments) == ReplayItems(codec, options, start, Flatten(segments))
  {
    if segments != [] {
      var n := |segments| - 1;
      PartsAreItems(codec, options, start, segments[..n]);
      FlattenLast(segments[..n], segments[n]);
      assert segments[..n] + [segments[n]] == segments;
      ItemsConcat(codec, options, start, Flatten(segments[..n]), segments[n]);
    }
  }

  lemma CutConcludes(o: Outcome, m: nat, n: nat)
    ensures match Conclude(o, m)
      case Failure(e) => Conclude(o, n) == Failure(e)
      case Success(r) => Conclude(o, n) == Success(r.(segments := n))
  {}

  /** Any two non-empty ways of cutting one list of items into segments replay alike, the segment count aside. */
  lemma SegmentationIrrelevant(codec: Codec, options: ReplayOptions, a: seq<seq<ReadItem>>, b: seq<seq<ReadItem>>)
    requires a != [] && b != [] && Flatten(a) == Flatten(b)
    ensures match ReplayAll(codec, options, a)
      case Failure(e) => ReplayAll(codec, options, b) == Failure(e)
      case Success(r) => ReplayAll(codec, options, b) == Success(r.(segments := |b|))
  {
    PartsAreItems(codec, options, Running(Start(options)), a);
    PartsAreItems(codec, options, Running(Start(options)), b);
    CutConcludes(ReplayItems(codec, options, Running(Start(options)), Flatten(a)), |a|, |b|);
  }

  // ---- the counters of a replay ----

  ghost predicate Balanced(p: Progress) {
    && p.counts.records == p.counts.messages + p.counts.lifecycle
    && p.counts.parseFailures <= p.counts.messages
    && (if p.market.Some? then EventTotal(p.market.value.stats) == p.counts.messages - p.counts.parseFailures
        else p.counts.messages == 0)
  }

  lemma EventCounted(market: Market, v: MarketValue, event: MarketEvent, at: int)
    requires Sound(market, v.book)
    ensures EventTotal(EventStep(market, v, event, at).stats) == EventTotal(v.stats) + 1
  {
    var (b, rejection) := BookStep(market, v.book, event);
    NoteKeepsTotal(v.(book := b, stats := Count(v.stats, event, rejection)), at);
  }

  lemma NoteKeepsTotal(v: MarketValue, at: int)
    ensures EventTotal(NoteValidity(v, at).stats) == EventTotal(v.stats)
  {}

  /** Balanced but for the record just read, which is neither message nor lifecycle yet. */
  ghost predicate Owing(p: Progress) {
    && p.counts.records == p.counts.messages + p.counts.lifecycle + 1
    && p.counts.parseFailures <= p.counts.messages
    && EventTotal(Market0(p).stats) == p.counts.messages - p.counts.parseFailures
    && (p.market.None? ==> p.counts.messages == 0)
  }

  lemma SeenOwes(p: Progress, at: int)
    requires Balanced(p)
    ensures Owing(Seen(p, at))
  {}

  lemma ParsedBalanced(options: ReplayOptions, p: Progress, parsed: Result<MarketEvent, WsParseError>, at: int)
    requires ProgressOk(p) && p.metadata.Some? && Owing(p)
    ensures var o := ParsedStep(options, p, parsed, at);
      o.Running? ==> Balanced(o.progress)
  {
    if parsed.Success? {
      EventCounted(MarketOf(p.metadata.value), Market0(p), parsed.value, at);
      EventBalanced(p, EventStep(MarketOf(p.metadata.value), Market0(p), parsed.value, at));
    } else {
      FailureBalanced(p);
    }
  }

  lemma EventBalanced(p: Progress, v: MarketValue)
    requires Owing(p) && EventTotal(v.stats) == EventTotal(Market0(p).stats) + 1
    ensures Balanced(p.(counts := p.counts.(messages := p.counts.messages + 1), market := Some(v)))
  {}

  lemma FailureBalanced(p: Progress)
    requires Owing(p)
    ensures Balanced(p.(counts := p.counts.(messages := p.counts.messages + 1, parseFailures := p.counts.parseFailures + 1),
                        market := Some(Market0(p))))
  {}

  lemma LifecycleBalanced(p: Progress, v: MarketValue)
    requires Owing(p) && EventTotal(v.stats) == EventTotal(Market0(p).stats)
    ensures Balanced(Lifecycle(p)) && Balanced(Lifecycle(p).(market := Some(v)))
  {}

  lemma StartedBalanced(codec: Codec, p: Progress, payload: string)
    requires Owing(p)
    ensures var o := StartedStep(codec, p, payload);
      o.Running? ==> Balanced(o.progress)
  {
    LifecycleBalanced(p, Market0(p));
  }

  lemma DisconnectCounted(v: MarketValue, at: int)
    ensures EventTotal(DisconnectStep(v, at).stats) == EventTotal(v.stats)
  {
    NoteKeepsTotal(v.(book := EMPTY_BOOK, stats := v.stats.(disconnections := v.stats.disconnections + 1)), at);
  }

  lemma RecordBalanced(codec: Codec, options: ReplayOptions, p: Progress, r: JournalRecord)
    requires ProgressOk(p) && Balanced(p)
    ensures var o := RecordStep(codec, options, p, r);
      o.Running? ==> Balanced(o.progress)
  {
    var seen := Seen(p, r.localTime);
    SeenOwes(p, r.localTime);
    if r.kind.SessionStarted? {
      StartedBalanced(codec, seen, r.payload);
    } else if seen.metadata.Some? {
      if r.kind.ConnectionLost? {
        DisconnectCounted(Market0(seen), r.localTime);
        LifecycleBalanced(seen, DisconnectStep(Market0(seen), r.localTime));
      } else if !r.kind.Message? {
        LifecycleBalanced(seen, Market0(seen));
      } else {
        ParsedBalanced(options, seen, ParseWsMessage(codec, r.payload, seen.metadata.value.convention), r.localTime);
      }
    }
  }

  lemma {:induction false} ItemsBalanced(codec: Codec, options: ReplayOptions, items: seq<ReadItem>)
    ensures var o := ReplayItems(codec, options, Running(Start(options)), items);
      o.Running? ==> Balanced(o.progress)
  {
    if items != [] {
      var n := |items| - 1;
      ItemsBalanced(codec, options, items[..n]);
      var o := ReplayItems(codec, options, Running(Start(options)), items[..n]);
      if o.Running? && items[n].Rec? {
        RecordBalanced(codec, options, o.progress, items[n].record);
      }
    }
  }

  lemma ConcludeBalanced(p: Progress, segments: nat)
    requires Balanced(p) && p.metadata.Some?
    ensures Conclude(Running(p), segments).Success?
    ensures var r := Conclude(Running(p), segments).value;
      && r.counts == p.counts && EventTotal(r.market) == p.counts.messages - p.counts.parseFailures
  {}

  /** In every successful replay the counters account for every record and every message. */
  lemma CountersAddUp(codec: Codec, options: ReplayOptions, segments: seq<seq<ReadItem>>)
    requires ReplayAll(codec, options, segments).Success?
    ensures var r := ReplayAll(codec, options, segments).value;
      && r.counts.records == r.counts.messages + r.counts.lifecycle
      && EventTotal(r.market) == r.counts.messages - r.counts.parseFailures
  {
    PartsAreItems(codec, options, Running(Start(options)), segments);
    ItemsBalanced(codec, options, Flatten(segments));
    ConcludeBalanced(ReplayParts(codec, options, Running(Start(options)), segments).progress, |segments|);
  }
}
