/** What a replay of any journal is: when it stops and with what, and what it reports otherwise. */
module ReplayMeaning {
  import opened Book
  import opened JournalReading
  import opened JournalRecords
  import opened JsonValues
  import opened MarketStates
  import opened Replay
  import opened Sequences
  import opened SessionMetadata
  import opened Wrappers
  import opened WsProtocol

  // ---- what stops a replay ----

  /** The metadata a replay goes by: the caller's, else that of the first session record. */
  function KnownFrom(codec: Codec, options: ReplayOptions, items: seq<ReadItem>): Option<Metadata> {
    if items == [] then options.metadataOverride
    else
      var before := KnownFrom(codec, options, items[..|items| - 1]);
      if before.Some? then before
      else match items[|items| - 1]
        case Bad(_) => None
        case Rec(r) =>
          if !r.kind.SessionStarted? then None
          else match DecodeMetadata(codec, r.payload)
            case Success(m) => Some(m)
            case Failure(_) => None
  }

  predicate Unparsable(codec: Codec, m: Metadata, payload: string) {
    ParseWsMessage(codec, payload, m.convention).Failure?
  }

  /** What is wrong with an item, when `known` is the metadata before it. */
  function Problem(codec: Codec, options: ReplayOptions, known: Option<Metadata>, item: ReadItem): Option<ReplayErrorKind> {
    match item
    case Bad(_) => Some(JournalFailure)
    case Rec(r) =>
      if known.None? then
        if !r.kind.SessionStarted? then Some(MissingSessionRecord)
        else if DecodeMetadata(codec, r.payload).Failure? then Some(MalformedMetadata)
        else None
      else if r.kind.Message? && options.stopOnParseFailure && Unparsable(codec, known.value, r.payload) then Some(ParseFailure)
      else None
  }

  function ProblemAt(codec: Codec, options: ReplayOptions, items: seq<ReadItem>, k: nat): Option<ReplayErrorKind>
    requires k < |items|
  {
    Problem(codec, options, KnownFrom(codec, options, items[..k]), items[k])
  }

  ghost predicate Clean(codec: Codec, options: ReplayOptions, items: seq<ReadItem>) {
    forall k: nat :: k < |items| ==> ProblemAt(codec, options, items, k) == None
  }

  /** Item k is the first with something wrong, and that is e. */
  ghost predicate StopsAt(codec: Codec, options: ReplayOptions, items: seq<ReadItem>, k: nat, e: ReplayErrorKind) {
    && k < |items| && ProblemAt(codec, options, items, k) == Some(e)
    && forall j: nat :: j < k ==> ProblemAt(codec, options, items, j) == None
  }

  // ---- what a replay reports ----

  function HowMany(items: seq<ReadItem>, counts: ReadItem -> bool): nat {
    if items == [] then 0 else HowMany(items[..|items| - 1], counts) + if counts(items[|items| - 1]) then 1 else 0
  }

  function IsMessage(): ReadItem -> bool {
    (item: ReadItem) => item.Rec? && item.record.kind.Message?
  }

  function IsLifecycle(): ReadItem -> bool {
    (item: ReadItem) => item.Rec? && !item.record.kind.Message?
  }

  function IsUnparsable(codec: Codec, m: Metadata): ReadItem -> bool {
    (item: ReadItem) => item.Rec? && item.record.kind.Message? && Unparsable(codec, m, item.record.payload)
  }

  /** What one item shows the market. */
  function Shown(codec: Codec, m: Metadata, item: ReadItem): seq<Observation> {
    match item
    case Bad(_) => []
    case Rec(r) =>
      if r.kind.ConnectionLost? then [Lost(r.localTime)]
      else if r.kind.Message? then
        (match ParseWsMessage(codec, r.payload, m.convention)
         case Success(event) => [Observed(event, r.localTime)]
         case Failure(_) => [])
      else []
  }

  function AllShown(codec: Codec, m: Metadata, items: seq<ReadItem>): seq<Observation> {
    if items == [] then [] else AllShown(codec, m, items[..|items| - 1]) + Shown(codec, m, items[|items| - 1])
  }

  function TimeOf(item: ReadItem): Option<int> {
    if item.Rec? then Some(item.record.localTime) else None
  }

  /** The market of the items shown so far. */
  ghost function MarketShown(codec: Codec, m: Metadata, items: seq<ReadItem>): MarketValue {
    Session(MarketOf(m), AllShown(codec, m, items))
  }

  /** The variables that do not depend on the metadata. */
  ghost predicate Counts(items: seq<ReadItem>, p: Progress) {
    && p.counts.records == |items|
    && p.counts.messages == HowMany(items, IsMessage()) && p.counts.lifecycle == HowMany(items, IsLifecycle())
    && p.first == (if items == [] then None else TimeOf(items[0]))
    && p.last == (if items == [] then None else TimeOf(items[|items| - 1]))
  }

  /** Those that do, once it is known. */
  ghost predicate Shows(codec: Codec, m: Metadata, items: seq<ReadItem>, p: Progress) {
    p.counts.parseFailures == HowMany(items, IsUnparsable(codec, m)) && Market0(p) == MarketShown(codec, m, items)
  }

  /** The replay's variables after items without a problem. */
  ghost predicate Means(codec: Codec, options: ReplayOptions, items: seq<ReadItem>, p: Progress) {
    && p.metadata == KnownFrom(codec, options, items) && Counts(items, p)
    && (items != [] ==> p.first.Some? && p.metadata.Some?)
    && (p.metadata.None? ==> p.market.None? && p.counts.parseFailures == 0)
    && (p.metadata.Some? ==> Shows(codec, p.metadata.value, items, p))
  }

  ghost predicate Explained(codec: Codec, options: ReplayOptions, items: seq<ReadItem>, o: Outcome) {
    match o
    case Running(p) => Clean(codec, options, items) && Means(codec, options, items, p)
    case Stopped(e) => exists k: nat :: StopsAt(codec, options, items, k, e)
  }

  // ---- one item more ----

  lemma HowManyMore(items: seq<ReadItem>, item: ReadItem, counts: ReadItem -> bool)
    ensures HowMany(items + [item], counts) == HowMany(items, counts) + if counts(item) then 1 else 0
  {
    assert (items + [item])[..|items|] == items;
  }

  lemma KnownMore(codec: Codec, options: ReplayOptions, items: seq<ReadItem>, item: ReadItem)
    requires Problem(codec, options, KnownFrom(codec, options, items), item) == None
    ensures KnownFrom(codec, options, items + [item]) ==
      if KnownFrom(codec, options, items).Some? then KnownFrom(codec, options, items)
      else Some(DecodeMetadata(codec, item.record.payload).value)
  {
    assert (items + [item])[..|items|] == items;
  }

  lemma ShownMore(codec: Codec, m: Metadata, items: seq<ReadItem>, item: ReadItem)
    ensures MarketShown(codec, m, items + [item]) ==
      if Shown(codec, m, item) == [] then MarketShown(codec, m, items)
      else ObservationStep(MarketOf(m), MarketShown(codec, m, items), Shown(codec, m, item)[0])
  {
    assert (items + [item])[..|items|] == items;
    var before, next := AllShown(codec, m, items), Shown(codec, m, item);
    if next == [] {
      assert before + next == before;
    } else {
      assert next == [next[0]];
      assert (before + next)[..|before|] == before;
    }
  }

  lemma ProblemKept(codec: Codec, options: ReplayOptions, items: seq<ReadItem>, item: ReadItem, k: nat)
    requires k < |items|
    ensures ProblemAt(codec, options, items + [item], k) == ProblemAt(codec, options, items, k)
  {
    assert (items + [item])[..k] == items[..k];
  }

  lemma LastProblem(codec: Codec, options: ReplayOptions, items: seq<ReadItem>, item: ReadItem)
    ensures ProblemAt(codec, options, items + [item], |items|) == Problem(codec, options, KnownFrom(codec, options, items), item)
  {
    assert (items + [item])[..|items|] == items;
  }

  lemma StaysStopped(codec: Codec, options: ReplayOptions, items: seq<ReadItem>, item: ReadItem, e: ReplayErrorKind)
    requires exists k: nat :: StopsAt(codec, options, items, k, e)
    ensures exists k: nat :: StopsAt(codec, options, items + [item], k, e)
  {
    var k: nat :| StopsAt(codec, options, items, k, e);
    forall j: nat | j <= k ensures ProblemAt(codec, options, items + [item], j) == ProblemAt(codec, options, items, j) {
      ProblemKept(codec, options, items, item, j);
    }
    assert StopsAt(codec, options, items + [item], k, e);
  }

  lemma StopsHere(codec: Codec, options: ReplayOptions, items: seq<ReadItem>, item: ReadItem, e: ReplayErrorKind)
    requires Clean(codec, options, items) && Problem(codec, options, KnownFrom(codec, options, items), item) == Some(e)
    ensures exists k: nat :: StopsAt(codec, options, items + [item], k, e)
  {
    LastProblem(codec, options, items, item);
    forall j: nat | j < |items| ensures ProblemAt(codec, options, items + [item], j) == None {
      ProblemKept(codec, options, items, item, j);
    }
    assert StopsAt(codec, options, items + [item], |items|, e);
  }

  lemma CleanOn(codec: Codec, options: ReplayOptions, items: seq<ReadItem>, item: ReadItem)
    requires Clean(codec, options, items) && Problem(codec, options, KnownFrom(codec, options, items), item) == None
    ensures Clean(codec, options, items + [item])
  {
    LastProblem(codec, options, items, item);
    forall j: nat | j < |items| ensures ProblemAt(codec, options, items + [item], j) == None {
      ProblemKept(codec, options, items, item, j);
    }
  }

  /** One record: the error it stops with, or how it moves each variable. */
  lemma RecordMoves(codec: Codec, options: ReplayOptions, p: Progress, r: JournalRecord)
    requires ProgressOk(p)
    ensures var o := RecordStep(codec, options, p, r);
      match Problem(codec, options, p.metadata, Rec(r))
      case Some(e) => o == Stopped(e)
      case None =>
        && o.Running? && o.progress.counts.records == p.counts.records + 1
        && o.progress.metadata == (if p.metadata.Some? then p.metadata else Some(DecodeMetadata(codec, r.payload).value))
        && o.progress.first == (if p.first.Some? then p.first else Some(r.localTime)) && o.progress.last == Some(r.localTime)
        && o.progress.counts.messages == p.counts.messages + (if r.kind.Message? then 1 else 0)
        && o.progress.counts.lifecycle == p.counts.lifecycle + if r.kind.Message? then 0 else 1
  {}

  lemma RecordShows(codec: Codec, options: ReplayOptions, p: Progress, r: JournalRecord)
    requires ProgressOk(p) && Problem(codec, options, p.metadata, Rec(r)) == None
    ensures var o := RecordStep(codec, options, p, r);
      && o.Running? && o.progress.metadata.Some?
      && var m := o.progress.metadata.value;
         && o.progress.counts.parseFailures == p.counts.parseFailures + (if r.kind.Message? && Unparsable(codec, m, r.payload) then 1 else 0)
         && (p.metadata.None? ==> !r.kind.Message? && !r.kind.ConnectionLost?)
         && (p.metadata.Some? ==>
               Market0(o.progress) == if Shown(codec, m, Rec(r)) == [] then Market0(p)
                                      else ObservationStep(MarketOf(m), Market0(p), Shown(codec, m, Rec(r))[0]))
         && (p.metadata.None? ==> Market0(o.progress) == Market0(p))
  {}

  lemma RecordCounts(codec: Codec, options: ReplayOptions, items: seq<ReadItem>, p: Progress, r: JournalRecord)
    requires ProgressOk(p) && Counts(items, p) && Problem(codec, options, p.metadata, Rec(r)) == None
    requires items != [] ==> p.first.Some?
    ensures var o := RecordStep(codec, options, p, r); o.Running? && Counts(items + [Rec(r)], o.progress) && o.progress.first.Some?
  {
    RecordMoves(codec, options, p, r);
    HowManyMore(items, Rec(r), IsMessage());
    HowManyMore(items, Rec(r), IsLifecycle());
  }

  lemma NothingShown(codec: Codec, m: Metadata, p: Progress)
    requires p.counts.parseFailures == 0 && p.market.None?
    ensures Shows(codec, m, [], p)
  {}

  lemma ShowsOn(codec: Codec, m: Metadata, items: seq<ReadItem>, p: Progress, r: JournalRecord, q: Progress)
    requires Shows(codec, m, items, p)
    requires q.counts.parseFailures == p.counts.parseFailures + if r.kind.Message? && Unparsable(codec, m, r.payload) then 1 else 0
    requires Market0(q) == if Shown(codec, m, Rec(r)) == [] then Market0(p)
                           else ObservationStep(MarketOf(m), MarketShown(codec, m, items), Shown(codec, m, Rec(r))[0])
    ensures Shows(codec, m, items + [Rec(r)], q)
  {
    HowManyMore(items, Rec(r), IsUnparsable(codec, m));
    ShownMore(codec, m, items, Rec(r));
  }

  lemma RecordShown(codec: Codec, options: ReplayOptions, items: seq<ReadItem>, p: Progress, r: JournalRecord)
    requires ProgressOk(p) && Problem(codec, options, p.metadata, Rec(r)) == None
    requires p.metadata.Some? ==> Shows(codec, p.metadata.value, items, p)
    requires p.metadata.None? ==> items == [] && p.market.None? && p.counts.parseFailures == 0
    ensures var o := RecordStep(codec, options, p, r);
      o.Running? && o.progress.metadata.Some? && Shows(codec, o.progress.metadata.value, items + [Rec(r)], o.progress)
  {
    RecordShows(codec, options, p, r);
    RecordMoves(codec, options, p, r);
    var q := RecordStep(codec, options, p, r).progress;
    if p.metadata.None? {
      NothingShown(codec, q.metadata.value, p);
    }
    ShowsOn(codec, q.metadata.value, items, p, r, q);
  }

  lemma RecordMeans(codec: Codec, options: ReplayOptions, items: seq<ReadItem>, p: Progress, r: JournalRecord)
    requires ProgressOk(p) && Means(codec, options, items, p) && Problem(codec, options, p.metadata, Rec(r)) == None
    ensures var o := RecordStep(codec, options, p, r); o.Running? && Means(codec, options, items + [Rec(r)], o.progress)
  {
    RecordCounts(codec, options, items, p, r);
    RecordShown(codec, options, items, p, r);
    RecordMoves(codec, options, p, r);
    KnownMore(codec, options, items, Rec(r));
  }

  lemma ExplainedOn(codec: Codec, options: ReplayOptions, items: seq<ReadItem>, o: Outcome, item: ReadItem)
    requires OutcomeOk(o) && Explained(codec, options, items, o)
    ensures Explained(codec, options, items + [item], ItemStep(codec, options, o, item))
  {
    match o
    case Stopped(e) => StaysStopped(codec, options, items, item, e);
    case Running(p) =>
      var problem := Problem(codec, options, p.metadata, item);
      if problem.Some? {
        StopsHere(codec, options, items, item, problem.value);
        if item.Rec? { RecordMoves(codec, options, p, item.record); }
      } else {
        CleanOn(codec, options, items, item);
        RecordMeans(codec, options, items, p, item.record);
      }
  }

  lemma {:induction false} ItemsExplained(codec: Codec, options: ReplayOptions, items: seq<ReadItem>)
    ensures Explained(codec, options, items, ReplayItems(codec, options, Running(Start(options)), items))
  {
    if items != [] {
      var front, last := items[..|items| - 1], items[|items| - 1];
      assert items == front + [last];
      ItemsExplained(codec, options, front);
      ExplainedOn(codec, options, front, ReplayItems(codec, options, Running(Start(options)), front), last);
    }
  }

  // ---- whole replays ----

  lemma OneStop(codec: Codec, options: ReplayOptions, items: seq<ReadItem>, j: nat, d: ReplayErrorKind, k: nat, e: ReplayErrorKind)
    requires StopsAt(codec, options, items, j, d) && StopsAt(codec, options, items, k, e)
    ensures d == e && j == k
  {}

  /**
   When a replay fails, and with what: with the first thing wrong in the items of its segments, one
   after the other, be it a damaged line, a session record that does not decode, a record before any
   session record, or (if asked) a message that does not parse; else because no metadata was found.
   */
  lemma FailsExactly(codec: Codec, options: ReplayOptions, segments: seq<seq<ReadItem>>, e: ReplayErrorKind)
    ensures ReplayAll(codec, options, segments) == Failure(e) <==>
      var items := Flatten(segments);
      if segments == [] then e == NoSegments
      else
        || (exists k: nat :: StopsAt(codec, options, items, k, e))
        || (Clean(codec, options, items) && KnownFrom(codec, options, items) == None && e == MissingSessionRecord)
  {
    var items := Flatten(segments);
    PartsAreItems(codec, options, Running(Start(options)), segments);
    ItemsExplained(codec, options, items);
    if k: nat, d :| StopsAt(codec, options, items, k, d) {
      forall j: nat, c | StopsAt(codec, options, items, j, c) ensures c == d {
        OneStop(codec, options, items, j, c, k, d);
      }
    }
  }

  /** A replay that succeeds met no damaged line, in no segment. */
  lemma SuccessIsUndamaged(codec: Codec, options: ReplayOptions, segments: seq<seq<ReadItem>>)
    requires ReplayAll(codec, options, segments).Success?
    ensures forall item :: item in Flatten(segments) ==> item.Rec?
  {
    var items := Flatten(segments);
    PartsAreItems(codec, options, Running(Start(options)), segments);
    ItemsExplained(codec, options, items);
    forall item | item in items ensures item.Rec? {
      var k: nat :| k < |items| && items[k] == item;
      assert ProblemAt(codec, options, items, k) == None;
    }
  }

  /**
   What a replay that succeeds reports: the metadata it went by, the number of records, messages, other
   records and unparsable messages, the first and last times, and the counters, clock and hash of a
   session that observes the parsed messages and the losses in order and ends at the last time.
   */
  lemma ReportsExactly(codec: Codec, options: ReplayOptions, segments: seq<seq<ReadItem>>)
    requires ReplayAll(codec, options, segments).Success?
    ensures var items, r := Flatten(segments), ReplayAll(codec, options, segments).value;
      && KnownFrom(codec, options, items) == Some(r.metadata) && r.segments == |segments|
      && r.counts.records == |items| && r.counts.messages == HowMany(items, IsMessage())
      && r.counts.lifecycle == HowMany(items, IsLifecycle())
      && r.counts.parseFailures == HowMany(items, IsUnparsable(codec, r.metadata))
      && r.first == (if items == [] then None else TimeOf(items[0]))
      && r.last == (if items == [] then None else TimeOf(items[|items| - 1]))
      && var shown := MarketShown(codec, r.metadata, items);
         && r.finalHash == StateHash(r.metadata.ticker, shown.book)
         && r.market == if r.last.Some? then FinishStep(shown, r.last.value).stats else shown.stats
  {
    var items := Flatten(segments);
    PartsAreItems(codec, options, Running(Start(options)), segments);
    ItemsExplained(codec, options, items);
    ConcludeReports(ReplayItems(codec, options, Running(Start(options)), items).progress, |segments|);
  }

  lemma ConcludeReports(p: Progress, segments: nat)
    requires p.metadata.Some?
    ensures var r := Conclude(Running(p), segments);
      && r.Success? && r.value.metadata == p.metadata.value && r.value.segments == segments && r.value.counts == p.counts
      && r.value.first == p.first && r.value.last == p.last
      && r.value.finalHash == StateHash(p.metadata.value.ticker, Market0(p).book)
      && r.value.market == if p.last.Some? then FinishStep(Market0(p), p.last.value).stats else Market0(p).stats
  {}
}
