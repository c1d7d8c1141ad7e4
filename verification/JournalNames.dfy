/** Over a whole run of the writer, names ascend; so listing a directory gives the segments in creation order. */
module JournalNames {
  import opened Journal
  import opened SegmentNames
  import opened Sorting
  import opened Text
  import opened TimeFormat
  import opened Wrappers

  function OpenOf(op: WriterOp): Option<OpenIo> {
    match op
    case Write(_, io) => Some(io.open)
    case Flush(_) => None
    case Rotate(_, open) => Some(open)
  }

  function NamesOf(segments: seq<Segment>): (names: seq<string>)
    ensures |names| == |segments|
    ensures forall i :: 0 <= i < |names| ==> names[i] == segments[i].name
  {
    if segments == [] then [] else NamesOf(segments[..|segments| - 1]) + [segments[|segments| - 1].name]
  }

  lemma SameNames(a: seq<Segment>, b: seq<Segment>)
    requires |a| == |b| && forall i :: 0 <= i < |a| ==> a[i].name == b[i].name
    ensures NamesOf(a) == NamesOf(b)
  {}

  lemma OneMoreName(a: seq<Segment>, segment: Segment)
    ensures NamesOf(a + [segment]) == NamesOf(a) + [segment.name]
  {
    assert (a + [segment])[..|a|] == a;
  }

  /** `after` has the same segments as `before`, up to their contents. */
  ghost predicate KeepsNames(before: Writer, after: Writer) {
    NamesOf(after.segments) == NamesOf(before.segments) && after.segmentOpened == before.segmentOpened
  }

  /** `after` has one more segment, opened now. */
  ghost predicate AddsName(config: WriterConfig, before: Writer, after: Writer, open: OpenIo) {
    NamesOf(after.segments) == NamesOf(before.segments) + [NameFor(config, open)] && after.segmentOpened == open.now
  }

  lemma FlushKeeps(w: Writer, io: FlushIo)
    requires w.segments != []
    ensures KeepsNames(w, FlushStep(w, io).0)
  {
    SameNames(w.segments, FlushStep(w, io).0.segments);
  }

  lemma RotateNames(config: WriterConfig, w: Writer, flush: FlushIo, open: OpenIo)
    requires w.segments != []
    ensures var after := RotateStep(config, w, flush, open).0;
      if open.ok then AddsName(config, w, after, open) else KeepsNames(w, after)
  {
    FlushKeeps(w, flush);
    OpenNames(config, FlushStep(w, flush).0, open);
  }

  lemma OpenNames(config: WriterConfig, w: Writer, open: OpenIo)
    ensures var after := OpenStep(config, w, open).0;
      if open.ok then AddsName(config, w, after, open) else KeepsNames(w, after)
  {
    OneMoreName(w.segments, Segment(NameFor(config, open), []));
  }

  lemma WriteNames(config: WriterConfig, w: Writer, line: string, io: WriteIo)
    requires w.segments != []
    ensures var after := WriteStep(config, w, line, io).0;
      KeepsNames(w, after) || AddsName(config, w, after, io.open)
  {
    var buffered := Buffered(w, line);
    FlushKeeps(buffered, io.flush);
    var flushed := if buffered.pendingRecords >= config.flushEvery then FlushStep(buffered, io.flush).0 else buffered;
    assert KeepsNames(w, flushed);
    RotateNames(config, flushed, io.rotateFlush, io.open);
  }

  lemma OpNames(config: WriterConfig, w: Writer, op: WriterOp)
    requires w.segments != []
    ensures var after := OpStep(config, w, op).0;
      KeepsNames(w, after) || (OpenOf(op).Some? && AddsName(config, w, after, OpenOf(op).value))
  {
    match op
    case Flush(io) => FlushKeeps(w, io);
    case Rotate(flush, open) => RotateNames(config, w, flush, open);
    case Write(line, io) => WriteNames(config, w, line, io);
  }

  // ---- runs in a directory nobody else disturbs ----

  /** What the directory is known to hold: its contents at the latest open, and the segment opened then. */
  function Known(config: WriterConfig, first: OpenIo, ops: seq<WriterOp>): set<string> {
    if ops == [] then first.existing + {NameFor(config, first)}
    else
      var n := |ops| - 1;
      var w := RunOps(config, NewWriter(config, first), ops[..n]);
      if |OpStep(config, w, ops[n]).0.segments| > |w.segments| && OpenOf(ops[n]).Some? then
        OpenOf(ops[n]).value.existing + {NameFor(config, OpenOf(ops[n]).value)}
      else Known(config, first, ops[..n])
  }

  ghost predicate SoundOpen(config: WriterConfig, open: OpenIo) {
    FourDigitYear(open.now) && HasRoom(config.prefix, open.now, Extension(config), open.existing)
  }

  /** Since the previous open no file disappeared and the clock did not go back. */
  ghost predicate Follows(config: WriterConfig, known: set<string>, previous: int, open: OpenIo) {
    SoundOpen(config, open) && known <= open.existing && previous <= open.now
  }

  /** No file disappears, the clock does not go back between opens, and no second sees 1000 segments. */
  ghost predicate Undisturbed(config: WriterConfig, first: OpenIo, ops: seq<WriterOp>) {
    if ops == [] then SoundOpen(config, first)
    else
      var n := |ops| - 1;
      && Undisturbed(config, first, ops[..n])
      && (OpenOf(ops[n]).Some? ==>
            Follows(config, Known(config, first, ops[..n]),
                    RunOps(config, NewWriter(config, first), ops[..n]).segmentOpened, OpenOf(ops[n]).value))
  }

  /** The newest segment carries counter c, and it and all smaller counters of its second are taken. */
  ghost predicate NewestTaken(config: WriterConfig, w: Writer, known: set<string>, c: nat) {
    && w.segments != [] && c < 1000 && FourDigitYear(w.segmentOpened)
    && NamesOf(w.segments)[|w.segments| - 1] == SegmentName(config.prefix, w.segmentOpened, c, Extension(config))
    && CountersTaken(config, w.segmentOpened, known, c)
  }

  ghost predicate CountersTaken(config: WriterConfig, at: int, known: set<string>, c: nat) {
    forall k :: 0 <= k <= c ==> SegmentName(config.prefix, at, k, Extension(config)) in known
  }

  lemma NameTaken(config: WriterConfig, open: OpenIo) returns (c: nat)
    ensures c < 1000 && NameFor(config, open) == SegmentName(config.prefix, open.now, c, Extension(config))
    ensures CountersTaken(config, open.now, open.existing + {NameFor(config, open)}, c)
  {
    c := FreeCounter(config.prefix, StampText(open.now), Extension(config), open.existing, 0);
    assert NameFor(config, open) == SegmentName(config.prefix, open.now, c, Extension(config));
    forall k | 0 <= k <= c
      ensures SegmentName(config.prefix, open.now, k, Extension(config)) in open.existing + {NameFor(config, open)}
    {
      assert k < c ==> SegmentName(config.prefix, open.now, k, Extension(config)) in open.existing;
    }
  }

  lemma AppendLater(names: seq<string>, name: string)
    requires names != [] && StrictlySorted(Before, names) && Before(names[|names| - 1], name)
    ensures StrictlySorted(Before, names + [name])
  {
    forall i | 0 <= i < |names| ensures Before(names[i], name) {
      if i < |names| - 1 {
        BeforeTransitive(names[i], names[|names| - 1], name);
      }
    }
  }

  lemma OpenAscends(config: WriterConfig, w: Writer, after: Writer, known: set<string>, c0: nat, open: OpenIo) returns (c: nat)
    requires w.segments != [] && StrictlySorted(Before, NamesOf(w.segments)) && NewestTaken(config, w, known, c0)
    requires Follows(config, known, w.segmentOpened, open) && AddsName(config, w, after, open)
    ensures StrictlySorted(Before, NamesOf(after.segments))
    ensures NewestTaken(config, after, open.existing + {NameFor(config, open)}, c)
  {
    forall k | 0 <= k <= c0 ensures SegmentName(config.prefix, w.segmentOpened, k, Extension(config)) in open.existing {
      assert SegmentName(config.prefix, w.segmentOpened, k, Extension(config)) in known;
    }
    NextNameLater(config.prefix, Extension(config), w.segmentOpened, c0, open.now, open.existing);
    AppendLater(NamesOf(w.segments), NameFor(config, open));
    c := NameTaken(config, open);
  }

  lemma KeepAscends(config: WriterConfig, w: Writer, after: Writer, known: set<string>, c: nat)
    requires w.segments != [] && StrictlySorted(Before, NamesOf(w.segments)) && NewestTaken(config, w, known, c)
    requires KeepsNames(w, after)
    ensures StrictlySorted(Before, NamesOf(after.segments)) && NewestTaken(config, after, known, c)
  {}

  lemma FirstAscends(config: WriterConfig, first: OpenIo) returns (c: nat)
    requires SoundOpen(config, first)
    ensures var w := NewWriter(config, first);
      StrictlySorted(Before, NamesOf(w.segments)) && NewestTaken(config, w, first.existing + {NameFor(config, first)}, c)
  {
    c := NameTaken(config, first);
  }

  /** Segments are created in ascending order of their names, whatever happens to the writes themselves. */
  lemma {:induction false} NamesAscend(config: WriterConfig, first: OpenIo, ops: seq<WriterOp>) returns (c: nat)
    requires Undisturbed(config, first, ops)
    ensures var w := RunOps(config, NewWriter(config, first), ops);
      StrictlySorted(Before, NamesOf(w.segments)) && NewestTaken(config, w, Known(config, first, ops), c)
  {
    if ops == [] {
      c := FirstAscends(config, first);
    } else {
      var n := |ops| - 1;
      c := NamesAscend(config, first, ops[..n]);
      var w := RunOps(config, NewWriter(config, first), ops[..n]);
      var after := OpStep(config, w, ops[n]).0;
      OpNames(config, w, ops[n]);
      if |after.segments| > |w.segments| {
        c := OpenAscends(config, w, after, Known(config, first, ops[..n]), c, OpenOf(ops[n]).value);
      } else {
        KeepAscends(config, w, after, Known(config, first, ops[..n]), c);
      }
    }
  }

  /** Listing the directory, in whatever order it yields its files, gives the segments in creation order. */
  lemma ListingIsRunOrder(config: WriterConfig, first: OpenIo, ops: seq<WriterOp>, entries: seq<string>)
    requires Undisturbed(config, first, ops)
    requires multiset(Candidates(entries, config.prefix)) ==
             multiset(NamesOf(RunOps(config, NewWriter(config, first), ops).segments))
    ensures Sort(Before, Candidates(entries, config.prefix)) ==
            NamesOf(RunOps(config, NewWriter(config, first), ops).segments)
  {
    var c := NamesAscend(config, first, ops);
    ListingIsCreationOrder(NamesOf(RunOps(config, NewWriter(config, first), ops).segments), entries, config.prefix);
  }

  lemma OwnNameFor(config: WriterConfig, open: OpenIo)
    ensures LooksLikeSegment(NameFor(config, open), config.prefix)
  {
    OwnNameListed(config.prefix, open.now, FreeCounter(config.prefix, StampText(open.now), Extension(config), open.existing, 0), Extension(config));
  }

  ghost predicate OwnNames(config: WriterConfig, names: seq<string>) {
    forall i :: 0 <= i < |names| ==> LooksLikeSegment(names[i], config.prefix)
  }

  lemma AppendOwnName(config: WriterConfig, names: seq<string>, name: string)
    requires OwnNames(config, names) && LooksLikeSegment(name, config.prefix)
    ensures OwnNames(config, names + [name])
  {}

  lemma OpOwnNames(config: WriterConfig, w: Writer, op: WriterOp)
    requires w.segments != [] && OwnNames(config, NamesOf(w.segments))
    ensures OwnNames(config, NamesOf(OpStep(config, w, op).0.segments))
  {
    var after := OpStep(config, w, op).0;
    OpNames(config, w, op);
    if !KeepsNames(w, after) {
      OwnNameFor(config, OpenOf(op).value);
      AppendOwnName(config, NamesOf(w.segments), NameFor(config, OpenOf(op).value));
    }
  }

  lemma {:induction false} RunNamesListed(config: WriterConfig, first: OpenIo, ops: seq<WriterOp>)
    ensures OwnNames(config, NamesOf(RunOps(config, NewWriter(config, first), ops).segments))
  {
    if ops == [] {
      OwnNameFor(config, first);
    } else {
      RunNamesListed(config, first, ops[..|ops| - 1]);
      OpOwnNames(config, RunOps(config, NewWriter(config, first), ops[..|ops| - 1]), ops[|ops| - 1]);
    }
  }

  /** In a directory that holds just the run's files, in any order, the filter drops none of them. */
  lemma OwnDirectory(config: WriterConfig, first: OpenIo, ops: seq<WriterOp>, entries: seq<string>)
    requires Undisturbed(config, first, ops)
    requires multiset(entries) == multiset(NamesOf(RunOps(config, NewWriter(config, first), ops).segments))
    ensures Sort(Before, Candidates(entries, config.prefix)) ==
            NamesOf(RunOps(config, NewWriter(config, first), ops).segments)
  {
    var names := NamesOf(RunOps(config, NewWriter(config, first), ops).segments);
    RunNamesListed(config, first, ops);
    forall i | 0 <= i < |entries| ensures LooksLikeSegment(entries[i], config.prefix) {
      assert entries[i] in multiset(entries);
      var k :| 0 <= k < |names| && names[k] == entries[i];
    }
    AllListed(entries, config.prefix);
    ListingIsRunOrder(config, first, ops, entries);
  }

  // ---- what a name looks like ----

  /** Three digits, counted in decimal. */
  predicate Counter(number: string) {
    |number| == 3 && AllDigits(number)
  }

  /** prefix-stamp-number and the ending; compressed files say so in theirs. */
  function Spelled(config: WriterConfig, stamp: string, number: string): string {
    config.prefix + "-" + stamp + "-" + number + if config.compress then ".jsonl.zst" else ".jsonl"
  }

  lemma SpelledOut(config: WriterConfig, stamp: string, n: nat)
    ensures NumberedName(config.prefix, stamp, n, Extension(config)) == Spelled(config, stamp, Padded(n, 3))
  {
    var number, ending := Padded(n, 3), Extension(config);
    assert config.prefix + ("-" + (stamp + ("-" + (number + ending)))) == config.prefix + "-" + stamp + "-" + number + ending;
  }

  /** A segment is named for the second it was opened in and the first number not taken; the last one if all are. */
  lemma NameLayout(config: WriterConfig, io: OpenIo) returns (number: string)
    ensures Counter(number) && NameFor(config, io) == Spelled(config, StampText(io.now), number)
    ensures forall m :: Counter(m) && Value(m) < Value(number) ==> Spelled(config, StampText(io.now), m) in io.existing
    ensures Spelled(config, StampText(io.now), number) in io.existing ==> number == "999"
  {
    var stamp := StampText(io.now);
    var n := FreeCounter(config.prefix, stamp, Extension(config), io.existing, 0);
    number := Padded(n, 3);
    SpelledOut(config, stamp, n);
    ThreeDigits(n);
    forall m | Counter(m) && Value(m) < Value(number) ensures Spelled(config, stamp, m) in io.existing {
      PaddedOfValue(m);
      SpelledOut(config, stamp, Value(m));
    }
  }

  lemma ThreeDigits(n: nat)
    requires n < 1000
    ensures Value(Padded(n, 3)) == n && (n == 999 ==> Padded(n, 3) == "999")
  {
    assert Pow10(3) == 1000 by { assert Pow10(2) == 100; }
    PaddedValue(n, 3);
    if n == 999 {
      PaddedOfValue("999");
    }
  }
}
