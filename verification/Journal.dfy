/**
 The journal writer. Its outside world (whether a block write, a stream flush or an open succeeds,
 and what the clock says) is given to each operation as a value.
 */
module Journal {
  import opened Arithmetic
  import opened JournalRecords
  import opened JsonValues
  import opened Lines
  import opened SegmentNames
  import opened Sequences
  import opened Wrappers

  datatype WriterConfig = WriterConfig(prefix: string, flushEvery: nat, rotateBytes: nat, rotateInterval: int, compress: bool)

  /** A file, and the text of every block write that succeeded on it. */
  datatype Segment = Segment(name: string, blocks: seq<string>)

  datatype WriterStats = WriterStats(recordsWritten: nat, uncompressedBytes: nat, writeFailures: nat,
                                     droppedRecords: nat, segmentsCreated: nat)

  datatype Writer = Writer(segments: seq<Segment>, isOpen: bool, pending: string, pendingRecords: nat,
                           segmentUncompressed: nat, segmentOpened: int, stats: WriterStats)

  datatype FlushIo = FlushIo(blockOk: bool, flushOk: bool)

  /** `existing` is what the directory holds when the segment is opened. */
  datatype OpenIo = OpenIo(ok: bool, now: int, existing: set<string>)

  datatype WriteIo = WriteIo(flush: FlushIo, checkTime: int, rotateFlush: FlushIo, open: OpenIo)

  type Outcome = Option<JournalErrorKind>

  // ---- what the operations do ----

  function AddBlock(w: Writer): Writer
    requires w.segments != []
  {
    var n := |w.segments| - 1;
    var current := w.segments[n];
    w.(segments := w.segments[..n] + [current.(blocks := current.blocks + [w.pending])])
  }

  function FlushStep(w: Writer, io: FlushIo): (result: (Writer, Outcome))
    requires w.segments != []
    ensures result.0.segments != []
  {
    var failed := w.stats.(writeFailures := w.stats.writeFailures + 1);
    if w.pending != "" && !(w.isOpen && io.blockOk) then
      (w.(pending := "", pendingRecords := 0,
          stats := failed.(droppedRecords := failed.droppedRecords + w.pendingRecords)), Some(WriteFailed))
    else
      var written := if w.pending != "" then AddBlock(w).(pending := "", pendingRecords := 0) else w;
      if w.isOpen && io.flushOk then (written, None) else (written.(stats := failed), Some(WriteFailed))
  }

  function Extension(config: WriterConfig): string {
    if config.compress then ".jsonl.zst" else ".jsonl"
  }

  function NameFor(config: WriterConfig, io: OpenIo): string {
    ChosenName(config.prefix, io.now, Extension(config), io.existing)
  }

  function AddSegment(w: Writer, name: string, now: int): Writer {
    w.(segments := w.segments + [Segment(name, [])], isOpen := true, segmentOpened := now, segmentUncompressed := 0,
       stats := w.stats.(segmentsCreated := w.stats.segmentsCreated + 1))
  }

  function OpenStep(config: WriterConfig, w: Writer, io: OpenIo): (Writer, Outcome) {
    if io.ok then (AddSegment(w, NameFor(config, io), io.now), None) else (w.(isOpen := false), Some(CannotOpen))
  }

  function RotateStep(config: WriterConfig, w: Writer, flush: FlushIo, open: OpenIo): (result: (Writer, Outcome))
    requires w.segments != []
    ensures result.0.segments != []
  {
    var (flushed, problem) := FlushStep(w, flush);
    var (next, failure) := OpenStep(config, flushed, open);
    (next, if failure.Some? then failure else problem)
  }

  function Buffered(w: Writer, line: string): Writer {
    w.(pending := w.pending + line + "\n", pendingRecords := w.pendingRecords + 1,
       segmentUncompressed := w.segmentUncompressed + |line| + 1,
       stats := w.stats.(recordsWritten := w.stats.recordsWritten + 1,
                         uncompressedBytes := w.stats.uncompressedBytes + |line| + 1))
  }

  predicate RotationDue(config: WriterConfig, w: Writer, now: int) {
    || (config.rotateBytes > 0 && w.segmentUncompressed >= config.rotateBytes)
    || (config.rotateInterval > 0 && now - w.segmentOpened >= config.rotateInterval)
  }

  function WriteStep(config: WriterConfig, w: Writer, line: string, io: WriteIo): (result: (Writer, Outcome))
    requires w.segments != []
    ensures result.0.segments != []
  {
    var buffered := Buffered(w, line);
    var (flushed, problem) :=
      if buffered.pendingRecords >= config.flushEvery then FlushStep(buffered, io.flush) else (buffered, None);
    if problem.Some? then (flushed, problem)
    else if RotationDue(config, flushed, io.checkTime) then RotateStep(config, flushed, io.rotateFlush, io.open)
    else (flushed, None)
  }

  const NO_WRITES := WriterStats(0, 0, 0, 0, 0)

  /** A writer whose first segment was opened. */
  function NewWriter(config: WriterConfig, first: OpenIo): Writer {
    Writer([Segment(NameFor(config, first), [])], true, "", 0, 0, first.now, NO_WRITES.(segmentsCreated := 1))
  }

  // ---- the object ----

  class JournalWriter {
    const config: WriterConfig
    const codec: Codec
    var segments: seq<Segment>
    var isOpen: bool
    var pending: string
    var pendingRecords: nat
    var segmentUncompressed: nat
    var segmentOpened: int
    var stats: WriterStats

    function State(): Writer
      reads this
    {
      Writer(segments, isOpen, pending, pendingRecords, segmentUncompressed, segmentOpened, stats)
    }

    ghost predicate Valid()
      reads this
    {
      segments != []
    }

    constructor (config: WriterConfig, codec: Codec, first: OpenIo)
      requires first.ok
      ensures Valid() && this.config == config && this.codec == codec && State() == NewWriter(config, first)
    {
      var name := ChooseName(config.prefix, first.now, Extension(config), first.existing);
      this.config, this.codec := config, codec;
      segments, isOpen, pending, pendingRecords := [Segment(name, [])], true, "", 0;
      segmentUncompressed, segmentOpened, stats := 0, first.now, NO_WRITES.(segmentsCreated := 1);
    }

    method Write(record: JournalRecord, io: WriteIo) returns (problem: Outcome)
      requires Valid()
      modifies this
      ensures Valid() && (State(), problem) == WriteStep(config, old(State()), Encode(codec, record), io)
    {
      Buffer(Encode(codec, record));
      if pendingRecords >= config.flushEvery {
        problem := Flush(io.flush);
        if problem.Some? {
          return;
        }
      }
      var bySize := config.rotateBytes > 0 && segmentUncompressed >= config.rotateBytes;
      var byTime := config.rotateInterval > 0 && io.checkTime - segmentOpened >= config.rotateInterval;
      if bySize || byTime {
        problem := Rotate(io.rotateFlush, io.open);
        return;
      }
      return None;
    }

    method Buffer(line: string)
      modifies this
      ensures State() == Buffered(old(State()), line)
    {
      pending := pending + line + "\n";
      pendingRecords := pendingRecords + 1;
      var added := |line| + 1;
      stats := stats.(recordsWritten := stats.recordsWritten + 1);
      stats := stats.(uncompressedBytes := stats.uncompressedBytes + added);
      segmentUncompressed := segmentUncompressed + added;
    }

    method Flush(io: FlushIo) returns (problem: Outcome)
      requires Valid()
      modifies this
      ensures Valid() && (State(), problem) == FlushStep(old(State()), io)
    {
      if pending != "" {
        if !(isOpen && io.blockOk) {
          stats := stats.(writeFailures := stats.writeFailures + 1);
          stats := stats.(droppedRecords := stats.droppedRecords + pendingRecords);
          pending, pendingRecords := "", 0;
          return Some(WriteFailed);
        }
        var n := |segments| - 1;
        var current := segments[n];
        segments := segments[..n] + [current.(blocks := current.blocks + [pending])];
        pending, pendingRecords := "", 0;
      }
      if !(isOpen && io.flushOk) {
        stats := stats.(writeFailures := stats.writeFailures + 1);
        return Some(WriteFailed);
      }
      return None;
    }

    method Rotate(flush: FlushIo, open: OpenIo) returns (problem: Outcome)
      requires Valid()
      modifies this
      ensures Valid() && (State(), problem) == RotateStep(config, old(State()), flush, open)
    {
      problem := Flush(flush);
      var failure := OpenSegment(open);
      if failure.Some? {
        return failure;
      }
    }

    method NextName(io: OpenIo) returns (name: string)
      ensures name == NameFor(config, io)
    {
      name := ChooseName(config.prefix, io.now, Extension(config), io.existing);
    }

    method OpenSegment(io: OpenIo) returns (problem: Outcome)
      modifies this
      ensures (State(), problem) == OpenStep(config, old(State()), io)
    {
      if !io.ok {
        isOpen := false;
        return Some(CannotOpen);
      }
      var name := NextName(io);
      StartSegment(name, io.now);
      return None;
    }

    method StartSegment(name: string, now: int)
      modifies this
      ensures State() == AddSegment(old(State()), name, now)
    {
      segments := segments + [Segment(name, [])];
      isOpen := true;
      segmentOpened, segmentUncompressed := now, 0;
      stats := stats.(segmentsCreated := stats.segmentsCreated + 1);
    }
  }

  // ---- runs ----

  datatype WriterOp = Write(line: string, writeIo: WriteIo) | Flush(flushIo: FlushIo) | Rotate(rotateIo: FlushIo, openIo: OpenIo)

  function OpStep(config: WriterConfig, w: Writer, op: WriterOp): (result: (Writer, Outcome))
    requires w.segments != []
    ensures result.0.segments != []
  {
    match op
    case Write(line, io) => WriteStep(config, w, line, io)
    case Flush(io) => FlushStep(w, io)
    case Rotate(flush, open) => RotateStep(config, w, flush, open)
  }

  function RunOps(config: WriterConfig, start: Writer, ops: seq<WriterOp>): (w: Writer)
    requires start.segments != []
    ensures w.segments != []
  {
    if ops == [] then start
    else OpStep(config, RunOps(config, start, ops[..|ops| - 1]), ops[|ops| - 1]).0
  }

  // ---- what becomes of the lines, whatever fails ----

  function Written(ops: seq<WriterOp>): seq<string> {
    if ops == [] then []
    else Written(ops[..|ops| - 1]) + match ops[|ops| - 1]
      case Write(line, _) => [line]
      case _ => []
  }

  /** Lines as a block holds them. */
  function Joined(lines: seq<string>): string {
    if lines == [] then "" else Joined(lines[..|lines| - 1]) + lines[|lines| - 1] + "\n"
  }

  /** The lines a flush tried to write as one block, and whether the block was accepted. */
  datatype Batch = Batch(lines: seq<string>, kept: bool)

  function LinesIn(batches: seq<Batch>): seq<string> {
    if batches == [] then [] else LinesIn(batches[..|batches| - 1]) + batches[|batches| - 1].lines
  }

  /** The lines with the batches that were not accepted left out. */
  function KeptLines(batches: seq<Batch>): seq<string> {
    if batches == [] then []
    else
      var last := batches[|batches| - 1];
      KeptLines(batches[..|batches| - 1]) + if last.kept then last.lines else []
  }

  function KeptBlocks(batches: seq<Batch>): seq<string> {
    if batches == [] then []
    else
      var last := batches[|batches| - 1];
      KeptBlocks(batches[..|batches| - 1]) + if last.kept then [Joined(last.lines)] else []
  }

  /** How many batches were not accepted. */
  function Losses(batches: seq<Batch>): nat {
    if batches == [] then 0 else Losses(batches[..|batches| - 1]) + if batches[|batches| - 1].kept then 0 else 1
  }

  /** All blocks of all segments, oldest first. */
  function AllBlocks(segments: seq<Segment>): seq<string> {
    if segments == [] then [] else AllBlocks(segments[..|segments| - 1]) + segments[|segments| - 1].blocks
  }

  /**
   What the writer says and what the files hold: the blocks are exactly the kept batches, one each and
   in order, the buffer is the lines not yet tried, and the counters count these lines.
   */
  ghost predicate Accounts(w: Writer, batches: seq<Batch>, buffer: seq<string>) {
    && w.segments != [] && AllBlocks(w.segments) == KeptBlocks(batches)
    && w.pending == Joined(buffer) && w.pendingRecords == |buffer|
    && w.stats.recordsWritten == |LinesIn(batches)| + |buffer|
    && w.stats.droppedRecords == |LinesIn(batches)| - |KeptLines(batches)|
    && Losses(batches) <= w.stats.writeFailures
  }

  /** Most records a block can hold. */
  function BlockLimit(config: WriterConfig): nat {
    if config.flushEvery > 1 then config.flushEvery else 1
  }

  ghost predicate Small(config: WriterConfig, batches: seq<Batch>, buffer: seq<string>) {
    && (forall i :: 0 <= i < |batches| ==> 0 < |batches[i].lines| <= BlockLimit(config))
    && |buffer| < BlockLimit(config)
  }

  /** Open, and nothing was lost so far. */
  ghost predicate Unharmed(w: Writer, batches: seq<Batch>) {
    w.isOpen && forall i :: 0 <= i < |batches| ==> batches[i].kept
  }

  function Tried(batches: seq<Batch>, buffer: seq<string>, kept: bool): seq<Batch> {
    if buffer == [] then batches else batches + [Batch(buffer, kept)]
  }

  lemma OneMoreBatch(batches: seq<Batch>, last: Batch)
    ensures var more := batches + [last];
      && LinesIn(more) == LinesIn(batches) + last.lines
      && KeptLines(more) == KeptLines(batches) + (if last.kept then last.lines else [])
      && KeptBlocks(more) == KeptBlocks(batches) + (if last.kept then [Joined(last.lines)] else [])
      && Losses(more) == Losses(batches) + if last.kept then 0 else 1
  {
    assert (batches + [last])[..|batches|] == batches;
  }

  lemma TriedLines(batches: seq<Batch>, buffer: seq<string>, kept: bool)
    ensures LinesIn(Tried(batches, buffer, kept)) == LinesIn(batches) + buffer
  {
    if buffer == [] {
      assert LinesIn(batches) + [] == LinesIn(batches);
    } else {
      OneMoreBatch(batches, Batch(buffer, kept));
    }
  }

  lemma OneMoreLine(lines: seq<string>, line: string)
    ensures Joined(lines + [line]) == Joined(lines) + line + "\n"
  {
    assert (lines + [line])[..|lines|] == lines;
  }

  lemma AddBlockBlocks(w: Writer)
    requires w.segments != []
    ensures AllBlocks(AddBlock(w).segments) == AllBlocks(w.segments) + [w.pending]
  {
    var n := |w.segments| - 1;
    var after := AddBlock(w).segments;
    assert after[..n] == w.segments[..n] && after[n].blocks == w.segments[n].blocks + [w.pending];
    Associative(AllBlocks(w.segments[..n]), w.segments[n].blocks, [w.pending]);
  }

  /** A flush tries what is buffered as one batch. */
  lemma FlushAccounts(w: Writer, io: FlushIo, batches: seq<Batch>, buffer: seq<string>)
    requires Accounts(w, batches, buffer)
    ensures Accounts(FlushStep(w, io).0, Tried(batches, buffer, w.isOpen && io.blockOk), [])
  {
    if buffer != [] {
      OneMoreBatch(batches, Batch(buffer, w.isOpen && io.blockOk));
      AddBlockBlocks(w);
    }
  }

  lemma OpenAccounts(config: WriterConfig, w: Writer, io: OpenIo, batches: seq<Batch>, buffer: seq<string>)
    requires Accounts(w, batches, buffer)
    ensures Accounts(OpenStep(config, w, io).0, batches, buffer)
  {
    var more := w.segments + [Segment(NameFor(config, io), [])];
    assert more[..|more| - 1] == w.segments;
    assert AllBlocks(more) == AllBlocks(w.segments) + [];
  }

  lemma BufferedAccounts(w: Writer, line: string, batches: seq<Batch>, buffer: seq<string>)
    requires Accounts(w, batches, buffer)
    ensures Accounts(Buffered(w, line), batches, buffer + [line])
  {
    OneMoreLine(buffer, line);
  }

  lemma TriedSmall(config: WriterConfig, batches: seq<Batch>, buffer: seq<string>, kept: bool)
    requires forall i :: 0 <= i < |batches| ==> 0 < |batches[i].lines| <= BlockLimit(config)
    requires |buffer| <= BlockLimit(config)
    ensures Small(config, Tried(batches, buffer, kept), [])
  {}

  /** What the batches and the buffer are after an operation. */
  ghost predicate Continues(config: WriterConfig, w: Writer, batches: seq<Batch>, buffer: seq<string>,
                            after: Writer, more: seq<Batch>, rest: seq<string>, line: seq<string>, ok: bool)
  {
    && Accounts(after, more, rest) && Small(config, more, rest)
    && LinesIn(more) + rest == LinesIn(batches) + buffer + line
    && (Unharmed(w, batches) && ok ==> Unharmed(after, more))
  }

  /** A flush of the buffer, then perhaps a new segment. */
  lemma FlushContinues(config: WriterConfig, w: Writer, io: FlushIo, batches: seq<Batch>, buffer: seq<string>) returns (more: seq<Batch>)
    requires Accounts(w, batches, buffer)
    requires (forall i :: 0 <= i < |batches| ==> 0 < |batches[i].lines| <= BlockLimit(config)) && |buffer| <= BlockLimit(config)
    ensures Continues(config, w, batches, buffer, FlushStep(w, io).0, more, [], [], io.blockOk)
  {
    more := Tried(batches, buffer, w.isOpen && io.blockOk);
    FlushAccounts(w, io, batches, buffer);
    TriedSmall(config, batches, buffer, w.isOpen && io.blockOk);
    TriedLines(batches, buffer, w.isOpen && io.blockOk);
    assert LinesIn(more) + [] == LinesIn(batches) + buffer + [];
  }

  lemma RotateContinues(config: WriterConfig, w: Writer, flush: FlushIo, open: OpenIo, batches: seq<Batch>, buffer: seq<string>)
    returns (more: seq<Batch>)
    requires Accounts(w, batches, buffer) && Small(config, batches, buffer)
    ensures Continues(config, w, batches, buffer, RotateStep(config, w, flush, open).0, more, [], [], flush.blockOk && open.ok)
  {
    more := FlushContinues(config, w, flush, batches, buffer);
    OpenAccounts(config, FlushStep(w, flush).0, open, more, []);
  }

  /** The flush a full buffer gets. */
  function Settled(config: WriterConfig, w: Writer, io: FlushIo): (Writer, Outcome)
    requires w.segments != []
  {
    if w.pendingRecords >= config.flushEvery then FlushStep(w, io) else (w, None)
  }

  lemma SettledContinues(config: WriterConfig, w: Writer, line: string, io: FlushIo, batches: seq<Batch>, buffer: seq<string>)
    returns (more: seq<Batch>, rest: seq<string>)
    requires Accounts(w, batches, buffer) && Small(config, batches, buffer)
    ensures Continues(config, w, batches, buffer, Settled(config, Buffered(w, line), io).0, more, rest, [line], io.blockOk)
  {
    BufferedAccounts(w, line, batches, buffer);
    Associative(LinesIn(batches), buffer, [line]);
    if |buffer| + 1 >= config.flushEvery {
      more := FlushContinues(config, Buffered(w, line), io, batches, buffer + [line]);
      rest := [];
      assert LinesIn(more) + [] == LinesIn(batches) + (buffer + [line]) + [];
    } else {
      more, rest := batches, buffer + [line];
    }
  }

  lemma WriteContinues(config: WriterConfig, w: Writer, line: string, io: WriteIo, batches: seq<Batch>, buffer: seq<string>)
    returns (more: seq<Batch>, rest: seq<string>)
    requires Accounts(w, batches, buffer) && Small(config, batches, buffer)
    ensures Continues(config, w, batches, buffer, WriteStep(config, w, line, io).0, more, rest, [line], IoOk(Write(line, io)))
  {
    more, rest := SettledContinues(config, w, line, io.flush, batches, buffer);
    var (settled, problem) := Settled(config, Buffered(w, line), io.flush);
    if problem.None? && RotationDue(config, settled, io.checkTime) {
      ghost var lines := LinesIn(more) + rest;
      more := RotateContinues(config, settled, io.rotateFlush, io.open, more, rest);
      rest := [];
      assert LinesIn(more) + rest == lines + [] == lines;
    }
  }

  lemma OpContinues(config: WriterConfig, w: Writer, op: WriterOp, batches: seq<Batch>, buffer: seq<string>)
    returns (more: seq<Batch>, rest: seq<string>)
    requires Accounts(w, batches, buffer) && Small(config, batches, buffer)
    ensures Continues(config, w, batches, buffer, OpStep(config, w, op).0, more, rest, if op.Write? then [op.line] else [], IoOk(op))
  {
    match op
    case Flush(io) =>
      more := FlushContinues(config, w, io, batches, buffer);
      rest := [];
    case Rotate(flush, open) =>
      more := RotateContinues(config, w, flush, open, batches, buffer);
      rest := [];
    case Write(line, io) => more, rest := WriteContinues(config, w, line, io, batches, buffer);
  }

  predicate Unfailing(ops: seq<WriterOp>) {
    forall i :: 0 <= i < |ops| ==> IoOk(ops[i])
  }

  lemma UnfailingLast(ops: seq<WriterOp>)
    requires ops != []
    ensures Unfailing(ops) ==> Unfailing(ops[..|ops| - 1]) && IoOk(ops[|ops| - 1])
  {}

  predicate IoOk(op: WriterOp) {
    match op
    case Write(_, io) => io.flush == io.rotateFlush == FlushIo(true, true) && io.open.ok
    case Flush(io) => io == FlushIo(true, true)
    case Rotate(flush, open) => flush == FlushIo(true, true) && open.ok
  }

  /**
   Under any pattern of failures the lines written are cut into batches, one a flush, and a buffer. The
   files hold the accepted batches whole and in order, and nothing else; the others are counted as
   dropped, each with a failure of its own; no batch is longer than the flush threshold.
   */
  lemma {:induction false} WriterConserves(config: WriterConfig, first: OpenIo, ops: seq<WriterOp>)
    returns (batches: seq<Batch>, buffer: seq<string>)
    ensures var w := RunOps(config, NewWriter(config, first), ops);
      && LinesIn(batches) + buffer == Written(ops)
      && Accounts(w, batches, buffer) && Small(config, batches, buffer)
      && (Unfailing(ops) ==> Unharmed(w, batches))
  {
    if ops == [] {
      batches, buffer := [], [];
      assert NewWriter(config, first).segments[..0] == [];
    } else {
      var n := |ops| - 1;
      batches, buffer := WriterConserves(config, first, ops[..n]);
      batches, buffer := OpContinues(config, RunOps(config, NewWriter(config, first), ops[..n]), ops[n], batches, buffer);
      UnfailingLast(ops);
    }
  }

  // ---- the lines of the files ----

  function BlockText(blocks: seq<string>): string {
    if blocks == [] then "" else BlockText(blocks[..|blocks| - 1]) + blocks[|blocks| - 1]
  }

  /** The text a segment decompresses to, or simply holds. */
  function SegmentText(s: Segment): string {
    BlockText(s.blocks)
  }

  /** The lines of every segment, segment after segment. */
  function SegmentLines(segments: seq<Segment>): seq<string> {
    if segments == [] then []
    else SegmentLines(segments[..|segments| - 1]) + LinesOf(SegmentText(segments[|segments| - 1]))
  }

  function BlockLines(blocks: seq<string>): seq<string> {
    if blocks == [] then [] else BlockLines(blocks[..|blocks| - 1]) + LinesOf(blocks[|blocks| - 1])
  }

  /** Every record is one line. */
  predicate OneLineEach(lines: seq<string>) {
    forall i :: 0 <= i < |lines| ==> '\n' !in lines[i]
  }

  predicate WholeLines(blocks: seq<string>) {
    forall i :: 0 <= i < |blocks| ==> Complete(blocks[i])
  }

  lemma CompleteConcat(a: string, b: string)
    requires Complete(a) && Complete(b)
    ensures Complete(a + b)
  {
    if b == "" { assert a + b == a; }
  }

  lemma LineAdded(text: string, line: string)
    requires Complete(text) && '\n' !in line
    ensures LinesOf(text + line + "\n") == LinesOf(text) + [line] && Complete(text + line + "\n")
  {
    OneLine(line);
    Associative(text, line, "\n");
    LinesConcat(text, line + "\n");
    CompleteConcat(text, line + "\n");
  }

  lemma {:induction false} JoinedLines(lines: seq<string>)
    requires OneLineEach(lines)
    ensures LinesOf(Joined(lines)) == lines && Complete(Joined(lines))
  {
    if lines != [] {
      var front, last := lines[..|lines| - 1], lines[|lines| - 1];
      assert lines == front + [last];
      JoinedLines(front);
      LineAdded(Joined(front), last);
    }
  }

  /** Blocks of whole lines may be read one by one. */
  lemma {:induction false} BlockTextLines(blocks: seq<string>)
    requires WholeLines(blocks)
    ensures LinesOf(BlockText(blocks)) == BlockLines(blocks) && Complete(BlockText(blocks))
  {
    if blocks != [] {
      var n := |blocks| - 1;
      BlockTextLines(blocks[..n]);
      LinesConcat(BlockText(blocks[..n]), blocks[n]);
      CompleteConcat(BlockText(blocks[..n]), blocks[n]);
    }
  }

  lemma {:induction false} BlockLinesConcat(a: seq<string>, b: seq<string>)
    ensures BlockLines(a + b) == BlockLines(a) + BlockLines(b)
  {
    if b == [] {
      assert a + b == a;
    } else {
      var n := |b| - 1;
      assert (a + b)[..|a + b| - 1] == a + b[..n];
      BlockLinesConcat(a, b[..n]);
      Associative(BlockLines(a), BlockLines(b[..n]), LinesOf(b[n]));
    }
  }

  /** Every segment ends where a line ends. */
  ghost predicate WholeSegments(segments: seq<Segment>) {
    forall i :: 0 <= i < |segments| ==> Complete(SegmentText(segments[i]))
  }

  lemma {:induction false} SegmentLinesOfBlocks(segments: seq<Segment>)
    requires WholeLines(AllBlocks(segments))
    ensures SegmentLines(segments) == BlockLines(AllBlocks(segments)) && WholeSegments(segments)
  {
    if segments != [] {
      var front, last := segments[..|segments| - 1], segments[|segments| - 1];
      LastSegmentLines(AllBlocks(front), last.blocks);
      SegmentLinesOfBlocks(front);
      OneMoreSegment(front, last);
      assert segments == front + [last];
    }
  }

  lemma OneMoreSegment(front: seq<Segment>, last: Segment)
    requires SegmentLines(front) == BlockLines(AllBlocks(front)) && WholeSegments(front) && Complete(SegmentText(last))
    requires BlockLines(AllBlocks(front) + last.blocks) == BlockLines(AllBlocks(front)) + LinesOf(SegmentText(last))
    ensures SegmentLines(front + [last]) == BlockLines(AllBlocks(front + [last])) && WholeSegments(front + [last])
  {
    assert (front + [last])[..|front|] == front;
  }

  lemma LastSegmentLines(front: seq<string>, last: seq<string>)
    requires WholeLines(front + last)
    ensures WholeLines(front) && BlockLines(front + last) == BlockLines(front) + LinesOf(BlockText(last)) && Complete(BlockText(last))
  {
    WholePrefix(front, last);
    BlockTextLines(last);
    BlockLinesConcat(front, last);
  }

  lemma WholePrefix(a: seq<string>, b: seq<string>)
    requires WholeLines(a + b)
    ensures WholeLines(a) && WholeLines(b)
  {
    forall i | 0 <= i < |a| ensures Complete(a[i]) { assert (a + b)[i] == a[i]; }
    forall i | 0 <= i < |b| ensures Complete(b[i]) { assert (a + b)[|a| + i] == b[i]; }
  }

  lemma OneLinePrefix(a: seq<string>, b: seq<string>)
    requires OneLineEach(a + b)
    ensures OneLineEach(a) && OneLineEach(b)
  {
    forall i | 0 <= i < |a| ensures '\n' !in a[i] { assert (a + b)[i] == a[i]; }
    forall i | 0 <= i < |b| ensures '\n' !in b[i] { assert (a + b)[|a| + i] == b[i]; }
  }

  lemma {:induction false} KeptBlockLines(batches: seq<Batch>)
    requires OneLineEach(LinesIn(batches))
    ensures WholeLines(KeptBlocks(batches)) && BlockLines(KeptBlocks(batches)) == KeptLines(batches)
  {
    if batches != [] {
      var front, last := batches[..|batches| - 1], batches[|batches| - 1];
      OneLinePrefix(LinesIn(front), last.lines);
      KeptBlockLines(front);
      JoinedLines(last.lines);
      if last.kept {
        OneMoreBlock(KeptBlocks(front), Joined(last.lines));
      } else {
        assert KeptBlocks(batches) == KeptBlocks(front) && KeptLines(batches) == KeptLines(front);
      }
    }
  }

  lemma OneMoreBlock(blocks: seq<string>, block: string)
    requires WholeLines(blocks) && Complete(block)
    ensures WholeLines(blocks + [block]) && BlockLines(blocks + [block]) == BlockLines(blocks) + LinesOf(block)
  {
    assert (blocks + [block])[..|blocks|] == blocks;
  }

  /** Of records that are one line each: the files hold the kept lines, and the counters count lines. */
  lemma AccountedLines(w: Writer, batches: seq<Batch>, buffer: seq<string>)
    requires Accounts(w, batches, buffer) && OneLineEach(LinesIn(batches) + buffer)
    ensures SegmentLines(w.segments) == KeptLines(batches) && LinesOf(w.pending) == buffer
    ensures WholeSegments(w.segments)
    ensures w.stats.recordsWritten == |SegmentLines(w.segments)| + |LinesOf(w.pending)| + w.stats.droppedRecords
  {
    OneLinePrefix(LinesIn(batches), buffer);
    KeptBlockLines(batches);
    SegmentLinesOfBlocks(w.segments);
    JoinedLines(buffer);
  }

  lemma {:induction false} LossBound(config: WriterConfig, batches: seq<Batch>)
    requires forall i :: 0 <= i < |batches| ==> 0 < |batches[i].lines| <= BlockLimit(config)
    ensures |LinesIn(batches)| - |KeptLines(batches)| <= Losses(batches) * BlockLimit(config)
  {
    if batches != [] {
      LossBound(config, batches[..|batches| - 1]);
      OneMore(Losses(batches[..|batches| - 1]), BlockLimit(config));
    }
  }

  /**
   Conservation, in lines: what was written is on file, in the buffer, or counted as dropped; what is on
   file is what was written with some whole batches left out, none repeated, reordered or split; and a
   failure costs at most one batch.
   */
  lemma LinesConserved(config: WriterConfig, first: OpenIo, ops: seq<WriterOp>) returns (batches: seq<Batch>)
    requires OneLineEach(Written(ops))
    ensures var w := RunOps(config, NewWriter(config, first), ops);
      && LinesIn(batches) + LinesOf(w.pending) == Written(ops) && SegmentLines(w.segments) == KeptLines(batches)
      && w.stats.recordsWritten == |Written(ops)| == |SegmentLines(w.segments)| + |LinesOf(w.pending)| + w.stats.droppedRecords
      && w.stats.droppedRecords <= w.stats.writeFailures * BlockLimit(config)
      && |LinesOf(w.pending)| < BlockLimit(config)
  {
    var buffer;
    batches, buffer := WriterConserves(config, first, ops);
    var w := RunOps(config, NewWriter(config, first), ops);
    AccountedLines(w, batches, buffer);
    LossBound(config, batches);
    MulMonotone(Losses(batches), w.stats.writeFailures, BlockLimit(config));
  }

  // ---- when nothing fails ----

  lemma {:induction false} AllKept(batches: seq<Batch>)
    requires forall i :: 0 <= i < |batches| ==> batches[i].kept
    ensures KeptLines(batches) == LinesIn(batches)
  {
    if batches != [] {
      AllKept(batches[..|batches| - 1]);
    }
  }

  const FINAL_FLUSH: WriterOp := Flush(FlushIo(true, true))

  /**
   For every flush, size, time and forced-rotation schedule: after a final flush the segments, read in
   order of creation, hold exactly the written lines, none lost, repeated, reordered or split.
   */
  lemma WriterReadBack(config: WriterConfig, first: OpenIo, ops: seq<WriterOp>)
    requires Unfailing(ops) && OneLineEach(Written(ops))
    ensures var w := RunOps(config, NewWriter(config, first), ops + [FINAL_FLUSH]);
      && SegmentLines(w.segments) == Written(ops) && WholeSegments(w.segments)
  {
    assert (ops + [FINAL_FLUSH])[..|ops|] == ops;
    var batches, buffer := WriterConserves(config, first, ops);
    FinalFlush(RunOps(config, NewWriter(config, first), ops), batches, buffer, Written(ops));
  }

  /** A last flush of an unharmed writer puts the whole buffer on file. */
  lemma FinalFlush(w: Writer, batches: seq<Batch>, buffer: seq<string>, lines: seq<string>)
    requires Accounts(w, batches, buffer) && Unharmed(w, batches) && LinesIn(batches) + buffer == lines && OneLineEach(lines)
    ensures var after := FlushStep(w, FlushIo(true, true)).0;
      SegmentLines(after.segments) == lines && WholeSegments(after.segments)
  {
    var all := Tried(batches, buffer, true);
    FlushAccounts(w, FlushIo(true, true), batches, buffer);
    TriedLines(batches, buffer, true);
    assert LinesIn(all) + [] == lines;
    AccountedLines(FlushStep(w, FlushIo(true, true)).0, all, []);
    AllKept(all);
  }

  lemma AddBlockText(w: Writer)
    requires w.segments != []
    ensures var n := |w.segments| - 1;
      var after := AddBlock(w).segments;
      && |after| == n + 1 && after[..n] == w.segments[..n]
      && SegmentText(after[n]) == SegmentText(w.segments[n]) + w.pending
  {
    var n := |w.segments| - 1;
    var blocks := w.segments[n].blocks;
    var more := blocks + [w.pending];
    assert more[..|more| - 1] == blocks;
    assert AddBlock(w).segments[n].blocks == more;
  }

  // ---- segment size ----

  /** No segment, buffer included, reaches rotateBytes plus one line. */
  ghost predicate SizesBounded(config: WriterConfig, w: Writer, longest: nat) {
    && w.segments != [] && w.isOpen
    && w.segmentUncompressed < config.rotateBytes
    && |SegmentText(w.segments[|w.segments| - 1])| + |w.pending| == w.segmentUncompressed
    && forall i :: 0 <= i < |w.segments| - 1 ==> |SegmentText(w.segments[i])| < config.rotateBytes + longest
  }

  /** The sizes a flush cannot change: what the current segment and the buffer hold together. */
  lemma FlushSize(w: Writer, io: FlushIo)
    requires w.segments != [] && w.isOpen && io.blockOk
    ensures var after := FlushStep(w, io).0;
      && after.isOpen && |after.segments| == |w.segments| && after.pending == ""
      && after.segmentUncompressed == w.segmentUncompressed
      && (forall i :: 0 <= i < |w.segments| - 1 ==> after.segments[i] == w.segments[i])
      && |SegmentText(after.segments[|w.segments| - 1])| == |SegmentText(w.segments[|w.segments| - 1])| + |w.pending|
  {
    AddBlockText(w);
    assert forall i :: 0 <= i < |w.segments| - 1 ==> AddBlock(w).segments[i] == w.segments[i];
  }

  lemma OpSize(config: WriterConfig, w: Writer, op: WriterOp, longest: nat)
    requires SizesBounded(config, w, longest) && IoOk(op)
    requires op.Write? ==> |op.line| + 1 <= longest
    ensures SizesBounded(config, OpStep(config, w, op).0, longest)
  {
    match op
    case Flush(io) => FlushSize(w, io);
    case Rotate(flush, open) =>
      FlushSize(w, flush);
      RotatedSize(config, FlushStep(w, flush).0, open, longest);
    case Write(line, io) =>
      var buffered := Buffered(w, line);
      FlushSize(buffered, io.flush);
      var flushed := if buffered.pendingRecords >= config.flushEvery then FlushStep(buffered, io.flush).0 else buffered;
      FlushSize(flushed, io.rotateFlush);
      var closed := FlushStep(flushed, io.rotateFlush).0;
      assert |SegmentText(closed.segments[|w.segments| - 1])| < config.rotateBytes + longest;
      if RotationDue(config, flushed, io.checkTime) {
        RotatedSize(config, closed, io.open, longest);
      }
  }

  lemma RotatedSize(config: WriterConfig, w: Writer, open: OpenIo, longest: nat)
    requires w.segments != [] && open.ok && w.pending == "" && config.rotateBytes > 0
    requires forall i :: 0 <= i < |w.segments| ==> |SegmentText(w.segments[i])| < config.rotateBytes + longest
    ensures SizesBounded(config, OpenStep(config, w, open).0, longest)
  {
    assert SegmentText(Segment(NameFor(config, open), [])) == "";
  }

  lemma {:induction false} RunSize(config: WriterConfig, start: Writer, ops: seq<WriterOp>, longest: nat)
    requires SizesBounded(config, start, longest)
    requires forall i :: 0 <= i < |ops| ==> IoOk(ops[i]) && (ops[i].Write? ==> |ops[i].line| + 1 <= longest)
    ensures SizesBounded(config, RunOps(config, start, ops), longest)
  {
    if ops != [] {
      var n := |ops| - 1;
      RunSize(config, start, ops[..n], longest);
      OpSize(config, RunOps(config, start, ops[..n]), ops[n], longest);
    }
  }

  /** In a failure-free run no segment reaches rotateBytes plus one line. */
  lemma SegmentSizeBound(config: WriterConfig, first: OpenIo, ops: seq<WriterOp>, longest: nat)
    requires config.rotateBytes > 0
    requires forall i :: 0 <= i < |ops| ==> IoOk(ops[i]) && (ops[i].Write? ==> |ops[i].line| + 1 <= longest)
    ensures SizesBounded(config, RunOps(config, NewWriter(config, first), ops), longest)
  {
    var start := NewWriter(config, first);
    assert SegmentText(start.segments[0]) == "";
    RunSize(config, start, ops, longest);
  }
}
