/** When the writer flushes, rotates and answers with a problem, and what its counters count. */
module JournalSchedule {
  import opened Journal
  import opened JournalNames
  import opened JournalRecords
  import opened Wrappers

  // ---- flushes ----

  /** A flush gets through: the stream is there, takes the block if there is one, and its own flush. */
  predicate GetsThrough(w: Writer, io: FlushIo) {
    w.isOpen && (w.pending != "" ==> io.blockOk) && io.flushOk
  }

  /** A flush answers with a problem exactly if it did not get through, and counts it; it empties the buffer either way. */
  lemma FlushAnswers(w: Writer, io: FlushIo)
    requires w.segments != []
    ensures var (after, answer) := FlushStep(w, io);
      && answer == (if GetsThrough(w, io) then None else Some(WriteFailed))
      && after.stats.writeFailures == w.stats.writeFailures + (if GetsThrough(w, io) then 0 else 1)
      && after.pending == "" && (w.pending != "" ==> after.pendingRecords == 0)
      && |after.segments| == |w.segments| && after.isOpen == w.isOpen
      && after.segmentOpened == w.segmentOpened && after.segmentUncompressed == w.segmentUncompressed
      && after.stats.recordsWritten == w.stats.recordsWritten && after.stats.uncompressedBytes == w.stats.uncompressedBytes
      && after.stats.segmentsCreated == w.stats.segmentsCreated
  {}

  /** A rotation begins a segment exactly if the file opens; failing that is the answer, else that of the flush. */
  lemma RotateAnswers(config: WriterConfig, w: Writer, flush: FlushIo, open: OpenIo)
    requires w.segments != []
    ensures var (after, answer) := RotateStep(config, w, flush, open);
      && answer == (if !open.ok then Some(CannotOpen) else if GetsThrough(w, flush) then None else Some(WriteFailed))
      && |after.segments| == |w.segments| + (if open.ok then 1 else 0)
      && after.isOpen == open.ok && after.pending == ""
      && (open.ok ==> after.segmentOpened == open.now && after.segmentUncompressed == 0)
      && after.stats.writeFailures == w.stats.writeFailures + (if GetsThrough(w, flush) then 0 else 1)
      && after.stats.recordsWritten == w.stats.recordsWritten && after.stats.uncompressedBytes == w.stats.uncompressedBytes
      && after.stats.segmentsCreated == w.stats.segmentsCreated + (if open.ok then 1 else 0)
  {
    FlushAnswers(w, flush);
  }

  // ---- writes ----

  /** With this line the buffer holds as many records as it may. */
  predicate BufferFull(config: WriterConfig, w: Writer) {
    w.pendingRecords + 1 >= config.flushEvery
  }

  /** The buffer is full, and its flush does not get through. */
  predicate FlushFails(config: WriterConfig, w: Writer, io: FlushIo) {
    BufferFull(config, w) && !(w.isOpen && io.blockOk && io.flushOk)
  }

  /** With this line the segment has reached its size, or by now its age. */
  predicate SegmentFull(config: WriterConfig, w: Writer, line: string, now: int) {
    || (config.rotateBytes > 0 && w.segmentUncompressed + |line| + 1 >= config.rotateBytes)
    || (config.rotateInterval > 0 && now - w.segmentOpened >= config.rotateInterval)
  }

  /** What the rotation's own flush has to write, if anything. */
  predicate RotationGetsThrough(config: WriterConfig, w: Writer, io: FlushIo) {
    w.isOpen && (!BufferFull(config, w) ==> io.blockOk) && io.flushOk
  }

  /** A write begins a segment exactly if the segment was full, no flush failed before, and the file opened. */
  lemma WriteRotatesExactly(config: WriterConfig, w: Writer, line: string, io: WriteIo)
    requires w.segments != []
    ensures var (after, answer) := WriteStep(config, w, line, io);
      var fails, full := FlushFails(config, w, io.flush), SegmentFull(config, w, line, io.checkTime);
      && |after.segments| == |w.segments| + (if !fails && full && io.open.ok then 1 else 0)
      && answer == (if fails then Some(WriteFailed)
                    else if !full then None
                    else if !io.open.ok then Some(CannotOpen)
                    else if RotationGetsThrough(config, w, io.rotateFlush) then None else Some(WriteFailed))
      && after.stats.writeFailures == w.stats.writeFailures
           + (if fails || (full && !RotationGetsThrough(config, w, io.rotateFlush)) then 1 else 0)
      && (!fails && full && io.open.ok ==> after.segmentOpened == io.open.now && after.segmentUncompressed == 0)
      && (fails || !full ==>
            after.segmentOpened == w.segmentOpened && after.segmentUncompressed == w.segmentUncompressed + |line| + 1)
      && after.isOpen == (if !fails && full then io.open.ok else w.isOpen)
      && after.stats.recordsWritten == w.stats.recordsWritten + 1
      && after.stats.uncompressedBytes == w.stats.uncompressedBytes + |line| + 1
      && after.stats.segmentsCreated == w.stats.segmentsCreated + (|after.segments| - |w.segments|)
  {
    var buffered := Buffered(w, line);
    FlushAnswers(buffered, io.flush);
    var flushed := if BufferFull(config, w) then FlushStep(buffered, io.flush).0 else buffered;
    RotateAnswers(config, flushed, io.rotateFlush, io.open);
  }

  // ---- runs ----

  /** When the newest segment of a run was opened. */
  function OpenedAt(config: WriterConfig, first: OpenIo, ops: seq<WriterOp>): int {
    if ops == [] then first.now
    else
      var n := |ops| - 1;
      var w := RunOps(config, NewWriter(config, first), ops[..n]);
      if |OpStep(config, w, ops[n]).0.segments| > |w.segments| && OpenOf(ops[n]).Some? then OpenOf(ops[n]).value.now
      else OpenedAt(config, first, ops[..n])
  }

  lemma {:induction false} OpenedAtKept(config: WriterConfig, first: OpenIo, ops: seq<WriterOp>)
    ensures RunOps(config, NewWriter(config, first), ops).segmentOpened == OpenedAt(config, first, ops)
  {
    if ops != [] {
      var n := |ops| - 1;
      OpenedAtKept(config, first, ops[..n]);
      OpOpens(config, RunOps(config, NewWriter(config, first), ops[..n]), ops[n]);
    }
  }

  lemma OpOpens(config: WriterConfig, w: Writer, op: WriterOp)
    requires w.segments != []
    ensures var after := OpStep(config, w, op).0;
      after.segmentOpened ==
        if |after.segments| > |w.segments| && OpenOf(op).Some? then OpenOf(op).value.now else w.segmentOpened
  {
    match op
    case Flush(io) => FlushAnswers(w, io);
    case Rotate(flush, open) => RotateAnswers(config, w, flush, open);
    case Write(line, io) => WriteRotatesExactly(config, w, line, io);
  }

  /** What was written and what was created, over any run and whatever failed. */
  lemma {:induction false} TotalsCounted(config: WriterConfig, first: OpenIo, ops: seq<WriterOp>)
    ensures var w := RunOps(config, NewWriter(config, first), ops);
      && w.stats.recordsWritten == |Written(ops)| && w.stats.uncompressedBytes == |Joined(Written(ops))|
      && w.stats.segmentsCreated == |w.segments|
  {
    if ops != [] {
      var n := |ops| - 1;
      var w := RunOps(config, NewWriter(config, first), ops[..n]);
      TotalsCounted(config, first, ops[..n]);
      OneOpCounted(config, w, ops[n]);
      if ops[n].Write? {
        OneMoreLine(Written(ops[..n]), ops[n].line);
      } else {
        assert Written(ops[..n]) + [] == Written(ops[..n]);
      }
    }
  }

  lemma OneOpCounted(config: WriterConfig, w: Writer, op: WriterOp)
    requires w.segments != []
    ensures var after := OpStep(config, w, op).0;
      && after.stats.recordsWritten == w.stats.recordsWritten + (if op.Write? then 1 else 0)
      && after.stats.uncompressedBytes == w.stats.uncompressedBytes + (if op.Write? then |op.line| + 1 else 0)
      && after.stats.segmentsCreated - |after.segments| == w.stats.segmentsCreated - |w.segments|
  {
    match op
    case Flush(io) => FlushAnswers(w, io);
    case Rotate(flush, open) => RotateAnswers(config, w, flush, open);
    case Write(line, io) => WriteRotatesExactly(config, w, line, io);
  }

  /** The size the writer goes by is that of the current segment, what is buffered included. */
  ghost predicate SizeKept(w: Writer) {
    && w.segments != [] && w.isOpen
    && w.segmentUncompressed == |SegmentText(w.segments[|w.segments| - 1])| + |w.pending|
  }

  lemma FlushKeepsSize(w: Writer, io: FlushIo)
    requires SizeKept(w) && io.blockOk
    ensures SizeKept(FlushStep(w, io).0) && FlushStep(w, io).0.pending == ""
  {
    FlushSize(w, io);
  }

  lemma OpenKeepsSize(config: WriterConfig, w: Writer, open: OpenIo)
    requires w.pending == "" && open.ok
    ensures SizeKept(OpenStep(config, w, open).0)
  {
    assert SegmentText(Segment(NameFor(config, open), [])) == "";
  }

  lemma RotateKeepsSize(config: WriterConfig, w: Writer, flush: FlushIo, open: OpenIo)
    requires SizeKept(w) && flush.blockOk && open.ok
    ensures SizeKept(RotateStep(config, w, flush, open).0)
  {
    FlushKeepsSize(w, flush);
    OpenKeepsSize(config, FlushStep(w, flush).0, open);
  }

  lemma WriteKeepsSize(config: WriterConfig, w: Writer, line: string, io: WriteIo)
    requires SizeKept(w) && IoOk(Write(line, io))
    ensures SizeKept(WriteStep(config, w, line, io).0)
  {
    var buffered := Buffered(w, line);
    assert SizeKept(buffered);
    FlushKeepsSize(buffered, io.flush);
    var settled := Settled(config, buffered, io.flush).0;
    RotateKeepsSize(config, settled, io.rotateFlush, io.open);
  }

  lemma {:induction false} SizeTracked(config: WriterConfig, first: OpenIo, ops: seq<WriterOp>)
    requires Unfailing(ops)
    ensures SizeKept(RunOps(config, NewWriter(config, first), ops))
  {
    if ops == [] {
      assert SegmentText(NewWriter(config, first).segments[0]) == "";
    } else {
      var n := |ops| - 1;
      UnfailingLast(ops);
      SizeTracked(config, first, ops[..n]);
      var w := RunOps(config, NewWriter(config, first), ops[..n]);
      match ops[n]
      case Flush(io) => FlushKeepsSize(w, io);
      case Rotate(flush, open) => RotateKeepsSize(config, w, flush, open);
      case Write(line, io) => WriteKeepsSize(config, w, line, io);
    }
  }

  /**
   In a failure-free run a write begins a new segment exactly if with its line the current one reaches
   rotateBytes, or if rotateInterval has passed since the current one was opened.
   */
  lemma RotatesOnSchedule(config: WriterConfig, first: OpenIo, ops: seq<WriterOp>, line: string, io: WriteIo)
    requires Unfailing(ops) && IoOk(Write(line, io))
    ensures var w, after := RunOps(config, NewWriter(config, first), ops), RunOps(config, NewWriter(config, first), ops + [Write(line, io)]);
      var size := |SegmentText(w.segments[|w.segments| - 1])| + |w.pending| + |line| + 1;
      var age := io.checkTime - OpenedAt(config, first, ops);
      |after.segments| == |w.segments| +
        if (config.rotateBytes > 0 && size >= config.rotateBytes) || (config.rotateInterval > 0 && age >= config.rotateInterval)
        then 1 else 0
  {
    assert (ops + [Write(line, io)])[..|ops|] == ops;
    SizeTracked(config, first, ops);
    OpenedAtKept(config, first, ops);
    WriteRotatesExactly(config, RunOps(config, NewWriter(config, first), ops), line, io);
  }
}
