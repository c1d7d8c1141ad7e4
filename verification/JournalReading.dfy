/** The journal reader, and reading back what the writer wrote. */
module JournalReading {
  import opened Journal
  import opened JournalNames
  import opened JournalRecords
  import opened JsonValues
  import opened Lines
  import opened Sequences
  import opened SegmentNames
  import opened Sorting
  import opened Wrappers
  import Order = Text

  datatype ReadResult = EndOfFile | Next(record: JournalRecord) | ReadFailure(error: JournalError)

  /** The next record among the lines to come, skipping blank ones, and how many lines that took. */
  function FirstRecord(codec: Codec, lines: seq<string>, clean: bool, number: nat): (ReadResult, seq<string>, nat) {
    if lines == [] then
      (if clean then EndOfFile else ReadFailure(JournalError(DecompressionFailed, number, "")), [], number)
    else if lines[0] == "" then FirstRecord(codec, lines[1..], clean, number + 1)
    else
      match Decode(codec, lines[0])
      case Success(r) => (Next(r), lines[1..], number + 1)
      case Failure(e) => (ReadFailure(e.(line := number + 1)), lines[1..], number + 1)
  }

  /** Plain text through std::getline. */
  method GetLine(text: string) returns (line: Option<string>, rest: string)
    ensures if text == "" then line.None? && rest == ""
            else line == Some(LinesOf(text)[0]) && LinesOf(rest) == LinesOf(text)[1..] && |rest| < |text|
  {
    if text == "" {
      return None, "";
    }
    var newline := FindNewline(text, 0);
    assert text[0..] == text;
    FirstOfLines(text, newline);
    if newline.Some? {
      return Some(text[..newline.value]), text[newline.value + 1..];
    }
    return Some(text), "";
  }

  /** Where getline cuts. */
  lemma FirstOfLines(text: string, newline: Option<nat>)
    requires text != ""
    requires newline == if NewlineAt(text) < |text| then Some(NewlineAt(text)) else None
    ensures LinesOf(text) == if newline.Some? then [text[..newline.value]] + LinesOf(text[newline.value + 1..]) else [text]
  {
    if newline.Some? {
      FirstLine(text, "");
    } else {
      LastLine(text);
    }
  }

  class JournalReader {
    const codec: Codec
    const compressed: bool
    const splitter: LineSplitter
    var text: string
    var lineNumber: nat

    ghost predicate Valid()
      reads this, splitter
    {
      splitter.Valid()
    }

    /** The lines not yet read, and whether they end cleanly. */
    function Pending(): (seq<string>, bool)
      requires Valid()
      reads this, splitter
    {
      if compressed then splitter.Rest() else (LinesOf(text), true)
    }

    constructor Plain(codec: Codec, text: string)
      ensures Valid() && fresh(splitter) && this.codec == codec && lineNumber == 0 && Pending() == (LinesOf(text), true)
    {
      this.codec, compressed, this.text, lineNumber := codec, false, text, 0;
      splitter := new LineSplitter([]);
    }

    constructor Compressed(codec: Codec, chunks: seq<Chunk>)
      ensures Valid() && fresh(splitter) && this.codec == codec && lineNumber == 0 && Pending() == Deliver("", chunks)
    {
      this.codec, compressed, text, lineNumber := codec, true, "", 0;
      splitter := new LineSplitter(chunks);
    }

    method ReadLine() returns (line: Option<string>, failed: bool)
      requires Valid()
      modifies this`text, splitter
      ensures Valid()
      ensures old(Pending().0) != [] ==>
        line == Some(old(Pending().0)[0]) && !failed && Pending() == (old(Pending().0)[1..], old(Pending().1))
      ensures old(Pending().0) == [] ==> line.None? && failed == !old(Pending().1)
      ensures old(Pending()) == ([], true) ==> Pending() == ([], true)
    {
      if compressed {
        line, failed := splitter.NextLine();
      } else {
        failed := false;
        line, text := GetLine(text);
      }
    }

    method NextRecord() returns (result: ReadResult)
      requires Valid()
      modifies this, splitter
      ensures Valid()
      ensures var spec := FirstRecord(codec, old(Pending().0), old(Pending().1), old(lineNumber));
        && result == spec.0 && lineNumber == spec.2
        && (!result.ReadFailure? ==> Pending() == (spec.1, old(Pending().1)))
    {
      while true
        invariant Valid()
        invariant Pending().1 == old(Pending().1)
        invariant FirstRecord(codec, Pending().0, Pending().1, lineNumber) ==
                  FirstRecord(codec, old(Pending().0), old(Pending().1), old(lineNumber))
        decreases |Pending().0|
      {
        ghost var before := Pending();
        var line, failed := ReadLine();
        if line.None? {
          if failed {
            return ReadFailure(JournalError(DecompressionFailed, lineNumber, ""));
          }
          return EndOfFile;
        }
        lineNumber := lineNumber + 1;
        assert before.0[0] == line.value && Pending().0 == before.0[1..];
        if line.value == "" {
          continue;
        }
        var record := Decode(codec, line.value);
        if record.Failure? {
          return ReadFailure(record.error.(line := lineNumber));
        }
        return Next(record.value);
      }
    }
  }

  // ---- everything a reader yields ----

  datatype ReadItem = Rec(record: JournalRecord) | Bad(error: JournalError)

  /** All results of a reader up to and including the first failure. */
  function Items(codec: Codec, lines: seq<string>, clean: bool, number: nat): seq<ReadItem> {
    if lines == [] then (if clean then [] else [Bad(JournalError(DecompressionFailed, number, ""))])
    else if lines[0] == "" then Items(codec, lines[1..], clean, number + 1)
    else
      match Decode(codec, lines[0])
      case Success(r) => [Rec(r)] + Items(codec, lines[1..], clean, number + 1)
      case Failure(e) => [Bad(e.(line := number + 1))]
  }

  /** Calling NextRecord again and again gives exactly those items, one per call. */
  lemma {:induction false} ItemsAreRepeatedReads(codec: Codec, lines: seq<string>, clean: bool, number: nat)
    ensures var (result, rest, next) := FirstRecord(codec, lines, clean, number);
      Items(codec, lines, clean, number) ==
        match result
        case EndOfFile => []
        case Next(r) => [Rec(r)] + Items(codec, rest, clean, next)
        case ReadFailure(e) => [Bad(e)]
  {
    if lines != [] && lines[0] == "" {
      ItemsAreRepeatedReads(codec, lines[1..], clean, number + 1);
    }
  }

  predicate Undecodable(codec: Codec, line: string) {
    line != "" && Decode(codec, line).Failure?
  }

  predicate Decodable(codec: Codec, lines: seq<string>) {
    forall i :: 0 <= i < |lines| ==> !Undecodable(codec, lines[i])
  }

  /** Line k is the first that does not decode. */
  predicate FirstUndecodable(codec: Codec, lines: seq<string>, k: nat) {
    k < |lines| && Undecodable(codec, lines[k]) && Decodable(codec, lines[..k])
  }

  /** A blank line holds no record. */
  function RecordIn(codec: Codec, line: string): seq<ReadItem>
    requires !Undecodable(codec, line)
  {
    if line == "" then [] else [Rec(Decode(codec, line).value)]
  }

  function RecordsIn(codec: Codec, lines: seq<string>): seq<ReadItem>
    requires Decodable(codec, lines)
  {
    if lines == [] then [] else RecordIn(codec, lines[0]) + RecordsIn(codec, lines[1..])
  }

  function LastItem(clean: bool, number: nat): seq<ReadItem> {
    if clean then [] else [Bad(JournalError(DecompressionFailed, number, ""))]
  }

  lemma {:induction false} ReadToTheEnd(codec: Codec, lines: seq<string>, clean: bool, number: nat)
    requires Decodable(codec, lines)
    ensures Items(codec, lines, clean, number) == RecordsIn(codec, lines) + LastItem(clean, number + |lines|)
  {
    if lines != [] {
      var rest := lines[1..];
      ReadToTheEnd(codec, rest, clean, number + 1);
      assert !Undecodable(codec, lines[0]);
      Associative(RecordIn(codec, lines[0]), RecordsIn(codec, rest), LastItem(clean, number + |lines|));
    }
  }

  lemma {:induction false} ReadToFailure(codec: Codec, lines: seq<string>, k: nat, clean: bool, number: nat)
    requires FirstUndecodable(codec, lines, k)
    ensures Items(codec, lines, clean, number) ==
            RecordsIn(codec, lines[..k]) + [Bad(Decode(codec, lines[k]).error.(line := number + k + 1))]
  {
    if k > 0 {
      FirstLater(codec, lines, k);
      FrontDecodable(codec, lines[..k]);
      LineRead(codec, lines, clean, number);
      ReadToFailure(codec, lines[1..], k - 1, clean, number + 1);
    }
  }

  lemma FirstLater(codec: Codec, lines: seq<string>, k: nat)
    requires k > 0 && FirstUndecodable(codec, lines, k)
    ensures FirstUndecodable(codec, lines[1..], k - 1) && !Undecodable(codec, lines[0])
    ensures lines[..k][0] == lines[0] && lines[..k][1..] == lines[1..][..k - 1] && lines[1..][k - 1] == lines[k]
  {
    assert lines[..k][0] == lines[0];
    assert lines[..k][1..] == lines[1..][..k - 1];
    FrontDecodable(codec, lines[..k]);
  }

  lemma LineRead(codec: Codec, lines: seq<string>, clean: bool, number: nat)
    requires lines != [] && !Undecodable(codec, lines[0])
    ensures Items(codec, lines, clean, number) == RecordIn(codec, lines[0]) + Items(codec, lines[1..], clean, number + 1)
  {}

  lemma FrontDecodable(codec: Codec, lines: seq<string>)
    requires lines != [] && Decodable(codec, lines)
    ensures !Undecodable(codec, lines[0]) && Decodable(codec, lines[1..])
    ensures RecordsIn(codec, lines) == RecordIn(codec, lines[0]) + RecordsIn(codec, lines[1..])
  {}

  /**
   A reader yields the records of the non-blank lines in order, up to the first line that does not
   decode, which it reports under that line's number counted from 1; a source that ends in damage is
   reported after its last line.
   */
  lemma ItemsExactly(codec: Codec, lines: seq<string>, clean: bool, k: nat)
    ensures Decodable(codec, lines) ==>
      Items(codec, lines, clean, 0) == RecordsIn(codec, lines) + if clean then [] else [Bad(JournalError(DecompressionFailed, |lines|, ""))]
    ensures FirstUndecodable(codec, lines, k) ==>
      Items(codec, lines, clean, 0) == RecordsIn(codec, lines[..k]) + [Bad(Decode(codec, lines[k]).error.(line := k + 1))]
  {
    if Decodable(codec, lines) {
      ReadToTheEnd(codec, lines, clean, 0);
    }
    if FirstUndecodable(codec, lines, k) {
      ReadToFailure(codec, lines, k, clean, 0);
    }
  }

  function EncodeAll(codec: Codec, records: seq<JournalRecord>): seq<string> {
    if records == [] then [] else [Encode(codec, records[0])] + EncodeAll(codec, records[1..])
  }

  function RecItems(records: seq<JournalRecord>): seq<ReadItem> {
    if records == [] then [] else [Rec(records[0])] + RecItems(records[1..])
  }

  lemma {:induction false} EncodedRead(codec: Codec, records: seq<JournalRecord>, number: nat)
    requires Faithful(codec)
    ensures Items(codec, EncodeAll(codec, records), true, number) == RecItems(records)
  {
    if records != [] {
      DecodeEncode(codec, records[0]);
      EncodedRead(codec, records[1..], number + 1);
      var lines := EncodeAll(codec, records);
      assert lines[0] == Encode(codec, records[0]) && lines[1..] == EncodeAll(codec, records[1..]);
    }
  }

  lemma {:induction false} EncodeAllSplit(codec: Codec, records: seq<JournalRecord>, a: seq<string>, b: seq<string>)
    requires a + b == EncodeAll(codec, records)
    ensures |a| <= |records|
    ensures a == EncodeAll(codec, records[..|a|]) && b == EncodeAll(codec, records[|a|..])
  {
    if a == [] {
      assert a + b == b && records[0..] == records;
    } else {
      var all := a + b;
      assert all[0] == a[0] && all[1..] == a[1..] + b;
      EncodeAllSplit(codec, records[1..], a[1..], b);
      assert records[1..][..|a| - 1] == records[..|a|][1..];
      assert records[1..][|a| - 1..] == records[|a|..];
      assert a == [a[0]] + a[1..];
    }
  }

  lemma {:induction false} RecItemsConcat(a: seq<JournalRecord>, b: seq<JournalRecord>)
    ensures RecItems(a + b) == RecItems(a) + RecItems(b)
  {
    if a == [] {
      assert a + b == b;
    } else {
      assert (a + b)[0] == a[0] && (a + b)[1..] == a[1..] + b;
      RecItemsConcat(a[1..], b);
    }
  }

  /** What a fresh reader of each segment yields; chunking does not matter, see ChunkingIrrelevant. */
  function SegmentItems(codec: Codec, segments: seq<Segment>): seq<seq<ReadItem>> {
    if segments == [] then []
    else
      var n := |segments| - 1;
      SegmentItems(codec, segments[..n]) + [Items(codec, LinesOf(SegmentText(segments[n])), true, 0)]
  }

  lemma {:induction false} SegmentsRead(codec: Codec, segments: seq<Segment>, records: seq<JournalRecord>)
    requires Faithful(codec) && SegmentLines(segments) == EncodeAll(codec, records)
    ensures Flatten(SegmentItems(codec, segments)) == RecItems(records)
  {
    if segments == [] {
      assert EncodeAll(codec, records) == [];
    } else {
      var n := |segments| - 1;
      var before, last := SegmentLines(segments[..n]), LinesOf(SegmentText(segments[n]));
      var a, b := SplitRecords(codec, records, before, last);
      SegmentsRead(codec, segments[..n], a);
      EncodedRead(codec, b, 0);
      LastItems(SegmentItems(codec, segments[..n]), a, b);
    }
  }

  lemma SplitRecords(codec: Codec, records: seq<JournalRecord>, before: seq<string>, last: seq<string>)
    returns (a: seq<JournalRecord>, b: seq<JournalRecord>)
    requires before + last == EncodeAll(codec, records)
    ensures records == a + b && before == EncodeAll(codec, a) && last == EncodeAll(codec, b)
  {
    EncodeAllSplit(codec, records, before, last);
    a, b := records[..|before|], records[|before|..];
  }

  lemma LastItems(items: seq<seq<ReadItem>>, a: seq<JournalRecord>, b: seq<JournalRecord>)
    requires Flatten(items) == RecItems(a)
    ensures Flatten(items + [RecItems(b)]) == RecItems(a + b)
  {
    FlattenLast(items, RecItems(b));
    RecItemsConcat(a, b);
  }

  /** Undamaged chunks of a text, cut anywhere. */
  predicate ChunksOf(text: string, chunks: seq<Chunk>) {
    (forall i :: 0 <= i < |chunks| ==> chunks[i].Data?) && Whole(chunks) == text
  }

  lemma ReaderModesAgree(text: string, chunks: seq<Chunk>)
    requires ChunksOf(text, chunks)
    ensures Deliver("", chunks) == (LinesOf(text), true)
  {
    ChunkingIrrelevant("", chunks);
    assert "" + text == text;
  }

  /**
   Writer and reader are inverse: for any flush, size, time and forced-rotation schedule without I/O
   failure, after a final flush, reading the segments the directory lists yields exactly the written
   records, in order. A compressed segment delivers the same lines for every chunking of its text.
   */
  lemma JournalRoundTrip(codec: Codec, config: WriterConfig, first: OpenIo, ops: seq<WriterOp>,
                         records: seq<JournalRecord>, entries: seq<string>)
    requires Faithful(codec) && Written(ops) == EncodeAll(codec, records)
    requires Unfailing(ops)
    requires Undisturbed(config, first, ops)
    requires multiset(Candidates(entries, config.prefix)) ==
             multiset(NamesOf(RunOps(config, NewWriter(config, first), ops + [FINAL_FLUSH]).segments))
    ensures var segments := RunOps(config, NewWriter(config, first), ops + [FINAL_FLUSH]).segments;
      && Sort(Order.Before, Candidates(entries, config.prefix)) == NamesOf(segments)
      && Flatten(SegmentItems(codec, segments)) == RecItems(records)
      && forall i, chunks :: 0 <= i < |segments| && ChunksOf(SegmentText(segments[i]), chunks) ==>
           Deliver("", chunks) == (LinesOf(SegmentText(segments[i])), true)
  {
    var all := RunOps(config, NewWriter(config, first), ops + [FINAL_FLUSH]).segments;
    forall i, chunks | 0 <= i < |all| && ChunksOf(SegmentText(all[i]), chunks)
      ensures Deliver("", chunks) == (LinesOf(SegmentText(all[i])), true)
    {
      ReaderModesAgree(SegmentText(all[i]), chunks);
    }
    EncodedHasNoNewline(codec, records);
    WriterReadBack(config, first, ops);
    SegmentsRead(codec, RunOps(config, NewWriter(config, first), ops + [FINAL_FLUSH]).segments, records);
    assert (ops + [FINAL_FLUSH])[..|ops|] == ops;
    ListingIsRunOrder(config, first, ops + [FINAL_FLUSH], entries);
  }

  lemma {:induction false} EncodedHasNoNewline(codec: Codec, records: seq<JournalRecord>)
    requires Faithful(codec)
    ensures OneLineEach(EncodeAll(codec, records))
  {
    if records != [] {
      DecodeEncode(codec, records[0]);
      EncodedHasNoNewline(codec, records[1..]);
    }
  }

  // ---- reading after failures ----

  /** The records of the accepted batches. */
  function KeptRecords(batches: seq<Batch>, records: seq<JournalRecord>): seq<JournalRecord>
    requires |LinesIn(batches)| <= |records|
  {
    if batches == [] then []
    else
      var front, last := batches[..|batches| - 1], batches[|batches| - 1];
      KeptRecords(front, records) + if last.kept then records[|LinesIn(front)|..|LinesIn(batches)|] else []
  }

  lemma {:induction false} EncodeAllConcat(codec: Codec, a: seq<JournalRecord>, b: seq<JournalRecord>)
    ensures EncodeAll(codec, a + b) == EncodeAll(codec, a) + EncodeAll(codec, b)
  {
    if a == [] {
      assert a + b == b;
    } else {
      assert (a + b)[0] == a[0] && (a + b)[1..] == a[1..] + b;
      EncodeAllConcat(codec, a[1..], b);
    }
  }

  /** Lines n to m of an encoded list are the records n to m, encoded. */
  lemma EncodedSlice(codec: Codec, records: seq<JournalRecord>, a: seq<string>, b: seq<string>, c: seq<string>)
    requires a + b + c == EncodeAll(codec, records)
    ensures |a| + |b| <= |records| && b == EncodeAll(codec, records[|a|..|a| + |b|])
  {
    EncodeAllSplit(codec, records, a + b, c);
    EncodeAllSplit(codec, records[..|a + b|], a, b);
    assert records[..|a + b|][|a|..] == records[|a|..|a| + |b|];
  }

  lemma {:induction false} KeptEncoded(codec: Codec, batches: seq<Batch>, rest: seq<string>, records: seq<JournalRecord>)
    requires LinesIn(batches) + rest == EncodeAll(codec, records)
    ensures |LinesIn(batches)| <= |records|
    ensures KeptLines(batches) == EncodeAll(codec, KeptRecords(batches, records))
  {
    if batches != [] {
      var front, last := batches[..|batches| - 1], batches[|batches| - 1];
      Associative(LinesIn(front), last.lines, rest);
      KeptEncoded(codec, front, last.lines + rest, records);
      EncodedSlice(codec, records, LinesIn(front), last.lines, rest);
      if last.kept {
        EncodeAllConcat(codec, KeptRecords(front, records), records[|LinesIn(front)|..|LinesIn(batches)|]);
      } else {
        assert KeptRecords(front, records) + [] == KeptRecords(front, records);
      }
    }
  }

  /**
   Whatever failed, the files read back without error, and to the records of the accepted batches in
   order: the records written, less those counted as dropped and those still in the buffer.
   */
  lemma ReadBackKept(codec: Codec, config: WriterConfig, first: OpenIo, ops: seq<WriterOp>, records: seq<JournalRecord>)
    returns (batches: seq<Batch>)
    requires Faithful(codec) && Written(ops) == EncodeAll(codec, records)
    ensures var w := RunOps(config, NewWriter(config, first), ops);
      && LinesIn(batches) + LinesOf(w.pending) == Written(ops) && |LinesIn(batches)| <= |records|
      && |KeptRecords(batches, records)| == |records| - |LinesOf(w.pending)| - w.stats.droppedRecords
      && Flatten(SegmentItems(codec, w.segments)) == RecItems(KeptRecords(batches, records))
  {
    EncodedHasNoNewline(codec, records);
    batches := LinesConserved(config, first, ops);
    var w := RunOps(config, NewWriter(config, first), ops);
    KeptEncoded(codec, batches, LinesOf(w.pending), records);
    SegmentsRead(codec, w.segments, KeptRecords(batches, records));
    EncodeAllLength(codec, records);
    EncodeAllLength(codec, KeptRecords(batches, records));
  }

  lemma {:induction false} EncodeAllLength(codec: Codec, records: seq<JournalRecord>)
    ensures |EncodeAll(codec, records)| == |records|
  {
    if records != [] {
      EncodeAllLength(codec, records[1..]);
    }
  }
}
