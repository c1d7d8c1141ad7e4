/** Text lines as std::getline delivers them, and the chunked splitter that must agree with it. */
module Lines {
  import opened Sequences
  import opened Wrappers

  /** Position of the first newline, or the length of the text. */
  function NewlineAt(text: string): (n: nat)
    ensures n <= |text| && '\n' !in text[..n]
    ensures n < |text| ==> text[n] == '\n'
  {
    if text == "" || text[0] == '\n' then 0
    else
      var n := NewlineAt(text[1..]);
      assert text[..n + 1] == [text[0]] + text[1..][..n];
      n + 1
  }

  lemma {:induction false} NewlineUnique(text: string, n: nat)
    requires n <= |text| && '\n' !in text[..n] && (n < |text| ==> text[n] == '\n')
    ensures NewlineAt(text) == n
  {
    if n > 0 {
      assert text[0] in text[..n];
      assert text[1..][..n - 1] == text[..n][1..];
      NewlineUnique(text[1..], n - 1);
    }
  }

  /** Repeated getline: the newline-separated lines, and an unterminated last one unless it is empty. */
  function LinesOf(text: string): seq<string> {
    if text == "" then []
    else
      var n := NewlineAt(text);
      [text[..n]] + if n < |text| then LinesOf(text[n + 1..]) else []
  }

  /** Only the terminated lines. */
  function FullLines(text: string): seq<string> {
    var n := NewlineAt(text);
    if n < |text| then [text[..n]] + FullLines(text[n + 1..]) else []
  }

  predicate Complete(text: string) {
    text == "" || text[|text| - 1] == '\n'
  }

  /** Splitting distributes over text that ends a line. */
  lemma {:induction false} LinesConcat(a: string, b: string)
    requires Complete(a)
    ensures LinesOf(a + b) == LinesOf(a) + LinesOf(b)
  {
    if a == "" {
      assert a + b == b;
    } else {
      var n := NewlineAt(a);
      LastIsNewline(a);
      FirstLine(a, b);
      LinesConcat(a[n + 1..], b);
      Associative([a[..n]], LinesOf(a[n + 1..]), LinesOf(b));
    }
  }

  lemma FirstLine(a: string, b: string)
    requires NewlineAt(a) < |a|
    ensures LinesOf(a + b) == [a[..NewlineAt(a)]] + LinesOf(a[NewlineAt(a) + 1..] + b)
    ensures LinesOf(a) == [a[..NewlineAt(a)]] + LinesOf(a[NewlineAt(a) + 1..])
  {
    var n := NewlineAt(a);
    assert (a + b)[..n] == a[..n];
    NewlineUnique(a + b, n);
    assert (a + b)[n + 1..] == a[n + 1..] + b;
  }

  lemma LastLine(text: string)
    requires text != "" && NewlineAt(text) == |text|
    ensures LinesOf(text) == [text]
  {
    assert text[..|text|] == text;
  }

  lemma LastIsNewline(a: string)
    requires a != "" && Complete(a)
    ensures NewlineAt(a) < |a| && Complete(a[NewlineAt(a) + 1..])
  {
    assert a[..|a|] == a;
    assert a[|a| - 1] in a[..|a|];
  }

  lemma OneLine(line: string)
    requires '\n' !in line
    ensures LinesOf(line + "\n") == [line] && Complete(line + "\n")
  {
    var text := line + "\n";
    assert text[..|line|] == line;
    NewlineUnique(text, |line|);
    assert text[|line| + 1..] == "";
  }

  // ---- a decompressor delivers text in arbitrary pieces ----

  datatype Chunk = Data(text: string) | Corrupt

  function Whole(chunks: seq<Chunk>): string
    requires forall i :: 0 <= i < |chunks| ==> chunks[i].Data?
  {
    if chunks == [] then "" else chunks[0].text + Whole(chunks[1..])
  }

  /** The lines a reader will deliver from here on, and whether it then ends cleanly. */
  function Deliver(buffer: string, chunks: seq<Chunk>): (seq<string>, bool)
    decreases chunks
  {
    if chunks == [] then (LinesOf(buffer), true)
    else if chunks[0].Corrupt? then (FullLines(buffer), false)
    else Deliver(buffer + chunks[0].text, chunks[1..])
  }

  /** A complete line at the front of the buffer is the next line, whatever is still to come. */
  lemma {:induction false} DeliverFront(buffer: string, chunks: seq<Chunk>)
    requires NewlineAt(buffer) < |buffer|
    ensures var n := NewlineAt(buffer);
      Deliver(buffer, chunks) ==
        ([buffer[..n]] + Deliver(buffer[n + 1..], chunks).0, Deliver(buffer[n + 1..], chunks).1)
    decreases chunks
  {
    if chunks != [] && chunks[0].Data? {
      var n := NewlineAt(buffer);
      var more := buffer + chunks[0].text;
      assert more[..n] == buffer[..n];
      NewlineUnique(more, n);
      assert more[n + 1..] == buffer[n + 1..] + chunks[0].text;
      DeliverFront(more, chunks[1..]);
    }
  }

  lemma FirstFullLine(a: string, b: string)
    requires NewlineAt(a) < |a|
    ensures FullLines(a + b) == [a[..NewlineAt(a)]] + FullLines(a[NewlineAt(a) + 1..] + b)
  {
    var n := NewlineAt(a);
    assert (a + b)[..n] == a[..n];
    NewlineUnique(a + b, n);
    assert (a + b)[n + 1..] == a[n + 1..] + b;
  }

  /** The terminated lines of a text are all lines of what comes before its unterminated last one. */
  lemma {:induction false} FullLinesExact(a: string, b: string)
    requires Complete(a) && '\n' !in b
    ensures FullLines(a + b) == LinesOf(a)
  {
    if a == "" {
      assert a + b == b;
      NewlineUnique(b, |b|);
    } else {
      LastIsNewline(a);
      assert a + "" == a && a[NewlineAt(a) + 1..] + "" == a[NewlineAt(a) + 1..];
      FirstLine(a, "");
      FirstFullLine(a, b);
      FullLinesExact(a[NewlineAt(a) + 1..], b);
    }
  }

  /** However the text is cut into chunks, empty ones included, the lines are those of the whole text. */
  lemma {:induction false} ChunkingIrrelevant(buffer: string, chunks: seq<Chunk>)
    requires forall i :: 0 <= i < |chunks| ==> chunks[i].Data?
    ensures Deliver(buffer, chunks) == (LinesOf(buffer + Whole(chunks)), true)
    decreases chunks
  {
    if chunks == [] {
      assert buffer + "" == buffer;
    } else {
      ChunkingIrrelevant(buffer + chunks[0].text, chunks[1..]);
      Associative(buffer, chunks[0].text, Whole(chunks[1..]));
    }
  }

  /** A damaged source still yields every line completed before the damage, then a failure. */
  lemma {:induction false} LinesBeforeDamage(buffer: string, good: seq<Chunk>, after: seq<Chunk>)
    requires forall i :: 0 <= i < |good| ==> good[i].Data?
    ensures Deliver(buffer, good + [Corrupt] + after) == (FullLines(buffer + Whole(good)), false)
    decreases good
  {
    var all := good + [Corrupt] + after;
    if good == [] {
      assert all[0] == Corrupt;
      assert buffer + "" == buffer;
    } else {
      assert all[0] == good[0] && all[1..] == good[1..] + [Corrupt] + after;
      LinesBeforeDamage(buffer + good[0].text, good[1..], after);
      Associative(buffer, good[0].text, Whole(good[1..]));
    }
  }

  method FindNewline(text: string, from: nat) returns (at: Option<nat>)
    requires from <= |text|
    ensures at == if NewlineAt(text[from..]) < |text[from..]| then Some(from + NewlineAt(text[from..])) else None
  {
    var i := from;
    while i < |text|
      invariant from <= i <= |text| && '\n' !in text[from..][..i - from]
    {
      if text[i] == '\n' {
        NewlineUnique(text[from..], i - from);
        return Some(i);
      }
      assert text[from..][..i + 1 - from] == text[from..][..i - from] + [text[i]];
      i := i + 1;
    }
    NewlineUnique(text[from..], |text[from..]|);
    return None;
  }

  /** The buffered splitter over a chunk source. */
  class LineSplitter {
    var decoded: string
    var decodedOffset: nat
    var sourceExhausted: bool
    var chunks: seq<Chunk>

    ghost predicate Valid()
      reads this
    {
      decodedOffset <= |decoded| && (sourceExhausted ==> chunks == [])
    }

    /** What is still to be delivered. */
    function Rest(): (seq<string>, bool)
      requires Valid()
      reads this
    {
      Deliver(decoded[decodedOffset..], chunks)
    }

    constructor (chunks: seq<Chunk>)
      ensures Valid() && Rest() == Deliver("", chunks)
    {
      this.chunks := chunks;
      decoded, decodedOffset, sourceExhausted := "", 0, false;
    }

    method NextLine() returns (line: Option<string>, failed: bool)
      requires Valid()
      modifies this
      ensures Valid()
      ensures old(Rest().0) != [] ==> line == Some(old(Rest().0)[0]) && !failed && Rest() == (old(Rest().0)[1..], old(Rest().1))
      ensures old(Rest().0) == [] ==> line.None? && failed == !old(Rest().1)
      ensures old(Rest()) == ([], true) ==> Rest() == ([], true)
    {
      failed := false;
      while true
        invariant Valid() && Rest() == old(Rest()) && !failed
        decreases |chunks|, if sourceExhausted then 0 else 1
      {
        var newline := FindNewline(decoded, decodedOffset);
        if newline.Some? {
          ghost var buffer := decoded[decodedOffset..];
          DeliverFront(buffer, chunks);
          line := Some(decoded[decodedOffset..newline.value]);
          assert line.value == buffer[..NewlineAt(buffer)];
          decodedOffset := newline.value + 1;
          assert decoded[decodedOffset..] == buffer[NewlineAt(buffer) + 1..];
          return;
        }
        ghost var buffer := decoded[decodedOffset..];
        if decodedOffset > 0 {
          decoded, decodedOffset := decoded[decodedOffset..], 0;
        }
        assert decoded[decodedOffset..] == buffer && decoded == buffer;
        if sourceExhausted {
          if decoded != "" {
            assert buffer[..|buffer|] == buffer;
            line := Some(decoded);
            decoded := "";
            return;
          }
          return None, false;
        }
        if chunks == [] {
          sourceExhausted := true;
          continue;
        }
        var chunk := chunks[0];
        if chunk.Corrupt? {
          return None, true;
        }
        chunks := chunks[1..];
        decoded := decoded + chunk.text;
      }
    }
  }
}
