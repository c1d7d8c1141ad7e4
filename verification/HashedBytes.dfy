/** What the state hash covers: every byte fed to the digest, read back. */
module HashedBytes {
  import opened Arithmetic
  import opened Book
  import opened BookDepth
  import opened BookDigest
  import opened Digest
  import opened Events

  /** Eight bytes at a position, low byte first, are the number. */
  predicate WordAt(bytes: seq<Byte>, at: nat, word: int) {
    at + 8 <= |bytes| && ReadWord(bytes[at..at + 8]) == word
  }

  /** Entry i is its price and its size, in sixteen bytes. */
  predicate EntryAt(bytes: seq<Byte>, i: nat, price: int, size: int) {
    WordAt(bytes, 16 * i, price) && WordAt(bytes, 16 * i + 8, size)
  }

  predicate EntriesAt(bytes: seq<Byte>, keys: seq<int>, levels: Levels) {
    && |bytes| == 16 * |keys|
    && forall i :: 0 <= i < |keys| ==> keys[i] in levels && EntryAt(bytes, i, keys[i], levels[keys[i]])
  }

  /** All levels of a side, each once, best first. */
  ghost predicate WrittenSide(bytes: seq<Byte>, levels: Levels, side: BookSide) {
    exists keys: seq<int> :: BestFirst(side, keys, levels) && EntriesAt(bytes, keys, levels)
  }

  lemma WordReadBack(x: int)
    requires 0 <= x < TWO64
    ensures ReadWord(LittleEndian(Word(x), 8)) == x
  {
    WordId(x);
    Pow256Of8();
    ReadWordOf(x, 8);
  }

  lemma EntryReadBack(bytes: seq<Byte>, i: nat, price: int, size: int)
    requires 0 <= price < TWO64 && 0 <= size < TWO64
    requires 16 * i + 16 <= |bytes| && bytes[16 * i..16 * i + 16] == LevelBytes(price, size)
    ensures EntryAt(bytes, i, price, size)
  {
    WordReadBack(price);
    WordReadBack(size);
    var low, high := LittleEndian(Word(price), 8), LittleEndian(Word(size), 8);
    assert bytes[16 * i..16 * i + 8] == (low + high)[..8] == low;
    assert bytes[16 * i + 8..16 * i + 16] == (low + high)[8..] == high;
  }

  predicate InWords(levels: Levels) {
    forall p :: p in levels ==> 0 <= p < TWO64 && 0 <= levels[p] < TWO64
  }

  lemma EntriesWritten(keys: seq<int>, levels: Levels)
    requires InWords(levels) && forall k :: k in keys ==> k in levels
    ensures EntriesAt(SideStream(keys, levels), keys, levels)
  {
    SideStreamLength(keys, levels);
    forall i | 0 <= i < |keys| ensures keys[i] in levels && EntryAt(SideStream(keys, levels), i, keys[i], levels[keys[i]]) {
      assert keys[i] in keys;
      SideStreamAt(keys, levels, i);
      EntryReadBack(SideStream(keys, levels), i, keys[i], levels[keys[i]]);
    }
  }

  lemma SideWritten(market: Market, b: BookState, side: BookSide)
    requires Sound(market, b)
    ensures WrittenSide(SideStream(BestKeys(b, side), b.Side(side)), b.Side(side), side)
  {
    LevelsInWords(market, b, side);
    EntriesWritten(BestKeys(b, side), b.Side(side));
    KeysBestFirst(b, side);
    WrittenBy(SideStream(BestKeys(b, side), b.Side(side)), BestKeys(b, side), b.Side(side), side);
  }

  lemma WrittenBy(bytes: seq<Byte>, keys: seq<int>, levels: Levels, side: BookSide)
    requires BestFirst(side, keys, levels) && EntriesAt(bytes, keys, levels)
    ensures WrittenSide(bytes, levels, side)
  {}

  lemma LevelsInWords(market: Market, b: BookState, side: BookSide)
    requires Sound(market, b)
    ensures InWords(b.Side(side))
  {}

  lemma NumberWritten(b: BookState)
    ensures var number := LittleEndian(SequenceWord(b), 8);
      |number| == 8 && WordAt(number, 0, if b.lastSequence.Some? then b.lastSequence.value else 0)
  {
    WordReadBack(SequenceWord(b));
    WordId(SequenceWord(b));
    assert LittleEndian(SequenceWord(b), 8)[0..8] == LittleEndian(SequenceWord(b), 8);
  }

  /**
   The digest is taken over the characters of the ticker, one byte for validity, the latest number (0
   for none) in eight bytes, 'B' and the bids, 'A' and the asks, each side best first.
   */
  lemma StreamLayout(market: Market, ticker: string, b: BookState)
    returns (name: seq<Byte>, number: seq<Byte>, bids: seq<Byte>, asks: seq<Byte>)
    requires Sound(market, b)
    ensures StateHash(ticker, b) ==
            HashBytes(1469598103934665603, name + ([if b.IsValid() then 1 else 0] + number + [66] + bids + [65] + asks))
    ensures |name| == |ticker| && forall i :: 0 <= i < |ticker| ==> name[i] == ticker[i] as int % 256
    ensures |number| == 8 && WordAt(number, 0, if b.lastSequence.Some? then b.lastSequence.value else 0)
    ensures WrittenSide(bids, b.bids, Bid) && WrittenSide(asks, b.asks, Ask)
  {
    name, number, bids, asks := TickerBytes(ticker), LittleEndian(SequenceWord(b), 8), BidStream(b), AskStream(b);
    SideWritten(market, b, Bid);
    SideWritten(market, b, Ask);
    NumberWritten(b);
  }

  /** Bytes are taken in order, each mixed in and then multiplied by the prime, in 64 bits. */
  lemma BytesInOrder(digest: Uint64, bytes: seq<Byte>, last: Byte)
    ensures HashBytes(digest, bytes + [last]) == Xor(HashBytes(digest, bytes), last) * 1099511628211 % 0x1_0000_0000_0000_0000
  {
    assert (bytes + [last])[..|bytes|] == bytes;
  }
}
