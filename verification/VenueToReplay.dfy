/** The chain end to end: the venue's messages, as text, through the collector and the journal to a replay. */
module VenueToReplay {
  import opened Arithmetic
  import opened Book
  import opened BookRuns
  import opened Events
  import opened JournalReading
  import opened JsonValues
  import opened LiveSession
  import opened MarketStates
  import opened Replay
  import opened Sequences
  import opened SessionMetadata
  import opened VenueDocuments
  import opened WireMessages
  import opened Wrappers

  /** The text is a document that says the venue's message number n of subscription sid, in whatever spelling. */
  ghost predicate IsMessage(setup: Setup, venue: (int, nat) -> Input, sid: Int64, n: Uint64, payload: string) {
    && (setup.codec.parse)(payload).Some? && (setup.codec.parse)(payload).value.Object?
    && Says((setup.codec.parse)(payload).value.fields, venue(sid, n), setup.metadata.convention)
    && Carries(venue(sid, n), sid, n) && Numbered(MarketOf(setup.metadata), venue(sid, n))
  }

  /** Every message within the ranges of the wire can be a frame, and no other. */
  lemma FrameExistsIff(setup: Setup, venue: (int, nat) -> Input, sid: Int64, n: Uint64)
    requires Faithful(setup.codec)
    ensures (exists payload :: IsMessage(setup, venue, sid, n, payload)) <==>
            && Sendable(venue(sid, n), setup.metadata.convention)
            && Carries(venue(sid, n), sid, n) && Numbered(MarketOf(setup.metadata), venue(sid, n))
  {
    var message, convention := venue(sid, n), setup.metadata.convention;
    if payload :| IsMessage(setup, venue, sid, n, payload) {
      SaidIsSendable((setup.codec.parse)(payload).value.fields, message, convention);
    }
    if Sendable(message, convention) && Carries(message, sid, n) && Numbered(MarketOf(setup.metadata), message) {
      DocumentSays(message, convention);
      var document := Object(DocumentFor(message, convention));
      assert (setup.codec.parse)((setup.codec.dump)(document)) == Some(document);
      assert IsMessage(setup, venue, sid, n, (setup.codec.dump)(document));
    }
  }

  predicate Carries(input: Input, sid: Int64, n: Uint64) {
    match input
    case ReceiveSnapshot(s) => s.subscription == sid && s.sequence == n
    case ReceiveDelta(d) => d.subscription == sid && d.sequence == n
    case Disconnect => false
  }

  /** Text that is no book message: unreadable, or of another kind. */
  predicate Beside(setup: Setup, payload: string) {
    match EventOf(setup.codec, setup.metadata, payload)
    case Some(SnapshotEvent(_)) => false
    case Some(DeltaEvent(_)) => false
    case _ => true
  }

  /** Any message of the venue, in any order and any number of times, or anything that is no book message. */
  ghost predicate FromVenue(setup: Setup, venue: (int, nat) -> Input, payload: string) {
    Beside(setup, payload) || exists sid: Int64, n: Uint64 :: IsMessage(setup, venue, sid, n, payload)
  }

  lemma FrameGenuine(setup: Setup, venue: (int, nat) -> Input, payload: string, event: MarketEvent, at: int)
    requires FromVenue(setup, venue, payload) && EventOf(setup.codec, setup.metadata, payload) == Some(event)
    ensures Genuine(MarketOf(setup.metadata), venue, Observed(event, at))
  {
    if !Beside(setup, payload) {
      var sid: Int64, n: Uint64 :| IsMessage(setup, venue, sid, n, payload);
      var heard := MessageHeard((setup.codec.parse)(payload).value.fields, venue(sid, n), setup.metadata.convention);
      assert EventOf(setup.codec, setup.metadata, payload) == Some(EventFor(heard));
    }
  }

  /** The live book agrees with the venue of the messages since a point where it was not valid. */
  lemma {:induction false} LiveAgrees(setup: Setup, venue: (int, nat) -> Input, inputs: seq<LiveInput>, since: nat)
    requires since <= |inputs| && !LiveMarket(setup.codec, setup.metadata, inputs[..since]).book.IsValid()
    requires forall i :: since <= i < |inputs| && inputs[i].Frame? ==> FromVenue(setup, venue, inputs[i].payload)
    ensures var b := LiveMarket(setup.codec, setup.metadata, inputs).book;
      b.IsValid() ==> AgreesWithVenue(MarketOf(setup.metadata), venue, b)
  {
    if |inputs| == since {
      FullPrefix(inputs);
    } else {
      var before, last := inputs[..|inputs| - 1], inputs[|inputs| - 1];
      assert inputs == before + [last];
      FrontPrefix(inputs, since);
      LiveAgrees(setup, venue, before, since);
      OneMoreAgrees(setup, venue, before, last);
    }
  }

  lemma OneMoreAgrees(setup: Setup, venue: (int, nat) -> Input, before: seq<LiveInput>, last: LiveInput)
    requires last.Frame? ==> FromVenue(setup, venue, last.payload)
    requires LiveMarket(setup.codec, setup.metadata, before).book.IsValid() ==>
      AgreesWithVenue(MarketOf(setup.metadata), venue, LiveMarket(setup.codec, setup.metadata, before).book)
    ensures var b := LiveMarket(setup.codec, setup.metadata, before + [last]).book;
      b.IsValid() ==> AgreesWithVenue(MarketOf(setup.metadata), venue, b)
  {
    LiveMarketStep(setup.codec, setup.metadata, before, last);
    if last.Frame? {
      FrameAgrees(setup, venue, LiveMarket(setup.codec, setup.metadata, before), last.payload, last.at);
    }
  }

  lemma FrameAgrees(setup: Setup, venue: (int, nat) -> Input, v: MarketValue, payload: string, at: int)
    requires Sound(MarketOf(setup.metadata), v.book) && FromVenue(setup, venue, payload)
    requires v.book.IsValid() ==> AgreesWithVenue(MarketOf(setup.metadata), venue, v.book)
    ensures match EventOf(setup.codec, setup.metadata, payload)
      case None => true
      case Some(event) =>
        var b := EventStep(MarketOf(setup.metadata), v, event, at).book;
        b.IsValid() ==> AgreesWithVenue(MarketOf(setup.metadata), venue, b)
  {
    var event := EventOf(setup.codec, setup.metadata, payload);
    if event.Some? {
      FrameGenuine(setup, venue, payload, event.value, at);
      ObservationAgrees(MarketOf(setup.metadata), venue, v, Observed(event.value, at));
    }
  }

  /**
   The promise, from the wire to the replay. Since some point where the live book was not valid (the
   start, a loss, a rejection answered by a reconnect) let every frame say some message of the venue, or
   be no book message at all; let frames be lost, repeated and reordered at will. Then a valid live book
   is the venue's, and every replay of the session's journal reproduces that book's hash and the
   session's counters.
   */
  lemma ValidMeansVenue(setup: Setup, venue: (int, nat) -> Input, started: Int64, inputs: seq<LiveInput>, since: nat,
                        finished: Int64, connection: Uint64, segments: seq<seq<ReadItem>>)
    requires Faithful(setup.codec) && StorableGrid(setup.metadata.grid)
    requires since <= |inputs| && !LiveMarket(setup.codec, setup.metadata, inputs[..since]).book.IsValid()
    requires forall i :: since <= i < |inputs| && inputs[i].Frame? ==> FromVenue(setup, venue, inputs[i].payload)
    requires segments != [] && Flatten(segments) == RecItems(LiveRecords(setup, started, inputs, finished, connection))
    ensures var v := FinalMarket(setup.codec, setup.metadata, inputs, finished);
      && (v.book.IsValid() ==> AgreesWithVenue(MarketOf(setup.metadata), venue, v.book))
      && ReplayAll(setup.codec, ReplayOptions(None, false), segments).Success?
      && var r := ReplayAll(setup.codec, ReplayOptions(None, false), segments).value;
         r.finalHash == StateHash(setup.metadata.ticker, v.book) && r.market == v.stats
  {
    LiveAgrees(setup, venue, inputs, since);
    LiveEqualsReplay(setup, ReplayOptions(None, false), started, inputs, finished, connection, segments);
  }
}
