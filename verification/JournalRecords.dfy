/** One journal line: a record, its JSON document, and the checks made when reading it back. */
module JournalRecords {
  import opened Arithmetic
  import opened JsonValues
  import opened Wrappers
  import Digits = Text

  datatype RecordKind = SessionStarted | Message | ConnectionLost | GapDetected | SnapshotApplied | SessionEnded

  datatype JournalRecord = JournalRecord(
    kind: RecordKind, localTime: Int64, exchangeTime: Option<Int64>, connection: Uint64,
    subscription: Option<Int64>, sequence: Option<Uint64>, messageType: string,
    ticker: Option<string>, marketId: Option<string>, payload: string)

  datatype JournalErrorKind =
    | CannotOpen | WriteFailed | ReadFailed | MalformedRecord | UnsupportedVersion | MissingField
    | CompressionFailed | DecompressionFailed

  datatype JournalError = JournalError(kind: JournalErrorKind, line: nat, detail: string)

  const JOURNAL_VERSION: nat := 1

  function KindText(kind: RecordKind): string {
    match kind
    case SessionStarted => "session_started"
    case Message => "message"
    case ConnectionLost => "connection_lost"
    case GapDetected => "gap_detected"
    case SnapshotApplied => "snapshot_applied"
    case SessionEnded => "session_ended"
  }

  function KindOf(text: string): Option<RecordKind> {
    if text == "session_started" then Some(SessionStarted)
    else if text == "message" then Some(Message)
    else if text == "connection_lost" then Some(ConnectionLost)
    else if text == "gap_detected" then Some(GapDetected)
    else if text == "snapshot_applied" then Some(SnapshotApplied)
    else if text == "session_ended" then Some(SessionEnded)
    else None
  }

  /** An optional field is omitted, never written as null. */
  function WithField(doc: map<string, Json>, field: string, value: Option<Json>): map<string, Json> {
    if value.Some? then doc[field := value.value] else doc
  }

  function WithFields(doc: map<string, Json>, f1: string, v1: Option<Json>, f2: string, v2: Option<Json>, f3: string,
                      v3: Option<Json>, f4: string, v4: Option<Json>, f5: string, v5: Option<Json>): map<string, Json> {
    WithField(WithField(WithField(WithField(WithField(doc, f1, v1), f2, v2), f3, v3), f4, v4), f5, v5)
  }

  function NumberOf(value: Option<int>): Option<Json> {
    if value.Some? then Some(Number(value.value)) else None
  }

  function TextOf(value: Option<string>): Option<Json> {
    if value.Some? then Some(Text(value.value)) else None
  }

  function RequiredFields(r: JournalRecord): map<string, Json> {
    map["v" := Number(JOURNAL_VERSION), "kind" := Text(KindText(r.kind)), "t_local_us" := Number(r.localTime),
        "conn" := Number(r.connection), "type" := Text(r.messageType), "payload" := Text(r.payload)]
  }

  function Document(r: JournalRecord): map<string, Json> {
    WithFields(RequiredFields(r), "t_exchange_us", NumberOf(r.exchangeTime), "sid", NumberOf(r.subscription),
               "seq", NumberOf(r.sequence), "ticker", TextOf(r.ticker), "market_id", TextOf(r.marketId))
  }

  function Encode(codec: Codec, r: JournalRecord): string {
    (codec.dump)(Object(Document(r)))
  }

  function DecodeDocument(doc: map<string, Json>): Result<JournalRecord, JournalError> {
    var version := Find(doc, "v");
    if !IsUnsigned(version) then Failure(JournalError(MissingField, 0, "v"))
    else if version.value.n % TWO32 != JOURNAL_VERSION then Failure(JournalError(UnsupportedVersion, 0, Digits.Decimal(version.value.n)))
    else
      var kindField := Find(doc, "kind");
      if !IsText(kindField) then Failure(JournalError(MissingField, 0, "kind"))
      else if KindOf(kindField.value.s).None? then Failure(JournalError(MalformedRecord, 0, kindField.value.s))
      else if !IsInteger(Find(doc, "t_local_us")) then Failure(JournalError(MissingField, 0, "t_local_us"))
      else if !IsUnsigned(Find(doc, "conn")) then Failure(JournalError(MissingField, 0, "conn"))
      else if !IsText(Find(doc, "type")) then Failure(JournalError(MissingField, 0, "type"))
      else if !IsText(Find(doc, "payload")) then Failure(JournalError(MissingField, 0, "payload"))
      else Success(JournalRecord(
        KindOf(kindField.value.s).value,
        ToInt64(doc["t_local_us"].n),
        OptionalInt64(Find(doc, "t_exchange_us")),
        doc["conn"].n % TWO64,
        OptionalInt64(Find(doc, "sid")),
        if IsUnsigned(Find(doc, "seq")) then Some(doc["seq"].n % TWO64) else None,
        doc["type"].s,
        OptionalText(Find(doc, "ticker")),
        OptionalText(Find(doc, "market_id")),
        doc["payload"].s))
  }

  function OptionalInt64(value: Option<Json>): Option<Int64> {
    if IsInteger(value) then Some(ToInt64(value.value.n)) else None
  }

  function OptionalText(value: Option<Json>): Option<string> {
    if IsText(value) then Some(value.value.s) else None
  }

  function Decode(codec: Codec, line: string): Result<JournalRecord, JournalError> {
    match (codec.parse)(line)
    case Some(Object(doc)) => DecodeDocument(doc)
    case _ => Failure(JournalError(MalformedRecord, 0, ""))
  }

  lemma KindRoundTrip(kind: RecordKind)
    ensures KindOf(KindText(kind)) == Some(kind)
  {}

  /** The document holds each field of the record and, of the optional ones, exactly those present. */
  ghost predicate Describes(doc: map<string, Json>, r: JournalRecord) {
    && Find(doc, "v") == Some(Number(JOURNAL_VERSION)) && Find(doc, "kind") == Some(Text(KindText(r.kind)))
    && Find(doc, "t_local_us") == Some(Number(r.localTime)) && Find(doc, "conn") == Some(Number(r.connection))
    && Find(doc, "type") == Some(Text(r.messageType)) && Find(doc, "payload") == Some(Text(r.payload))
    && Find(doc, "t_exchange_us") == NumberOf(r.exchangeTime) && Find(doc, "sid") == NumberOf(r.subscription)
    && Find(doc, "seq") == NumberOf(r.sequence) && Find(doc, "ticker") == TextOf(r.ticker)
    && Find(doc, "market_id") == TextOf(r.marketId)
  }

  lemma FieldsAdded(doc: map<string, Json>, f1: string, v1: Option<Json>, f2: string, v2: Option<Json>, f3: string,
                    v3: Option<Json>, f4: string, v4: Option<Json>, f5: string, v5: Option<Json>)
    requires f1 !in doc && f2 !in doc && f3 !in doc && f4 !in doc && f5 !in doc
    requires f1 != f2 && f1 != f3 && f1 != f4 && f1 != f5 && f2 != f3 && f2 != f4 && f2 != f5 && f3 != f4 && f3 != f5 && f4 != f5
    ensures var all := WithFields(doc, f1, v1, f2, v2, f3, v3, f4, v4, f5, v5);
      && Find(all, f1) == v1 && Find(all, f2) == v2 && Find(all, f3) == v3 && Find(all, f4) == v4 && Find(all, f5) == v5
      && forall other :: other in doc ==> other in all && all[other] == doc[other]
  {}

  lemma DocumentDescribes(r: JournalRecord)
    ensures Describes(Document(r), r)
  {
    FieldsAdded(RequiredFields(r), "t_exchange_us", NumberOf(r.exchangeTime), "sid", NumberOf(r.subscription),
                "seq", NumberOf(r.sequence), "ticker", TextOf(r.ticker), "market_id", TextOf(r.marketId));
  }

  lemma DecodeDescribed(doc: map<string, Json>, r: JournalRecord)
    requires Describes(doc, r)
    ensures DecodeDocument(doc) == Success(r)
  {
    KindRoundTrip(r.kind);
  }

  /** Every record survives encoding, and its encoding is one non-empty line. */
  lemma DecodeEncode(codec: Codec, r: JournalRecord)
    requires Faithful(codec)
    ensures Decode(codec, Encode(codec, r)) == Success(r)
    ensures Encode(codec, r) != "" && '\n' !in Encode(codec, r)
  {
    DocumentDescribes(r);
    DecodeDescribed(Document(r), r);
    RoundTrip(codec, Object(Document(r)));
  }

  lemma RoundTrip(codec: Codec, j: Json)
    requires Faithful(codec)
    ensures codec.parse(codec.dump(j)) == Some(j) && codec.dump(j) != "" && '\n' !in codec.dump(j)
  {}

  /**
   The version check compares 32 bits only: a document of any version is accepted or refused like the
   one with its version reduced modulo 2^32, so exactly the versions congruent to 1 pass it.
   */
  lemma VersionCheckTruncates(doc: map<string, Json>, version: nat)
    ensures DecodeDocument(doc["v" := Number(version)]) ==
      if version % TWO32 == JOURNAL_VERSION then DecodeDocument(doc["v" := Number(JOURNAL_VERSION)])
      else Failure(JournalError(UnsupportedVersion, 0, Digits.Decimal(version)))
  {
    var d1, d2 := doc["v" := Number(version)], doc["v" := Number(JOURNAL_VERSION)];
    assert forall f | f in d1 && f != "v" :: d1[f] == d2[f];
  }
}
