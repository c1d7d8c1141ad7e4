/** Query strings for the market list, and their decoding by RFC 3986, sections 2.1 and 2.3. */
module MarketQueries {
  import opened Wrappers
  import opened Sequences
  import Digits = Text

  predicate IsBytes(s: string) {
    forall i :: 0 <= i < |s| ==> (s[i] as int) < 256
  }

  /** Text as the source holds it: one byte a character. */
  type Bytes = s: string | IsBytes(s)

  // ---- percent-encoding ----

  predicate IsUnreserved(c: char) {
    'A' <= c <= 'Z' || 'a' <= c <= 'z' || '0' <= c <= '9' || c == '-' || c == '_' || c == '.' || c == '~'
  }

  const HEX_DIGITS := "0123456789ABCDEF"

  function HexDigit(n: nat): char
    requires n < 16
  {
    HEX_DIGITS[n]
  }

  function EncodedByte(c: char): string
    requires (c as int) < 256
  {
    if IsUnreserved(c) then [c] else ['%', HexDigit(c as int / 16), HexDigit(c as int % 16)]
  }

  function Encoded(text: Bytes): string {
    if text == "" then "" else Encoded(text[..|text| - 1]) + EncodedByte(text[|text| - 1])
  }

  method PercentEncode(text: Bytes) returns (encoded: string)
    ensures encoded == Encoded(text)
  {
    encoded := "";
    for i := 0 to |text|
      invariant encoded == Encoded(text[..i])
    {
      assert text[..i + 1][..i] == text[..i];
      if IsUnreserved(text[i]) {
        encoded := encoded + [text[i]];
        continue;
      }
      var byte := text[i] as int;
      encoded := encoded + ['%', HexDigit(byte / 16), HexDigit(byte % 16)];
    }
    assert text[..|text|] == text;
  }

  // ---- decoding ----

  /** Upper and lower case digits mean the same. */
  function HexValue(c: char): Option<nat> {
    if '0' <= c <= '9' then Some(c as int - '0' as int)
    else if 'A' <= c <= 'F' then Some(c as int - 'A' as int + 10)
    else if 'a' <= c <= 'f' then Some(c as int - 'a' as int + 10)
    else None
  }

  function Prepend(c: char, rest: Option<string>): Option<string> {
    if rest.Some? then Some([c] + rest.value) else None
  }

  function Decoded(s: string): Option<string> {
    if s == "" then Some("")
    else if s[0] != '%' then Prepend(s[0], Decoded(s[1..]))
    else if |s| < 3 then None
    else
      match (HexValue(s[1]), HexValue(s[2]))
      case (Some(high), Some(low)) =>
        if 16 * high + low < 256 then Prepend((16 * high + low) as char, Decoded(s[3..])) else None
      case _ => None
  }

  lemma HexRoundTrip(n: nat)
    requires n < 16
    ensures HexValue(HexDigit(n)) == Some(n) && HexDigit(n) != '&' && HexDigit(n) != '='
  {
    assert HEX_DIGITS[n] == if n < 10 then ('0' as int + n) as char else ('A' as int + n - 10) as char;
  }

  lemma DecodeByte(c: char, rest: string)
    requires (c as int) < 256
    ensures Decoded(EncodedByte(c) + rest) == Prepend(c, Decoded(rest))
  {
    var code := EncodedByte(c);
    assert (code + rest)[|code|..] == rest;
    if !IsUnreserved(c) {
      HexRoundTrip(c as int / 16);
      HexRoundTrip(c as int % 16);
      assert (code + rest)[3..] == rest;
    }
  }

  /** Decoding undoes encoding, whatever follows. */
  lemma {:induction false} DecodeEncoded(text: Bytes, rest: string)
    requires Decoded(rest).Some?
    ensures Decoded(Encoded(text) + rest) == Some(text + Decoded(rest).value)
  {
    if text == "" {
      assert "" + rest == rest && text + Decoded(rest).value == Decoded(rest).value;
    } else {
      var before, last := text[..|text| - 1], text[|text| - 1];
      DecodeByte(last, rest);
      DecodeEncoded(before, EncodedByte(last) + rest);
      Associative(Encoded(before), EncodedByte(last), rest);
      Associative(before, [last], Decoded(rest).value);
      assert before + [last] == text;
    }
  }

  /** Encoding goes byte by byte. */
  lemma {:induction false} EncodedConcat(a: Bytes, b: Bytes)
    ensures Encoded(a + b) == Encoded(a) + Encoded(b)
  {
    if b == "" {
      assert a + b == a;
    } else {
      var before, last := b[..|b| - 1], b[|b| - 1];
      assert (a + b)[..|a + b| - 1] == a + before;
      EncodedConcat(a, before);
      Associative(Encoded(a), Encoded(before), EncodedByte(last));
    }
  }

  /** Letters, digits and four more stay; any other byte becomes a percent sign and two upper-case hex digits. */
  lemma EncodedOne(c: char)
    requires (c as int) < 256
    ensures var high, low := c as int / 16, c as int % 16;
      Encoded([c]) ==
        if 'A' <= c <= 'Z' || 'a' <= c <= 'z' || '0' <= c <= '9' || c in {'-', '_', '.', '~'} then [c]
        else ['%', (if high < 10 then high + '0' as int else high - 10 + 'A' as int) as char,
              (if low < 10 then low + '0' as int else low - 10 + 'A' as int) as char]
  {
    HexDigitValue(c as int / 16);
    HexDigitValue(c as int % 16);
    assert [c][..0] == "";
  }

  lemma HexDigitValue(n: nat)
    requires n < 16
    ensures HexDigit(n) == (if n < 10 then n + '0' as int else n - 10 + 'A' as int) as char
  {
    assert HEX_DIGITS[n] == (if n < 10 then n + '0' as int else n - 10 + 'A' as int) as char;
  }

  predicate Without(s: string, c: char) {
    forall i :: 0 <= i < |s| ==> s[i] != c
  }

  lemma ByteClean(c: char)
    requires (c as int) < 256
    ensures Without(EncodedByte(c), '&') && Without(EncodedByte(c), '=')
  {
    if !IsUnreserved(c) {
      HexRoundTrip(c as int / 16);
      HexRoundTrip(c as int % 16);
    }
  }

  /** Encoded text is free of the query's separators. */
  lemma {:induction false} EncodedClean(text: Bytes)
    ensures Without(Encoded(text), '&') && Without(Encoded(text), '=')
  {
    if text != "" {
      ByteClean(text[|text| - 1]);
      EncodedClean(text[..|text| - 1]);
    }
  }

  // ---- queries ----

  datatype Parameter = Parameter(key: string, value: Bytes)

  function Appended(query: string, p: Parameter): string {
    (if query == "" then "" else query + "&") + p.key + "=" + Encoded(p.value)
  }

  /** Parameters in order, as the calls to append_parameter leave them. */
  function QueryText(parameters: seq<Parameter>): string {
    if parameters == [] then ""
    else Appended(QueryText(parameters[..|parameters| - 1]), parameters[|parameters| - 1])
  }

  method AppendParameter(query: string, p: Parameter) returns (longer: string)
    ensures longer == Appended(query, p)
  {
    longer := query;
    if longer != "" {
      longer := longer + "&";
    }
    longer := longer + p.key;
    longer := longer + "=";
    var encoded := PercentEncode(p.value);
    longer := longer + encoded;
  }

  /** Text between separators; always at least one piece. */
  function Split(s: string, separator: char): (pieces: seq<string>)
    ensures |pieces| >= 1
  {
    if s == "" then [""]
    else
      var rest := Split(s[1..], separator);
      if s[0] == separator then [""] + rest else [[s[0]] + rest[0]] + rest[1..]
  }

  lemma {:induction false} SplitWithout(s: string, separator: char)
    requires Without(s, separator)
    ensures Split(s, separator) == [s]
  {
    if s != "" {
      SplitWithout(s[1..], separator);
      assert [s[0]] + s[1..] == s;
    }
  }

  lemma {:induction false} SplitLast(a: string, separator: char, b: string)
    requires Without(b, separator)
    ensures Split(a + [separator] + b, separator) == Split(a, separator) + [b]
  {
    var s := a + [separator] + b;
    if a == "" {
      SplitWithout(b, separator);
      assert s[1..] == b;
    } else {
      assert s[1..] == a[1..] + [separator] + b;
      SplitLast(a[1..], separator, b);
      var rest := Split(a[1..], separator);
      assert (rest + [b])[1..] == rest[1..] + [b];
    }
  }

  /** One key=value piece. */
  function ReadParameter(piece: string): Option<Parameter> {
    var sides := Split(piece, '=');
    if |sides| != 2 then None
    else match Decoded(sides[1])
      case None => None
      case Some(value) => if IsBytes(value) then Some(Parameter(sides[0], value)) else None
  }

  function ReadPieces(pieces: seq<string>): Option<seq<Parameter>> {
    if pieces == [] then Some([])
    else
      var n := |pieces| - 1;
      match (ReadPieces(pieces[..n]), ReadParameter(pieces[n]))
      case (Some(before), Some(p)) => Some(before + [p])
      case _ => None
  }

  function ReadQuery(text: string): Option<seq<Parameter>> {
    if text == "" then Some([]) else ReadPieces(Split(text, '&'))
  }

  predicate PlainKey(key: string) {
    Without(key, '&') && Without(key, '=')
  }

  predicate PlainKeys(parameters: seq<Parameter>) {
    forall i :: 0 <= i < |parameters| ==> PlainKey(parameters[i].key)
  }

  function Piece(p: Parameter): string {
    p.key + "=" + Encoded(p.value)
  }

  lemma PieceClean(p: Parameter)
    requires Without(p.key, '&')
    ensures Without(Piece(p), '&')
  {
    EncodedClean(p.value);
  }

  lemma PieceSplits(p: Parameter)
    requires Without(p.key, '=')
    ensures Split(Piece(p), '=') == [p.key, Encoded(p.value)]
  {
    EncodedClean(p.value);
    SplitLast(p.key, '=', Encoded(p.value));
    SplitWithout(p.key, '=');
    assert Piece(p) == p.key + ['='] + Encoded(p.value);
  }

  lemma PieceRoundTrip(p: Parameter)
    requires Without(p.key, '=')
    ensures ReadParameter(Piece(p)) == Some(p)
  {
    PieceSplits(p);
    DecodeEncoded(p.value, "");
    assert Encoded(p.value) + "" == Encoded(p.value) && p.value + "" == p.value;
  }

  lemma AppendedPiece(query: string, p: Parameter)
    ensures Appended(query, p) == if query == "" then Piece(p) else query + "&" + Piece(p)
  {
    var before := if query == "" then "" else query + "&";
    Associative(before, p.key, "=");
    Associative(before, p.key + "=", Encoded(p.value));
    assert "" + Piece(p) == Piece(p);
  }

  lemma OnePiece(p: Parameter)
    requires ReadParameter(Piece(p)) == Some(p) && Without(Piece(p), '&')
    ensures Piece(p) != "" && ReadQuery(Piece(p)) == Some([p])
  {
    SplitWithout(Piece(p), '&');
    assert |Piece(p)| >= |"="|;
    assert ReadPieces([Piece(p)][..0]) == Some([]);
    assert [] + [p] == [p];
  }

  lemma MorePieces(text: string, before: seq<Parameter>, last: Parameter)
    requires text != "" && ReadQuery(text) == Some(before)
    requires ReadParameter(Piece(last)) == Some(last) && Without(Piece(last), '&')
    ensures ReadQuery(text + "&" + Piece(last)) == Some(before + [last])
  {
    assert "&" == ['&'];
    SplitLast(text, '&', Piece(last));
    var pieces := Split(text, '&') + [Piece(last)];
    assert pieces[..|pieces| - 1] == Split(text, '&');
  }

  lemma ReadAppended(query: string, before: seq<Parameter>, last: Parameter)
    requires ReadQuery(query) == Some(before) && PlainKey(last.key) && (query == "" ==> before == [])
    ensures ReadQuery(Appended(query, last)) == Some(before + [last]) && Appended(query, last) != ""
  {
    AppendedPiece(query, last);
    PieceRoundTrip(last);
    PieceClean(last);
    if query == "" {
      OnePiece(last);
      assert [] + [last] == [last];
    } else {
      MorePieces(query, before, last);
    }
  }

  /** Splitting the text at the separators and decoding the values gives the parameters back. */
  lemma {:induction false} QueryRoundTrip(parameters: seq<Parameter>)
    requires PlainKeys(parameters)
    ensures ReadQuery(QueryText(parameters)) == Some(parameters)
    ensures parameters != [] ==> QueryText(parameters) != ""
  {
    if parameters != [] {
      var before, last := parameters[..|parameters| - 1], parameters[|parameters| - 1];
      QueryRoundTrip(before);
      ReadAppended(QueryText(before), before, last);
      assert before + [last] == parameters;
    }
  }

  // ---- the market list's own parameters ----

  datatype StatusFilter = Unopened | Open | Closed | Settled

  function StatusText(filter: StatusFilter): Bytes {
    match filter
    case Unopened => "unopened"
    case Open => "open"
    case Closed => "closed"
    case Settled => "settled"
  }

  datatype MarketQuery = MarketQuery(series: Option<Bytes>, status: Option<StatusFilter>, limit: int)

  /** std::to_string of an int. */
  function IntText(n: int): (s: Bytes) {
    if n < 0 then "-" + Digits.Decimal(-n) else Digits.Decimal(n)
  }

  function Optional(key: string, value: Option<Bytes>): seq<Parameter> {
    if value.Some? then [Parameter(key, value.value)] else []
  }

  function StatusValue(status: Option<StatusFilter>): Option<Bytes> {
    if status.Some? then Some(StatusText(status.value)) else None
  }

  function Parameters(query: MarketQuery, cursor: Bytes): seq<Parameter> {
    [Parameter("limit", IntText(query.limit))] + Optional("series_ticker", query.series)
    + Optional("status", StatusValue(query.status)) + Optional("cursor", if cursor == "" then None else Some(cursor))
  }

  lemma OneMoreParameter(parameters: seq<Parameter>, p: Parameter)
    ensures QueryText(parameters + [p]) == Appended(QueryText(parameters), p)
  {
    assert (parameters + [p])[..|parameters|] == parameters;
  }

  /** The source's conditional appends. */
  method AppendOptional(query: string, key: string, value: Option<Bytes>, ghost done: seq<Parameter>) returns (longer: string)
    requires query == QueryText(done)
    ensures longer == QueryText(done + Optional(key, value))
  {
    if value.Some? {
      OneMoreParameter(done, Parameter(key, value.value));
      longer := AppendParameter(query, Parameter(key, value.value));
    } else {
      longer := query;
      assert done + [] == done;
    }
  }

  method BuildMarketQuery(query: MarketQuery, cursor: Bytes) returns (encoded: string)
    ensures encoded == QueryText(Parameters(query, cursor))
  {
    ghost var limit := [Parameter("limit", IntText(query.limit))];
    encoded := AppendOptional("", "limit", Some(IntText(query.limit)), []);
    assert [] + limit == limit;
    encoded := AppendOptional(encoded, "series_ticker", query.series, limit);
    ghost var series := limit + Optional("series_ticker", query.series);
    encoded := AppendOptional(encoded, "status", StatusValue(query.status), series);
    encoded := AppendOptional(encoded, "cursor", if cursor == "" then None else Some(cursor),
                              series + Optional("status", StatusValue(query.status)));
  }

  lemma OptionalPlain(before: seq<Parameter>, key: string, value: Option<Bytes>)
    requires PlainKeys(before) && PlainKey(key)
    ensures PlainKeys(before + Optional(key, value))
  {}

  lemma KeysPlain(query: MarketQuery, cursor: Bytes)
    ensures PlainKeys(Parameters(query, cursor))
  {
    var limit := [Parameter("limit", IntText(query.limit))];
    var series := limit + Optional("series_ticker", query.series);
    OptionalPlain(limit, "series_ticker", query.series);
    OptionalPlain(series, "status", StatusValue(query.status));
    OptionalPlain(series + Optional("status", StatusValue(query.status)), "cursor", if cursor == "" then None else Some(cursor));
  }

  /** Whatever the ticker and the cursor contain, the request decodes to exactly the parameters meant. */
  lemma MarketQueryRoundTrip(query: MarketQuery, cursor: Bytes)
    ensures ReadQuery(QueryText(Parameters(query, cursor))) == Some(Parameters(query, cursor))
  {
    KeysPlain(query, cursor);
    QueryRoundTrip(Parameters(query, cursor));
  }

  function ValueOf(parameters: seq<Parameter>, key: string): Option<Bytes> {
    if parameters == [] then None
    else if parameters[0].key == key then Some(parameters[0].value)
    else ValueOf(parameters[1..], key)
  }

  lemma {:induction false} ValueOfConcat(a: seq<Parameter>, b: seq<Parameter>, key: string)
    ensures ValueOf(a + b, key) == if ValueOf(a, key).Some? then ValueOf(a, key) else ValueOf(b, key)
  {
    if a == [] {
      assert a + b == b;
    } else {
      assert (a + b)[0] == a[0] && (a + b)[1..] == a[1..] + b;
      ValueOfConcat(a[1..], b, key);
    }
  }

  lemma OptionalValue(key: string, value: Option<Bytes>, other: string)
    ensures ValueOf(Optional(key, value), other) == if key == other then value else None
  {}

  lemma ValueIn(query: MarketQuery, cursor: Bytes, key: string)
    ensures ValueOf(Parameters(query, cursor), key) ==
      if key == "limit" then Some(IntText(query.limit)) else if key == "series_ticker" then query.series
      else if key == "status" then StatusValue(query.status) else if key == "cursor" && cursor != "" then Some(cursor) else None
  {
    var limit := [Parameter("limit", IntText(query.limit))];
    var series, status := Optional("series_ticker", query.series), Optional("status", StatusValue(query.status));
    var cursors := Optional("cursor", if cursor == "" then None else Some(cursor));
    ValueOfConcat(limit + series + status, cursors, key);
    ValueOfConcat(limit + series, status, key);
    ValueOfConcat(limit, series, key);
    OptionalValue("limit", Some(IntText(query.limit)), key);
    OptionalValue("series_ticker", query.series, key);
    OptionalValue("status", StatusValue(query.status), key);
    OptionalValue("cursor", if cursor == "" then None else Some(cursor), key);
  }

  /** A number written in decimal, with a minus sign if it is negative. */
  predicate NumberText(s: string, n: int) {
    if n < 0 then s != "" && s[0] == '-' && Digits.AllDigits(s[1..]) && Digits.Value(s[1..]) == -n
    else s != "" && Digits.AllDigits(s) && Digits.Value(s) == n
  }

  /** What a server reads in a request: the limit always; series, status and cursor if there are any. */
  lemma RequestSays(query: MarketQuery, cursor: Bytes)
    ensures ReadQuery(QueryText(Parameters(query, cursor))).Some?
    ensures var said := ReadQuery(QueryText(Parameters(query, cursor))).value;
      && ValueOf(said, "limit").Some? && NumberText(ValueOf(said, "limit").value, query.limit)
      && ValueOf(said, "series_ticker") == query.series
      && ValueOf(said, "cursor") == (if cursor == "" then None else Some(cursor))
      && ValueOf(said, "status") == (match query.status
           case None => None
           case Some(Unopened) => Some("unopened")
           case Some(Open) => Some("open")
           case Some(Closed) => Some("closed")
           case Some(Settled) => Some("settled"))
      && forall key :: key !in {"limit", "series_ticker", "cursor", "status"} ==> ValueOf(said, key) == None
  {
    MarketQueryRoundTrip(query, cursor);
    forall key ensures key !in {"limit", "series_ticker", "cursor", "status"} ==> ValueOf(Parameters(query, cursor), key) == None {
      ValueIn(query, cursor, key);
    }
    ValueIn(query, cursor, "limit");
    ValueIn(query, cursor, "series_ticker");
    ValueIn(query, cursor, "status");
    ValueIn(query, cursor, "cursor");
    IntTextReads(query.limit);
  }

  lemma IntTextReads(n: int)
    ensures NumberText(IntText(n), n)
  {
    if n < 0 {
      assert ("-" + Digits.Decimal(-n))[1..] == Digits.Decimal(-n);
    }
  }

  /** Different cursors make different requests. */
  lemma RequestsDiffer(query: MarketQuery, a: Bytes, b: Bytes)
    requires QueryText(Parameters(query, a)) == QueryText(Parameters(query, b))
    ensures a == b
  {
    MarketQueryRoundTrip(query, a);
    MarketQueryRoundTrip(query, b);
    ValueIn(query, a, "cursor");
    ValueIn(query, b, "cursor");
  }
}
