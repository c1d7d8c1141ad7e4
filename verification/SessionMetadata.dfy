/** The self-description a journal starts with. */
module SessionMetadata {
  import opened Arithmetic
  import opened Book
  import opened Events
  import opened JsonValues
  import opened Prices
  import opened Wrappers

  datatype Metadata = Metadata(ticker: string, convention: PriceConvention, grid: seq<PriceRange>, build: string)

  function MarketOf(m: Metadata): Market {
    Market(m.ticker, m.grid)
  }

  /** BandTypeError stands for the exception the JSON library raises on a band field that is not a number. */
  datatype MetadataError = NotAnObject | Field(name: string) | BandTypeError

  const TWO31: int := 0x8000_0000

  /** Conversion to a 32-bit int. */
  function ToInt32(x: int): (y: int)
    ensures -TWO31 <= x < TWO31 ==> y == x
  {
    (x + TWO31) % TWO32 - TWO31
  }

  function BandJson(band: PriceRange): Json {
    Object(map["start" := Number(band.start), "end" := Number(band.end), "step" := Number(band.step)])
  }

  function GridJson(grid: seq<PriceRange>): seq<Json> {
    if grid == [] then [] else [BandJson(grid[0])] + GridJson(grid[1..])
  }

  function MetadataDocument(m: Metadata): map<string, Json> {
    map["market_ticker" := Text(m.ticker),
        "price_convention" := Text(if m.convention.YesLegPricing? then "yes_leg" else "no_leg"),
        "build" := Text(m.build),
        "price_ranges" := Array(GridJson(m.grid))]
  }

  function EncodeMetadata(codec: Codec, m: Metadata): string {
    (codec.dump)(Object(MetadataDocument(m)))
  }

  /** Absent band fields default to 0. */
  function BandField(band: map<string, Json>, field: string): Result<int, MetadataError> {
    match Find(band, field)
    case None => Success(0)
    case Some(Number(n)) => Success(ToInt32(n))
    case Some(_) => Failure(BandTypeError)
  }

  function DecodeBand(band: Json): Result<PriceRange, MetadataError> {
    if !band.Object? then Failure(Field("price_ranges"))
    else match (BandField(band.fields, "start"), BandField(band.fields, "end"), BandField(band.fields, "step"))
      case (Success(start), Success(end), Success(step)) => Success(PriceRange(start, end, step))
      case _ => Failure(BandTypeError)
  }

  function DecodeGrid(bands: seq<Json>): Result<seq<PriceRange>, MetadataError> {
    if bands == [] then Success([])
    else match DecodeBand(bands[0])
      case Failure(e) => Failure(e)
      case Success(band) =>
        match DecodeGrid(bands[1..])
        case Failure(e) => Failure(e)
        case Success(rest) => Success([band] + rest)
  }

  /** Any convention text other than "no_leg" means YES-leg pricing; a missing build is empty. */
  function DecodeFields(doc: map<string, Json>): Result<Metadata, MetadataError> {
    if !IsText(Find(doc, "market_ticker")) then Failure(Field("market_ticker"))
    else if !IsText(Find(doc, "price_convention")) then Failure(Field("price_convention"))
    else
      var convention := if doc["price_convention"].s == "no_leg" then NoLegPricing else YesLegPricing;
      var build := if IsText(Find(doc, "build")) then doc["build"].s else "";
      match Find(doc, "price_ranges")
      case Some(Array(bands)) =>
        (match DecodeGrid(bands)
         case Failure(e) => Failure(e)
         case Success(grid) => Success(Metadata(doc["market_ticker"].s, convention, grid, build)))
      case _ => Success(Metadata(doc["market_ticker"].s, convention, [], build))
  }

  function DecodeMetadata(codec: Codec, text: string): Result<Metadata, MetadataError> {
    match (codec.parse)(text)
    case Some(Object(doc)) => DecodeFields(doc)
    case _ => Failure(NotAnObject)
  }

  predicate StorableGrid(grid: seq<PriceRange>) {
    forall i :: 0 <= i < |grid| ==>
      && -TWO31 <= grid[i].start < TWO31 && -TWO31 <= grid[i].end < TWO31 && -TWO31 <= grid[i].step < TWO31
  }

  lemma BandRoundTrip(band: PriceRange)
    requires StorableGrid([band])
    ensures DecodeBand(BandJson(band)) == Success(band)
  {
    assert [band][0] == band;
  }

  lemma {:induction false} GridRoundTrip(grid: seq<PriceRange>)
    requires StorableGrid(grid)
    ensures DecodeGrid(GridJson(grid)) == Success(grid)
  {
    if grid != [] {
      BandRoundTrip(grid[0]);
      GridRoundTrip(grid[1..]);
      assert GridJson(grid)[0] == BandJson(grid[0]) && GridJson(grid)[1..] == GridJson(grid[1..]);
      assert grid == [grid[0]] + grid[1..];
    }
  }

  /** What a document has to hold to be read as m. */
  predicate DescribesMetadata(doc: map<string, Json>, m: Metadata) {
    && Find(doc, "market_ticker") == Some(Text(m.ticker))
    && Find(doc, "price_convention") == Some(Text(if m.convention.YesLegPricing? then "yes_leg" else "no_leg"))
    && Find(doc, "build") == Some(Text(m.build))
    && Find(doc, "price_ranges") == Some(Array(GridJson(m.grid)))
  }

  lemma DescribedRead(doc: map<string, Json>, m: Metadata)
    requires DescribesMetadata(doc, m) && StorableGrid(m.grid)
    ensures DecodeFields(doc) == Success(m)
  {
    GridRoundTrip(m.grid);
  }

  /** A journal's description of itself is read back exactly: grid, convention and all. */
  lemma MetadataRoundTrip(codec: Codec, m: Metadata)
    requires Faithful(codec) && StorableGrid(m.grid)
    ensures DecodeMetadata(codec, EncodeMetadata(codec, m)) == Success(m)
  {
    var doc := MetadataDocument(m);
    assert DescribesMetadata(doc, m);
    DescribedRead(doc, m);
    assert codec.parse(codec.dump(Object(doc))) == Some(Object(doc));
  }
}
