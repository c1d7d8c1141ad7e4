/** Normalized events, always on the YES price scale. */
module Events {
  import opened Arithmetic
  import opened Wrappers

  datatype BookSide = Bid | Ask

  /** How the venue prices NO-side entries; a subscription-time choice the messages do not restate. */
  datatype PriceConvention = NoLegPricing | YesLegPricing

  datatype BookLevel = BookLevel(price: int, quantity: Int64)

  datatype BookSnapshot = BookSnapshot(ticker: string, subscription: Int64, sequence: Uint64,
                                       bids: seq<BookLevel>, asks: seq<BookLevel>)

  datatype BookDelta = BookDelta(ticker: string, subscription: Int64, sequence: Uint64, side: BookSide,
                                 price: int, delta: Int64, exchangeTime: Option<int>)

  /** Only snapshots and deltas touch the book; the other kinds are counted. */
  datatype MarketEvent =
    | SnapshotEvent(snapshot: BookSnapshot)
    | DeltaEvent(delta: BookDelta)
    | TradeEvent(tradeTicker: string)
    | AckEvent
    | ErrorEvent(errorTicker: Option<string>)
    | UnhandledEvent(unhandledType: string)
}
