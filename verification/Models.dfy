/** The value types the C++ components exchange.  Times are counts of the system clock's ticks
since the epoch (nanoseconds); prices are exact reals. */
module Models {
  import opened Numerics

  datatype Market = OptionMarket | SpotMarket

  datatype Tick = Tick(ts: int, symbol: string, market: Market, bid: real, ask: real)

  datatype Kline = Kline(ts: int, symbol: string, close: real)

  datatype OptionType = Call | Put

  datatype OptionInfo = OptionInfo(kind: OptionType, spotSymbol: string, strike: real)

  datatype PriceEstimation = PriceEstimation(
    ts: int,
    spotCode: bv32,
    optionCode: bv32,
    marketPrice: real,
    estimatedPrice: Num)

  datatype Option<+T> = None | Some(value: T)

  datatype Result<+T> = Ok(value: T) | Err(message: string)

  function Midpoint(tick: Tick): real {
    (tick.bid + tick.ask) / 2.0
  }
}
