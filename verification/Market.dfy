/** Bars and the money they are traded in. */
module Market {
  import opened Common

  /** One OHLCV bar. `ts` is its close, the instant it became a complete fact. */
  datatype Bar = Bar(
    symbol: Symbol,
    ts: int,
    open: real,
    high: real,
    low: real,
    close: real,
    volume: real,
    vwap: Option<real>
  ) {
    /** What the constructor accepts: prices are positive and lie inside the bar's range. */
    predicate Valid() {
      && 0.0 < low <= open <= high
      && low <= close <= high
      && volume >= 0.0
      && (vwap.Some? ==> low <= vwap.value <= high)
    }
  }

  ghost predicate ValidBars(bars: seq<Bar>) {
    forall i :: 0 <= i < |bars| ==> bars[i].Valid()
  }

  ghost predicate Chronological(bars: seq<Bar>) {
    forall i, j :: 0 <= i < j < |bars| ==> bars[i].ts < bars[j].ts
  }
}
