/** Trading sessions and the bars that belong to them. */
module Sessions {
  /** A listing venue. */
  type Venue = int

  /** A trading day at a venue and its hours. Dates count days. */
  datatype TradingSession = TradingSession(venue: Venue, date: int, openNs: int, closeNs: int) {
    /** What the constructor accepts. */
    predicate Valid() { openNs < closeNs <= openNs + MAX_SESSION_NS }

    /** A bar is stamped with its close, so the one stamped at the open belongs to the day before. */
    predicate HoldsBar(ts: int) { openNs < ts <= closeNs }

    /** Bars expected between the bells, never fewer than one. */
    function ExpectedBars(interval: int): int
      requires interval > 0
    {
      if interval >= closeNs - openNs then 1 else (closeNs - openNs) / interval
    }
  }

  const MAX_SESSION_NS: int := 24 * 60 * 60 * 1_000_000_000
}
