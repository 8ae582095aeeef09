/** Triple-barrier labels: target, stop or time, whichever comes first, with the result of the trade. */
module Labelling {
  import opened Common
  import opened Decimals
  import opened Market
  import opened Costs

  datatype Label = PROFIT | TIMEOUT | STOP

  /** One decision's barriers: two distances as fractions of the entry, and a bar count. */
  datatype Barriers = Barriers(side: Side, target: real, stop: real, maxBars: int)

  /** What a round trip is charged on. */
  datatype Terms = Terms(costs: CostModel, quantity: real, volatility: Option<real>) {
    predicate Valid() { costs.Valid() && quantity >= 0.0 && (volatility.Some? ==> volatility.value >= 0.0) }
  }

  datatype BarrierTouch = BarrierTouch(
    outcome: Label,
    touchedAt: int,
    barsHeld: nat,
    entry: real,
    exit: real,
    realised: real,
    ambiguous: bool,
    mfe: real,
    mae: real,
    gross: real
  )

  function ProfitLevel(entry: real, b: Barriers): real { entry * (1.0 + b.side.Sign() * b.target) }
  function StopLevel(entry: real, b: Barriers): real { entry * (1.0 - b.side.Sign() * b.stop) }

  predicate HitsProfit(bar: Bar, entry: real, b: Barriers) {
    if b.side.BUY? then bar.high >= ProfitLevel(entry, b) else bar.low <= ProfitLevel(entry, b)
  }

  predicate HitsStop(bar: Bar, entry: real, b: Barriers) {
    if b.side.BUY? then bar.low <= StopLevel(entry, b) else bar.high >= StopLevel(entry, b)
  }

  predicate Touches(bar: Bar, entry: real, b: Barriers) {
    HitsProfit(bar, entry, b) || HitsStop(bar, entry, b)
  }

  function Favourable(bar: Bar, entry: real, side: Side): real
    requires entry > 0.0
  {
    if side.BUY? then (bar.high - entry) / entry else (entry - bar.low) / entry
  }

  function Adverse(bar: Bar, entry: real, side: Side): real
    requires entry > 0.0
  {
    if side.BUY? then (entry - bar.low) / entry else (bar.high - entry) / entry
  }

  /** Bars there are to walk after the entry. */
  function Forward(bars: seq<Bar>, i: nat, b: Barriers): nat
    requires i < |bars| && b.maxBars >= 1
  {
    Min(|bars| - 1 - i, b.maxBars)
  }

  /** From offset k on, the first offset that touches a barrier, or the last one there is. */
  function ExitOffset(bars: seq<Bar>, i: nat, b: Barriers, k: nat): (r: nat)
    requires i < |bars| && b.maxBars >= 1 && 1 <= k <= Forward(bars, i, b)
    ensures k <= r <= Forward(bars, i, b)
    decreases Forward(bars, i, b) - k
  {
    if Touches(bars[i + k], bars[i].close, b) || k == Forward(bars, i, b) then k
    else ExitOffset(bars, i, b, k + 1)
  }

  /** The largest favourable (adverse) excursion over the first k bars held, floored at zero. */
  function Best(bars: seq<Bar>, i: nat, side: Side, k: nat): real
    requires i + k < |bars| && bars[i].close > 0.0
  {
    if k == 0 then 0.0 else MaxReal(Best(bars, i, side, k - 1), Favourable(bars[i + k], bars[i].close, side))
  }

  function Worst(bars: seq<Bar>, i: nat, side: Side, k: nat): real
    requires i + k < |bars| && bars[i].close > 0.0
  {
    if k == 0 then 0.0 else MaxReal(Worst(bars, i, side, k - 1), Adverse(bars[i + k], bars[i].close, side))
  }

  function GrossMove(entry: real, exit: real, side: Side): real { (exit - entry) * side.Sign() }

  function GrossReturn(entry: real, exit: real, side: Side): real
    requires entry > 0.0
  {
    GrossMove(entry, exit, side) / entry
  }

  /** Both legs are charged: once to open and once to close. */
  function RoundTrip(entry: real, exit: real, terms: Terms): real {
    FillCost(terms.costs, terms.quantity, entry, terms.volatility) +
    FillCost(terms.costs, terms.quantity, exit, terms.volatility)
  }

  function NetReturn(entry: real, exit: real, side: Side, terms: Terms): real
    requires entry > 0.0 && terms.quantity > 0.0
  {
    Positive(entry, terms.quantity);
    (GrossMove(entry, exit, side) * terms.quantity - RoundTrip(entry, exit, terms)) / (entry * terms.quantity)
  }

  lemma Positive(x: real, y: real)
    requires x > 0.0 && y > 0.0
    ensures x * y > 0.0
  {
  }

  function LabelOf(bar: Bar, entry: real, b: Barriers): Label {
    if HitsStop(bar, entry, b) then STOP else if HitsProfit(bar, entry, b) then PROFIT else TIMEOUT
  }

  function ExitPrice(bar: Bar, entry: real, b: Barriers): real {
    match LabelOf(bar, entry, b)
    case STOP => StopLevel(entry, b)
    case PROFIT => ProfitLevel(entry, b)
    case TIMEOUT => bar.close
  }

  /** The outcome of leaving on the bar k after the entry. */
  function TouchAt(bars: seq<Bar>, i: nat, b: Barriers, terms: Terms, k: nat): BarrierTouch
    requires i + k < |bars| && bars[i].close > 0.0 && terms.quantity > 0.0
  {
    var entry, bar := bars[i].close, bars[i + k];
    var exit := ExitPrice(bar, entry, b);
    BarrierTouch(
      LabelOf(bar, entry, b), bar.ts, k, entry, exit,
      Quantize(NetReturn(entry, exit, b.side, terms)),
      HitsProfit(bar, entry, b) && HitsStop(bar, entry, b),
      Quantize(Best(bars, i, b.side, k)),
      Quantize(Worst(bars, i, b.side, k)),
      Quantize(GrossReturn(entry, exit, b.side)))
  }

  /** Labels one decision; `None` when the series stops too early to tell. */
  function Labelled(bars: seq<Bar>, i: int, b: Barriers, terms: Terms): Result<Option<BarrierTouch>>
    requires ValidBars(bars)
  {
    if !(0 <= i < |bars|) then Err("entry_index is outside the bars given")
    else if b.target <= 0.0 then Err("profit_target must be positive")
    else if b.stop <= 0.0 then Err("stop_loss must be positive")
    else if b.maxBars < 1 then Err("max_bars must be at least 1")
    else if Forward(bars, i, b) == 0 then Ok(None)
    else if terms.quantity <= 0.0 then Err("no notional to divide by")
    else Ok(Some(TouchAt(bars, i, b, terms, ExitOffset(bars, i, b, 1))))
  }

  /** The walk itself: excursions first, then the barriers, leaving on the first bar that touches. */
  method TripleBarrier(bars: seq<Bar>, i: int, b: Barriers, terms: Terms) returns (r: Result<Option<BarrierTouch>>)
    requires ValidBars(bars)
    ensures r == Labelled(bars, i, b, terms)
  {
    if !(0 <= i < |bars|) { return Err("entry_index is outside the bars given"); }
    if b.target <= 0.0 { return Err("profit_target must be positive"); }
    if b.stop <= 0.0 { return Err("stop_loss must be positive"); }
    if b.maxBars < 1 { return Err("max_bars must be at least 1"); }
    hide ProfitLevel, StopLevel, Favourable, Adverse, NetReturn, GrossReturn, Quantize;
    var entry := bars[i].close;
    var forward := Forward(bars, i, b);
    if forward == 0 { return Ok(None); }
    if terms.quantity <= 0.0 { return Err("no notional to divide by"); }
    var mfe, mae := 0.0, 0.0;
    for offset := 1 to forward + 1
      invariant mfe == Best(bars, i, b.side, offset - 1)
      invariant mae == Worst(bars, i, b.side, offset - 1)
      invariant offset <= forward ==> ExitOffset(bars, i, b, 1) == ExitOffset(bars, i, b, offset)
      invariant offset > forward ==>
                  ExitOffset(bars, i, b, 1) == forward && !Touches(bars[i + forward], entry, b)
    {
      var bar := bars[i + offset];
      mfe := MaxReal(mfe, Favourable(bar, entry, b.side));
      mae := MaxReal(mae, Adverse(bar, entry, b.side));
      var hitProfit, hitStop := HitsProfit(bar, entry, b), HitsStop(bar, entry, b);
      if !(hitProfit || hitStop) { continue; }
      var exit := if hitStop then StopLevel(entry, b) else ProfitLevel(entry, b);
      return Ok(Some(Settle(if hitStop then STOP else PROFIT, bar, offset, entry, exit, b.side, terms,
                            hitProfit && hitStop, mfe, mae)));
    }
    var last := bars[i + forward];
    return Ok(Some(Settle(TIMEOUT, last, forward, entry, last.close, b.side, terms, false, mfe, mae)));
  }

  function Settle(outcome: Label, bar: Bar, held: nat, entry: real, exit: real, side: Side, terms: Terms,
                  ambiguous: bool, mfe: real, mae: real): BarrierTouch
    requires entry > 0.0 && terms.quantity > 0.0
  {
    BarrierTouch(outcome, bar.ts, held, entry, exit, Quantize(NetReturn(entry, exit, side, terms)), ambiguous,
                 Quantize(mfe), Quantize(mae), Quantize(GrossReturn(entry, exit, side)))
  }

  // ---- First touch ----

  ghost predicate IsLabel(bars: seq<Bar>, i: int, b: Barriers, terms: Terms, touch: BarrierTouch) {
    ValidBars(bars) && Labelled(bars, i, b, terms) == Ok(Some(touch))
  }

  lemma {:induction false} NothingEarlier(bars: seq<Bar>, i: nat, b: Barriers, k: nat)
    requires i < |bars| && b.maxBars >= 1 && 1 <= k <= Forward(bars, i, b)
    ensures var e := ExitOffset(bars, i, b, k);
            && (forall j :: i + k <= j < i + e ==> !Touches(bars[j], bars[i].close, b))
            && (!Touches(bars[i + e], bars[i].close, b) ==> e == Forward(bars, i, b))
    decreases Forward(bars, i, b) - k
  {
    hide Touches;
    if !(Touches(bars[i + k], bars[i].close, b) || k == Forward(bars, i, b)) {
      NothingEarlier(bars, i, b, k + 1);
    }
  }

  /** The position ends on the first bar after the entry that touches a barrier; the stop wins a bar
      that touches both; it times out exactly when no bar within the horizon touches either. */
  lemma FirstTouchDecides(bars: seq<Bar>, i: int, b: Barriers, terms: Terms, touch: BarrierTouch)
    requires IsLabel(bars, i, b, terms, touch)
    ensures 1 <= touch.barsHeld <= b.maxBars && i + touch.barsHeld < |bars|
    ensures touch.touchedAt == bars[i + touch.barsHeld].ts
    ensures forall j :: i < j < i + touch.barsHeld ==> !Touches(bars[j], bars[i].close, b)
    ensures touch.outcome == STOP <==> HitsStop(bars[i + touch.barsHeld], bars[i].close, b)
    ensures touch.outcome == PROFIT <==>
              HitsProfit(bars[i + touch.barsHeld], bars[i].close, b) && !HitsStop(bars[i + touch.barsHeld], bars[i].close, b)
    ensures touch.outcome == TIMEOUT <==>
              forall j :: i < j <= i + b.maxBars && j < |bars| ==> !Touches(bars[j], bars[i].close, b)
    ensures touch.outcome == TIMEOUT ==> touch.barsHeld == Min(|bars| - 1 - i, b.maxBars)
    ensures touch.ambiguous <==>
              HitsProfit(bars[i + touch.barsHeld], bars[i].close, b) && HitsStop(bars[i + touch.barsHeld], bars[i].close, b)
  {
    hide HitsProfit, HitsStop, NetReturn, GrossReturn, Quantize, ExitPrice, Best, Worst;
    NothingEarlier(bars, i, b, 1);
    var entry := bars[i].close;
    if touch.outcome == TIMEOUT {
      assert !Touches(bars[i + touch.barsHeld], entry, b);
    }
  }

  // ---- Returns ----

  lemma LevelsBracketEntry(entry: real, b: Barriers)
    requires entry > 0.0 && b.target > 0.0 && b.stop > 0.0
    ensures if b.side.BUY? then StopLevel(entry, b) < entry < ProfitLevel(entry, b)
            else ProfitLevel(entry, b) < entry < StopLevel(entry, b)
  {
    Positive(entry, b.target);
    Positive(entry, b.stop);
    assert entry * (1.0 + b.target) == entry + entry * b.target;
    assert entry * (1.0 - b.target) == entry - entry * b.target;
    assert entry * (1.0 + b.stop) == entry + entry * b.stop;
    assert entry * (1.0 - b.stop) == entry - entry * b.stop;
  }

  lemma DivideLess(x: real, y: real, entry: real)
    requires entry > 0.0
    ensures x < y ==> x / entry < y / entry
    ensures x <= y ==> x / entry <= y / entry
  {
  }

  /** The raw return of leaving at the two levels is the distance that was asked for. */
  lemma LevelReturns(entry: real, b: Barriers)
    requires entry > 0.0
    ensures GrossReturn(entry, ProfitLevel(entry, b), b.side) == b.target
    ensures GrossReturn(entry, StopLevel(entry, b), b.side) == -b.stop
  {
    var s := b.side.Sign();
    assert s * s == 1.0;
    assert ProfitLevel(entry, b) - entry == entry * (s * b.target);
    assert StopLevel(entry, b) - entry == entry * -(s * b.stop);
    assert GrossMove(entry, ProfitLevel(entry, b), b.side) == entry * b.target;
    assert GrossMove(entry, StopLevel(entry, b), b.side) == entry * -b.stop;
  }

  /** A bar that touches neither level closes strictly between them. */
  lemma UntouchedReturn(bar: Bar, entry: real, b: Barriers)
    requires bar.Valid() && entry > 0.0 && b.target > 0.0 && b.stop > 0.0
    requires !Touches(bar, entry, b)
    ensures -b.stop < GrossReturn(entry, bar.close, b.side) < b.target
  {
    LevelReturns(entry, b);
    hide ProfitLevel, StopLevel;
    var p, s := ProfitLevel(entry, b), StopLevel(entry, b);
    DivideLess(GrossMove(entry, bar.close, b.side), GrossMove(entry, p, b.side), entry);
    DivideLess(GrossMove(entry, s, b.side), GrossMove(entry, bar.close, b.side), entry);
  }

  /** A profit earns exactly the target, a stop loses exactly the stop, a timeout lands strictly
      between; each is then put on the corpus scale. */
  lemma GrossReturnIsExact(bars: seq<Bar>, i: int, b: Barriers, terms: Terms, touch: BarrierTouch)
    requires IsLabel(bars, i, b, terms, touch)
    ensures touch.entry == bars[i].close > 0.0
    ensures touch.gross == Quantize(GrossReturn(touch.entry, touch.exit, b.side))
    ensures touch.outcome == PROFIT ==> GrossReturn(touch.entry, touch.exit, b.side) == b.target
    ensures touch.outcome == STOP ==> GrossReturn(touch.entry, touch.exit, b.side) == -b.stop
    ensures touch.outcome == TIMEOUT ==> -b.stop < GrossReturn(touch.entry, touch.exit, b.side) < b.target
  {
    hide ProfitLevel, StopLevel, GrossReturn, Quantize, NetReturn, Best, Worst;
    var bar := bars[i + touch.barsHeld];
    LevelReturns(touch.entry, b);
    if touch.outcome == TIMEOUT { UntouchedReturn(bar, touch.entry, b); }
  }

  /** The price a position leaves at is a price: positive, on the touched side of the entry, and no
      further out than the exit bar traded. */
  lemma ExitIsAPrice(bars: seq<Bar>, i: int, b: Barriers, terms: Terms, touch: BarrierTouch)
    requires IsLabel(bars, i, b, terms, touch)
    ensures touch.exit > 0.0
    ensures touch.outcome == TIMEOUT ==> touch.exit == bars[i + touch.barsHeld].close
    ensures touch.outcome == PROFIT && b.side == BUY ==> bars[i].close < touch.exit <= bars[i + touch.barsHeld].high
    ensures touch.outcome == PROFIT && b.side == SELL ==> bars[i + touch.barsHeld].low <= touch.exit < bars[i].close
    ensures touch.outcome == STOP && b.side == BUY ==> bars[i + touch.barsHeld].low <= touch.exit < bars[i].close
    ensures touch.outcome == STOP && b.side == SELL ==> bars[i].close < touch.exit <= bars[i + touch.barsHeld].high
  {
    hide GrossReturn, Quantize, NetReturn, Best, Worst;
    LevelsBracketEntry(bars[i].close, b);
    hide ProfitLevel, StopLevel;
    assert bars[i + touch.barsHeld].Valid() && bars[i].Valid();
  }

  // ---- Excursions ----

  /** The excursions are maxima over the bars held, attained or zero. */
  lemma {:induction false} BestIsMaximum(bars: seq<Bar>, i: nat, side: Side, k: nat)
    requires i + k < |bars| && bars[i].close > 0.0
    ensures Best(bars, i, side, k) >= 0.0
    ensures forall j :: i < j <= i + k ==> Favourable(bars[j], bars[i].close, side) <= Best(bars, i, side, k)
    ensures Best(bars, i, side, k) == 0.0 ||
            exists j :: i < j <= i + k && Favourable(bars[j], bars[i].close, side) == Best(bars, i, side, k)
  {
    hide Favourable;
    if k > 0 {
      BestIsMaximum(bars, i, side, k - 1);
    }
  }

  lemma {:induction false} WorstIsMaximum(bars: seq<Bar>, i: nat, side: Side, k: nat)
    requires i + k < |bars| && bars[i].close > 0.0
    ensures Worst(bars, i, side, k) >= 0.0
    ensures forall j :: i < j <= i + k ==> Adverse(bars[j], bars[i].close, side) <= Worst(bars, i, side, k)
    ensures Worst(bars, i, side, k) == 0.0 ||
            exists j :: i < j <= i + k && Adverse(bars[j], bars[i].close, side) == Worst(bars, i, side, k)
  {
    hide Adverse;
    if k > 0 {
      WorstIsMaximum(bars, i, side, k - 1);
    }
  }

  /** The excursions are the returns of leaving at the bar's extremes. */
  lemma ExtremeReturns(bar: Bar, entry: real, side: Side)
    requires entry > 0.0
    ensures Favourable(bar, entry, side) == GrossReturn(entry, if side.BUY? then bar.high else bar.low, side)
    ensures Adverse(bar, entry, side) == -GrossReturn(entry, if side.BUY? then bar.low else bar.high, side)
  {
  }

  lemma BetterExit(entry: real, x: real, y: real, side: Side)
    requires entry > 0.0
    requires if side.BUY? then x <= y else y <= x
    ensures GrossReturn(entry, x, side) <= GrossReturn(entry, y, side)
  {
    DivideLess(GrossMove(entry, x, side), GrossMove(entry, y, side), entry);
  }

  /** A bar that reaches a level has an excursion at least as large as the distance to it, and its
      close earns no more than its best and loses no more than its worst. */
  lemma BarReach(bar: Bar, entry: real, b: Barriers)
    requires bar.Valid() && entry > 0.0
    ensures HitsProfit(bar, entry, b) ==> Favourable(bar, entry, b.side) >= b.target
    ensures HitsStop(bar, entry, b) ==> Adverse(bar, entry, b.side) >= b.stop
    ensures -Adverse(bar, entry, b.side) <= GrossReturn(entry, bar.close, b.side) <= Favourable(bar, entry, b.side)
  {
    hide ProfitLevel, StopLevel, GrossReturn, Favourable, Adverse;
    var best := if b.side.BUY? then bar.high else bar.low;
    var worst := if b.side.BUY? then bar.low else bar.high;
    LevelReturns(entry, b);
    ExtremeReturns(bar, entry, b.side);
    BetterExit(entry, worst, bar.close, b.side);
    BetterExit(entry, bar.close, best, b.side);
    if HitsProfit(bar, entry, b) { BetterExit(entry, ProfitLevel(entry, b), best, b.side); }
    if HitsStop(bar, entry, b) { BetterExit(entry, worst, StopLevel(entry, b), b.side); }
  }

  /** Excursions bound the return on both sides, before rounding and after it: no trade keeps more than its
      best move or loses more than its worst, and an ambiguous bar records the profit it denied. */
  lemma ExcursionsBoundReturn(bars: seq<Bar>, i: int, b: Barriers, terms: Terms, touch: BarrierTouch)
    requires IsLabel(bars, i, b, terms, touch)
    ensures touch.mfe == Quantize(Best(bars, i, b.side, touch.barsHeld)) >= 0.0
    ensures touch.mae == Quantize(Worst(bars, i, b.side, touch.barsHeld)) >= 0.0
    ensures -Worst(bars, i, b.side, touch.barsHeld)
            <= GrossReturn(bars[i].close, touch.exit, b.side)
            <= Best(bars, i, b.side, touch.barsHeld)
    ensures touch.outcome == PROFIT || touch.ambiguous ==> Best(bars, i, b.side, touch.barsHeld) >= b.target
    ensures touch.outcome == STOP ==> Worst(bars, i, b.side, touch.barsHeld) >= b.stop
    ensures -touch.mae <= touch.gross <= touch.mfe
    ensures touch.outcome == PROFIT || touch.ambiguous ==> touch.mfe >= Quantize(b.target)
    ensures touch.outcome == STOP ==> touch.mae >= Quantize(b.stop)
  {
    hide ProfitLevel, StopLevel, Quantize, GrossReturn, NetReturn, Favourable, Adverse;
    var k, entry := touch.barsHeld, bars[i].close;
    var bar := bars[i + k];
    var best, worst := Best(bars, i, b.side, k), Worst(bars, i, b.side, k);
    var gross := GrossReturn(entry, touch.exit, b.side);
    BestIsMaximum(bars, i, b.side, k);
    WorstIsMaximum(bars, i, b.side, k);
    hide Best, Worst;
    BarReach(bar, entry, b);
    LevelReturns(entry, b);
    assert -worst <= gross <= best;
    QuantizeNear(best);
    QuantizeNear(worst);
    QuantizeMonotone(gross, best);
    QuantizeMonotone(-worst, gross);
    QuantizeNegates(worst);
    if b.target <= best { QuantizeMonotone(b.target, best); }
    if b.stop <= worst { QuantizeMonotone(b.stop, worst); }
  }

  // ---- Costs only ever move the net return ----

  lemma NetIsMonotone(entry: real, exit: real, side: Side, cheap: Terms, dear: Terms)
    requires entry > 0.0 && exit > 0.0 && cheap.Valid() && cheap.quantity > 0.0
    requires dear == cheap.(costs := dear.costs) && Dearer(cheap.costs, dear.costs)
    ensures NetReturn(entry, exit, side, dear) <= NetReturn(entry, exit, side, cheap)
  {
    hide FillCost;
    FillCostIsMonotone(cheap.costs, dear.costs, cheap.quantity, entry, cheap.volatility);
    FillCostIsMonotone(cheap.costs, dear.costs, cheap.quantity, exit, cheap.volatility);
    Positive(entry, cheap.quantity);
    var g, n := GrossMove(entry, exit, side) * cheap.quantity, entry * cheap.quantity;
    DivideLess(g - RoundTrip(entry, exit, dear), g - RoundTrip(entry, exit, cheap), n);
  }

  lemma NetIsBelowGross(entry: real, exit: real, side: Side, terms: Terms)
    requires entry > 0.0 && exit > 0.0 && terms.Valid() && terms.quantity > 0.0
    ensures NetReturn(entry, exit, side, terms) <= GrossReturn(entry, exit, side)
  {
    hide FillCost;
    FillCostIsNotNegative(terms.costs, terms.quantity, entry, terms.volatility);
    FillCostIsNotNegative(terms.costs, terms.quantity, exit, terms.volatility);
    Positive(entry, terms.quantity);
    var g, q := GrossMove(entry, exit, side), terms.quantity;
    DivideLess(g * q - RoundTrip(entry, exit, terms), g * q, entry * q);
    CancelFactor(g, entry, q);
  }

  lemma CancelFactor(g: real, entry: real, q: real)
    requires entry > 0.0 && q > 0.0
    ensures entry * q > 0.0 && g * q / (entry * q) == g / entry
  {
    Positive(entry, q);
    assert g * q == g / entry * (entry * q);
  }

  /** Two cost models, one dearer: the same label in everything but the net return, which the
      dearer one never improves. */
  lemma CostsMoveOnlyTheNet(bars: seq<Bar>, i: int, b: Barriers, cheap: Terms, dear: Terms)
    requires ValidBars(bars) && cheap.Valid()
    requires dear == cheap.(costs := dear.costs) && Dearer(cheap.costs, dear.costs)
    ensures match Labelled(bars, i, b, cheap)
            case Err(e) => Labelled(bars, i, b, dear) == Err(e)
            case Ok(None) => Labelled(bars, i, b, dear) == Ok(None)
            case Ok(Some(c)) =>
              Labelled(bars, i, b, dear).Ok? && Labelled(bars, i, b, dear).value.Some? &&
              var d := Labelled(bars, i, b, dear).value.value;
              d == c.(realised := d.realised) && d.realised <= c.realised <= c.gross
  {
    hide NetReturn, GrossReturn, Quantize, Best, Worst, ExitPrice, LabelOf;
    match Labelled(bars, i, b, cheap) {
      case Ok(Some(c)) =>
        ExitIsAPrice(bars, i, b, cheap, c);
        NetIsMonotone(c.entry, c.exit, b.side, cheap, dear);
        QuantizeMonotone(NetReturn(c.entry, c.exit, b.side, dear), NetReturn(c.entry, c.exit, b.side, cheap));
        NetIsBelowGross(c.entry, c.exit, b.side, cheap);
        QuantizeMonotone(NetReturn(c.entry, c.exit, b.side, cheap), GrossReturn(c.entry, c.exit, b.side));
      case _ =>
    }
  }

  // ---- Locality ----

  /** Two series of one length that agree from bar i to bar last. */
  ghost predicate AgreeOn(bars: seq<Bar>, other: seq<Bar>, i: int, last: int) {
    |bars| == |other| && forall j :: i <= j <= last && 0 <= j < |bars| ==> bars[j] == other[j]
  }

  lemma {:induction false} SameExit(bars: seq<Bar>, other: seq<Bar>, i: nat, b: Barriers, k: nat)
    requires i < |bars| && b.maxBars >= 1 && AgreeOn(bars, other, i, i + b.maxBars)
    requires 1 <= k <= Forward(bars, i, b)
    ensures ExitOffset(bars, i, b, k) == ExitOffset(other, i, b, k)
    decreases Forward(bars, i, b) - k
  {
    hide Touches;
    if !(Touches(bars[i + k], bars[i].close, b) || k == Forward(bars, i, b)) {
      SameExit(bars, other, i, b, k + 1);
    }
  }

  lemma {:induction false} SameExcursions(bars: seq<Bar>, other: seq<Bar>, i: nat, b: Barriers, k: nat)
    requires i + k < |bars| && bars[i].close > 0.0 && k <= b.maxBars && AgreeOn(bars, other, i, i + b.maxBars)
    ensures Best(bars, i, b.side, k) == Best(other, i, b.side, k)
    ensures Worst(bars, i, b.side, k) == Worst(other, i, b.side, k)
  {
    hide Favourable, Adverse;
    if k > 0 { SameExcursions(bars, other, i, b, k - 1); }
  }

  /** A label reads only the bars from its entry to its time barrier: change any other price and it
      is the same label, or the same absence of one. */
  lemma LabelIsLocal(bars: seq<Bar>, other: seq<Bar>, i: int, b: Barriers, terms: Terms)
    requires ValidBars(bars) && ValidBars(other)
    requires AgreeOn(bars, other, i, i + b.maxBars)
    ensures Labelled(bars, i, b, terms) == Labelled(other, i, b, terms)
  {
    hide NetReturn, GrossReturn, Quantize, ExitPrice, LabelOf;
    if 0 <= i < |bars| && b.maxBars >= 1 && Forward(bars, i, b) > 0 {
      SameExit(bars, other, i, b, 1);
      SameExcursions(bars, other, i, b, ExitOffset(bars, i, b, 1));
      assert bars[i] == other[i];
    }
  }

  // ---- Reflection ----

  /** The bar seen in a mirror held at the entry price. */
  function Mirror(bar: Bar, axis: real): Bar {
    bar.(open := 2.0 * axis - bar.open, high := 2.0 * axis - bar.low, low := 2.0 * axis - bar.high,
         close := 2.0 * axis - bar.close, vwap := None)
  }

  function Opposed(b: Barriers): Barriers { b.(side := b.side.Opposite()) }

  lemma MirrorSwapsRoles(bar: Bar, entry: real, b: Barriers)
    requires entry > 0.0
    ensures var m := Mirror(bar, entry);
            && (HitsProfit(m, entry, Opposed(b)) <==> HitsProfit(bar, entry, b))
            && (HitsStop(m, entry, Opposed(b)) <==> HitsStop(bar, entry, b))
            && Favourable(m, entry, b.side.Opposite()) == Favourable(bar, entry, b.side)
            && Adverse(m, entry, b.side.Opposite()) == Adverse(bar, entry, b.side)
            && GrossReturn(entry, ExitPrice(m, entry, Opposed(b)), b.side.Opposite()) ==
               GrossReturn(entry, ExitPrice(bar, entry, b), b.side)
  {
    MirroredLevels(entry, b);
    LevelReturns(entry, b);
    LevelReturns(entry, Opposed(b));
    hide ProfitLevel, StopLevel;
    var m := Mirror(bar, entry);
    assert GrossMove(entry, m.close, b.side.Opposite()) == GrossMove(entry, bar.close, b.side);
  }

  lemma MirroredLevels(entry: real, b: Barriers)
    ensures ProfitLevel(entry, Opposed(b)) == 2.0 * entry - ProfitLevel(entry, b)
    ensures StopLevel(entry, Opposed(b)) == 2.0 * entry - StopLevel(entry, b)
  {
  }

  ghost predicate Mirrored(bars: seq<Bar>, other: seq<Bar>, i: nat) {
    && i < |bars| == |other|
    && bars[i].close == other[i].close
    && forall j :: i < j < |bars| ==> other[j] == Mirror(bars[j], bars[i].close)
  }

  lemma {:induction false} MirrorExit(bars: seq<Bar>, other: seq<Bar>, i: nat, b: Barriers, k: nat)
    requires Mirrored(bars, other, i) && bars[i].close > 0.0
    requires b.maxBars >= 1 && 1 <= k <= Forward(bars, i, b)
    ensures ExitOffset(bars, i, b, k) == ExitOffset(other, i, Opposed(b), k)
    decreases Forward(bars, i, b) - k
  {
    MirrorSwapsRoles(bars[i + k], bars[i].close, b);
    hide HitsProfit, HitsStop, Mirror;
    assert Touches(bars[i + k], bars[i].close, b) <==> Touches(other[i + k], bars[i].close, Opposed(b));
    if !(Touches(bars[i + k], bars[i].close, b) || k == Forward(bars, i, b)) {
      MirrorExit(bars, other, i, b, k + 1);
    }
  }

  lemma {:induction false} MirrorExcursions(bars: seq<Bar>, other: seq<Bar>, i: nat, b: Barriers, k: nat)
    requires Mirrored(bars, other, i) && bars[i].close > 0.0 && i + k < |bars|
    ensures Best(bars, i, b.side, k) == Best(other, i, b.side.Opposite(), k)
    ensures Worst(bars, i, b.side, k) == Worst(other, i, b.side.Opposite(), k)
  {
    hide Favourable, Adverse, Mirror;
    if k > 0 {
      MirrorExcursions(bars, other, i, b, k - 1);
      MirrorSwapsRoles(bars[i + k], bars[i].close, b);
    }
  }

  /** A short on the mirrored path is the long on the path itself: same label, same bar, same gross
      return, same excursions. */
  lemma ShortMirrorsLong(bars: seq<Bar>, other: seq<Bar>, i: nat, b: Barriers, terms: Terms, touch: BarrierTouch)
    requires IsLabel(bars, i, b, terms, touch)
    requires ValidBars(other) && Mirrored(bars, other, i)
    ensures Labelled(other, i, Opposed(b), terms).Ok? && Labelled(other, i, Opposed(b), terms).value.Some?
    ensures var short := Labelled(other, i, Opposed(b), terms).value.value;
            && short.outcome == touch.outcome && short.barsHeld == touch.barsHeld && short.touchedAt == touch.touchedAt
            && short.gross == touch.gross && short.ambiguous == touch.ambiguous
            && short.mfe == touch.mfe && short.mae == touch.mae
  {
    var k := touch.barsHeld;
    hide NetReturn, GrossReturn, Quantize, ExitPrice, HitsProfit, HitsStop, Best, Worst;
    MirrorExit(bars, other, i, b, 1);
    MirrorExcursions(bars, other, i, b, k);
    MirrorSwapsRoles(bars[i + k], bars[i].close, b);
  }
}
