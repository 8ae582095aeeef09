/** Spread and commission, as charged inside every label. */
module Costs {
  import opened Common
  import opened Reals
  import opened Decimals

  datatype FlooredSpread = FlooredSpread(fraction: real, minimum: real, volatilityMultiplier: real) {
    predicate Valid() { fraction >= 0.0 && minimum >= 0.0 && volatilityMultiplier >= 0.0 }
  }

  datatype FeeSchedule = FeeSchedule(perShare: real, minimum: real, maximumFraction: real) {
    predicate Valid() { perShare >= 0.0 && minimum >= 0.0 && maximumFraction >= 0.0 }
  }

  datatype CostModel = CostModel(spreads: FlooredSpread, fees: FeeSchedule) {
    predicate Valid() { spreads.Valid() && fees.Valid() }
  }

  function TickSize(price: real): real { if price < 1.0 then 0.0001 else 0.01 }

  /** Extra spread from realised volatility. */
  function Widening(s: FlooredSpread, price: real, volatility: Option<real>): real {
    if volatility.Some? && s.volatilityMultiplier > 0.0 then price * s.volatilityMultiplier * volatility.value else 0.0
  }

  /** Largest of three lower bounds: a fraction of the price, the tick, and the floor for that liquidity. */
  function RawSpread(s: FlooredSpread, price: real, volatility: Option<real>): real {
    MaxReal(MaxReal(price * s.fraction + Widening(s, price, volatility), TickSize(price)), s.minimum)
  }

  function Spread(s: FlooredSpread, price: real, volatility: Option<real>): real {
    Quantize(RawSpread(s, price, volatility))
  }

  /** Commission by the share, and the ceiling on it as a share of the trade's value. */
  function ShareFee(f: FeeSchedule, quantity: real): real { f.perShare * quantity }
  function FeeCap(f: FeeSchedule, quantity: real, price: real): real { price * quantity * f.maximumFraction }

  function RawCommission(f: FeeSchedule, quantity: real, price: real): real {
    MinReal(MaxReal(ShareFee(f, quantity), f.minimum), FeeCap(f, quantity, price))
  }

  function Commission(f: FeeSchedule, quantity: real, price: real): real {
    if quantity == 0.0 then 0.0 else Quantize(RawCommission(f, quantity, price))
  }

  /** Half the quoted spread on every share. */
  function RawCrossing(s: FlooredSpread, quantity: real, price: real, volatility: Option<real>): real {
    Spread(s, price, volatility) / 2.0 * quantity
  }

  /** What one fill that crosses the spread costs, with no volume reference to model slippage from. */
  function FillCost(m: CostModel, quantity: real, price: real, volatility: Option<real>): real {
    if quantity == 0.0 then 0.0
    else Quantize(RawCrossing(m.spreads, quantity, price, volatility)) + Commission(m.fees, quantity, price)
  }

  /** Every term of b is at least that of a. */
  predicate Dearer(a: CostModel, b: CostModel) {
    && a.spreads.fraction <= b.spreads.fraction
    && a.spreads.minimum <= b.spreads.minimum
    && a.spreads.volatilityMultiplier <= b.spreads.volatilityMultiplier
    && a.fees.perShare <= b.fees.perShare
    && a.fees.minimum <= b.fees.minimum
    && a.fees.maximumFraction <= b.fees.maximumFraction
  }

  /** Dearer or cheaper terms by one factor; neither the tick size nor the commission ceiling moves. */
  function Scaled(reference: CostModel, factor: real): CostModel {
    CostModel(
      FlooredSpread(reference.spreads.fraction * factor, reference.spreads.minimum * factor,
                    reference.spreads.volatilityMultiplier),
      FeeSchedule(reference.fees.perShare * factor, reference.fees.minimum * factor,
                  reference.fees.maximumFraction))
  }

  lemma TickIsStorable(price: real)
    ensures Quantize(TickSize(price)) == TickSize(price)
  {
    var n := if price < 1.0 then 10000 else 1000000;
    assert TickSize(price) == n as real / SCALE;
    hide Quantize;
    QuantizeFixes(n);
  }

  /** The spread never falls below one tick, whatever the estimate: no model, however cheap, pays
      a strategy to trade. */
  lemma SpreadIsFloored(s: FlooredSpread, price: real, volatility: Option<real>)
    ensures Spread(s, price, volatility) >= TickSize(price) > 0.0
    ensures Spread(s, price, volatility) >= Quantize(s.minimum)
  {
    hide Quantize;
    TickIsStorable(price);
    QuantizeMonotone(TickSize(price), RawSpread(s, price, volatility));
    QuantizeMonotone(s.minimum, RawSpread(s, price, volatility));
  }

  lemma RawPartsAreNotNegative(m: CostModel, quantity: real, price: real, volatility: Option<real>)
    requires m.Valid() && price > 0.0 && quantity >= 0.0
    ensures RawCrossing(m.spreads, quantity, price, volatility) >= 0.0
    ensures RawCommission(m.fees, quantity, price) >= 0.0
  {
    hide Spread;
    SpreadIsFloored(m.spreads, price, volatility);
    MulLe(0.0, Spread(m.spreads, price, volatility) / 2.0, quantity);
    MulLe(0.0, m.fees.perShare, quantity);
    MulLe(0.0, price, quantity);
    MulLe(0.0, m.fees.maximumFraction, price * quantity);
    assert ShareFee(m.fees, quantity) >= 0.0 && FeeCap(m.fees, quantity, price) >= 0.0;
  }

  /** Every fill costs something or nothing, never less. */
  lemma FillCostIsNotNegative(m: CostModel, quantity: real, price: real, volatility: Option<real>)
    requires m.Valid() && price > 0.0 && quantity >= 0.0
    ensures FillCost(m, quantity, price, volatility) >= 0.0
  {
    hide Quantize, RawCommission, RawCrossing;
    RawPartsAreNotNegative(m, quantity, price, volatility);
    QuantizeNear(RawCrossing(m.spreads, quantity, price, volatility));
    QuantizeNear(RawCommission(m.fees, quantity, price));
  }

  lemma WideningIsMonotone(a: FlooredSpread, b: FlooredSpread, price: real, volatility: Option<real>)
    requires a.Valid() && price > 0.0 && (volatility.Some? ==> volatility.value >= 0.0)
    requires a.volatilityMultiplier <= b.volatilityMultiplier
    ensures Widening(a, price, volatility) <= Widening(b, price, volatility)
  {
    if volatility.Some? {
      var x, y := price * a.volatilityMultiplier, price * b.volatilityMultiplier;
      MulLe(a.volatilityMultiplier, b.volatilityMultiplier, price);
      MulLe(0.0, a.volatilityMultiplier, price);
      MulLe(x, y, volatility.value);
      MulLe(0.0, y, volatility.value);
    }
  }

  lemma SpreadIsMonotone(a: FlooredSpread, b: FlooredSpread, price: real, volatility: Option<real>)
    requires a.Valid() && price > 0.0 && (volatility.Some? ==> volatility.value >= 0.0)
    requires a.fraction <= b.fraction && a.minimum <= b.minimum && a.volatilityMultiplier <= b.volatilityMultiplier
    ensures Spread(a, price, volatility) <= Spread(b, price, volatility)
  {
    hide Quantize, Widening;
    MulLe(a.fraction, b.fraction, price);
    WideningIsMonotone(a, b, price, volatility);
    QuantizeMonotone(RawSpread(a, price, volatility), RawSpread(b, price, volatility));
  }

  lemma CrossingIsMonotone(a: FlooredSpread, b: FlooredSpread, quantity: real, price: real, volatility: Option<real>)
    requires Spread(a, price, volatility) <= Spread(b, price, volatility) && quantity >= 0.0
    ensures RawCrossing(a, quantity, price, volatility) <= RawCrossing(b, quantity, price, volatility)
  {
    hide Spread;
    MulLe(Spread(a, price, volatility) / 2.0, Spread(b, price, volatility) / 2.0, quantity);
  }

  lemma FeePartsAreMonotone(a: FeeSchedule, b: FeeSchedule, quantity: real, price: real)
    requires price > 0.0 && quantity >= 0.0
    requires a.perShare <= b.perShare && a.maximumFraction <= b.maximumFraction
    ensures ShareFee(a, quantity) <= ShareFee(b, quantity)
    ensures FeeCap(a, quantity, price) <= FeeCap(b, quantity, price)
  {
    MulLe(a.perShare, b.perShare, quantity);
    MulLe(0.0, price, quantity);
    MulLe(a.maximumFraction, b.maximumFraction, price * quantity);
  }

  lemma CommissionIsMonotone(a: FeeSchedule, b: FeeSchedule, quantity: real, price: real)
    requires price > 0.0 && quantity >= 0.0
    requires a.perShare <= b.perShare && a.minimum <= b.minimum && a.maximumFraction <= b.maximumFraction
    ensures Commission(a, quantity, price) <= Commission(b, quantity, price)
  {
    hide Quantize, ShareFee, FeeCap;
    FeePartsAreMonotone(a, b, quantity, price);
    QuantizeMonotone(RawCommission(a, quantity, price), RawCommission(b, quantity, price));
  }

  /** A dearer model charges at least as much for every fill. */
  lemma FillCostIsMonotone(a: CostModel, b: CostModel, quantity: real, price: real, volatility: Option<real>)
    requires a.Valid() && Dearer(a, b) && price > 0.0 && quantity >= 0.0
    requires volatility.Some? ==> volatility.value >= 0.0
    ensures FillCost(a, quantity, price, volatility) <= FillCost(b, quantity, price, volatility)
  {
    hide Quantize, Spread, Commission, RawCrossing;
    SpreadIsMonotone(a.spreads, b.spreads, price, volatility);
    CrossingIsMonotone(a.spreads, b.spreads, quantity, price, volatility);
    QuantizeMonotone(RawCrossing(a.spreads, quantity, price, volatility),
                     RawCrossing(b.spreads, quantity, price, volatility));
    CommissionIsMonotone(a.fees, b.fees, quantity, price);
  }

  /** Scaling up orders the models, so a cost curve's levels are ordered by their scale. */
  lemma ScalingOrders(reference: CostModel, low: real, high: real)
    requires reference.Valid() && 0.0 <= low <= high
    ensures Scaled(reference, low).Valid() && Dearer(Scaled(reference, low), Scaled(reference, high))
  {
    MulLe(low, high, reference.spreads.fraction);
    MulLe(low, high, reference.spreads.minimum);
    MulLe(low, high, reference.fees.perShare);
    MulLe(low, high, reference.fees.minimum);
    MulLe(0.0, low, reference.spreads.fraction);
    MulLe(0.0, low, reference.spreads.minimum);
    MulLe(0.0, low, reference.fees.perShare);
    MulLe(0.0, low, reference.fees.minimum);
  }
}
