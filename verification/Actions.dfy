/** Splits and dividends: expressing old bars on a later basis. */
module Actions {
  import opened Common
  import opened Reals
  import opened Sorting
  import opened Bisect
  import opened Market
  import opened Decimals

  datatype CorporateAction = CorporateAction(symbol: Symbol, date: int, ratio: real, dividend: real) {
    /** What the constructor accepts. */
    predicate Valid() { ratio > 0.0 && dividend >= 0.0 }

    predicate IsSplit() { ratio != 1.0 }
    predicate IsDividend() { dividend != 0.0 }
  }

  /** One instrument's actions, oldest first, with the closes before its dividends. */
  datatype Series = Series(symbol: Symbol, actions: seq<CorporateAction>, priorClose: map<int, real>) {
    ghost predicate Valid() {
      && NonDecreasing(Dates(actions))
      && (forall k :: 0 <= k < |actions| ==> actions[k].Valid() && actions[k].symbol == symbol)
      && (forall d :: d in priorClose ==> priorClose[d] > 0.0)
    }
  }

  function Dates(actions: seq<CorporateAction>): (r: seq<int>)
    ensures |r| == |actions| && forall k :: 0 <= k < |r| ==> r[k] == actions[k].date
  {
    seq(|actions|, k requires 0 <= k < |actions| => actions[k].date)
  }

  function ByDate(): (CorporateAction, CorporateAction) -> bool {
    (a: CorporateAction, b: CorporateAction) => a.date <= b.date
  }

  predicate HasForeign(symbol: Symbol, actions: seq<CorporateAction>) {
    exists k :: 0 <= k < |actions| && actions[k].symbol != symbol
  }

  function SeriesOf(symbol: Symbol, actions: seq<CorporateAction>, priorClose: map<int, real>): Result<Series> {
    if HasForeign(symbol, actions) then Err("action for another instrument")
    else Ok(Series(symbol, Sort(actions, ByDate()), priorClose))
  }

  lemma SeriesIsValid(symbol: Symbol, actions: seq<CorporateAction>, priorClose: map<int, real>)
    requires SeriesOf(symbol, actions, priorClose).Ok? && forall k :: 0 <= k < |actions| ==> actions[k].Valid()
    requires forall d :: d in priorClose ==> priorClose[d] > 0.0
    ensures SeriesOf(symbol, actions, priorClose).value.Valid()
  {
    hide Sort;
    var sorted := Sort(actions, ByDate());
    SortIsSort(actions, ByDate());
    forall i, j | 0 <= i < j < |sorted| ensures Dates(sorted)[i] <= Dates(sorted)[j] {
      assert ByDate()(sorted[i], sorted[j]);
    }
    forall k | 0 <= k < |sorted| ensures sorted[k].Valid() && sorted[k].symbol == symbol {
      assert sorted[k] in multiset(sorted);
      assert sorted[k] in multiset(actions);
      var i :| 0 <= i < |actions| && actions[i] == sorted[k];
    }
  }

  // ---- Which actions apply ----

  /** Effective after the session observed, and by the session whose basis is wanted. */
  function Effective(observed: int, asOf: int): CorporateAction -> bool {
    (a: CorporateAction) => observed < a.date <= asOf
  }

  function KnownBy(asOf: int): CorporateAction -> bool { (a: CorporateAction) => a.date <= asOf }

  lemma {:induction false} SelectsTheMiddle<T>(s: seq<T>, lo: nat, hi: nat, keep: T -> bool)
    requires lo <= hi <= |s|
    requires forall k :: 0 <= k < |s| ==> (keep(s[k]) <==> lo <= k < hi)
    ensures Select(s, keep) == s[lo..hi]
  {
    if s != [] {
      var n := |s| - 1;
      if hi == |s| && lo < hi {
        SelectsTheMiddle(s[..n], lo, n, keep);
        assert s[..n][lo..n] + [s[n]] == s[lo..hi];
      } else {
        SelectsTheMiddle(s[..n], if lo == |s| then n else lo, if hi == |s| then n else hi, keep);
        assert hi <= n ==> s[..n][lo..hi] == s[lo..hi];
      }
    }
  }

  /** Two binary searches cut out exactly the actions effective in (observed, asOf]. */
  method Between(series: Series, observed: int, asOf: int) returns (r: Result<seq<CorporateAction>>)
    requires series.Valid()
    ensures r.Err? <==> asOf < observed
    ensures r.Ok? ==> r.value == Select(series.actions, Effective(observed, asOf))
  {
    if asOf < observed { return Err("as_of is before observed"); }
    var dates := Dates(series.actions);
    var lo := BisectRight(dates, observed);
    var hi := BisectRight(dates, asOf);
    hide CountUpTo, Select;
    CountIsMonotone(dates, observed, asOf);
    SelectsTheMiddle(series.actions, lo, hi, Effective(observed, asOf));
    r := Ok(series.actions[lo..hi]);
  }

  // ---- Factors ----

  /** The split factor of the actions, not yet rounded. */
  function ExactSplit(actions: seq<CorporateAction>): real
    requires forall k :: 0 <= k < |actions| ==> actions[k].Valid()
  {
    if actions == [] then 1.0
    else
      assert actions[|actions| - 1].Valid();
      ExactSplit(actions[..|actions| - 1]) / actions[|actions| - 1].ratio
  }

  predicate Unpayable(a: CorporateAction, priorClose: map<int, real>) {
    a.IsDividend() && a.date in priorClose && a.dividend >= priorClose[a.date]
  }

  /** A cash payment as a multiplier on earlier prices; without a reference price before it, the payment
      leaves them alone. */
  function Retained(a: CorporateAction, priorClose: map<int, real>): real {
    if a.IsDividend() && a.date in priorClose && priorClose[a.date] != 0.0 then 1.0 - a.dividend / priorClose[a.date] else 1.0
  }

  function Step(factor: real, ratio: real, retained: real): real
    requires ratio > 0.0
  {
    factor / ratio * retained
  }

  lemma PlainSteps(factor: real, ratio: real, retained: real)
    requires ratio > 0.0
    ensures Step(factor, 1.0, retained) == factor * retained && Step(factor, ratio, 1.0) == factor / ratio
  {
  }

  function ExactTotal(actions: seq<CorporateAction>, priorClose: map<int, real>): Result<real>
    requires forall k :: 0 <= k < |actions| ==> actions[k].Valid()
  {
    if actions == [] then Ok(1.0)
    else match ExactTotal(actions[..|actions| - 1], priorClose)
      case Err(e) => Err(e)
      case Ok(factor) =>
        var last := actions[|actions| - 1];
        assert last.Valid();
        if Unpayable(last, priorClose) then Err("dividend is not below the prior close")
        else Ok(Step(factor, last.ratio, Retained(last, priorClose)))
  }

  lemma SelectedAreValid(series: Series, keep: CorporateAction -> bool)
    requires series.Valid()
    ensures forall k :: 0 <= k < |Select(series.actions, keep)| ==> Select(series.actions, keep)[k].Valid()
  {
    hide Select;
    var kept := Select(series.actions, keep);
    forall k | 0 <= k < |kept| ensures kept[k].Valid() {
      assert kept[k] in kept;
      InSelect(series.actions, kept[k], keep);
    }
  }

  /** The actions a conversion takes into account, and the factors they make. */
  function Applicable(series: Series, observed: int, asOf: int): (r: seq<CorporateAction>)
    requires series.Valid()
    ensures forall k :: 0 <= k < |r| ==> r[k].Valid()
  {
    SelectedAreValid(series, Effective(observed, asOf));
    Select(series.actions, Effective(observed, asOf))
  }

  function PriceFactor(series: Series, observed: int, asOf: int): Result<real>
    requires series.Valid()
  {
    if asOf < observed then Err("as_of is before observed") else Ok(Quantize(ExactSplit(Applicable(series, observed, asOf))))
  }

  function TotalReturnFactor(series: Series, observed: int, asOf: int): Result<real>
    requires series.Valid()
  {
    if asOf < observed then Err("as_of is before observed")
    else match ExactTotal(Applicable(series, observed, asOf), series.priorClose)
      case Err(e) => Err(e)
      case Ok(factor) => Ok(Quantize(factor))
  }

  method SplitFactor(series: Series, observed: int, asOf: int) returns (r: Result<real>)
    requires series.Valid()
    ensures r == PriceFactor(series, observed, asOf)
  {
    hide Select, Quantize;
    var between := Between(series, observed, asOf);
    if between.Err? { return Err("as_of is before observed"); }
    var actions := between.value;
    assert actions == Applicable(series, observed, asOf);
    var factor := 1.0;
    for k := 0 to |actions|
      invariant factor == ExactSplit(actions[..k])
    {
      assert actions[..k + 1][..k] == actions[..k];
      if actions[k].IsSplit() { factor := factor / actions[k].ratio; }
    }
    assert actions[..|actions|] == actions;
    r := Ok(Quantize(factor));
  }

  lemma {:induction false} TotalFailurePersists(actions: seq<CorporateAction>, priorClose: map<int, real>, k: nat)
    requires k <= |actions| && forall j :: 0 <= j < |actions| ==> actions[j].Valid()
    ensures ExactTotal(actions[..k], priorClose).Err? ==> ExactTotal(actions, priorClose) == ExactTotal(actions[..k], priorClose)
    decreases |actions| - k
  {
    hide Unpayable, Retained;
    if k == |actions| {
      assert actions[..k] == actions;
    } else {
      TotalFailurePersists(actions, priorClose, k + 1);
      assert actions[..k + 1][..k] == actions[..k];
    }
  }

  /** One action's split and dividend folded into the factor. */
  method TakeAction(factor: real, a: CorporateAction, priorClose: map<int, real>) returns (next: real)
    requires a.Valid() && forall d :: d in priorClose ==> priorClose[d] > 0.0
    ensures next == Step(factor, a.ratio, Retained(a, priorClose))
  {
    next := factor;
    if a.IsSplit() { next := next / a.ratio; }
    if a.IsDividend() && a.date in priorClose { next := next * (1.0 - a.dividend / priorClose[a.date]); }
    PlainSteps(factor, a.ratio, Retained(a, priorClose));
  }

  method TotalFactor(series: Series, observed: int, asOf: int) returns (r: Result<real>)
    requires series.Valid()
    ensures r == TotalReturnFactor(series, observed, asOf)
  {
    hide Select, Quantize, Retained, Step, Unpayable;
    var between := Between(series, observed, asOf);
    if between.Err? { return Err("as_of is before observed"); }
    var actions := between.value;
    assert actions == Applicable(series, observed, asOf);
    var factor := 1.0;
    for k := 0 to |actions|
      invariant ExactTotal(actions[..k], series.priorClose) == Ok(factor)
    {
      assert actions[..k + 1][..k] == actions[..k];
      TotalFailurePersists(actions, series.priorClose, k + 1);
      var a := actions[k];
      if Unpayable(a, series.priorClose) { return Err("dividend is not below the prior close"); }
      factor := TakeAction(factor, a, series.priorClose);
    }
    assert actions[..|actions|] == actions;
    r := Ok(Quantize(factor));
  }

  // ---- Factors compose and look no further than their basis ----

  lemma {:induction false} ExactSplitJoins(a: seq<CorporateAction>, b: seq<CorporateAction>)
    requires forall k :: 0 <= k < |a + b| ==> (a + b)[k].Valid()
    requires (forall k :: 0 <= k < |a| ==> a[k].Valid()) && (forall k :: 0 <= k < |b| ==> b[k].Valid())
    ensures ExactSplit(a + b) == Product(ExactSplit(a), ExactSplit(b))
  {
    if b == [] {
      assert a + b == a;
      assert Product(ExactSplit(a), 1.0) == ExactSplit(a);
    } else {
      var n := |b| - 1;
      assert (a + b)[..|a + b| - 1] == a + b[..n];
      ExactSplitJoins(a, b[..n]);
      assert b[n].Valid();
      ProductOverRatio(ExactSplit(a), ExactSplit(b[..n]), b[n].ratio);
    }
  }

  lemma ProductOverRatio(x: real, y: real, ratio: real)
    requires ratio > 0.0
    ensures Product(x, y) / ratio == Product(x, y / ratio)
  {
    assert Product(x, y / ratio) * ratio == Product(x, y);
  }

  /** In date order the applicable actions are a slice. */
  lemma ApplicableIsSlice(series: Series, observed: int, asOf: int)
    requires series.Valid() && observed <= asOf
    ensures var dates := Dates(series.actions);
            CountUpTo(dates, observed) <= CountUpTo(dates, asOf) &&
            Applicable(series, observed, asOf) == series.actions[CountUpTo(dates, observed)..CountUpTo(dates, asOf)]
  {
    var dates := Dates(series.actions);
    CountSplits(dates, observed);
    CountSplits(dates, asOf);
    CountIsMonotone(dates, observed, asOf);
    hide CountUpTo, Select;
    SelectsTheMiddle(series.actions, CountUpTo(dates, observed), CountUpTo(dates, asOf), Effective(observed, asOf));
  }

  lemma ApplicableSplits(series: Series, observed: int, between: int, asOf: int)
    requires series.Valid() && observed <= between <= asOf
    ensures Applicable(series, observed, asOf) == Applicable(series, observed, between) + Applicable(series, between, asOf)
  {
    hide Applicable, Series.Valid, CountUpTo;
    ApplicableIsSlice(series, observed, between);
    ApplicableIsSlice(series, between, asOf);
    ApplicableIsSlice(series, observed, asOf);
  }

  /** Before rounding, converting to an intermediate basis and on from there is converting at once. */
  lemma FactorsCompose(series: Series, observed: int, between: int, asOf: int)
    requires series.Valid() && observed <= between <= asOf
    ensures ExactSplit(Applicable(series, observed, asOf)) ==
              ExactSplit(Applicable(series, observed, between)) * ExactSplit(Applicable(series, between, asOf))
  {
    ApplicableSplits(series, observed, between, asOf);
    hide Applicable, ExactSplit;
    var first, second := Applicable(series, observed, between), Applicable(series, between, asOf);
    ExactSplitJoins(first, second);
  }

  lemma {:induction false} SelectTwice<T>(s: seq<T>, outer: T -> bool, inner: T -> bool)
    requires forall x :: inner(x) ==> outer(x)
    ensures Select(Select(s, outer), inner) == Select(s, inner)
  {
    if s != [] {
      var n := |s| - 1;
      SelectTwice(s[..n], outer, inner);
      SelectPush(Select(s[..n], outer), s[n], inner);
      assert Select(s[..n], outer) + [] == Select(s[..n], outer);
    }
  }

  /** Point in time: two records of an instrument's actions that agree on everything effective by `asOf`
      give the same factors there, whatever either says about later. */
  lemma LaterActionsChangeNothing(series: Series, other: Series, observed: int, asOf: int)
    requires series.Valid() && other.Valid() && series.priorClose == other.priorClose
    requires Select(series.actions, KnownBy(asOf)) == Select(other.actions, KnownBy(asOf))
    ensures PriceFactor(series, observed, asOf) == PriceFactor(other, observed, asOf)
    ensures TotalReturnFactor(series, observed, asOf) == TotalReturnFactor(other, observed, asOf)
  {
    SelectTwice(series.actions, KnownBy(asOf), Effective(observed, asOf));
    SelectTwice(other.actions, KnownBy(asOf), Effective(observed, asOf));
    hide Select, ExactSplit, ExactTotal, Quantize;
  }

  lemma {:induction false} SelectDropsLater(actions: seq<CorporateAction>, later: seq<CorporateAction>, asOf: int)
    requires forall k :: 0 <= k < |later| ==> later[k].date > asOf
    ensures Select(actions + later, KnownBy(asOf)) == Select(actions, KnownBy(asOf))
  {
    if later == [] {
      assert actions + later == actions;
    } else {
      var n := |later| - 1;
      assert (actions + later)[..|actions + later| - 1] == actions + later[..n];
      SelectDropsLater(actions, later[..n], asOf);
    }
  }

  /** A record with later announcements added reads the same as of any date before them. */
  lemma AnnouncementsAreNotForeseen(symbol: Symbol, actions: seq<CorporateAction>, later: seq<CorporateAction>,
                                    priorClose: map<int, real>, asOf: int)
    requires forall k :: 0 <= k < |later| ==> later[k].date > asOf
    requires SeriesOf(symbol, actions, priorClose).Ok? && SeriesOf(symbol, actions + later, priorClose).Ok?
    ensures Select(SeriesOf(symbol, actions + later, priorClose).value.actions, KnownBy(asOf)) ==
              Select(SeriesOf(symbol, actions, priorClose).value.actions, KnownBy(asOf))
  {
    hide Sort, Select;
    SortThenSelect(actions, ByDate(), KnownBy(asOf));
    SortThenSelect(actions + later, ByDate(), KnownBy(asOf));
    SelectDropsLater(actions, later, asOf);
  }

  // ---- Adjusting bars ----

  const DAY: int := 86_400_000_000_000

  /** Calendar date of a bar, read off its close. */
  function DateOf(bar: Bar): int { bar.ts / DAY }

  function Rescaled(price: real, factor: real): real { Quantize(price * factor) }

  /** What the bar's prices and size become; a price must come out positive. */
  function RescaledBar(bar: Bar, factor: real, splitFactor: real): Result<Bar> {
    var open, high := Rescaled(bar.open, factor), Rescaled(bar.high, factor);
    var low, close := Rescaled(bar.low, factor), Rescaled(bar.close, factor);
    if open <= 0.0 || high <= 0.0 || low <= 0.0 || close <= 0.0 then Err("a price must be positive")
    else if splitFactor == 0.0 then Err("division by zero")
    else if bar.vwap.Some? && Rescaled(bar.vwap.value, factor) <= 0.0 then Err("a price must be positive")
    else
      var r := bar.(open := open, high := high, low := low, close := close, volume := Quantize(bar.volume / splitFactor),
                    vwap := if bar.vwap.Some? then Some(Rescaled(bar.vwap.value, factor)) else None);
      if r.Valid() then Ok(r) else Err("a price lies outside the bar's range")
  }

  function FactorFor(series: Series, observed: int, asOf: int, totalReturn: bool): Result<real>
    requires series.Valid()
  {
    if totalReturn then TotalReturnFactor(series, observed, asOf) else PriceFactor(series, observed, asOf)
  }

  function Adjusted(bar: Bar, series: Series, asOf: int, totalReturn: bool): Result<Bar>
    requires series.Valid()
  {
    if bar.symbol != series.symbol then Err("bar for another instrument")
    else match FactorFor(series, DateOf(bar), asOf, totalReturn)
      case Err(e) => Err(e)
      case Ok(factor) =>
        if factor == 1.0 then Ok(bar)
        else match PriceFactor(series, DateOf(bar), asOf)
          case Err(e) => Err(e)
          case Ok(splitFactor) => RescaledBar(bar, factor, splitFactor)
  }

  /** Adjusts a whole stream, keeping its length and its order, and gives up at the first bar it has to
      refuse. */
  method AdjustStream(bars: seq<Bar>, series: Series, asOf: int, totalReturn: bool) returns (r: Result<seq<Bar>>)
    requires series.Valid()
    ensures r.Ok? <==> forall k :: 0 <= k < |bars| ==> Adjusted(bars[k], series, asOf, totalReturn).Ok?
    ensures r.Ok? ==>
              && |r.value| == |bars|
              && forall k :: 0 <= k < |bars| ==> Adjusted(bars[k], series, asOf, totalReturn) == Ok(r.value[k])
  {
    hide PriceFactor, TotalReturnFactor, RescaledBar;
    var adjusted: seq<Bar> := [];
    for k := 0 to |bars|
      invariant |adjusted| == k
      invariant forall j :: 0 <= j < k ==> Adjusted(bars[j], series, asOf, totalReturn) == Ok(adjusted[j])
    {
      var bar := bars[k];
      if bar.symbol != series.symbol { return Err("bar for another instrument"); }
      var factor;
      if totalReturn {
        factor := TotalFactor(series, DateOf(bar), asOf);
      } else {
        factor := SplitFactor(series, DateOf(bar), asOf);
      }
      if factor.Err? { return Err(factor.error); }
      if factor.value == 1.0 {
        adjusted := adjusted + [bar];
        continue;
      }
      var split := SplitFactor(series, DateOf(bar), asOf);
      if split.Err? { return Err(split.error); }
      var rescaled := RescaledBar(bar, factor.value, split.value);
      if rescaled.Err? { return Err(rescaled.error); }
      adjusted := adjusted + [rescaled.value];
    }
    r := Ok(adjusted);
  }

  lemma RescaledIsMonotone(a: real, b: real, factor: real)
    requires a <= b && factor >= 0.0
    ensures Rescaled(a, factor) <= Rescaled(b, factor)
  {
    hide Quantize;
    MulLe(a, b, factor);
    QuantizeMonotone(a * factor, b * factor);
  }

  /** Rounding keeps a bar a bar: its prices stay in order, so the only refusal is a low rounded down to
      zero. */
  lemma RoundingKeepsTheShape(bar: Bar, factor: real, splitFactor: real)
    requires bar.Valid() && factor >= 0.0 && splitFactor > 0.0
    ensures RescaledBar(bar, factor, splitFactor).Ok? <==> Rescaled(bar.low, factor) > 0.0
    ensures RescaledBar(bar, factor, splitFactor).Ok? ==>
              var r := RescaledBar(bar, factor, splitFactor).value;
              && r.Valid() && r.ts == bar.ts && r.symbol == bar.symbol
              && r.low <= r.open <= r.high && r.low <= r.close <= r.high
              && (r.vwap.Some? <==> bar.vwap.Some?) && (r.vwap.Some? ==> r.low <= r.vwap.value <= r.high)
  {
    RescaledIsMonotone(bar.low, bar.open, factor);
    RescaledIsMonotone(bar.open, bar.high, factor);
    RescaledIsMonotone(bar.low, bar.close, factor);
    RescaledIsMonotone(bar.close, bar.high, factor);
    if bar.vwap.Some? {
      RescaledIsMonotone(bar.low, bar.vwap.value, factor);
      RescaledIsMonotone(bar.vwap.value, bar.high, factor);
    }
    VolumeStays(bar.volume, splitFactor);
    hide Rescaled, Quantize;
  }

  lemma VolumeStays(volume: real, splitFactor: real)
    requires volume >= 0.0 && splitFactor > 0.0
    ensures Quantize(volume / splitFactor) >= 0.0
  {
    assert volume / splitFactor >= 0.0;
    hide Quantize;
    QuantizeNear(volume / splitFactor);
  }

  lemma {:induction false} SplitIsPositive(actions: seq<CorporateAction>)
    requires forall k :: 0 <= k < |actions| ==> actions[k].Valid()
    ensures ExactSplit(actions) > 0.0
  {
    if actions != [] {
      var n := |actions| - 1;
      SplitIsPositive(actions[..n]);
      assert actions[n].Valid();
      QuotientIsPositive(ExactSplit(actions[..n]), actions[n].ratio);
    }
  }

  lemma QuotientIsPositive(x: real, y: real)
    requires x > 0.0 && y > 0.0
    ensures x / y > 0.0
  {
  }

  lemma RetainedIsAFraction(a: CorporateAction, priorClose: map<int, real>)
    requires a.Valid() && !Unpayable(a, priorClose) && forall d :: d in priorClose ==> priorClose[d] > 0.0
    ensures 0.0 < Retained(a, priorClose) <= 1.0
  {
    if a.IsDividend() && a.date in priorClose {
      var close := priorClose[a.date];
      assert 0.0 < a.dividend < close;
      QuotientIsPositive(a.dividend, close);
      QuotientBelowOne(a.dividend, close);
    }
  }

  lemma QuotientBelowOne(x: real, y: real)
    requires 0.0 < x < y
    ensures x / y < 1.0
  {
    var q := x / y;
    assert q * y == x;
    if q >= 1.0 { MulLe(1.0, q, y); }
  }

  lemma StepsKeepOrder(total: real, split: real, ratio: real, retained: real)
    requires 0.0 < total <= split && ratio > 0.0 && 0.0 < retained <= 1.0
    ensures 0.0 < Step(total, ratio, retained) <= split / ratio
  {
    var t, s := total / ratio, split / ratio;
    QuotientIsPositive(total, ratio);
    assert t * ratio == total && s * ratio == split;
    if t > s { MulLess(s, t, ratio); }
    assert t * retained > 0.0;
    MulLe(retained, 1.0, t);
  }

  /** Dividends only take away: the total-return factor is positive and never above the split factor. */
  lemma {:induction false} TotalIsBelowSplit(actions: seq<CorporateAction>, priorClose: map<int, real>)
    requires forall k :: 0 <= k < |actions| ==> actions[k].Valid()
    requires forall d :: d in priorClose ==> priorClose[d] > 0.0
    ensures ExactTotal(actions, priorClose).Ok? ==> 0.0 < ExactTotal(actions, priorClose).value <= ExactSplit(actions)
  {
    if actions != [] && ExactTotal(actions, priorClose).Ok? {
      var n := |actions| - 1;
      TotalIsBelowSplit(actions[..n], priorClose);
      var a := actions[n];
      assert a.Valid() && !Unpayable(a, priorClose);
      RetainedIsAFraction(a, priorClose);
      hide Retained, Unpayable, Step;
      StepsKeepOrder(ExactTotal(actions[..n], priorClose).value, ExactSplit(actions[..n]), a.ratio, Retained(a, priorClose));
    }
  }

  lemma FactorsAreOrdered(series: Series, observed: int, asOf: int, totalReturn: bool)
    requires series.Valid() && FactorFor(series, observed, asOf, totalReturn).Ok?
    ensures PriceFactor(series, observed, asOf).Ok?
    ensures 0.0 <= FactorFor(series, observed, asOf, totalReturn).value <= PriceFactor(series, observed, asOf).value
  {
    var actions := Applicable(series, observed, asOf);
    SplitIsPositive(actions);
    TotalIsBelowSplit(actions, series.priorClose);
    hide Applicable, ExactSplit, ExactTotal, Quantize;
    QuantizeNear(ExactSplit(actions));
    if totalReturn {
      var total := ExactTotal(actions, series.priorClose).value;
      QuantizeNear(total);
      QuantizeMonotone(total, ExactSplit(actions));
    }
  }

  lemma ZeroFactorZeroPrice(price: real)
    ensures Rescaled(price, 0.0) == 0.0
  {
    QuantizeNear(0.0);
    assert price * 0.0 == 0.0;
    hide Quantize;
  }

  /** A valid bar of the series' instrument is refused for its date, for an unpayable dividend, or because
      its low rounds down to zero: never for a division or for leaving its own range. */
  lemma RefusedExactlyWhen(bar: Bar, series: Series, asOf: int, totalReturn: bool)
    requires series.Valid() && bar.Valid() && bar.symbol == series.symbol
    ensures var factor := FactorFor(series, DateOf(bar), asOf, totalReturn);
            && (Adjusted(bar, series, asOf, totalReturn).Ok? <==>
                  factor.Ok? && (factor.value == 1.0 || Rescaled(bar.low, factor.value) > 0.0))
            && (Adjusted(bar, series, asOf, totalReturn).Ok? ==> Adjusted(bar, series, asOf, totalReturn).value.Valid())
  {
    var factor := FactorFor(series, DateOf(bar), asOf, totalReturn);
    if factor.Ok? {
      FactorsAreOrdered(series, DateOf(bar), asOf, totalReturn);
      var split := PriceFactor(series, DateOf(bar), asOf).value;
      if factor.value > 0.0 { RoundingKeepsTheShape(bar, factor.value, split); } else { ZeroFactorZeroPrice(bar.low); }
      hide Rescaled, PriceFactor, TotalReturnFactor, Bar.Valid;
      assert Rescaled(bar.low, factor.value) <= 0.0 ==> RescaledBar(bar, factor.value, split).Err?;
    }
  }

  // ---- What adjustment does to price times volume ----

  /** A price on the adjusted bar before it is rounded; a bar whose factor is one is not rebuilt. */
  function ExactPrice(price: real, factor: real): real { if factor == 1.0 then price else price * factor }

  function ExactVolume(volume: real, factor: real, splitFactor: real): real
    requires factor != 1.0 ==> splitFactor != 0.0
  {
    if factor == 1.0 then volume else volume / splitFactor
  }

  function Notional(price: real, volume: real): real { price * volume }

  /** The adjusted bar is those, rounded where it was rebuilt. */
  lemma AdjustedIsRounded(bar: Bar, series: Series, asOf: int, totalReturn: bool)
    requires series.Valid() && Adjusted(bar, series, asOf, totalReturn).Ok?
    ensures PriceFactor(series, DateOf(bar), asOf).Ok? && PriceFactor(series, DateOf(bar), asOf).value > 0.0
    ensures FactorFor(series, DateOf(bar), asOf, totalReturn).Ok?
    ensures var factor := FactorFor(series, DateOf(bar), asOf, totalReturn).value;
            var split := PriceFactor(series, DateOf(bar), asOf).value;
            var r := Adjusted(bar, series, asOf, totalReturn).value;
            if factor == 1.0 then r == bar
            else r.open == Quantize(ExactPrice(bar.open, factor)) && r.high == Quantize(ExactPrice(bar.high, factor)) &&
                 r.low == Quantize(ExactPrice(bar.low, factor)) && r.close == Quantize(ExactPrice(bar.close, factor)) &&
                 r.volume == Quantize(ExactVolume(bar.volume, factor, split))
  {
    FactorsAreOrdered(series, DateOf(bar), asOf, totalReturn);
    var factor, split := FactorFor(series, DateOf(bar), asOf, totalReturn).value, PriceFactor(series, DateOf(bar), asOf).value;
    hide PriceFactor, TotalReturnFactor, Quantize;
    if factor != 1.0 { assert RescaledBar(bar, factor, split).Ok?; }
  }

  /** What a bar is worth that has its prices multiplied by one factor and its size divided by another. */
  function Rebuilt(price: real, volume: real, factor: real, split: real): real
    requires split != 0.0
  {
    Notional(price * factor, volume / split)
  }

  /** What the adjusted bar is worth at the price, before rounding. */
  function AdjustedNotional(price: real, volume: real, factor: real, split: real): real
    requires split != 0.0
  {
    Notional(ExactPrice(price, factor), ExactVolume(volume, factor, split))
  }

  lemma TwoScalings(price: real, volume: real, factor: real, split: real)
    requires price > 0.0 && volume > 0.0 && split > 0.0
    ensures Rebuilt(price, volume, factor, split) == Notional(price, volume) <==> factor == split
    ensures AdjustedNotional(price, volume, factor, split) == Notional(price, volume) <==> factor == 1.0 || factor == split
  {
    var w := volume / split;
    QuotientIsPositive(volume, split);
    assert w * split == volume;
    ProductIsPositive(price, w);
    var worth := price * w;
    assert (price * factor) * w == worth * factor && price * (w * split) == worth * split;
    if factor < split { MulLess(factor, split, worth); } else if factor > split { MulLess(split, factor, worth); }
  }

  lemma ProductIsPositive(x: real, y: real)
    requires x > 0.0 && y > 0.0
    ensures x * y > 0.0
  {
  }

  /** A rebuilt bar keeps price times volume, before rounding, if and only if prices and size were scaled by
      the same factor; one that is not rebuilt keeps it anyway. */
  lemma NotionalKeptExactlyWhen(bar: Bar, series: Series, asOf: int, totalReturn: bool, price: real)
    requires series.Valid() && Adjusted(bar, series, asOf, totalReturn).Ok? && price > 0.0 && bar.volume > 0.0
    ensures FactorFor(series, DateOf(bar), asOf, totalReturn).Ok? && PriceFactor(series, DateOf(bar), asOf).Ok?
    ensures var factor := FactorFor(series, DateOf(bar), asOf, totalReturn).value;
            var split := PriceFactor(series, DateOf(bar), asOf).value;
            && split > 0.0
            && (Rebuilt(price, bar.volume, factor, split) == Notional(price, bar.volume) <==> factor == split)
            && (AdjustedNotional(price, bar.volume, factor, split) == Notional(price, bar.volume) <==>
                  factor == 1.0 || factor == split)
  {
    AdjustedIsRounded(bar, series, asOf, totalReturn);
    var factor, split := FactorFor(series, DateOf(bar), asOf, totalReturn).value, PriceFactor(series, DateOf(bar), asOf).value;
    hide *;
    TwoScalings(price, bar.volume, factor, split);
  }

  /** Split-only adjustment always keeps it. */
  lemma SplitsKeepNotional(bar: Bar, series: Series, asOf: int, price: real)
    requires series.Valid() && Adjusted(bar, series, asOf, false).Ok? && price > 0.0 && bar.volume > 0.0
    ensures PriceFactor(series, DateOf(bar), asOf).Ok? && PriceFactor(series, DateOf(bar), asOf).value > 0.0
    ensures var factor := PriceFactor(series, DateOf(bar), asOf).value;
            AdjustedNotional(price, bar.volume, factor, factor) == Notional(price, bar.volume)
  {
    NotionalKeptExactlyWhen(bar, series, asOf, false, price);
    hide PriceFactor, Adjusted, AdjustedNotional, Rebuilt, Notional;
  }

  /** An action of the conversion pays a dividend on a known close. */
  ghost predicate Pays(actions: seq<CorporateAction>, priorClose: map<int, real>) {
    exists k :: 0 <= k < |actions| && actions[k].IsDividend() && actions[k].date in priorClose
  }

  /** Before rounding the two factors are one exactly when no applicable action pays. */
  lemma {:induction false} FactorsDifferWhenPaid(actions: seq<CorporateAction>, priorClose: map<int, real>)
    requires forall k :: 0 <= k < |actions| ==> actions[k].Valid()
    requires forall d :: d in priorClose ==> priorClose[d] > 0.0
    requires ExactTotal(actions, priorClose).Ok?
    ensures ExactTotal(actions, priorClose).value == ExactSplit(actions) <==> !Pays(actions, priorClose)
  {
    if actions != [] {
      var n := |actions| - 1;
      var a := actions[n];
      FactorsDifferWhenPaid(actions[..n], priorClose);
      TotalIsBelowSplit(actions[..n], priorClose);
      PaysAtLast(actions, priorClose);
      RetainedIsAFraction(a, priorClose);
      RetainedIsWholeExactlyWhen(a, priorClose);
      assert a.Valid();
      hide Retained, Unpayable, Step, Pays;
      StepsMeet(ExactTotal(actions[..n], priorClose).value, ExactSplit(actions[..n]), a.ratio, Retained(a, priorClose));
    }
  }

  lemma PaysAtLast(actions: seq<CorporateAction>, priorClose: map<int, real>)
    requires actions != []
    ensures var n := |actions| - 1;
            Pays(actions, priorClose)
            <==> Pays(actions[..n], priorClose) || (actions[n].IsDividend() && actions[n].date in priorClose)
  {
    var n := |actions| - 1;
    if Pays(actions[..n], priorClose) {
      var k :| 0 <= k < n && actions[..n][k].IsDividend() && actions[..n][k].date in priorClose;
      assert actions[k].IsDividend();
    }
    if Pays(actions, priorClose) {
      var k :| 0 <= k < |actions| && actions[k].IsDividend() && actions[k].date in priorClose;
      assert k < n ==> actions[..n][k] == actions[k];
    }
  }

  lemma RetainedIsWholeExactlyWhen(a: CorporateAction, priorClose: map<int, real>)
    requires a.Valid() && !Unpayable(a, priorClose) && forall d :: d in priorClose ==> priorClose[d] > 0.0
    ensures Retained(a, priorClose) == 1.0 <==> !(a.IsDividend() && a.date in priorClose)
  {
    if a.IsDividend() && a.date in priorClose { QuotientIsPositive(a.dividend, priorClose[a.date]); }
  }

  lemma StepsMeet(total: real, split: real, ratio: real, retained: real)
    requires 0.0 < total <= split && ratio > 0.0 && 0.0 < retained <= 1.0
    ensures Step(total, ratio, retained) == split / ratio <==> total == split && retained == 1.0
  {
    var t, s := total / ratio, split / ratio;
    QuotientIsPositive(total, ratio);
    assert t * ratio == total && s * ratio == split;
    if total < split && t >= s { MulLe(s, t, ratio); }
    if retained < 1.0 { MulLess(retained, 1.0, t); }
    assert Step(total, ratio, retained) == t * retained;
  }

  lemma OneAction(a: CorporateAction, priorClose: map<int, real>)
    requires a.Valid() && a.symbol == 0 && a.date == 1 && forall d :: d in priorClose ==> priorClose[d] > 0.0
    ensures var series := Series(0, [a], priorClose);
            series.Valid() && PriceFactor(series, 0, 1) == Ok(Quantize(1.0 / a.ratio)) &&
            (!Unpayable(a, priorClose) ==>
              TotalReturnFactor(series, 0, 1) == Ok(Quantize(Step(1.0, a.ratio, Retained(a, priorClose)))))
  {
    var series := Series(0, [a], priorClose);
    assert series.Valid();
    assert [a][..0] == [];
    assert Applicable(series, 0, 1) == [a] by { assert Select([], Effective(0, 1)) == []; }
    assert ExactSplit([]) == 1.0 && ExactSplit([a]) == 1.0 / a.ratio;
    assert ExactTotal([], priorClose) == Ok(1.0);
    hide Quantize, Applicable, Retained, Step;
  }

  /** A dividend of a quarter of the price, adjusted for total return: prices fall by a quarter, the number
      of shares stays, and a quarter of the notional is gone. */
  lemma DividendMovesNotional()
    ensures var series := Series(0, [CorporateAction(0, 1, 1.0, 1.0)], map[1 := 4.0]);
            var bar := Bar(0, 0, 100.0, 100.0, 100.0, 100.0, 1000.0, None);
            && series.Valid() && bar.Valid()
            && PriceFactor(series, 0, 1) == Ok(1.0) && TotalReturnFactor(series, 0, 1) == Ok(0.75)
            && Adjusted(bar, series, 1, true) == Ok(Bar(0, 0, 75.0, 75.0, 75.0, 75.0, 1000.0, None))
  {
    QuarterFactors();
    ThreeQuarters();
    hide PriceFactor, TotalReturnFactor, RescaledBar, Series.Valid;
  }

  lemma QuarterFactors()
    ensures var series := Series(0, [CorporateAction(0, 1, 1.0, 1.0)], map[1 := 4.0]);
            series.Valid() && PriceFactor(series, 0, 1) == Ok(1.0) && TotalReturnFactor(series, 0, 1) == Ok(0.75)
  {
    var a := CorporateAction(0, 1, 1.0, 1.0);
    OneAction(a, map[1 := 4.0]);
    assert Retained(a, map[1 := 4.0]) == 0.75 && !Unpayable(a, map[1 := 4.0]);
    assert Step(1.0, 1.0, 0.75) == 0.75;
    hide PriceFactor, TotalReturnFactor, Quantize, Step, Retained, Unpayable;
    WholeNumbersStay(1);
    QuarterLess();
    QuantizeFixes(75000000);
  }

  lemma QuarterLess()
    ensures 75000000 as real / SCALE == 0.75
  {
  }

  lemma ThreeQuarters()
    ensures RescaledBar(Bar(0, 0, 100.0, 100.0, 100.0, 100.0, 1000.0, None), 0.75, 1.0)
            == Ok(Bar(0, 0, 75.0, 75.0, 75.0, 75.0, 1000.0, None))
  {
    WholeNumbersStay(75);
    WholeNumbersStay(1000);
    hide Quantize;
    assert Rescaled(100.0, 0.75) == 75.0;
  }

  // ---- When size follows the split ----

  /** The shares a division by the split factor takes off, in units of the last place kept. */
  function Lost(volume: real, split: real): real
    requires split != 0.0
  {
    (volume - volume / split) * SCALE
  }

  /** A volume at the corpus scale from which the division takes too little to show: under half a unit, or
      exactly half of one from an even volume. */
  predicate TooSmallToShow(volume: real, split: real)
    requires split != 0.0
  {
    && Quantize(volume) == volume
    && (Lost(volume, split) < 0.5 || (Lost(volume, split) == 0.5 && (volume * SCALE).Floor % 2 == 0))
  }

  lemma RoundsUpExactlyWhen(n: int, y: real)
    requires y <= n as real
    ensures RoundHalfEven(y) == n <==> n as real - y < 0.5 || (n as real - y == 0.5 && n % 2 == 0)
  {
    var f := y.Floor;
    if n as real - y <= 0.5 { assert y < n as real ==> f == n - 1; } else { assert f <= n - 1; }
  }

  lemma QuotientIsBelow(volume: real, split: real)
    requires volume >= 0.0 && split >= 1.0
    ensures 0.0 <= volume / split <= volume
  {
    var q := volume / split;
    assert q * split == volume;
    if q < 0.0 { MulLe(1.0, split, -q); }
    if q > volume { MulLe(1.0, split, q); }
  }

  lemma GridValue(volume: real) returns (n: int)
    requires Quantize(volume) == volume
    ensures volume == n as real / SCALE && volume * SCALE == n as real && (volume * SCALE).Floor == n
  {
    n := RoundHalfEven(volume * SCALE);
    assert volume * SCALE == n as real;
  }

  lemma QuotientRoundsBackExactlyWhen(volume: real, split: real)
    requires volume >= 0.0 && split >= 1.0
    ensures Quantize(volume / split) == volume <==> TooSmallToShow(volume, split)
  {
    var q := volume / split;
    QuotientIsBelow(volume, split);
    if Quantize(volume) == volume {
      var n := GridValue(volume);
      assert q * SCALE <= n as real && n as real - q * SCALE == Lost(volume, split);
      RoundsUpExactlyWhen(n, q * SCALE);
      SameOnGrid(RoundHalfEven(q * SCALE), n);
      hide RoundHalfEven, Lost;
    } else {
      var m := RoundHalfEven(q * SCALE);
      QuantizeFixes(m);
      hide RoundHalfEven;
    }
  }

  lemma SameOnGrid(m: int, n: int)
    ensures m as real / SCALE == n as real / SCALE <==> m == n
  {
  }

  /** Size follows the split component, as promised, if and only if the bar is rebuilt, or the division would
      have taken off too little to show. */
  lemma VolumeFollowsTheSplitExactlyWhen(bar: Bar, series: Series, asOf: int, totalReturn: bool)
    requires series.Valid() && bar.volume >= 0.0 && Adjusted(bar, series, asOf, totalReturn).Ok?
    ensures FactorFor(series, DateOf(bar), asOf, totalReturn).Ok?
    ensures PriceFactor(series, DateOf(bar), asOf).Ok? && PriceFactor(series, DateOf(bar), asOf).value > 0.0
    ensures var factor := FactorFor(series, DateOf(bar), asOf, totalReturn).value;
            var split := PriceFactor(series, DateOf(bar), asOf).value;
            Adjusted(bar, series, asOf, totalReturn).value.volume == Quantize(bar.volume / split) <==>
              factor != 1.0 || TooSmallToShow(bar.volume, split)
  {
    FactorsAreOrdered(series, DateOf(bar), asOf, totalReturn);
    AdjustedIsRounded(bar, series, asOf, totalReturn);
    var factor, split := FactorFor(series, DateOf(bar), asOf, totalReturn).value, PriceFactor(series, DateOf(bar), asOf).value;
    hide PriceFactor, TotalReturnFactor, Quantize, Adjusted, TooSmallToShow;
    if factor == 1.0 { QuotientRoundsBackExactlyWhen(bar.volume, split); }
  }

  /** For whole shares: unless nothing traded or there was no split to follow, only a bar that is rebuilt
      follows it. */
  lemma WholeSharesFollowExactlyWhen(bar: Bar, series: Series, asOf: int, totalReturn: bool, shares: nat)
    requires series.Valid() && bar.volume == shares as real && Adjusted(bar, series, asOf, totalReturn).Ok?
    ensures FactorFor(series, DateOf(bar), asOf, totalReturn).Ok?
    ensures PriceFactor(series, DateOf(bar), asOf).Ok? && PriceFactor(series, DateOf(bar), asOf).value > 0.0
    ensures var factor := FactorFor(series, DateOf(bar), asOf, totalReturn).value;
            var split := PriceFactor(series, DateOf(bar), asOf).value;
            Adjusted(bar, series, asOf, totalReturn).value.volume == Quantize(bar.volume / split) <==>
              factor != 1.0 || split == 1.0 || bar.volume == 0.0
  {
    FactorsAreOrdered(series, DateOf(bar), asOf, totalReturn);
    VolumeFollowsTheSplitExactlyWhen(bar, series, asOf, totalReturn);
    var factor, split := FactorFor(series, DateOf(bar), asOf, totalReturn).value, PriceFactor(series, DateOf(bar), asOf).value;
    SplitIsOnGrid(series, DateOf(bar), asOf);
    hide PriceFactor, TotalReturnFactor, Quantize, Adjusted, TooSmallToShow;
    if factor == 1.0 { WholeSharesShow(shares, split); }
  }

  lemma SplitIsOnGrid(series: Series, observed: int, asOf: int)
    requires series.Valid() && PriceFactor(series, observed, asOf).Ok?
    ensures Quantize(PriceFactor(series, observed, asOf).value) == PriceFactor(series, observed, asOf).value
  {
    hide Applicable, ExactSplit;
    QuantizeFixes(RoundHalfEven(ExactSplit(Applicable(series, observed, asOf)) * SCALE));
    hide RoundHalfEven;
  }

  /** A split factor above one is above it by a whole unit of the last place, and a share or more then loses
      more than half a unit. */
  lemma WholeSharesShow(shares: nat, split: real)
    requires split >= 1.0 && Quantize(split) == split
    ensures TooSmallToShow(shares as real, split) <==> split == 1.0 || shares == 0
  {
    WholeNumbersStay(shares);
    var v := shares as real;
    if split == 1.0 || shares == 0 {
      assert Lost(v, split) == 0.0;
    } else {
      var n := GridValue(split);
      assert n > 100000000;
      assert split >= 1.0 + 1.0 / SCALE;
      LosesMoreThanHalf(v, split);
    }
  }

  lemma LosesMoreThanHalf(v: real, split: real)
    requires v >= 1.0 && split >= 1.0 + 1.0 / SCALE
    ensures Lost(v, split) > 0.5
  {
    var q := v / split;
    assert q * split == v;
    QuotientIsBelow(v, split);
    assert q * (split - 1.0) == v - q;
    if v - q <= 0.5 / SCALE { MulLe(1.0 / SCALE, split - 1.0, q); }
  }

  /** A one-for-two reverse split with a dividend of half the price: the factors cancel, the bar is handed
      back as it was, and its volume is twice what it should be. */
  lemma CancelledSplitIsNotApplied()
    ensures var series := Series(0, [CorporateAction(0, 1, 0.5, 1.0)], map[1 := 2.0]);
            var bar := Bar(0, 0, 100.0, 100.0, 100.0, 100.0, 1000.0, None);
            && series.Valid() && bar.Valid()
            && PriceFactor(series, 0, 1) == Ok(2.0) && TotalReturnFactor(series, 0, 1) == Ok(1.0)
            && Adjusted(bar, series, 1, true) == Ok(bar) && Quantize(bar.volume / 2.0) == 500.0
  {
    var a := CorporateAction(0, 1, 0.5, 1.0);
    OneAction(a, map[1 := 2.0]);
    assert Retained(a, map[1 := 2.0]) == 0.5;
    assert Step(1.0, 0.5, 0.5) == 1.0;
    WholeNumbersStay(2);
    WholeNumbersStay(1);
    WholeNumbersStay(500);
    hide Quantize, PriceFactor, TotalReturnFactor;
  }

  lemma WholeNumbersStay(n: int)
    ensures Quantize(n as real) == n as real
  {
    assert n as real == (n * 100000000) as real / SCALE;
    hide Quantize;
    QuantizeFixes(n * 100000000);
  }
}
