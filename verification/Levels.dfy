/** Session levels recomputed from the bars themselves: what the running tracker has to agree with. */
module Levels {
  import opened Common
  import opened Reals
  import opened Sequences
  import opened Sorting
  import opened Market
  import opened Decimals
  import opened Sessions

  const OPENING_WINDOWS: set<nat> := {5, 15, 30, 60}
  const LONGEST_WINDOW: nat := 60
  const MEMORY: nat := 14
  const NANOS_PER_MINUTE: int := 60_000_000_000

  datatype OpeningRange = OpeningRange(high: real, low: real, barCount: nat)

  /** One bar as the tracker is handed it. */
  datatype Print = Print(bar: Bar, session: TradingSession, nextOpenNs: Option<int>) {
    function Minute(): int { (bar.ts - session.openNs) / NANOS_PER_MINUTE }
  }

  type Profile = map<int, real>

  datatype SessionLevels = SessionLevels(
    sessionDate: int,
    openNs: int,
    closeNs: int,
    sessionOpen: real,
    high: real,
    low: real,
    close: real,
    vwap: Option<real>,
    spread: Option<real>,
    barCount: nat,
    priorClose: Option<real>,
    priorRangeMean: Option<real>,
    openingRanges: map<nat, OpeningRange>,
    nextOpenNs: Option<int>,
    sessionVolume: real,
    relativeVolume: Option<real>,
    meanMove: Option<real>
  )

  // ---- Extremes and sums ----

  function Highest(bars: seq<Bar>): real
    requires bars != []
  {
    if |bars| == 1 then bars[0].high else MaxReal(Highest(bars[..|bars| - 1]), bars[|bars| - 1].high)
  }

  function Lowest(bars: seq<Bar>): real
    requires bars != []
  {
    if |bars| == 1 then bars[0].low else MinReal(Lowest(bars[..|bars| - 1]), bars[|bars| - 1].low)
  }

  /** The extremes are attained and nothing lies outside them. */
  lemma {:induction false} ExtremesAreAttained(bars: seq<Bar>)
    requires bars != []
    ensures forall i :: 0 <= i < |bars| ==> bars[i].high <= Highest(bars) && Lowest(bars) <= bars[i].low
    ensures exists i :: 0 <= i < |bars| && bars[i].high == Highest(bars)
    ensures exists i :: 0 <= i < |bars| && bars[i].low == Lowest(bars)
  {
    if |bars| > 1 {
      var n := |bars| - 1;
      ExtremesAreAttained(bars[..n]);
      var i :| 0 <= i < n && bars[..n][i].high == Highest(bars[..n]);
      var j :| 0 <= j < n && bars[..n][j].low == Lowest(bars[..n]);
      assert bars[i].high == Highest(bars[..n]) && bars[j].low == Lowest(bars[..n]);
    } else {
      assert bars[0].high == Highest(bars) && bars[0].low == Lowest(bars);
    }
  }

  /** The opening range needs as many bars as it has minutes. */
  function OpeningRangeOf(bars: seq<Bar>, minutes: nat): Option<OpeningRange>
    requires minutes >= 1
  {
    if |bars| < minutes then None else Some(OpeningRange(Highest(bars[..minutes]), Lowest(bars[..minutes]), minutes))
  }

  /** The price one bar contributes: the feed's own average where there is one. */
  function ContributedPrice(bar: Bar): real {
    if bar.vwap.Some? then bar.vwap.value else (bar.high + bar.low + bar.close) / 3.0
  }

  function ContributedValue(bar: Bar): real { if bar.volume <= 0.0 then 0.0 else ContributedPrice(bar) * bar.volume }
  function ContributedVolume(bar: Bar): real { if bar.volume <= 0.0 then 0.0 else bar.volume }
  function ContributedSquare(bar: Bar): real {
    if bar.volume <= 0.0 then 0.0 else ContributedValue(bar) * ContributedValue(bar) / bar.volume
  }

  function Value(bars: seq<Bar>): real {
    if bars == [] then 0.0 else Value(bars[..|bars| - 1]) + ContributedValue(bars[|bars| - 1])
  }
  function Volume(bars: seq<Bar>): real {
    if bars == [] then 0.0 else Volume(bars[..|bars| - 1]) + ContributedVolume(bars[|bars| - 1])
  }
  function Square(bars: seq<Bar>): real {
    if bars == [] then 0.0 else Square(bars[..|bars| - 1]) + ContributedSquare(bars[|bars| - 1])
  }

  function VwapOf(value: real, volume: real): Option<real> {
    if volume == 0.0 then None else Some(Quantize(value / volume))
  }

  function Variance(value: real, volume: real, square: real): real
    requires volume != 0.0
  {
    square / volume - value / volume * (value / volume)
  }

  /** The square of the dispersion around the average price, as a fraction of that price squared. Where
      anything traded the value is positive. */
  function SpreadOf(value: real, volume: real, square: real): Option<real> {
    if volume <= 0.0 || value == 0.0 then None
    else Some(MaxReal(Variance(value, volume, square), 0.0) / (value / volume * (value / volume)))
  }

  method SessionVwap(bars: seq<Bar>, upTo: Option<int>) returns (r: Option<real>)
    ensures var considered := if upTo.None? then bars else Select(bars, ClosedBy(upTo.value));
            r == VwapOf(Value(considered), Volume(considered))
  {
    var considered := if upTo.None? then bars else Select(bars, ClosedBy(upTo.value));
    var value, volume := 0.0, 0.0;
    for k := 0 to |considered|
      invariant value == Value(considered[..k]) && volume == Volume(considered[..k])
    {
      assert considered[..k + 1][..k] == considered[..k];
      value := value + ContributedValue(considered[k]);
      volume := volume + ContributedVolume(considered[k]);
    }
    assert considered[..|considered|] == considered;
    r := VwapOf(value, volume);
  }

  function ClosedBy(ts: int): Bar -> bool { (b: Bar) => b.ts <= ts }

  /** Bounding the batch average at a bar's own close leaves exactly the bars up to it: nothing later
      can reach the figure. */
  lemma {:induction false} UpToIsThePrefix(bars: seq<Bar>, k: nat)
    requires Chronological(bars) && k < |bars|
    ensures Select(bars, ClosedBy(bars[k].ts)) == bars[..k + 1]
  {
    assert bars == bars[..k + 1] + bars[k + 1..];
    SelectConcat(bars[..k + 1], bars[k + 1..], ClosedBy(bars[k].ts));
    KeepsAll(bars[..k + 1], ClosedBy(bars[k].ts));
    KeepsNone(bars[k + 1..], ClosedBy(bars[k].ts));
  }

  /** An average of prices between lo and hi. */
  predicate Bounded(lo: real, value: real, hi: real, volume: real) {
    volume >= 0.0 && lo * volume <= value <= hi * volume
  }

  lemma BoundedAdds(lo: real, hi: real, value: real, volume: real, moreValue: real, moreVolume: real)
    requires Bounded(lo, value, hi, volume) && Bounded(lo, moreValue, hi, moreVolume)
    ensures Bounded(lo, value + moreValue, hi, volume + moreVolume)
  {
    Spreads(lo, volume, moreVolume);
    Spreads(hi, volume, moreVolume);
  }

  lemma Spreads(x: real, a: real, b: real)
    ensures x * (a + b) == x * a + x * b
  {
  }

  lemma ContributionIsBounded(bar: Bar, lo: real, hi: real)
    requires bar.Valid() && lo <= bar.low && bar.high <= hi
    ensures Bounded(lo, ContributedValue(bar), hi, ContributedVolume(bar))
  {
    if bar.volume > 0.0 {
      assert bar.low <= ContributedPrice(bar) <= bar.high;
      hide ContributedPrice;
      MulLe(lo, ContributedPrice(bar), bar.volume);
      MulLe(ContributedPrice(bar), hi, bar.volume);
    }
  }

  lemma {:induction false} ValueIsBounded(bars: seq<Bar>, lo: real, hi: real)
    requires ValidBars(bars) && forall i :: 0 <= i < |bars| ==> lo <= bars[i].low && bars[i].high <= hi
    ensures Bounded(lo, Value(bars), hi, Volume(bars))
  {
    if bars != [] {
      var n := |bars| - 1;
      ValueIsBounded(bars[..n], lo, hi);
      ContributionIsBounded(bars[n], lo, hi);
      hide Bounded, ContributedValue, ContributedVolume;
      BoundedAdds(lo, hi, Value(bars[..n]), Volume(bars[..n]), ContributedValue(bars[n]), ContributedVolume(bars[n]));
    }
  }

  lemma Ratio(lo: real, value: real, hi: real, volume: real)
    requires volume > 0.0 && Bounded(lo, value, hi, volume)
    ensures lo <= value / volume <= hi
  {
    var q := value / volume;
    assert q * volume == value;
    if q < lo { MulLess(q, lo, volume); }
    if q > hi { MulLess(hi, q, volume); }
  }

  /** The average price paid lies between the session's rounded low and high, whatever the volumes. */
  lemma VwapLiesInTheRange(bars: seq<Bar>)
    requires ValidBars(bars) && bars != [] && VwapOf(Value(bars), Volume(bars)).Some?
    ensures Quantize(Lowest(bars)) <= VwapOf(Value(bars), Volume(bars)).value <= Quantize(Highest(bars))
  {
    hide Value, Volume, Lowest, Highest, Quantize;
    ExtremesAreAttained(bars);
    ValueIsBounded(bars, Lowest(bars), Highest(bars));
    assert Volume(bars) > 0.0;
    hide Bounded;
    Ratio(Lowest(bars), Value(bars), Highest(bars), Volume(bars));
    QuantizeMonotone(Lowest(bars), Value(bars) / Volume(bars));
    QuantizeMonotone(Value(bars) / Volume(bars), Highest(bars));
  }

  // ---- Sessions of one instrument ----

  function BarsOf(run: seq<Print>): (r: seq<Bar>)
    ensures |r| == |run|
  {
    seq(|run|, i requires 0 <= i < |run| => run[i].bar)
  }

  /** The instrument's bars cut wherever the session they arrive under changes. */
  function Runs(log: seq<Print>): (runs: seq<seq<Print>>)
    ensures forall k :: 0 <= k < |runs| ==> runs[k] != []
    ensures log == [] <==> runs == []
  {
    if log == [] then []
    else
      var front, p := Runs(log[..|log| - 1]), log[|log| - 1];
      if front != [] && front[|front| - 1][0].session.openNs == p.session.openNs then
        front[|front| - 1 := front[|front| - 1] + [p]]
      else front + [[p]]
  }

  function Width(run: seq<Print>): real
    requires run != []
  {
    Highest(BarsOf(run)) - Lowest(BarsOf(run))
  }

  function LastClose(run: seq<Print>): real
    requires run != []
  {
    run[|run| - 1].bar.close
  }

  /** |close / open - 1|; an open is never zero. */
  function MoveFrom(open: real, close: real): real { if open == 0.0 then 0.0 else Abs((close - open) / open) }

  /** By minute of the session, the distance from the open at the last bar of that minute. */
  function Moves(run: seq<Print>): Profile {
    if run == [] then map[]
    else Moves(run[..|run| - 1])[run[|run| - 1].Minute() := MoveFrom(run[0].bar.open, run[|run| - 1].bar.close)]
  }

  /** By minute of the session, the shares traded by then. */
  function Volumes(run: seq<Print>): Profile {
    if run == [] then map[]
    else Volumes(run[..|run| - 1])[run[|run| - 1].Minute() := Volume(BarsOf(run))]
  }

  function LastN<T>(s: seq<T>, n: nat): seq<T> { if |s| <= n then s else s[|s| - n..] }

  /** Samples of the profiles that reached the minute. */
  function Samples(profiles: seq<Profile>, minute: int): seq<real> {
    if profiles == [] then []
    else Samples(profiles[..|profiles| - 1], minute) +
         (if minute in profiles[|profiles| - 1] then [profiles[|profiles| - 1][minute]] else [])
  }

  function RangeMean(ranges: seq<real>): Option<real> {
    if |ranges| < MEMORY then None else Some(Quantize(SumReal(ranges) / |ranges| as real))
  }

  function MeanMove(profiles: seq<Profile>, minute: int): Option<real> {
    if |profiles| < MEMORY then None
    else var samples := Samples(profiles, minute);
      if samples == [] then None else Some(SumReal(samples) / |samples| as real)
  }

  function RelativeVolume(profiles: seq<Profile>, minute: int, volume: real): Option<real> {
    if |profiles| < MEMORY then None
    else var samples := Samples(profiles, minute);
      var typical := SumReal(samples);
      if samples == [] || typical <= 0.0 then None else Some(volume * |samples| as real / typical)
  }

  function Widths(runs: seq<seq<Print>>): (r: seq<real>)
    requires forall k :: 0 <= k < |runs| ==> runs[k] != []
    ensures |r| == |runs|
  {
    seq(|runs|, k requires 0 <= k < |runs| => Width(runs[k]))
  }

  function AllMoves(runs: seq<seq<Print>>): (r: seq<Profile>)
    ensures |r| == |runs|
  {
    seq(|runs|, k requires 0 <= k < |runs| => Moves(runs[k]))
  }

  function AllVolumes(runs: seq<seq<Print>>): (r: seq<Profile>)
    ensures |r| == |runs|
  {
    seq(|runs|, k requires 0 <= k < |runs| => Volumes(runs[k]))
  }

  function OpeningRanges(bars: seq<Bar>): map<nat, OpeningRange> {
    map m | m in OPENING_WINDOWS && m <= |bars| :: OpeningRangeOf(bars, m).value
  }

  /** The levels of the session in hand, from its own bars and the sessions completed before it. */
  function Recomputed(earlier: seq<seq<Print>>, current: seq<Print>): SessionLevels
    requires current != [] && forall k :: 0 <= k < |earlier| ==> earlier[k] != []
  {
    var bars, last := BarsOf(current), current[|current| - 1];
    SessionLevels(
      last.session.date,
      last.session.openNs,
      last.session.closeNs,
      bars[0].open,
      Highest(bars),
      Lowest(bars),
      last.bar.close,
      VwapOf(Value(bars), Volume(bars)),
      SpreadOf(Value(bars), Volume(bars), Square(bars)),
      |bars|,
      PriorClose(earlier),
      RangeMean(LastN(Widths(earlier), MEMORY)),
      OpeningRanges(bars),
      last.nextOpenNs,
      Volume(bars),
      RelativeVolume(LastN(AllVolumes(earlier), MEMORY), last.Minute(), Volume(bars)),
      MeanMove(LastN(AllMoves(earlier), MEMORY), last.Minute()))
  }

  function PriorClose(earlier: seq<seq<Print>>): Option<real>
    requires forall k :: 0 <= k < |earlier| ==> earlier[k] != []
  {
    if earlier == [] then None else Some(LastClose(earlier[|earlier| - 1]))
  }

  /** An instrument's levels as of its last bar, from nothing but its own bars. */
  function LevelsOf(log: seq<Print>): Option<SessionLevels> {
    var runs := Runs(log);
    if runs == [] then None else Some(Recomputed(runs[..|runs| - 1], runs[|runs| - 1]))
  }

  /** The average price can be held as a price: it has not been rounded down to zero. */
  predicate Priced(levels: SessionLevels) { levels.vwap.Some? ==> levels.vwap.value > 0.0 }

  lemma VwapIsPositive(bars: seq<Bar>)
    requires ValidBars(bars) && bars != [] && forall i :: 0 <= i < |bars| ==> Quantize(bars[i].low) == bars[i].low
    ensures VwapOf(Value(bars), Volume(bars)).Some? ==> VwapOf(Value(bars), Volume(bars)).value > 0.0
  {
    hide Highest, Lowest, Value, Volume, Quantize, VwapOf;
    ExtremesAreAttained(bars);
    var i :| 0 <= i < |bars| && bars[i].low == Lowest(bars);
    assert bars[i].Valid();
    if VwapOf(Value(bars), Volume(bars)).Some? { VwapLiesInTheRange(bars); }
  }

  /** Valid bars whose lows are held at the corpus scale. */
  ghost predicate AtCorpusScale(run: seq<Print>) {
    forall i :: 0 <= i < |run| ==> run[i].bar.Valid() && Quantize(run[i].bar.low) == run[i].bar.low
  }

  lemma CurrentIsPriced(earlier: seq<seq<Print>>, current: seq<Print>)
    requires current != [] && forall k :: 0 <= k < |earlier| ==> earlier[k] != []
    requires AtCorpusScale(current)
    ensures Priced(Recomputed(earlier, current))
  {
    hide Quantize, VwapOf, Bar.Valid, RangeMean, RelativeVolume, MeanMove, SpreadOf, OpeningRanges, PriorClose;
    var bars := BarsOf(current);
    forall i | 0 <= i < |bars| ensures bars[i].Valid() && Quantize(bars[i].low) == bars[i].low {
      assert bars[i] == current[i].bar;
    }
    hide Highest, Lowest, Value, Volume;
    VwapIsPositive(bars);
  }

  /** Where every low is held at the corpus scale the average always can be. */
  lemma CorpusPricesAreHeld(log: seq<Print>)
    requires log != [] && AtCorpusScale(Runs(log)[|Runs(log)| - 1])
    ensures Priced(LevelsOf(log).value)
  {
    hide Runs, Recomputed, Priced, AtCorpusScale;
    CurrentIsPriced(Runs(log)[..|Runs(log)| - 1], Runs(log)[|Runs(log)| - 1]);
  }

  /** A window's range is there exactly when the session has that many bars, and then it is the true
      high and low of the first of them. */
  lemma OpeningRangePresentExactlyWhen(log: seq<Print>, minutes: nat)
    requires log != [] && minutes in OPENING_WINDOWS
    ensures var run := Runs(log)[|Runs(log)| - 1];
            var ranges := LevelsOf(log).value.openingRanges;
            && (minutes in ranges <==> |run| >= minutes)
            && (minutes in ranges ==>
                  && ranges[minutes].barCount == minutes
                  && (forall i :: 0 <= i < minutes ==>
                        ranges[minutes].low <= run[i].bar.low && run[i].bar.high <= ranges[minutes].high)
                  && (exists i :: 0 <= i < minutes && run[i].bar.high == ranges[minutes].high)
                  && (exists i :: 0 <= i < minutes && run[i].bar.low == ranges[minutes].low))
  {
    hide Highest, Lowest, Runs, RangeMean, RelativeVolume, MeanMove, VwapOf, SpreadOf;
    var run := Runs(log)[|Runs(log)| - 1];
    var bars := BarsOf(run);
    assert forall i :: 0 <= i < |run| ==> bars[i] == run[i].bar;
    if |run| >= minutes { FirstBars(bars, minutes); }
  }

  lemma FirstBars(bars: seq<Bar>, minutes: nat)
    requires 1 <= minutes <= |bars|
    ensures forall i :: 0 <= i < minutes ==> Lowest(bars[..minutes]) <= bars[i].low && bars[i].high <= Highest(bars[..minutes])
    ensures exists i :: 0 <= i < minutes && bars[i].high == Highest(bars[..minutes])
    ensures exists i :: 0 <= i < minutes && bars[i].low == Lowest(bars[..minutes])
  {
    hide Highest, Lowest;
    var first := bars[..minutes];
    ExtremesAreAttained(first);
    assert forall i :: 0 <= i < minutes ==> first[i] == bars[i];
    var i :| 0 <= i < |first| && first[i].high == Highest(first);
    var j :| 0 <= j < |first| && first[j].low == Lowest(first);
    assert bars[i].high == Highest(first) && bars[j].low == Lowest(first);
  }

  /** When sessions arrive in order each run is one whole session: all of its bars, and no others. */
  lemma {:induction false} RunsAreSessions(log: seq<Print>, k: nat)
    requires forall i, j :: 0 <= i < j < |log| ==> log[i].session.openNs <= log[j].session.openNs
    requires k < |Runs(log)|
    ensures Runs(log)[k] == Select(log, Under(Runs(log)[k][0].session.openNs))
    ensures Runs(log)[k][0] in log
    ensures k + 1 < |Runs(log)| ==> Runs(log)[k][0].session.openNs < log[|log| - 1].session.openNs
  {
    var n := |log| - 1;
    var front, p := Runs(log[..n]), log[n];
    assert log == log[..n] + [p];
    if k < |front| {
      RunsAreSessions(log[..n], k);
      assert front[k][0] in log[..n];
      SelectPush(log[..n], p, Under(front[k][0].session.openNs));
      if k + 1 == |front| {
        assert front[k][0].session.openNs <= p.session.openNs;
      }
    } else {
      FreshSession(log[..n], p);
      SelectPush(log[..n], p, Under(p.session.openNs));
    }
  }

  function Under(openNs: int): Print -> bool { (p: Print) => p.session.openNs == openNs }

  /** A new run's session has not been seen before. */
  lemma {:induction false} FreshSession(log: seq<Print>, p: Print)
    requires forall i, j :: 0 <= i < j < |log| ==> log[i].session.openNs <= log[j].session.openNs
    requires log != [] ==> log[|log| - 1].session.openNs <= p.session.openNs
    requires Runs(log) == [] || Runs(log)[|Runs(log)| - 1][0].session.openNs != p.session.openNs
    ensures Select(log, Under(p.session.openNs)) == []
  {
    if log != [] {
      LastRunIsLast(log);
      forall i | 0 <= i < |log| ensures !Under(p.session.openNs)(log[i]) {
        assert i < |log| - 1 ==> log[i].session.openNs <= log[|log| - 1].session.openNs;
      }
      KeepsNone(log, Under(p.session.openNs));
    }
  }

  lemma LastRunIsLast(log: seq<Print>)
    requires log != []
    ensures Runs(log)[|Runs(log)| - 1][0].session.openNs == log[|log| - 1].session.openNs
  {
  }
}
