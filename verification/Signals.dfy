/** From a strategy's proposals to decisions the labeller can score. */
module Signals {
  import opened Common
  import opened Market
  import opened Labelling
  import opened Bisect
  import opened Sorting

  datatype Trigger = MARKET | LIMIT | STOP_ENTRY

  /** A feature snapshot, known here only by its identity. */
  type Snapshot = int

  datatype Intent = Intent(
    symbol: Symbol,
    ts: int,
    side: Side,
    entry: Trigger,
    entryPrice: Option<real>,
    invalidation: real,
    targetR: real,
    horizon: int,
    features: Snapshot
  ) {
    /** Intents that can be built. Stop and entry are compared only if there is an entry price. */
    predicate Valid() {
      && invalidation > 0.0 && targetR > 0.0 && horizon > 0
      && (entry == MARKET <==> entryPrice == None)
      && (entryPrice.Some? ==>
            if side == BUY then invalidation < entryPrice.value else invalidation > entryPrice.value)
    }

    function ExpiresAt(): int { ts + horizon }

    /** 1R, measured from the price actually paid. */
    function RiskPerShare(price: real): real { Abs(price - invalidation) }

    function TargetPrice(price: real): real { price + RiskPerShare(price) * targetR * side.Sign() }

    /** The stop is on the losing side of the price paid. */
    predicate StopIsLegal(price: real) {
      if side == BUY then invalidation < price else price < invalidation
    }
  }

  datatype Signal = Signal(index: nat, barriers: Barriers, features: Snapshot) {
    /** Last bar whose close the decision's expiry admits. */
    function Reach(): int { index + barriers.maxBars }
  }

  function Timestamps(bars: seq<Bar>): (r: seq<int>)
    ensures |r| == |bars|
  {
    seq(|bars|, i requires 0 <= i < |bars| => bars[i].ts)
  }

  /** The bar at a timestamp; of several the last, as in the dictionary the source builds. */
  function IndexOf(bars: seq<Bar>, ts: int): (r: Option<nat>)
    ensures r.Some? ==> r.value < |bars| && bars[r.value].ts == ts
  {
    if bars == [] then None
    else if bars[|bars| - 1].ts == ts then Some(|bars| - 1)
    else IndexOf(bars[..|bars| - 1], ts)
  }

  /** The proposal's stop distance and target as fractions of the entry. */
  function BarriersOf(intent: Intent, entry: real, maxBars: int): Barriers
    requires entry > 0.0
  {
    var stop := intent.RiskPerShare(entry) / entry;
    Barriers(intent.side, intent.targetR * stop, stop, maxBars)
  }

  /** One proposal becomes a decision, or is dropped, or stops the conversion. */
  function SignalOf(bars: seq<Bar>, intent: Intent): Result<Option<Signal>>
    requires bars != [] && ValidBars(bars)
  {
    if intent.symbol != bars[0].symbol then Err("intent for another instrument")
    else if intent.entry != MARKET then Err("only MARKET can be labelled")
    else match IndexOf(bars, intent.ts)
      case None => Err("no bar at ts_event")
      case Some(index) =>
        var entry := bars[index].close;
        var risk := intent.RiskPerShare(entry);
        var maxBars := CountUpTo(Timestamps(bars), intent.ExpiresAt()) - index - 1;
        if risk == 0.0 || maxBars < 1 then Ok(None)
        else
          assert bars[index].Valid();
          Ok(Some(Signal(index, BarriersOf(intent, entry, maxBars), intent.features)))
  }

  function Collected(bars: seq<Bar>, intents: seq<Intent>): Result<seq<Signal>>
    requires bars != [] && ValidBars(bars)
  {
    if intents == [] then Ok([])
    else match Collected(bars, intents[..|intents| - 1])
      case Err(e) => Err(e)
      case Ok(front) =>
        match SignalOf(bars, intents[|intents| - 1])
        case Err(e) => Err(e)
        case Ok(None) => Ok(front)
        case Ok(Some(s)) => Ok(front + [s])
  }

  function ByPosition(): (Signal, Signal) -> bool { (a: Signal, b: Signal) => a.index <= b.index }

  /** The lookup the source builds: each timestamp's last bar. */
  ghost predicate IsIndex(bars: seq<Bar>, indexOf: map<int, nat>) {
    forall ts :: IndexOf(bars, ts) == if ts in indexOf then Some(indexOf[ts]) else None
  }

  method BuildIndex(bars: seq<Bar>) returns (indexOf: map<int, nat>)
    ensures IsIndex(bars, indexOf)
  {
    indexOf := map[];
    for i := 0 to |bars|
      invariant IsIndex(bars[..i], indexOf)
    {
      assert bars[..i + 1][..i] == bars[..i];
      indexOf := indexOf[bars[i].ts := i];
    }
    assert bars[..|bars|] == bars;
  }

  method Convert(bars: seq<Bar>, timestamps: seq<int>, indexOf: map<int, nat>, intent: Intent)
    returns (r: Result<Option<Signal>>)
    requires bars != [] && ValidBars(bars) && IsIndex(bars, indexOf)
    requires timestamps == Timestamps(bars) && NonDecreasing(timestamps)
    ensures r == SignalOf(bars, intent)
  {
    if intent.symbol != bars[0].symbol { return Err("intent for another instrument"); }
    if intent.entry != MARKET { return Err("only MARKET can be labelled"); }
    assert IndexOf(bars, intent.ts).Some? <==> intent.ts in indexOf;
    if intent.ts !in indexOf { return Err("no bar at ts_event"); }
    var index: int := indexOf[intent.ts];
    assert IndexOf(bars, intent.ts) == Some(index);
    var entry := bars[index].close;
    var risk := intent.RiskPerShare(entry);
    var end: int := BisectRight(timestamps, intent.ExpiresAt());
    var maxBars := end - index - 1;
    if risk == 0.0 || maxBars < 1 { return Ok(None); }
    assert bars[index].Valid();
    return Ok(Some(Signal(index, BarriersOf(intent, entry, maxBars), intent.features)));
  }

  method SignalsFromIntents(bars: seq<Bar>, intents: seq<Intent>) returns (r: Result<seq<Signal>>)
    requires ValidBars(bars) && NonDecreasing(Timestamps(bars))
    ensures bars == [] ==> r.Err?
    ensures bars != [] ==>
              match Collected(bars, intents)
              case Err(e) => r == Err(e)
              case Ok(signals) => r == Ok(Sort(signals, ByPosition()))
  {
    if bars == [] { return Err("cannot label intents against an empty series"); }
    var timestamps := Timestamps(bars);
    var indexOf := BuildIndex(bars);
    hide SignalOf;
    var signals: seq<Signal> := [];
    for k := 0 to |intents|
      invariant Collected(bars, intents[..k]) == Ok(signals)
    {
      assert intents[..k + 1][..k] == intents[..k];
      FailuresPersist(bars, intents, k + 1);
      var one := Convert(bars, timestamps, indexOf, intents[k]);
      if one.Err? { return Err(one.error); }
      if one.value.Some? { signals := signals + [one.value.value]; }
    }
    assert intents[..|intents|] == intents;
    return Ok(Sort(signals, ByPosition()));
  }

  lemma {:induction false} FailuresPersist(bars: seq<Bar>, intents: seq<Intent>, k: nat)
    requires bars != [] && ValidBars(bars) && k <= |intents|
    ensures Collected(bars, intents[..k]).Err? ==> Collected(bars, intents) == Collected(bars, intents[..k])
    decreases |intents| - k
  {
    hide SignalOf;
    if k == |intents| {
      assert intents[..k] == intents;
    } else {
      FailuresPersist(bars, intents, k + 1);
      assert intents[..k + 1][..k] == intents[..k];
    }
  }

  // ---- Fidelity ----

  lemma {:induction false} IndexIsUnique(bars: seq<Bar>, j: nat)
    requires Chronological(bars) && j < |bars|
    ensures IndexOf(bars, bars[j].ts) == Some(j)
  {
    if j < |bars| - 1 {
      IndexIsUnique(bars[..|bars| - 1], j);
    }
  }

  /** The walk is counted off the real bars: a decision made on bar `index` may be held for exactly
      the later bars that close at or before the proposal expires. */
  lemma WalkEndsAtExpiry(bars: seq<Bar>, intent: Intent, signal: Signal)
    requires bars != [] && ValidBars(bars) && Chronological(bars)
    requires SignalOf(bars, intent) == Ok(Some(signal))
    ensures signal.index < |bars| && bars[signal.index].ts == intent.ts
    ensures 1 <= signal.barriers.maxBars && signal.Reach() < |bars|
    ensures forall j :: signal.index < j < |bars| ==> (bars[j].ts <= intent.ExpiresAt() <==> j <= signal.Reach())
  {
    var ts := Timestamps(bars);
    CountSplits(ts, intent.ExpiresAt());
    forall j | signal.index < j < |bars| ensures bars[j].ts <= intent.ExpiresAt() <==> j <= signal.Reach() {
      assert ts[j] == bars[j].ts;
    }
  }

  /** A proposal is dropped exactly when its stop is the entry close, or no later bar closes before it
      expires. */
  lemma DroppedExactlyWhen(bars: seq<Bar>, intent: Intent, index: nat)
    requires bars != [] && ValidBars(bars) && Chronological(bars)
    requires intent.symbol == bars[0].symbol && intent.entry == MARKET
    requires index < |bars| && bars[index].ts == intent.ts
    ensures SignalOf(bars, intent).Ok?
    ensures SignalOf(bars, intent).value.None? <==>
              || intent.invalidation == bars[index].close
              || forall j :: index < j < |bars| ==> intent.ExpiresAt() < bars[j].ts
  {
    var ts := Timestamps(bars);
    var end := CountUpTo(ts, intent.ExpiresAt());
    IndexIsUnique(bars, index);
    CountSplits(ts, intent.ExpiresAt());
    if end - index - 1 >= 1 {
      assert ts[index + 1] <= intent.ExpiresAt();
      assert ts[index + 1] == bars[index + 1].ts;
    } else {
      forall j | index < j < |bars| ensures intent.ExpiresAt() < bars[j].ts { assert ts[j] == bars[j].ts; }
    }
  }

  /** The levels the labeller walks to. The target is always the proposal's own; the stop is the
      proposal's own exactly when it was on the legal side of the close, since only its distance is
      carried over. */
  lemma LevelsMatchIntent(bars: seq<Bar>, intent: Intent, signal: Signal)
    requires bars != [] && ValidBars(bars)
    requires SignalOf(bars, intent) == Ok(Some(signal))
    ensures signal.index < |bars|
    ensures ProfitLevel(bars[signal.index].close, signal.barriers) == intent.TargetPrice(bars[signal.index].close)
    ensures StopLevel(bars[signal.index].close, signal.barriers) == intent.invalidation <==>
              intent.StopIsLegal(bars[signal.index].close)
  {
    var entry := bars[signal.index].close;
    assert bars[signal.index].Valid();
    FractionOfEntry(entry, intent.RiskPerShare(entry), intent.targetR, intent.side.Sign());
  }

  /** A purchase at 100 whose stop is stated at 110 is accepted and converted, and labelled with its stop at
      90. */
  lemma IllegalStopIsMirrored() returns (signal: Signal)
    ensures var bars := [Flat100(0), Flat100(1)];
            var intent := Intent(0, 0, BUY, MARKET, None, 110.0, 1.0, 1, 0);
            && ValidBars(bars) && Chronological(bars) && intent.Valid() && !intent.StopIsLegal(100.0)
            && SignalOf(bars, intent) == Ok(Some(signal)) && signal.index == 0
            && StopLevel(100.0, signal.barriers) == 90.0 && intent.invalidation == 110.0
  {
    var bars := [Flat100(0), Flat100(1)];
    var intent := Intent(0, 0, BUY, MARKET, None, 110.0, 1.0, 1, 0);
    DroppedExactlyWhen(bars, intent, 0);
    IndexIsUnique(bars, 0);
    assert bars[1].ts <= intent.ExpiresAt();
    signal := SignalOf(bars, intent).value.value;
    FractionOfEntry(100.0, 10.0, 1.0, 1.0);
  }

  function Flat100(ts: int): Bar { Bar(0, ts, 100.0, 100.0, 100.0, 100.0, 0.0, None) }

  lemma FractionOfEntry(entry: real, risk: real, r: real, sign: real)
    requires entry > 0.0
    ensures entry * (1.0 + sign * (r * (risk / entry))) == entry + risk * r * sign
    ensures entry * (1.0 - sign * (risk / entry)) == entry - sign * risk
  {
    var f := risk / entry;
    assert entry * f == risk;
    assert entry * (1.0 + sign * (r * f)) == entry + entry * f * (r * sign);
    assert entry * (1.0 - sign * f) == entry - entry * f * sign;
  }

  /** Every decision that survives conversion can be labelled, and its label ends after the proposal
      and no later than its expiry. */
  lemma LabelsLieInsideIntent(bars: seq<Bar>, intent: Intent, signal: Signal, terms: Terms)
    requires bars != [] && ValidBars(bars) && Chronological(bars) && intent.Valid() && terms.quantity > 0.0
    requires SignalOf(bars, intent) == Ok(Some(signal))
    ensures Labelled(bars, signal.index, signal.barriers, terms).Ok?
    ensures Labelled(bars, signal.index, signal.barriers, terms).value.Some?
    ensures var touch := Labelled(bars, signal.index, signal.barriers, terms).value.value;
            intent.ts < touch.touchedAt <= intent.ExpiresAt()
  {
    WalkEndsAtExpiry(bars, intent, signal);
    BarriersArePositive(bars, intent, signal);
    hide SignalOf;
    var touch := Labelled(bars, signal.index, signal.barriers, terms).value.value;
    FirstTouchDecides(bars, signal.index, signal.barriers, terms, touch);
    assert bars[signal.index].ts < bars[signal.index + touch.barsHeld].ts;
  }

  lemma BarriersArePositive(bars: seq<Bar>, intent: Intent, signal: Signal)
    requires bars != [] && ValidBars(bars) && intent.Valid()
    requires SignalOf(bars, intent) == Ok(Some(signal))
    ensures signal.barriers.target > 0.0 && signal.barriers.stop > 0.0
  {
    var entry := bars[signal.index].close;
    assert bars[signal.index].Valid();
    var f := intent.RiskPerShare(entry) / entry;
    DivideLess(0.0, intent.RiskPerShare(entry), entry);
    Positive(intent.targetR, f);
  }

  /** The decisions come back ordered by bar, none lost or invented. */
  lemma SignalsAreOrdered(signals: seq<Signal>)
    ensures SortedBy(Sort(signals, ByPosition()), ByPosition())
    ensures multiset(Sort(signals, ByPosition())) == multiset(signals)
  {
    SortIsSort(signals, ByPosition());
  }
}
