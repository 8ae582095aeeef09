/** What a backtest is: bars in order, each followed by what the strategies made of it. */
module Dispatch {
  import opened Market
  import opened Signals

  /** A market classification; UNKNOWN is the one the research mode may wave through. */
  datatype Regime = UNKNOWN | Classified(id: int)

  /** What one strategy is shown of one bar. */
  datatype View = View(regime: Regime, snapshot: Snapshot)

  /** One call of a strategy, with the clock as it stood. */
  datatype Call = Call(bar: Bar, view: View, now: int)

  /** A strategy is whatever its answers make it: they may depend on every call it has had. */
  datatype Strategy = Strategy(
    name: string,
    holdsOvernight: bool,
    eligible: Regime -> bool,
    onBar: seq<Call> -> seq<Intent>
  )

  datatype Event = BarEvent(bar: Bar) | IntentEvent(intent: Intent)

  /** The strategies, the view each gets of a bar given the bars observed so far, and whether an
      unknown regime gates. */
  datatype Setup = Setup(strategies: seq<Strategy>, viewOf: (seq<Bar>, Bar, Strategy) -> View, ungated: bool)

  /** The bars the context has observed and the calls each strategy has had. */
  datatype History = History(observed: seq<Bar>, calls: seq<seq<Call>>)

  predicate MayFire(u: Setup, s: Strategy, regime: Regime) { s.eligible(regime) || (u.ungated && regime == UNKNOWN) }

  /** The host stamps every proposal with what it showed. */
  function Stamped(intents: seq<Intent>, snapshot: Snapshot): (r: seq<Intent>)
    ensures |r| == |intents|
  {
    seq(|intents|, i requires 0 <= i < |intents| => intents[i].(features := snapshot))
  }

  function Shown(u: Setup, h: History, bar: Bar, k: nat): View
    requires k < |u.strategies|
  {
    u.viewOf(h.observed + [bar], bar, u.strategies[k])
  }

  /** The k-th strategy's calls after the bar; one more if it may fire. */
  function CallsAfter(u: Setup, h: History, bar: Bar, k: nat): seq<Call>
    requires k < |u.strategies| == |h.calls|
  {
    var view := Shown(u, h, bar, k);
    if MayFire(u, u.strategies[k], view.regime) then h.calls[k] + [Call(bar, view, bar.ts)] else h.calls[k]
  }

  /** The k-th strategy's stamped proposals on the bar. */
  function Reaction(u: Setup, h: History, bar: Bar, k: nat): seq<Intent>
    requires k < |u.strategies| == |h.calls|
  {
    var view := Shown(u, h, bar, k);
    if MayFire(u, u.strategies[k], view.regime)
    then Stamped(u.strategies[k].onBar(h.calls[k] + [Call(bar, view, bar.ts)]), view.snapshot)
    else []
  }

  /** The proposals of the first k strategies, in registration order. */
  function Reactions(u: Setup, h: History, bar: Bar, k: nat): seq<Intent>
    requires k <= |u.strategies| == |h.calls|
  {
    if k == 0 then [] else Reactions(u, h, bar, k - 1) + Reaction(u, h, bar, k - 1)
  }

  function After(u: Setup, h: History, bar: Bar): (r: History)
    requires |u.strategies| == |h.calls|
    ensures |r.calls| == |h.calls|
  {
    History(h.observed + [bar], seq(|h.calls|, k requires 0 <= k < |h.calls| => CallsAfter(u, h, bar, k)))
  }

  function AsEvents(intents: seq<Intent>): (r: seq<Event>)
    ensures |r| == |intents| && forall i :: 0 <= i < |r| ==> r[i] == IntentEvent(intents[i])
  {
    seq(|intents|, i requires 0 <= i < |intents| => IntentEvent(intents[i]))
  }

  function BarTrace(u: Setup, h: History, bar: Bar): seq<Event>
    requires |u.strategies| == |h.calls|
  {
    [BarEvent(bar)] + AsEvents(Reactions(u, h, bar, |u.strategies|))
  }

  /** The history after a run over the bars. */
  function HistoryAfter(u: Setup, h: History, bars: seq<Bar>): (r: History)
    requires |u.strategies| == |h.calls|
    ensures |r.calls| == |h.calls|
  {
    if bars == [] then h else After(u, HistoryAfter(u, h, bars[..|bars| - 1]), bars[|bars| - 1])
  }

  /** The flat trace of a run: bar by bar, each bar and then its consequences. */
  function Trace(u: Setup, h: History, bars: seq<Bar>): seq<Event>
    requires |u.strategies| == |h.calls|
  {
    if bars == [] then []
    else
      var n := |bars| - 1;
      Trace(u, h, bars[..n]) + BarTrace(u, HistoryAfter(u, h, bars[..n]), bars[n])
  }

  function BarsIn(events: seq<Event>): seq<Bar> {
    if events == [] then []
    else BarsIn(events[..|events| - 1]) + (if events[|events| - 1].BarEvent? then [events[|events| - 1].bar] else [])
  }

  function IntentsIn(events: seq<Event>): seq<Intent> {
    if events == [] then []
    else IntentsIn(events[..|events| - 1]) + (if events[|events| - 1].IntentEvent? then [events[|events| - 1].intent] else [])
  }

  lemma {:induction false} ProjectionsJoin(a: seq<Event>, b: seq<Event>)
    ensures BarsIn(a + b) == BarsIn(a) + BarsIn(b)
    ensures IntentsIn(a + b) == IntentsIn(a) + IntentsIn(b)
  {
    if b == [] {
      assert a + b == a;
    } else {
      assert (a + b)[..|a + b| - 1] == a + b[..|b| - 1];
      ProjectionsJoin(a, b[..|b| - 1]);
    }
  }

  lemma {:induction false} IntentsOnly(intents: seq<Intent>)
    ensures BarsIn(AsEvents(intents)) == [] && IntentsIn(AsEvents(intents)) == intents
  {
    if intents != [] {
      var n := |intents| - 1;
      IntentsOnly(intents[..n]);
      assert AsEvents(intents)[..n] == AsEvents(intents[..n]);
      assert intents == intents[..n] + [intents[n]];
    }
  }

  lemma BarTraceProjects(u: Setup, h: History, bar: Bar)
    requires |u.strategies| == |h.calls|
    ensures BarsIn(BarTrace(u, h, bar)) == [bar]
    ensures IntentsIn(BarTrace(u, h, bar)) == Reactions(u, h, bar, |u.strategies|)
  {
    var reactions := Reactions(u, h, bar, |u.strategies|);
    ProjectionsJoin([BarEvent(bar)], AsEvents(reactions));
    IntentsOnly(reactions);
    assert [BarEvent(bar)][..0] == [];
    assert BarsIn([]) == [] && IntentsIn([]) == [];
    hide Reactions;
  }

  /** The bar projection of a run is its feed, and the trace counts every bar and every proposal once. */
  lemma {:induction false} TraceProjects(u: Setup, h: History, bars: seq<Bar>)
    requires |u.strategies| == |h.calls|
    ensures BarsIn(Trace(u, h, bars)) == bars
    ensures |Trace(u, h, bars)| == |bars| + |IntentsIn(Trace(u, h, bars))|
  {
    hide BarTrace, HistoryAfter, Reactions;
    if bars != [] {
      var n := |bars| - 1;
      TraceProjects(u, h, bars[..n]);
      var now := HistoryAfter(u, h, bars[..n]);
      ProjectionsJoin(Trace(u, h, bars[..n]), BarTrace(u, now, bars[n]));
      BarTraceProjects(u, now, bars[n]);
      BarTraceSize(u, now, bars[n]);
      assert bars == bars[..n] + [bars[n]];
    }
  }

  lemma BarTraceSize(u: Setup, h: History, bar: Bar)
    requires |u.strategies| == |h.calls|
    ensures |BarTrace(u, h, bar)| == 1 + |Reactions(u, h, bar, |u.strategies|)|
  {
  }

  /** A trace is causal: what was dispatched up to a bar is settled by the bars up to it, and the rest of
      the run continues from the history they left. */
  lemma {:induction false} TraceIsCausal(u: Setup, h: History, bars: seq<Bar>, k: nat)
    requires |u.strategies| == |h.calls| && k <= |bars|
    ensures HistoryAfter(u, h, bars) == HistoryAfter(u, HistoryAfter(u, h, bars[..k]), bars[k..])
    ensures Trace(u, h, bars) == Trace(u, h, bars[..k]) + Trace(u, HistoryAfter(u, h, bars[..k]), bars[k..])
  {
    hide BarTrace, After;
    if k == |bars| {
      assert bars[..k] == bars && bars[k..] == [];
    } else {
      var n := |bars| - 1;
      TraceIsCausal(u, h, bars[..n], k);
      assert bars[..n][..k] == bars[..k] && bars[..n][k..] == bars[k..][..n - k] && bars[k..][n - k] == bars[n];
    }
  }

  /** Every proposal a bar leads to comes from a strategy that was allowed to act on it, stamped with
      what that strategy was shown. */
  lemma {:induction false} ProposalsAreStamped(u: Setup, h: History, bar: Bar, k: nat, i: nat) returns (s: nat)
    requires k <= |u.strategies| == |h.calls| && i < |Reactions(u, h, bar, k)|
    ensures s < k && Reactions(u, h, bar, k)[i] in Reaction(u, h, bar, s)
    ensures MayFire(u, u.strategies[s], Shown(u, h, bar, s).regime)
    ensures Reactions(u, h, bar, k)[i].features == Shown(u, h, bar, s).snapshot
  {
    var front := Reactions(u, h, bar, k - 1);
    if i < |front| {
      s := ProposalsAreStamped(u, h, bar, k - 1, i);
    } else {
      s := k - 1;
      assert Reactions(u, h, bar, k)[i] == Reaction(u, h, bar, s)[i - |front|];
    }
  }

  /** A strategy's state: its calls are the bars it could act on, each with the clock at that bar. */
  lemma {:induction false} ClockIsTheBars(u: Setup, h: History, bars: seq<Bar>, k: nat, c: nat)
    requires k < |u.strategies| == |h.calls|
    requires |h.calls[k]| <= c < |HistoryAfter(u, h, bars).calls[k]|
    ensures var call := HistoryAfter(u, h, bars).calls[k][c];
            call.now == call.bar.ts && call.bar in bars && MayFire(u, u.strategies[k], call.view.regime)
  {
    if bars != [] {
      var n := |bars| - 1;
      var now := HistoryAfter(u, h, bars[..n]);
      assert bars == bars[..n] + [bars[n]];
      if c < |now.calls[k]| { ClockIsTheBars(u, h, bars[..n], k, c); }
    }
  }
}
