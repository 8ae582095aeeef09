/** The simulated clock, the event bus, the run digest and the engine that drives bars through them. */
module Engine {
  import opened Common
  import opened Sorting
  import opened Market
  import opened Signals
  import opened Dispatch

  class SimClock {
    var now: int

    constructor (start: int)
      ensures now == start
    {
      now := start;
    }

    /** Several events may share an instant; none may rewind. */
    method SetTime(ns: int) returns (ok: bool)
      modifies this
      ensures ok <==> old(now) <= ns
      ensures now == if ok then ns else old(now)
    {
      ok := now <= ns;
      if ok { now := ns; }
    }
  }

  /** What a subscription listens for. */
  datatype EventType = Any | Intents | Bars {
    predicate Matches(e: Event) { Any? || (Intents? && e.IntentEvent?) || (Bars? && e.BarEvent?) }
  }

  /** Who is called: the run digest, the intent collector, the context, or a strategy by registration. */
  datatype Handler = Digest | Collect | Observe | OnBar(k: nat)

  datatype Subscription = Subscription(listens: EventType, handler: Handler)

  class EventBus {
    var subscriptions: seq<Subscription>
    var published: nat

    constructor ()
      ensures subscriptions == [] && published == 0
    {
      subscriptions, published := [], 0;
    }

    method Subscribe(listens: EventType, handler: Handler)
      modifies this`subscriptions
      ensures subscriptions == old(subscriptions) + [Subscription(listens, handler)]
    {
      subscriptions := subscriptions + [Subscription(listens, handler)];
    }
  }

  /** The digest of a run, as the sequence of events folded into it. */
  class RunDigest {
    var events: seq<Event>
    var count: nat

    ghost predicate Valid()
      reads this
    {
      count == |events|
    }

    constructor ()
      ensures Valid() && events == []
    {
      events, count := [], 0;
    }

    method Fold(e: Event)
      requires Valid()
      modifies this
      ensures Valid() && events == old(events) + [e]
    {
      events, count := events + [e], count + 1;
    }
  }

  /** What a delivery changes: the digested events, the collected proposals and the history. */
  datatype State = State(events: seq<Event>, intents: seq<Intent>, past: History)

  /** How much of the delivery of e its first i subscribers make. */
  ghost predicate Delivers(u: Setup, e: Event, i: nat, before: State, after: State)
    requires |u.strategies| == |before.past.calls| && i <= 3 + |u.strategies|
  {
    match e
    case IntentEvent(intent) =>
      && after.events == (if i >= 1 then before.events + [e] else before.events)
      && after.intents == (if i >= 2 then before.intents + [intent] else before.intents)
      && after.past == before.past
    case BarEvent(bar) =>
      var k := if i >= 3 then i - 3 else 0;
      var reactions := Reactions(u, before.past, bar, k);
      && after.events == (if i >= 1 then before.events + [e] + AsEvents(reactions) else before.events)
      && after.intents == before.intents + reactions
      && after.past.observed == (if i >= 3 then before.past.observed + [bar] else before.past.observed)
      && |after.past.calls| == |before.past.calls|
      && (forall j :: 0 <= j < k ==> after.past.calls[j] == CallsAfter(u, before.past, bar, j))
      && (forall j :: k <= j < |after.past.calls| ==> after.past.calls[j] == before.past.calls[j])
  }

  /** The k-th strategy's turn brings the delivery one subscriber further. */
  lemma TurnDelivers(u: Setup, bar: Bar, k: nat, before: State, mid: State, after: State)
    requires k < |u.strategies| == |before.past.calls| && Delivers(u, BarEvent(bar), 3 + k, before, mid)
    requires after.events == mid.events + AsEvents(Reaction(u, before.past, bar, k))
    requires after.intents == mid.intents + Reaction(u, before.past, bar, k)
    requires after.past == History(mid.past.observed, mid.past.calls[k := CallsAfter(u, before.past, bar, k)])
    ensures Delivers(u, BarEvent(bar), 4 + k, before, after)
  {
    ReactionsGrow(u, before.past, bar, k);
    hide Reaction, CallsAfter, AsEvents, Reactions;
    var so, more := AsEvents(Reactions(u, before.past, bar, k)), AsEvents(Reaction(u, before.past, bar, k));
    assert before.events + [BarEvent(bar)] + so + more == before.events + [BarEvent(bar)] + (so + more);
    assert forall j :: 0 <= j < |after.past.calls| && j != k ==> after.past.calls[j] == mid.past.calls[j];
  }

  /** A bar delivered to everyone is its whole trace. */
  lemma FullDelivery(u: Setup, bar: Bar, before: State, after: State)
    requires |u.strategies| == |before.past.calls| && Delivers(u, BarEvent(bar), 3 + |u.strategies|, before, after)
    ensures after.events == before.events + BarTrace(u, before.past, bar)
    ensures after.intents == before.intents + Reactions(u, before.past, bar, |u.strategies|)
    ensures after.past == After(u, before.past, bar)
  {
    hide CallsAfter, AsEvents, Reactions;
    assert after.past.calls == After(u, before.past, bar).calls;
  }

  datatype RunResult = RunResult(events: seq<Event>, read: nat, dispatched: nat, firstTs: Option<int>, lastTs: Option<int>)

  /** What a run leaves behind: its digest and the proposals it published, first to last. */
  datatype BacktestResult = BacktestResult(run: RunResult, intents: seq<Intent>, regimeGated: bool)

  class BacktestEngine {
    const feed: seq<Bar>
    const viewOf: (seq<Bar>, Bar, Strategy) -> View
    const ungated: bool
    const overnight: bool
    const clock: SimClock
    const bus: EventBus
    const digest: RunDigest
    var strategies: seq<Strategy>
    var intents: seq<Intent>
    /** Bars the context has observed. */
    var observed: seq<Bar>
    /** The calls each strategy has had, which is all its state. */
    var calls: seq<seq<Call>>

    function Setting(): Setup
      reads this`strategies
    {
      Setup(strategies, viewOf, ungated)
    }

    function Past(): History
      reads this`observed, this`calls
    {
      History(observed, calls)
    }

    /** Digest first, then the collector, then the context, then the strategies as registered. */
    ghost predicate Valid()
      reads this, bus, digest
    {
      && digest.Valid() && |calls| == |strategies| && |bus.subscriptions| == 3 + |strategies|
      && bus.subscriptions[0] == Subscription(Any, Digest)
      && bus.subscriptions[1] == Subscription(Intents, Collect)
      && bus.subscriptions[2] == Subscription(Bars, Observe)
      && (forall k :: 3 <= k < |bus.subscriptions| ==> bus.subscriptions[k] == Subscription(Bars, OnBar(k - 3)))
    }

    constructor (feed: seq<Bar>, viewOf: (seq<Bar>, Bar, Strategy) -> View, start: int, ungated: bool, overnight: bool)
      ensures Valid() && fresh(clock) && fresh(bus) && fresh(digest)
      ensures this.feed == feed && this.viewOf == viewOf && this.ungated == ungated && this.overnight == overnight
      ensures strategies == [] && intents == [] && observed == [] && digest.events == [] && clock.now == start
    {
      this.feed, this.viewOf, this.ungated, this.overnight := feed, viewOf, ungated, overnight;
      clock := new SimClock(start);
      bus := new EventBus();
      digest := new RunDigest();
      strategies, intents, observed, calls := [], [], [], [];
      new;
      bus.Subscribe(Any, Digest);
      bus.Subscribe(Intents, Collect);
      bus.Subscribe(Bars, Observe);
    }

    /** Registers a strategy last in line; an engine that already holds the opposite holding style
        refuses it. */
    method AddStrategy(s: Strategy) returns (ok: bool)
      requires Valid()
      modifies this`strategies, this`calls, bus
      ensures Valid()
      ensures ok <==> s.holdsOvernight == overnight
      ensures strategies == if ok then old(strategies) + [s] else old(strategies)
      ensures calls == if ok then old(calls) + [[]] else old(calls)
    {
      if s.holdsOvernight != overnight { return false; }
      bus.Subscribe(Bars, OnBar(|strategies|));
      strategies := strategies + [s];
      calls := calls + [[]];
      ok := true;
    }

    /** The first i subscribers have had e, starting from what there was. */
    ghost predicate Delivered(e: Event, i: nat, events: seq<Event>, proposals: seq<Intent>, past: History)
      requires |strategies| == |past.calls| && i <= 3 + |strategies|
      reads this, digest
    {
      Delivers(Setting(), e, i, State(events, proposals, past), State(digest.events, intents, Past()))
    }

    /** Delivers one event to every subscriber that listens for it, in subscription order. A strategy's
        handler publishes in turn, so a bar's delivery contains those of its proposals. */
    method Publish(e: Event)
      requires Valid() && (e.BarEvent? ==> e.bar.ts == clock.now)
      modifies this`intents, this`observed, this`calls, bus`published, digest
      ensures Valid()
      ensures Delivered(e, 3 + |strategies|, old(digest.events), old(intents), old(Past()))
      decreases if e.BarEvent? then 1 else 0, 1
    {
      ghost var events, proposals, past := digest.events, intents, Past();
      bus.published := bus.published + 1;
      NothingDelivered(e);
      hide Delivered;
      for i := 0 to |bus.subscriptions|
        invariant Valid() && |bus.subscriptions| == 3 + |strategies| == 3 + |past.calls|
        invariant Delivered(e, i, events, proposals, past)
      {
        assert bus.subscriptions[i].handler == HandlerAt(i);
        if bus.subscriptions[i].listens.Matches(e) {
          Handle(bus.subscriptions[i].handler, e, i, events, proposals, past);
        } else {
          NotListening(e, i, events, proposals, past);
        }
      }
    }

    function HandlerAt(i: nat): Handler {
      if i == 0 then Digest else if i == 1 then Collect else if i == 2 then Observe else OnBar(i - 3)
    }

    lemma NothingDelivered(e: Event)
      requires |strategies| == |calls|
      ensures Delivered(e, 0, digest.events, intents, Past())
    {
    }

    lemma NotListening(e: Event, i: nat, events: seq<Event>, proposals: seq<Intent>, past: History)
      requires |strategies| == |past.calls| && i < 3 + |strategies| && Delivered(e, i, events, proposals, past)
      requires if e.BarEvent? then i == 1 else i >= 2
      ensures Delivered(e, i + 1, events, proposals, past)
    {
    }

    /** The i-th subscriber's part of a delivery. */
    method Handle(handler: Handler, e: Event, i: nat, ghost events: seq<Event>, ghost proposals: seq<Intent>, ghost past: History)
      requires Valid() && (e.BarEvent? ==> e.bar.ts == clock.now) && i < 3 + |strategies| && handler == HandlerAt(i)
      requires if e.BarEvent? then i != 1 else i < 2
      requires |strategies| == |past.calls| && Delivered(e, i, events, proposals, past)
      modifies this`intents, this`observed, this`calls, bus`published, digest
      ensures Valid() && Delivered(e, i + 1, events, proposals, past)
      decreases if e.BarEvent? then 1 else 0, 0
    {
      match handler {
        case Digest =>
          digest.Fold(e);
          assert e.BarEvent? ==> AsEvents([]) == [];
        case Collect =>
          intents := intents + [e.intent];
        case Observe =>
          observed := observed + [e.bar];
        case OnBar(k) =>
          TakeTurn(k, e.bar, events, proposals, past);
      }
    }

    method TakeTurn(k: nat, bar: Bar, ghost events: seq<Event>, ghost proposals: seq<Intent>, ghost past: History)
      requires Valid() && bar.ts == clock.now && k < |strategies| == |past.calls|
      requires Delivered(BarEvent(bar), 3 + k, events, proposals, past)
      modifies this`intents, this`observed, this`calls, bus`published, digest
      ensures Valid() && Delivered(BarEvent(bar), 4 + k, events, proposals, past)
      decreases 0, 4
    {
      ghost var before, mid := State(events, proposals, past), State(digest.events, intents, Past());
      assert observed == past.observed + [bar] && calls[k] == past.calls[k];
      hide Reaction, CallsAfter, Delivers, BacktestEngine.Valid;
      CallStrategy(k, bar, past);
      TurnDelivers(Setting(), bar, k, before, mid, State(digest.events, intents, Past()));
    }

    /** One strategy's turn on a bar: the context is asked what to show it, and unless the regime bars it,
        it is called and its proposals are stamped and published. */
    method CallStrategy(k: nat, bar: Bar, ghost past: History)
      requires Valid() && k < |strategies| == |past.calls| && bar.ts == clock.now
      requires observed == past.observed + [bar] && calls[k] == past.calls[k]
      modifies this`intents, this`observed, this`calls, bus`published, digest
      ensures Valid() && observed == old(observed)
      ensures digest.events == old(digest.events) + AsEvents(Reaction(Setting(), past, bar, k))
      ensures intents == old(intents) + Reaction(Setting(), past, bar, k)
      ensures calls == old(calls)[k := CallsAfter(Setting(), past, bar, k)]
      decreases 0, 3
    {
      var view := viewOf(observed, bar, strategies[k]);
      if !MayFire(Setting(), strategies[k], view.regime) {
        assert AsEvents([]) == [];
        assert calls[k := calls[k]] == calls;
        return;
      }
      calls := calls[k := calls[k] + [Call(bar, view, clock.now)]];
      PublishAll(Stamped(strategies[k].onBar(calls[k]), view.snapshot));
    }

    method PublishAll(proposed: seq<Intent>)
      requires Valid()
      modifies this`intents, this`observed, this`calls, bus`published, digest
      ensures Valid() && observed == old(observed) && calls == old(calls)
      ensures digest.events == old(digest.events) + AsEvents(proposed) && intents == old(intents) + proposed
      decreases 0, 2
    {
      assert |strategies| == |calls|;
      hide BacktestEngine.Valid;
      for j := 0 to |proposed|
        invariant Valid() && |strategies| == |calls|
        invariant observed == old(observed) && calls == old(calls)
        invariant digest.events == old(digest.events) + AsEvents(proposed[..j])
        invariant intents == old(intents) + proposed[..j]
      {
        Publish(IntentEvent(proposed[j]));
        assert proposed[..j + 1] == proposed[..j] + [proposed[j]];
      }
      assert proposed[..|proposed|] == proposed;
    }

    /** Plays a stream through the bus: time moves first, then the bar goes out. Time that cannot move ends
        the run there and keeps what was already delivered. */
    method Drive(bars: seq<Bar>) returns (r: Result<RunResult>, ghost done: nat)
      requires Valid()
      modifies this`intents, this`observed, this`calls, bus`published, digest, clock
      ensures Valid() && done <= |bars| && |strategies| == |old(calls)|
      ensures digest.events == old(digest.events) + Trace(Setting(), old(Past()), bars[..done])
      ensures intents == old(intents) + IntentsIn(Trace(Setting(), old(Past()), bars[..done]))
      ensures Past() == HistoryAfter(Setting(), old(Past()), bars[..done])
      ensures r.Ok? <==> InOrder(old(clock.now), bars)
      ensures r.Ok? ==>
                && done == |bars|
                && clock.now == (if bars == [] then old(clock.now) else bars[|bars| - 1].ts)
                && r.value == RunResult(digest.events, |bars|, |digest.events|,
                                        if bars == [] then None else Some(bars[0].ts),
                                        if bars == [] then None else Some(bars[|bars| - 1].ts))
    {
      ghost var start := State(digest.events, intents, Past());
      var read, firstTs: Option<int>, lastTs: Option<int> := 0, None, None;
      hide *;
      SameLength();
      StartsDriven(start, clock.now);
      assert bars[..0] == [];
      done := 0;
      for k := 0 to |bars|
        invariant done == k == read && Valid() && |strategies| == |start.past.calls|
        invariant Driven(bars[..k], start)
        invariant InOrder(old(clock.now), bars[..k])
        invariant clock.now == if k == 0 then old(clock.now) else bars[k - 1].ts
        invariant firstTs == if k == 0 then None else Some(bars[0].ts)
        invariant lastTs == if k == 0 then None else Some(bars[k - 1].ts)
      {
        OrderGrows(old(clock.now), bars, k);
        var ok := Advance(bars[k], bars[..k], start);
        if !ok {
          DrivenMeans(bars[..k], start);
          return Err("clock cannot move backwards"), done;
        }
        assert bars[..k + 1] == bars[..k] + [bars[k]];
        read, done := read + 1, done + 1;
        if firstTs == None { firstTs := Some(bars[k].ts); }
        lastTs := Some(bars[k].ts);
      }
      assert bars[..|bars|] == bars;
      DrivenMeans(bars, start);
      SameLength();
      return Ok(RunResult(digest.events, read, digest.count, firstTs, lastTs)), done;
    }

    lemma SameLength()
      requires Valid()
      ensures |strategies| == |calls| && digest.count == |digest.events|
    {
    }

    /** The run so far over these bars. */
    ghost predicate Driven(bars: seq<Bar>, start: State)
      requires |strategies| == |start.past.calls|
      reads this, digest
    {
      Drives(Setting(), bars, start, State(digest.events, intents, Past()))
    }

    method PublishBar(bar: Bar)
      requires Valid() && bar.ts == clock.now
      modifies this`intents, this`observed, this`calls, bus`published, digest
      ensures Valid() && |strategies| == |old(calls)|
      ensures digest.events == old(digest.events) + BarTrace(Setting(), old(Past()), bar)
      ensures intents == old(intents) + Reactions(Setting(), old(Past()), bar, |strategies|)
      ensures Past() == After(Setting(), old(Past()), bar)
    {
      ghost var before := State(digest.events, intents, Past());
      hide BarTrace, Reactions, After, Delivers;
      Publish(BarEvent(bar));
      FullDelivery(Setting(), bar, before, State(digest.events, intents, Past()));
    }

    lemma StartsDriven(start: State, now: int)
      requires |strategies| == |calls| && start == State(digest.events, intents, Past())
      ensures |strategies| == |start.past.calls| && Driven([], start) && InOrder(now, [])
    {
      NothingDriven(Setting(), start, now);
    }

    lemma DrivenMeans(bars: seq<Bar>, start: State)
      requires |strategies| == |start.past.calls| && Driven(bars, start)
      ensures digest.events == start.events + Trace(Setting(), start.past, bars)
      ensures intents == start.intents + IntentsIn(Trace(Setting(), start.past, bars))
      ensures Past() == HistoryAfter(Setting(), start.past, bars)
    {
      hide Trace, IntentsIn, HistoryAfter;
    }

    /** Moves the clock to the bar and publishes it, unless that would rewind. */
    method Advance(bar: Bar, ghost bars: seq<Bar>, ghost start: State) returns (ok: bool)
      requires Valid() && |strategies| == |start.past.calls| && Driven(bars, start)
      modifies this`intents, this`observed, this`calls, bus`published, digest, clock
      ensures Valid() && (ok <==> old(clock.now) <= bar.ts)
      ensures clock.now == if ok then bar.ts else old(clock.now)
      ensures if ok then Driven(bars + [bar], start) else Driven(bars, start)
    {
      hide Drives;
      ok := clock.SetTime(bar.ts);
      if ok { DriveStep(bars, bar, start); }
    }

    method DriveStep(ghost bars: seq<Bar>, bar: Bar, ghost start: State)
      requires Valid() && clock.now == bar.ts && |strategies| == |start.past.calls| && Driven(bars, start)
      modifies this`intents, this`observed, this`calls, bus`published, digest
      ensures Valid() && Driven(bars + [bar], start)
    {
      ghost var before := State(digest.events, intents, Past());
      assert |strategies| == |Past().calls|;
      hide BarTrace, Reactions, After, Drives, BacktestEngine.Valid;
      PublishBar(bar);
      DrivesOn(Setting(), bars, bar, start, before, State(digest.events, intents, Past()));
    }

    /** Replays `start <= close < end`. Earlier bars only fill the context: no subscriber is shown them. */
    method Run(start: int, end: int, warmup: int) returns (r: Result<BacktestResult>, ghost primed: seq<Bar>, ghost done: nat)
      requires Valid()
      modifies this`intents, this`observed, this`calls, bus`published, digest, clock
      ensures Valid() && |strategies| == |old(calls)|
      ensures primed == if warmup == 0 then [] else Events(feed, Max(0, start - warmup), start)
      ensures var bars, past := Events(feed, start, end), History(old(observed) + primed, old(calls));
              && done <= |bars|
              && digest.events == old(digest.events) + Trace(Setting(), past, bars[..done])
              && intents == old(intents) + IntentsIn(Trace(Setting(), past, bars[..done]))
              && (r.Ok? <==> InOrder(old(clock.now), bars))
              && (r.Ok? ==>
                    && done == |bars| == r.value.run.read && r.value.run.dispatched == |digest.events|
                    && r.value.run.events == digest.events && r.value.intents == intents
                    && r.value.regimeGated == !ungated)
    {
      hide Trace, IntentsIn, HistoryAfter, InOrder, Events;
      primed := [];
      if warmup != 0 {
        var bars := Events(feed, Max(0, start - warmup), start);
        for k := 0 to |bars|
          invariant Valid() && observed == old(observed) + bars[..k] && calls == old(calls) && intents == old(intents)
          invariant digest.events == old(digest.events) && clock.now == old(clock.now)
        {
          observed := observed + [bars[k]];
          assert bars[..k + 1] == bars[..k] + [bars[k]];
        }
        assert bars[..|bars|] == bars;
        primed := bars;
      }
      assert Past() == History(old(observed) + primed, old(calls));
      var run;
      run, done := Drive(Events(feed, start, end));
      r := if run.Err? then Err(run.error) else Ok(BacktestResult(run.value, intents, !ungated));
    }
  }

  function InRange(start: int, end: int): Bar -> bool { (b: Bar) => start <= b.ts < end }

  /** The feed's bars of a half-open range. */
  function Events(feed: seq<Bar>, start: int, end: int): seq<Bar> { Select(feed, InRange(start, end)) }

  /** No bar is earlier than the one before it, nor the first than the clock. */
  ghost predicate InOrder(now: int, bars: seq<Bar>) {
    && (bars != [] ==> now <= bars[0].ts)
    && forall k :: 1 <= k < |bars| ==> bars[k - 1].ts <= bars[k].ts
  }

  /** A run over a range dispatches exactly the feed's bars in it, in feed order: a warm-up bar, or any
      other from outside, is never among them. */
  lemma OnlyTheRangeIsDispatched(u: Setup, h: History, feed: seq<Bar>, start: int, end: int)
    requires |u.strategies| == |h.calls|
    ensures BarsIn(Trace(u, h, Events(feed, start, end))) == Events(feed, start, end)
    ensures forall b :: BarEvent(b) in Trace(u, h, Events(feed, start, end)) <==> b in feed && start <= b.ts < end
  {
    var events := Trace(u, h, Events(feed, start, end));
    hide Trace;
    TraceProjects(u, h, Events(feed, start, end));
    forall b ensures BarEvent(b) in events <==> b in feed && start <= b.ts < end {
      InProjection(events, b);
      InSelect(feed, b, InRange(start, end));
    }
  }

  lemma {:induction false} InProjection(events: seq<Event>, b: Bar)
    ensures b in BarsIn(events) <==> BarEvent(b) in events
  {
    if events != [] {
      var n := |events| - 1;
      InProjection(events[..n], b);
      assert events == events[..n] + [events[n]];
    }
  }

  /** A time-ordered feed never stops a run whose clock starts no later than the range. */
  lemma {:induction false} OrderedFeedRuns(feed: seq<Bar>, start: int, end: int, now: int)
    requires now <= start && forall i, j :: 0 <= i < j < |feed| ==> feed[i].ts <= feed[j].ts
    ensures InOrder(now, Events(feed, start, end))
  {
    if feed != [] {
      var n := |feed| - 1;
      var front := Events(feed[..n], start, end);
      OrderedFeedRuns(feed[..n], start, end, now);
      if front != [] {
        assert front[|front| - 1] in front;
        InSelect(feed[..n], front[|front| - 1], InRange(start, end));
      }
    }
  }

  lemma OrderGrows(now: int, bars: seq<Bar>, k: nat)
    requires k < |bars| && InOrder(now, bars[..k])
    ensures InOrder(now, bars[..k + 1]) <==> (if k == 0 then now else bars[k - 1].ts) <= bars[k].ts
    ensures InOrder(now, bars) ==> InOrder(now, bars[..k + 1])
  {
  }

  /** A run over the bars leads from one state to the other. */
  ghost predicate Drives(u: Setup, bars: seq<Bar>, start: State, now: State)
    requires |u.strategies| == |start.past.calls|
  {
    && now.events == start.events + Trace(u, start.past, bars)
    && now.intents == start.intents + IntentsIn(Trace(u, start.past, bars))
    && now.past == HistoryAfter(u, start.past, bars)
  }

  lemma NothingDriven(u: Setup, start: State, now: int)
    requires |u.strategies| == |start.past.calls|
    ensures Drives(u, [], start, start) && InOrder(now, [])
  {
  }

  lemma DrivesOn(u: Setup, bars: seq<Bar>, bar: Bar, start: State, before: State, after: State)
    requires |u.strategies| == |start.past.calls| == |before.past.calls| && Drives(u, bars, start, before)
    requires after.events == before.events + BarTrace(u, before.past, bar)
    requires after.intents == before.intents + Reactions(u, before.past, bar, |u.strategies|)
    requires after.past == After(u, before.past, bar)
    ensures Drives(u, bars + [bar], start, after)
  {
    hide Trace, BarTrace, IntentsIn, Reactions, HistoryAfter, After;
    TraceGrows(u, start.past, bars, bar);
  }

  lemma TraceGrows(u: Setup, h: History, bars: seq<Bar>, bar: Bar)
    requires |u.strategies| == |h.calls|
    ensures var now := HistoryAfter(u, h, bars);
            && HistoryAfter(u, h, bars + [bar]) == After(u, now, bar)
            && Trace(u, h, bars + [bar]) == Trace(u, h, bars) + BarTrace(u, now, bar)
            && IntentsIn(Trace(u, h, bars + [bar])) == IntentsIn(Trace(u, h, bars)) + Reactions(u, now, bar, |u.strategies|)
  {
    assert (bars + [bar])[..|bars|] == bars;
    hide BarTrace, After, Reactions, IntentsIn;
    var now := HistoryAfter(u, h, bars);
    ProjectionsJoin(Trace(u, h, bars), BarTrace(u, now, bar));
    BarTraceProjects(u, now, bar);
  }

  lemma ReactionsGrow(u: Setup, h: History, bar: Bar, k: nat)
    requires k < |u.strategies| == |h.calls|
    ensures Reactions(u, h, bar, k + 1) == Reactions(u, h, bar, k) + Reaction(u, h, bar, k)
    ensures AsEvents(Reactions(u, h, bar, k + 1)) == AsEvents(Reactions(u, h, bar, k)) + AsEvents(Reaction(u, h, bar, k))
  {
    hide Reaction;
  }
}
