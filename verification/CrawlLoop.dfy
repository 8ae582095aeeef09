/** The pass itself: which symbols are still asked for, when it stops, and what it reports. */
module CrawlLoop {
  import opened Common
  import opened Sequences
  import opened Sorting
  import opened Backfill
  import opened Planning
  import opened Crawler

  /** One window's turn in a pass. */
  datatype Visit = Visit(window: Window, requested: bool, fetched: Fetched) {
    predicate Failed() { requested && exists k :: 0 <= k < |fetched.outcomes| && fetched.outcomes[k].status == FAILED }
  }

  datatype Report = Report(
    outcomes: seq<Outcome>,
    planned: nat,
    plannedWindows: nat,
    requests: nat,
    stopped: bool
  )

  /** The symbol has already failed in this pass. */
  ghost predicate Burnt(trace: seq<Visit>, symbol: Symbol) {
    exists i :: 0 <= i < |trace| && trace[i].Failed() && trace[i].window.symbol == symbol
  }

  function Requests(trace: seq<Visit>): nat {
    if trace == [] then 0 else Requests(trace[..|trace| - 1]) + (if trace[|trace| - 1].requested then 1 else 0)
  }

  /** The symbols of the failed requests since the last one that succeeded; skipped windows do not break
      the run. */
  function Run(trace: seq<Visit>): seq<Symbol> {
    if trace == [] then []
    else
      var front, last := trace[..|trace| - 1], trace[|trace| - 1];
      if !last.requested then Run(front) else if last.Failed() then Run(front) + [last.window.symbol] else []
  }

  function OutcomesOf(trace: seq<Visit>): seq<Outcome> {
    if trace == [] then [] else OutcomesOf(trace[..|trace| - 1]) + trace[|trace| - 1].fetched.outcomes
  }

  /** What one turn may do, given the turns before it. */
  ghost predicate Turn(ports: Ports, before: seq<Visit>, v: Visit) {
    && v.window.Valid()
    && (v.requested <==> !Burnt(before, v.window.symbol))
    && (!v.requested ==> v.fetched == Fetched([], AllWith(v.window, SKIPPED)))
    && (v.requested ==>
          var answer := ports.fetch(Requests(before), RequestFor(v.window));
          !Breaks(v.window, answer, ports) && Answers(v.window, answer, v.fetched))
  }

  ghost predicate Pass(ports: Ports, windows: seq<Window>, trace: seq<Visit>) {
    && |trace| <= |windows|
    && forall k :: 0 <= k < |trace| ==> trace[k].window == windows[k] && Turn(ports, trace[..k], trace[k])
  }

  ghost predicate NeverStopped(trace: seq<Visit>, limit: nat) {
    forall k :: 0 <= k < |trace| ==> |Run(trace[..k])| < limit
  }

  /** The report of a pass: its outcomes and requests, stopped exactly when the run of failures is long
      enough, and otherwise at the end of the work. */
  ghost predicate Reports(ports: Ports, windows: seq<Window>, maxFailures: nat, trace: seq<Visit>, report: Report) {
    && Pass(ports, windows, trace) && NeverStopped(trace, maxFailures)
    && report.outcomes == OutcomesOf(trace) && report.requests == Requests(trace)
    && (report.stopped <==> |Run(trace)| >= maxFailures)
    && (!report.stopped ==> |trace| == |windows|)
  }

  /** The pass is still going after these turns, and the next window's answer ends it outright. */
  ghost predicate BreaksAfter(ports: Ports, windows: seq<Window>, maxFailures: nat, trace: seq<Visit>) {
    && Pass(ports, windows, trace) && NeverStopped(trace, maxFailures) && |Run(trace)| < maxFailures
    && |trace| < |windows| && windows[|trace|].Valid() && !Burnt(trace, windows[|trace|].symbol)
    && Breaks(windows[|trace|], ports.fetch(Requests(trace), RequestFor(windows[|trace|])), ports)
  }

  lemma AnswersDetermine(w: Window, answer: Result<seq<Delivered>>, f: Fetched, g: Fetched)
    requires Answers(w, answer, f) && Answers(w, answer, g)
    ensures f == g
  {
    hide Ordered, Meets;
    assert f.batches == g.batches && f.outcomes == g.outcomes;
  }

  lemma TurnsDetermine(ports: Ports, before: seq<Visit>, v: Visit, u: Visit)
    requires Turn(ports, before, v) && Turn(ports, before, u) && v.window == u.window
    ensures v == u
  {
    hide Answers, Burnt, Breaks, Requests;
    if v.requested {
      AnswersDetermine(v.window, ports.fetch(Requests(before), RequestFor(v.window)), v.fetched, u.fetched);
    }
  }

  /** Ports decide a pass: two passes over the same windows agree for as long as both run. */
  lemma {:induction false} PassesAgree(ports: Ports, windows: seq<Window>, a: seq<Visit>, b: seq<Visit>, k: nat)
    requires Pass(ports, windows, a) && Pass(ports, windows, b) && k <= |a| && k <= |b|
    ensures a[..k] == b[..k]
  {
    hide Turn;
    if k > 0 {
      PassesAgree(ports, windows, a, b, k - 1);
      TurnsDetermine(ports, a[..k - 1], a[k - 1], b[k - 1]);
    }
  }

  /** A pass that ends with a report is not one that breaks. */
  lemma ReportedIsUnbroken(ports: Ports, windows: seq<Window>, maxFailures: nat, done: seq<Visit>, report: Report,
                           trace: seq<Visit>)
    requires Reports(ports, windows, maxFailures, done, report)
    ensures !BreaksAfter(ports, windows, maxFailures, trace)
  {
    hide Pass, NeverStopped, Run, OutcomesOf, Requests, Burnt, Breaks, Window.Valid;
    if Pass(ports, windows, trace) && |trace| < |done| {
      PassesAgree(ports, windows, done, trace, |trace|);
      assert done[..|trace|] == trace;
      TurnIsUnbroken(ports, windows, done, |trace|);
    } else if Pass(ports, windows, trace) && |trace| < |windows| {
      PassesAgree(ports, windows, done, trace, |done|);
      StoppedBy(trace, |done|, maxFailures);
      assert done[..|done|] == done;
    }
  }

  lemma StoppedBy(trace: seq<Visit>, k: nat, maxFailures: nat)
    requires k <= |trace|
    ensures |Run(trace[..k])| >= maxFailures ==> !NeverStopped(trace, maxFailures) || |Run(trace)| >= maxFailures
  {
    hide Run;
    if k == |trace| { assert trace[..k] == trace; }
  }

  lemma TurnIsUnbroken(ports: Ports, windows: seq<Window>, trace: seq<Visit>, k: nat)
    requires Pass(ports, windows, trace) && k < |trace|
    ensures windows[k].Valid()
    ensures Burnt(trace[..k], windows[k].symbol) ||
            !Breaks(windows[k], ports.fetch(Requests(trace[..k]), RequestFor(windows[k])), ports)
  {
    hide Burnt, Breaks, Answers, Requests;
    assert Turn(ports, trace[..k], trace[k]);
  }

  lemma PassGrows(ports: Ports, windows: seq<Window>, trace: seq<Visit>, v: Visit)
    requires Pass(ports, windows, trace) && |trace| < |windows| && v.window == windows[|trace|] && Turn(ports, trace, v)
    ensures Pass(ports, windows, trace + [v])
  {
    var after := trace + [v];
    assert after[..|trace|] == trace;
    hide Turn;
    forall k | 0 <= k < |after| ensures after[k].window == windows[k] && Turn(ports, after[..k], after[k]) {
      assert k < |trace| ==> after[..k] == trace[..k];
    }
  }

  lemma TotalsGrow(trace: seq<Visit>, v: Visit)
    ensures OutcomesOf(trace + [v]) == OutcomesOf(trace) + v.fetched.outcomes
    ensures Requests(trace + [v]) == Requests(trace) + (if v.requested then 1 else 0)
    ensures Run(trace + [v]) == if !v.requested then Run(trace) else if v.Failed() then Run(trace) + [v.window.symbol] else []
  {
    assert (trace + [v])[..|trace|] == trace;
    hide Visit.Failed;
  }

  lemma BurntGrows(trace: seq<Visit>, v: Visit)
    ensures forall s :: Burnt(trace + [v], s) <==> Burnt(trace, s) || (v.Failed() && v.window.symbol == s)
  {
    hide Visit.Failed;
    var after := trace + [v];
    forall s ensures Burnt(after, s) <==> Burnt(trace, s) || (v.Failed() && v.window.symbol == s) {
      if Burnt(trace, s) {
        var i :| 0 <= i < |trace| && trace[i].Failed() && trace[i].window.symbol == s;
        assert after[i] == trace[i];
      }
      if v.Failed() && v.window.symbol == s { assert after[|trace|] == v; }
    }
  }

  /** Visits the windows in order until they run out or `maxFailures` requests in a row have failed. */
  method CrawlWindows(windows: seq<Window>, ports: Ports, maxFailures: nat)
    returns (r: Result<Report>, ghost trace: seq<Visit>)
    requires maxFailures >= 1 && forall k :: 0 <= k < |windows| ==> windows[k].Valid()
    ensures Pass(ports, windows, trace) && NeverStopped(trace, maxFailures)
    ensures r.Ok? ==> Reports(ports, windows, maxFailures, trace, r.value)
    ensures r.Ok? ==> exists t :: Reports(ports, windows, maxFailures, t, r.value)
    ensures r.Err? ==> BreaksAfter(ports, windows, maxFailures, trace)
    ensures r.Err? <==> exists t :: BreaksAfter(ports, windows, maxFailures, t)
  {
    trace := [];
    var state := PassState([], {}, 0, 0);
    NothingVisited(ports, windows, maxFailures);
    hide Standing, Turn, Pass, NeverStopped, Burnt, Breaks, Run, Requests, OutcomesOf, Window.Valid;
    for k := 0 to |windows|
      invariant |trace| == k && Standing(ports, windows, trace, state, maxFailures)
    {
      StandingAsks(ports, windows, trace, state, maxFailures);
      var asked := windows[k].symbol !in state.failed;
      var turn := TakeTurn(windows[k], asked, ports, state.requests, trace);
      if turn.Err? { return Err(turn.error), trace; }
      StandingGrows(ports, windows, trace, state, maxFailures, asked, turn.value.0, turn.value.1);
      state := Entered(state, windows[k], asked, turn.value.0, turn.value.1);
      trace := trace + [Visit(windows[k], asked, turn.value.0)];
      StandingReports(ports, windows, trace, state, maxFailures);
      if state.consecutive >= maxFailures {
        r := Ok(Report(state.outcomes, 0, 0, state.requests, true));
        EndsUnbroken(ports, windows, maxFailures, trace, r.value);
        return;
      }
      StandingContinues(ports, windows, trace, state, maxFailures);
    }
    StandingAsks(ports, windows, trace, state, maxFailures);
    r := Ok(Report(state.outcomes, 0, 0, state.requests, false));
    EndsUnbroken(ports, windows, maxFailures, trace, r.value);
  }

  lemma EndsUnbroken(ports: Ports, windows: seq<Window>, maxFailures: nat, done: seq<Visit>, report: Report)
    requires Reports(ports, windows, maxFailures, done, report)
    ensures forall t :: !BreaksAfter(ports, windows, maxFailures, t)
  {
    hide Reports, BreaksAfter;
    forall t ensures !BreaksAfter(ports, windows, maxFailures, t) {
      ReportedIsUnbroken(ports, windows, maxFailures, done, report, t);
    }
  }

  /** The pass's running state. */
  datatype PassState = PassState(outcomes: seq<Outcome>, failed: set<Symbol>, consecutive: nat, requests: nat)

  function Entered(b: PassState, window: Window, asked: bool, fetched: Fetched, isFailed: bool): PassState {
    PassState(b.outcomes + fetched.outcomes,
          if asked && isFailed then b.failed + {window.symbol} else b.failed,
          if !asked then b.consecutive else if isFailed then b.consecutive + 1 else 0,
          b.requests + (if asked then 1 else 0))
  }

  ghost predicate Accounts(trace: seq<Visit>, b: PassState) {
    && b.outcomes == OutcomesOf(trace) && b.requests == Requests(trace) && b.consecutive == |Run(trace)|
    && forall s :: s in b.failed <==> Burnt(trace, s)
  }

  ghost predicate Standing(ports: Ports, windows: seq<Window>, trace: seq<Visit>, b: PassState, maxFailures: nat) {
    Pass(ports, windows, trace) && NeverStopped(trace, maxFailures) && Accounts(trace, b) && b.consecutive < maxFailures
  }

  lemma NothingVisited(ports: Ports, windows: seq<Window>, maxFailures: nat)
    requires maxFailures >= 1
    ensures Standing(ports, windows, [], PassState([], {}, 0, 0), maxFailures)
  {
  }

  lemma StandingAsks(ports: Ports, windows: seq<Window>, trace: seq<Visit>, b: PassState, maxFailures: nat)
    requires Standing(ports, windows, trace, b, maxFailures)
    ensures Pass(ports, windows, trace) && NeverStopped(trace, maxFailures) && Accounts(trace, b) && |Run(trace)| < maxFailures
    ensures b.requests == Requests(trace) && b.outcomes == OutcomesOf(trace)
    ensures forall s :: s in b.failed <==> Burnt(trace, s)
  {
    hide Pass, NeverStopped, Burnt, Run, Requests, OutcomesOf;
  }

  lemma AccountsGrow(trace: seq<Visit>, b: PassState, window: Window, asked: bool, fetched: Fetched, isFailed: bool)
    requires Accounts(trace, b) && (isFailed <==> Visit(window, asked, fetched).Failed())
    ensures Accounts(trace + [Visit(window, asked, fetched)], Entered(b, window, asked, fetched, isFailed))
  {
    var v := Visit(window, asked, fetched);
    assert !asked ==> !v.Failed();
    hide Burnt, Run, Requests, OutcomesOf, Visit.Failed;
    TotalsGrow(trace, v);
    BurntGrows(trace, v);
  }

  lemma StandingGrows(ports: Ports, windows: seq<Window>, trace: seq<Visit>, b: PassState, maxFailures: nat,
                      asked: bool, fetched: Fetched, isFailed: bool)
    requires Standing(ports, windows, trace, b, maxFailures) && |trace| < |windows|
    requires Turn(ports, trace, Visit(windows[|trace|], asked, fetched))
    requires isFailed <==> Visit(windows[|trace|], asked, fetched).Failed()
    ensures var v := Visit(windows[|trace|], asked, fetched);
            && Pass(ports, windows, trace + [v]) && NeverStopped(trace + [v], maxFailures)
            && Accounts(trace + [v], Entered(b, windows[|trace|], asked, fetched, isFailed))
  {
    var v := Visit(windows[|trace|], asked, fetched);
    StandingAsks(ports, windows, trace, b, maxFailures);
    hide *;
    PassGrows(ports, windows, trace, v);
    NeverStoppedGrows(trace, v, maxFailures);
    AccountsGrow(trace, b, windows[|trace|], asked, fetched, isFailed);
  }

  lemma StandingReports(ports: Ports, windows: seq<Window>, trace: seq<Visit>, b: PassState, maxFailures: nat)
    requires Pass(ports, windows, trace) && NeverStopped(trace, maxFailures) && Accounts(trace, b)
    ensures b.outcomes == OutcomesOf(trace) && b.requests == Requests(trace) && b.consecutive == |Run(trace)|
  {
  }

  lemma StandingContinues(ports: Ports, windows: seq<Window>, trace: seq<Visit>, b: PassState, maxFailures: nat)
    requires Pass(ports, windows, trace) && NeverStopped(trace, maxFailures) && Accounts(trace, b)
    requires b.consecutive < maxFailures
    ensures Standing(ports, windows, trace, b, maxFailures)
  {
  }

  /** Skips the window, or sends its request and reads the answer. */
  method TakeTurn(window: Window, asked: bool, ports: Ports, requests: nat, ghost before: seq<Visit>)
    returns (r: Result<(Fetched, bool)>)
    requires window.Valid() && requests == Requests(before) && (asked <==> !Burnt(before, window.symbol))
    ensures r.Ok? ==> var v := Visit(window, asked, r.value.0); Turn(ports, before, v) && (r.value.1 <==> v.Failed())
    ensures r.Err? ==> asked && Breaks(window, ports.fetch(requests, RequestFor(window)), ports)
  {
    hide Answers, Burnt, Window.Valid, Breaks;
    if !asked { return Ok((Fetched([], AllWith(window, SKIPPED)), false)); }
    var answer := FetchWindow(window, ports.fetch(requests, RequestFor(window)), ports);
    if answer.Err? { return Err(answer.error); }
    var outcomes := answer.value.outcomes;
    return Ok((answer.value, exists j :: 0 <= j < |outcomes| && outcomes[j].status == FAILED));
  }

  lemma NeverStoppedGrows(trace: seq<Visit>, v: Visit, limit: nat)
    requires NeverStopped(trace, limit) && |Run(trace)| < limit
    ensures NeverStopped(trace + [v], limit)
  {
    var after := trace + [v];
    forall k | 0 <= k < |after| ensures |Run(after[..k])| < limit {
      assert after[..k] == if k < |trace| then trace[..k] else trace;
    }
  }

  // ---- What a pass keeps ----

  /** A symbol whose request failed is never asked for again: every later window of it is skipped. */
  lemma NeverAskedAgain(ports: Ports, windows: seq<Window>, trace: seq<Visit>, i: nat, j: nat)
    requires Pass(ports, windows, trace) && i < j < |trace| && trace[i].Failed()
    requires trace[j].window.symbol == trace[i].window.symbol
    ensures !trace[j].requested && trace[j].fetched.outcomes == AllWith(windows[j], SKIPPED)
  {
    hide Answers, Visit.Failed, Window.Valid;
    assert trace[..j][i] == trace[i];
    assert Turn(ports, trace[..j], trace[j]);
  }

  /** A request failed exactly when the feed refused it, and then failed every session it covered. */
  lemma FailureIsRefusal(ports: Ports, windows: seq<Window>, trace: seq<Visit>, k: nat)
    requires Pass(ports, windows, trace) && k < |trace|
    ensures trace[k].Failed() <==> trace[k].requested && ports.fetch(Requests(trace[..k]), RequestFor(windows[k])).Err?
    ensures trace[k].Failed() ==> trace[k].fetched.outcomes == AllWith(windows[k], FAILED)
  {
    assert Turn(ports, trace[..k], trace[k]);
    hide Ordered, Meets, Requests, Burnt;
    var v := trace[k];
    if v.requested && ports.fetch(Requests(trace[..k]), RequestFor(windows[k])).Err? {
      assert v.fetched.outcomes[0].status == FAILED;
    }
  }

  /** The failures in a row are as many different symbols, none of them succeeded since, and each had
      failed in this pass. */
  lemma {:induction false} RunIsDistinctSymbols(ports: Ports, windows: seq<Window>, trace: seq<Visit>)
    requires Pass(ports, windows, trace)
    ensures Distinct(Run(trace)) && forall s :: s in Run(trace) ==> Burnt(trace, s)
  {
    hide *;
    if trace == [] {
      EmptyRun();
    } else {
      var n := |trace| - 1;
      PassPrefix(ports, windows, trace, n);
      RunIsDistinctSymbols(ports, windows, trace[..n]);
      AskedUnlessBurnt(ports, windows, trace, n);
      assert trace == trace[..n] + [trace[n]];
      RunStep(trace[..n], trace[n]);
    }
  }

  lemma EmptyRun()
    ensures Run([]) == [] && Distinct(Run([]))
  {
  }

  lemma AskedUnlessBurnt(ports: Ports, windows: seq<Window>, trace: seq<Visit>, k: nat)
    requires Pass(ports, windows, trace) && k < |trace|
    ensures trace[k].requested <==> !Burnt(trace[..k], trace[k].window.symbol)
  {
    hide Burnt, Answers, Window.Valid, Requests;
    assert Turn(ports, trace[..k], trace[k]);
  }

  lemma RunStep(before: seq<Visit>, v: Visit)
    requires Distinct(Run(before)) && forall s :: s in Run(before) ==> Burnt(before, s)
    requires v.requested ==> !Burnt(before, v.window.symbol)
    ensures Distinct(Run(before + [v])) && forall s :: s in Run(before + [v]) ==> Burnt(before + [v], s)
  {
    hide Burnt, Run, Visit.Failed;
    TotalsGrow(before, v);
    BurntGrows(before, v);
  }

  lemma PassPrefix(ports: Ports, windows: seq<Window>, trace: seq<Visit>, n: nat)
    requires Pass(ports, windows, trace) && n <= |trace|
    ensures Pass(ports, windows, trace[..n])
  {
    hide Turn;
    forall k | 0 <= k < n ensures Turn(ports, trace[..n][..k], trace[..n][k]) { assert trace[..n][..k] == trace[..k]; }
  }

  /** A pass that stops does so on the failed request that completes the run, not later: the run has
      exactly the configured length and the last outcome is a failure. */
  lemma StopsOnTheLastFailure(ports: Ports, windows: seq<Window>, trace: seq<Visit>, maxFailures: nat)
    requires Pass(ports, windows, trace) && NeverStopped(trace, maxFailures) && maxFailures >= 1
    requires |Run(trace)| >= maxFailures
    ensures |Run(trace)| == maxFailures && trace[|trace| - 1].Failed()
    ensures OutcomesOf(trace) != [] && OutcomesOf(trace)[|OutcomesOf(trace)| - 1].status == FAILED
  {
    var n := |trace| - 1;
    assert |Run(trace[..n])| < maxFailures;
    FailureIsRefusal(ports, windows, trace, n);
    assert Turn(ports, trace[..n], trace[n]);
    hide Burnt, Answers, Visit.Failed, Pass, OutcomesOf, NeverStopped;
    assert OutcomesOf(trace) == OutcomesOf(trace[..n]) + trace[n].fetched.outcomes by { OutcomesEnd(trace); }
  }

  lemma OutcomesEnd(trace: seq<Visit>)
    requires trace != []
    ensures OutcomesOf(trace) == OutcomesOf(trace[..|trace| - 1]) + trace[|trace| - 1].fetched.outcomes
  {
  }

  // ---- One outcome per session ----

  function KeysOf(w: Window): (r: seq<(Symbol, int)>)
    ensures |r| == |w.cells|
  {
    seq(|w.cells|, k requires 0 <= k < |w.cells| => (w.symbol, w.cells[k].Date()))
  }

  function Keys(windows: seq<Window>): seq<(Symbol, int)> {
    if windows == [] then [] else Keys(windows[..|windows| - 1]) + KeysOf(windows[|windows| - 1])
  }

  function Named(outcomes: seq<Outcome>): (r: seq<(Symbol, int)>)
    ensures |r| == |outcomes|
  {
    seq(|outcomes|, k requires 0 <= k < |outcomes| => (outcomes[k].symbol, outcomes[k].date))
  }

  /** A turn reports on the window's sessions, one outcome each, in order, whatever happened. */
  lemma TurnNamesItsSessions(ports: Ports, before: seq<Visit>, v: Visit)
    requires Turn(ports, before, v)
    ensures Named(v.fetched.outcomes) == KeysOf(v.window)
  {
    hide Ordered, Meets, Requests, Burnt;
  }

  /** Every session of every window the pass reached gets exactly one outcome, in the order offered. */
  lemma {:induction false} OneOutcomePerSession(ports: Ports, windows: seq<Window>, trace: seq<Visit>)
    requires Pass(ports, windows, trace)
    ensures Named(OutcomesOf(trace)) == Keys(windows[..|trace|])
  {
    if trace != [] {
      var n := |trace| - 1;
      PassPrefix(ports, windows, trace, n);
      OneOutcomePerSession(ports, windows, trace[..n]);
      assert windows[..n + 1][..n] == windows[..n];
      assert Turn(ports, trace[..n], trace[n]) && trace[n].window == windows[n];
      TurnNamesItsSessions(ports, trace[..n], trace[n]);
      hide Turn;
      NamedJoins(OutcomesOf(trace[..n]), trace[n].fetched.outcomes);
    }
  }

  lemma NamedJoins(a: seq<Outcome>, b: seq<Outcome>)
    ensures Named(a + b) == Named(a) + Named(b)
  {
  }

  // ---- Over the whole plan ----

  lemma {:induction false} KeysJoin(a: seq<Window>, b: seq<Window>)
    ensures Keys(a + b) == Keys(a) + Keys(b)
  {
    hide KeysOf;
    if b == [] {
      assert a + b == a;
    } else {
      var n := |b| - 1;
      assert (a + b)[..|a + b| - 1] == a + b[..n];
      KeysJoin(a, b[..n]);
    }
  }

  lemma {:induction false} SelectShares(windows: seq<Window>)
    ensures multiset(Keys(Select(windows, Untouched()))) + multiset(Keys(Select(windows, Short()))) == multiset(Keys(windows))
  {
    hide *;
    if windows == [] {
      NothingShared();
    } else {
      var n := |windows| - 1;
      SelectShares(windows[..n]);
      assert windows == windows[..n] + [windows[n]];
      ShareStep(windows[..n], windows[n]);
    }
  }

  lemma NothingShared()
    ensures Select([], Untouched()) == [] && Select([], Short()) == [] && Keys([]) == []
  {
  }

  lemma ShareStep(front: seq<Window>, w: Window)
    requires multiset(Keys(Select(front, Untouched()))) + multiset(Keys(Select(front, Short()))) == multiset(Keys(front))
    ensures multiset(Keys(Select(front + [w], Untouched()))) + multiset(Keys(Select(front + [w], Short()))) ==
              multiset(Keys(front + [w]))
  {
    hide Keys, Window.HasUntouched, Select;
    KeysOfOne(w);
    KeysJoin(front, [w]);
    KeysJoin(Select(front, Untouched()), [w]);
    KeysJoin(Select(front, Short()), [w]);
    SelectPush(front, w, Untouched());
    SelectPush(front, w, Short());
    if w.HasUntouched() {
      assert Select(front + [w], Short()) == Select(front, Short());
    } else {
      assert Select(front + [w], Untouched()) == Select(front, Untouched());
    }
  }

  lemma KeysOfOne(w: Window)
    ensures Keys([w]) == KeysOf(w)
  {
    assert [w][..0] == [];
    assert Keys([]) == [];
  }

  /** Reordering the requests loses no session and repeats none. */
  lemma OrderKeepsSessions(windows: seq<Window>)
    ensures multiset(Keys(OrderWindows(windows))) == multiset(Keys(windows))
  {
    OrderSeparates(windows);
    KeysJoin(Select(windows, Untouched()), Select(windows, Short()));
    hide OrderWindows, Select, Keys;
    SelectShares(windows);
  }

  /** A pass that was not cut short reports on every session of the plan once, and on nothing else. */
  lemma CompletedPassCoversThePlan(ports: Ports, windows: seq<Window>, trace: seq<Visit>)
    requires Pass(ports, OrderWindows(windows), trace) && |trace| == |OrderWindows(windows)|
    ensures multiset(Named(OutcomesOf(trace))) == multiset(Keys(windows))
    ensures |OutcomesOf(trace)| == |Keys(windows)|
  {
    OneOutcomePerSession(ports, OrderWindows(windows), trace);
    assert OrderWindows(windows)[..|trace|] == OrderWindows(windows);
    OrderKeepsSessions(windows);
    hide OrderWindows, Pass, Keys, OutcomesOf;
    assert |multiset(Keys(windows))| == |Keys(windows)|;
    assert |multiset(Named(OutcomesOf(trace)))| == |OutcomesOf(trace)|;
  }

  lemma {:induction false} KeysAt(windows: seq<Window>, i: nat) returns (k: nat, x: nat)
    requires i < |Keys(windows)|
    ensures k < |windows| && x < |windows[k].cells| && Keys(windows)[i] == KeysOf(windows[k])[x]
    ensures i == |Keys(windows[..k])| + x
  {
    var n := |windows| - 1;
    if i < |Keys(windows[..n])| {
      k, x := KeysAt(windows[..n], i);
      assert windows[..n][..k] == windows[..k];
    } else {
      k, x := n, i - |Keys(windows[..n])|;
    }
  }

  /** No session is asked for twice, so a completed pass gives each of them its one outcome. */
  lemma KeysAreDistinct(cells: seq<Cell>, windowDays: int)
    requires Windows(cells, windowDays).Ok?
    ensures Distinct(Keys(Windows(cells, windowDays).value))
  {
    hide Windows, Keys;
    var windows := Windows(cells, windowDays).value;
    var keys := Keys(windows);
    forall i, j | 0 <= i < j < |keys| ensures keys[i] != keys[j] {
      var k, x := KeysAt(windows, i);
      var l, y := KeysAt(windows, j);
      SlotsOfOneKey(cells, windowDays, k, x, l, y);
    }
  }

  lemma SlotsOfOneKey(cells: seq<Cell>, windowDays: int, k: nat, x: nat, l: nat, y: nat)
    requires Windows(cells, windowDays).Ok?
    requires k < |Windows(cells, windowDays).value| && l < |Windows(cells, windowDays).value|
    requires x < |Windows(cells, windowDays).value[k].cells| && y < |Windows(cells, windowDays).value[l].cells|
    ensures KeysOf(Windows(cells, windowDays).value[k])[x] == KeysOf(Windows(cells, windowDays).value[l])[y] ==>
              k == l && x == y
  {
    hide Windows;
    var a, b := Windows(cells, windowDays).value[k], Windows(cells, windowDays).value[l];
    WindowsAreFetchable(cells, windowDays, k);
    WindowsAreFetchable(cells, windowDays, l);
    if KeysOf(a)[x] == KeysOf(b)[y] {
      SameWindow(cells, windowDays, k, l, a.cells[x], b.cells[y]);
      if x < y { DatesTellSlotsApart(a, x, y); } else if y < x { DatesTellSlotsApart(a, y, x); }
    }
  }

  lemma DatesTellSlotsApart(w: Window, x: nat, y: nat)
    requires w.Valid() && x < y < |w.cells|
    ensures KeysOf(w)[x] != KeysOf(w)[y]
  {
  }

  function CountCells(windows: seq<Window>): nat {
    if windows == [] then 0 else CountCells(windows[..|windows| - 1]) + |windows[|windows| - 1].cells|
  }

  lemma {:induction false} CountIsKeys(windows: seq<Window>)
    ensures CountCells(windows) == |Keys(windows)|
  {
    if windows != [] { CountIsKeys(windows[..|windows| - 1]); }
  }

  /** The windows a pass is offered: new ground first, and no more than the limit. */
  function Offered(windows: seq<Window>, limit: Option<int>): seq<Window> {
    var all := OrderWindows(windows);
    if limit.Some? && 0 <= limit.value < |all| then all[..limit.value] else all
  }

  ghost predicate BadArguments(start: int, end: int, limit: Option<int>, windowDays: int, maxFailures: int) {
    (limit.Some? && limit.value < 1) || maxFailures < 1 || windowDays < 1 || end < start
  }

  /** The report is that of the plan for the range, cut, ordered and limited, and then worked through; its
      totals are those of the whole plan. */
  ghost predicate Completes(universe: seq<Symbol>, c: Corpus, ports: Ports, start: int, end: int, limit: Option<int>,
                            windowDays: int, maxFailures: nat, cells: seq<Cell>, trace: seq<Visit>, report: Report)
    requires c.interval > 0
  {
    && IsPlan(universe, c, start, end, cells) && Windows(cells, windowDays).Ok?
    && var windows := Windows(cells, windowDays).value;
       && Reports(ports, Offered(windows, limit), maxFailures, trace, report)
       && report.planned == |Keys(windows)| && report.plannedWindows == |OrderWindows(windows)|
  }

  /** One backfill pass. It raises for its arguments, for a calendar that contradicts itself, or when an
      answer breaks it off, and otherwise reports. */
  method Crawl(universe: seq<Symbol>, c: Corpus, ports: Ports, start: int, end: int, limit: Option<int>, windowDays: int,
               maxFailures: int)
    returns (r: Result<Report>, ghost cells: seq<Cell>, ghost trace: seq<Visit>)
    requires c.Honest() && Distinct(universe)
    ensures !BadArguments(start, end, limit, windowDays, maxFailures) && !Contradicts(universe, c, start, end) &&
            !Misfiles(universe, c, start, end) ==>
              IsPlan(universe, c, start, end, cells) && Windows(cells, windowDays).Ok?
    ensures r.Err? <==>
              || BadArguments(start, end, limit, windowDays, maxFailures)
              || Contradicts(universe, c, start, end) || Misfiles(universe, c, start, end)
              || exists t :: BreaksAfter(ports, Offered(Windows(cells, windowDays).value, limit), maxFailures, t)
    ensures r.Ok? ==> maxFailures >= 1 && Completes(universe, c, ports, start, end, limit, windowDays, maxFailures,
                                                    cells, trace, r.value)
    ensures r.Ok? ==> maxFailures >= 1 && exists plan, turns ::
              Completes(universe, c, ports, start, end, limit, windowDays, maxFailures, plan, turns, r.value)
  {
    cells, trace := [], [];
    if limit.Some? && limit.value < 1 { return Err("limit must be at least 1"), cells, trace; }
    if maxFailures < 1 { return Err("max_consecutive_failures must be at least 1"), cells, trace; }
    var plan := PlanBackfill(universe, c, start, end);
    if plan.Err? { return Err(plan.error), cells, trace; }
    cells := plan.value;
    WindowsOfPlan(universe, c, start, end, plan.value, windowDays);
    hide Windows, OrderWindows, Window.Valid, IsPlan, Pass, Keys, Contradicts, Misfiles, BreaksAfter, NeverStopped;
    var grouped := PlanWindows(plan.value, windowDays);
    if grouped.Err? { return Err(grouped.error), cells, trace; }
    var windows := OrderWindows(grouped.value);
    OrderedAreValid(plan.value, windowDays);
    var planned, plannedWindows := CountCells(windows), |windows|;
    PlannedIsKeys(grouped.value);
    if limit.Some? && limit.value < |windows| { windows := windows[..limit.value]; }
    assert windows == Offered(grouped.value, limit);
    var report;
    report, trace := CrawlWindows(windows, ports, maxFailures);
    if report.Err? { return Err(report.error), cells, trace; }
    r := Ok(report.value.(planned := planned, plannedWindows := plannedWindows));
    assert Completes(universe, c, ports, start, end, limit, windowDays, maxFailures, cells, trace, r.value);
  }

  lemma WindowsOfPlan(universe: seq<Symbol>, c: Corpus, start: int, end: int, cells: seq<Cell>, windowDays: int)
    requires c.interval > 0 && IsPlan(universe, c, start, end, cells)
    ensures Windows(cells, windowDays).Ok? <==> windowDays >= 1
  {
    PlanHasOneInterval(universe, c, start, end, cells);
    hide Concat;
  }

  lemma PlannedIsKeys(windows: seq<Window>)
    ensures CountCells(OrderWindows(windows)) == |Keys(windows)|
  {
    OrderKeepsSessions(windows);
    CountIsKeys(OrderWindows(windows));
    assert |multiset(Keys(windows))| == |Keys(windows)|;
    assert |multiset(Keys(OrderWindows(windows)))| == |Keys(OrderWindows(windows))|;
  }

  lemma NewGroundIsOrder()
    ensures TotalPreorder(NewGroundFirst())
  {
    hide Window.HasUntouched;
  }

  lemma OrderedAreValid(cells: seq<Cell>, windowDays: int)
    requires Windows(cells, windowDays).Ok?
    ensures forall k :: 0 <= k < |OrderWindows(Windows(cells, windowDays).value)| ==>
              OrderWindows(Windows(cells, windowDays).value)[k].Valid()
  {
    var windows := Windows(cells, windowDays).value;
    var ordered := OrderWindows(windows);
    assert ordered == Sort(windows, NewGroundFirst());
    NewGroundIsOrder();
    hide *;
    SortIsSort(windows, NewGroundFirst());
    forall k | 0 <= k < |ordered| ensures ordered[k].Valid() {
      assert ordered[k] in multiset(ordered);
      assert ordered[k] in multiset(windows);
      var i :| 0 <= i < |windows| && windows[i] == ordered[k];
      WindowsAreFetchable(cells, windowDays, i);
    }
  }
}
