/** One backfill pass: fetch every missing session a request at a time, and know when to give up. */
module Crawler {
  import opened Common
  import opened Sorting
  import opened Market
  import opened Sessions
  import opened Backfill

  /** A bar as a feed delivers it. */
  datatype Delivered = Delivered(bar: Bar, interval: int)

  /** What a feed is asked for: start inclusive, end exclusive. */
  datatype Request = Request(symbol: Symbol, interval: int, from: int, until: int)

  /** The outside of a pass: what the feed answers to its n-th request, and whether the store takes a batch
      for an instrument's date. */
  datatype Ports = Ports(
    fetch: (nat, Request) -> Result<seq<Delivered>>,
    takes: (Symbol, int, seq<Delivered>) -> bool
  )

  datatype Status = FILLED | EMPTY | FAILED | SKIPPED

  datatype Outcome = Outcome(symbol: Symbol, date: int, status: Status, written: nat)

  // ---- Ordering requests ----

  function NewGroundFirst(): (Window, Window) -> bool { (a: Window, b: Window) => a.HasUntouched() || !b.HasUntouched() }
  function Untouched(): Window -> bool { (w: Window) => w.HasUntouched() }
  function Short(): Window -> bool { (w: Window) => !w.HasUntouched() }

  function OrderWindows(windows: seq<Window>): seq<Window> { Sort(windows, NewGroundFirst()) }

  lemma {:induction false} InsertBehindUntouched(front: seq<Window>, back: seq<Window>, x: Window)
    requires x.HasUntouched()
    requires forall w :: w in front ==> w.HasUntouched()
    requires forall w :: w in back ==> !w.HasUntouched()
    ensures Insert(front + back, x, NewGroundFirst()) == front + [x] + back
  {
    if back == [] {
      assert front + back == front && front + [x] + back == front + [x];
    } else {
      var n := |back| - 1;
      var all := front + back;
      assert all[..|all| - 1] == front + back[..n] && all[|all| - 1] == back[n];
      InsertBehindUntouched(front, back[..n], x);
      assert front + [x] + back == front + [x] + back[..n] + [back[n]];
    }
  }

  /** Stable two-way partition: untouched windows ahead of partly held ones. */
  lemma {:induction false} OrderSeparates(windows: seq<Window>)
    ensures OrderWindows(windows) == Select(windows, Untouched()) + Select(windows, Short())
  {
    if windows != [] {
      var n := |windows| - 1;
      var front, x := windows[..n], windows[n];
      OrderSeparates(front);
      var u, s := Select(front, Untouched()), Select(front, Short());
      forall w | w in u ensures w.HasUntouched() { InSelect(front, w, Untouched()); }
      forall w | w in s ensures !w.HasUntouched() { InSelect(front, w, Short()); }
      hide Window.HasUntouched;
      assert OrderWindows(windows) == Insert(u + s, x, NewGroundFirst());
      if x.HasUntouched() {
        InsertBehindUntouched(u, s, x);
      } else {
        InsertAtEnd(u + s, x, NewGroundFirst());
        assert (u + s) + [x] == u + (s + [x]);
      }
    }
  }

  // ---- Splitting an answer by session ----

  function ByTime(): (Delivered, Delivered) -> bool { (a: Delivered, b: Delivered) => a.bar.ts <= b.bar.ts }

  function Ordered(bars: seq<Delivered>): seq<Delivered> { Sort(bars, ByTime()) }

  /** The session holds the bar. */
  function Holds(c: Cell): Delivered -> bool { (d: Delivered) => c.session.HoldsBar(d.bar.ts) }

  /** One of the first k sessions had closed when the bar did. */
  predicate ClosedBy(cells: seq<Cell>, k: nat, ts: int)
    requires k <= |cells|
  {
    exists j :: 0 <= j < k && ts <= cells[j].session.closeNs
  }

  /** The k-th session holds the bar and the walk had not already passed it for an earlier one. */
  function Meets(cells: seq<Cell>, k: nat): Delivered -> bool
    requires k < |cells|
  {
    (d: Delivered) => cells[k].session.HoldsBar(d.bar.ts) && !ClosedBy(cells, k, d.bar.ts)
  }

  /** Everything before `index` closed by some session already passed; nothing from there on did. */
  ghost predicate Passed(cells: seq<Cell>, k: nat, ordered: seq<Delivered>, index: nat)
    requires k <= |cells|
  {
    && index <= |ordered|
    && (forall i :: 0 <= i < index ==> ClosedBy(cells, k, ordered[i].bar.ts))
    && (forall i :: index <= i < |ordered| ==> !ClosedBy(cells, k, ordered[i].bar.ts))
  }

  /** One walk over bars and sessions in step. */
  method SplitBySession(cells: seq<Cell>, bars: seq<Delivered>) returns (parts: seq<seq<Delivered>>)
    ensures |parts| == |cells|
    ensures forall k :: 0 <= k < |cells| ==> parts[k] == Select(Ordered(bars), Meets(cells, k))
  {
    hide Sort, Select;
    var ordered := Ordered(bars);
    SortIsSort(bars, ByTime());
    parts := [];
    var index := 0;
    for k := 0 to |cells|
      invariant |parts| == k
      invariant forall j :: 0 <= j < k ==> parts[j] == Select(ordered, Meets(cells, j))
      invariant Passed(cells, k, ordered, index)
    {
      var inSession;
      inSession, index := WalkSession(cells, k, ordered, index);
      parts := parts + [inSession];
    }
  }

  method WalkSession(cells: seq<Cell>, k: nat, ordered: seq<Delivered>, start: nat)
    returns (inSession: seq<Delivered>, index: nat)
    requires k < |cells| && SortedBy(ordered, ByTime()) && Passed(cells, k, ordered, start)
    ensures Passed(cells, k + 1, ordered, index) && inSession == Select(ordered, Meets(cells, k))
  {
    hide Select, Passed, TradingSession.HoldsBar;
    inSession, index := [], start;
    assert start <= |ordered| by { PassedBound(cells, k, ordered, start); }
    assert ordered[start..start] == [];
    SelectOfNone(Holds(cells[k]));
    while index < |ordered| && ordered[index].bar.ts <= cells[k].session.closeNs
      invariant start <= index <= |ordered|
      invariant forall i :: start <= i < index ==> ordered[i].bar.ts <= cells[k].session.closeNs
      invariant inSession == Select(ordered[start..index], Holds(cells[k]))
    {
      assert ordered[start..index + 1] == ordered[start..index] + [ordered[index]];
      SelectPush(ordered[start..index], ordered[index], Holds(cells[k]));
      if cells[k].session.HoldsBar(ordered[index].bar.ts) { inSession := inSession + [ordered[index]]; }
      index := index + 1;
    }
    WalkedOne(cells, k, ordered, start, index);
    WalkMeets(cells, k, ordered, start, index);
  }

  lemma PassedBound(cells: seq<Cell>, k: nat, ordered: seq<Delivered>, index: nat)
    requires k <= |cells| && Passed(cells, k, ordered, index)
    ensures index <= |ordered|
  {
  }

  lemma ClosedByNext(cells: seq<Cell>, k: nat, ts: int)
    requires k < |cells|
    ensures ClosedBy(cells, k + 1, ts) <==> ClosedBy(cells, k, ts) || ts <= cells[k].session.closeNs
  {
  }

  lemma WalkedOne(cells: seq<Cell>, k: nat, ordered: seq<Delivered>, start: nat, index: nat)
    requires k < |cells| && SortedBy(ordered, ByTime()) && Passed(cells, k, ordered, start) && start <= index <= |ordered|
    requires forall i :: start <= i < index ==> ordered[i].bar.ts <= cells[k].session.closeNs
    requires index < |ordered| ==> ordered[index].bar.ts > cells[k].session.closeNs
    ensures Passed(cells, k + 1, ordered, index)
  {
    forall i | 0 <= i < |ordered| { ClosedByNext(cells, k, ordered[i].bar.ts); }
    hide ClosedBy;
    forall i | index <= i < |ordered| ensures !ClosedBy(cells, k + 1, ordered[i].bar.ts) {
      assert i > index ==> ByTime()(ordered[index], ordered[i]);
    }
  }

  lemma WalkMeets(cells: seq<Cell>, k: nat, ordered: seq<Delivered>, start: nat, index: nat)
    requires k < |cells| && Passed(cells, k, ordered, start) && Passed(cells, k + 1, ordered, index) && start <= index
    ensures Select(ordered[start..index], Holds(cells[k])) == Select(ordered, Meets(cells, k))
  {
    var before, mid, after := ordered[..start], ordered[start..index], ordered[index..];
    WalkJoins(ordered, start, index, Meets(cells, k));
    MeetsWhere(cells, k, ordered, start, index);
    hide Select, Meets, Holds, Passed;
    KeepsNone(before, Meets(cells, k));
    KeepsNone(after, Meets(cells, k));
    SelectSame(mid, Meets(cells, k), Holds(cells[k]));
  }

  lemma WalkJoins(ordered: seq<Delivered>, start: nat, index: nat, keep: Delivered -> bool)
    requires start <= index <= |ordered|
    ensures Select(ordered, keep) ==
              Select(ordered[..start], keep) + Select(ordered[start..index], keep) + Select(ordered[index..], keep)
  {
    hide Select;
    SelectConcat(ordered[..index], ordered[index..], keep);
    assert ordered == ordered[..index] + ordered[index..];
    SelectConcat(ordered[..start], ordered[start..index], keep);
    assert ordered[..index] == ordered[..start] + ordered[start..index];
  }

  lemma MeetsWhere(cells: seq<Cell>, k: nat, ordered: seq<Delivered>, start: nat, index: nat)
    requires k < |cells| && Passed(cells, k, ordered, start) && Passed(cells, k + 1, ordered, index) && start <= index
    ensures forall i :: 0 <= i < start ==> !Meets(cells, k)(ordered[i])
    ensures forall i :: index <= i < |ordered| ==> !Meets(cells, k)(ordered[i])
    ensures forall i :: start <= i < index ==> (Meets(cells, k)(ordered[i]) <==> Holds(cells[k])(ordered[i]))
  {
    var next := k + 1;
    assert forall ts :: !ClosedBy(cells, next, ts) ==> ts > cells[k].session.closeNs;
    hide ClosedBy;
    forall i | index <= i < |ordered| ensures !Meets(cells, k)(ordered[i]) {
      assert !ClosedBy(cells, next, ordered[i].bar.ts);
    }
  }

  /** Each session opens no earlier than every session before it closed. */
  predicate Disjoint(cells: seq<Cell>) {
    forall j, k :: 0 <= j < k < |cells| ==> cells[j].session.closeNs <= cells[k].session.openNs
  }

  /** The single walk is a filter per session, for every answer, if and only if the sessions follow
      one another without overlapping. */
  lemma WalkIsFilterExactlyWhen(cells: seq<Cell>)
    requires forall k :: 0 <= k < |cells| ==> cells[k].session.Valid()
    ensures Disjoint(cells) <==>
              forall bars, k :: 0 <= k < |cells| ==>
                Select(Ordered(bars), Meets(cells, k)) == Select(Ordered(bars), Holds(cells[k]))
  {
    if Disjoint(cells) {
      forall bars, k | 0 <= k < |cells|
        ensures Select(Ordered(bars), Meets(cells, k)) == Select(Ordered(bars), Holds(cells[k]))
      {
        SelectSame(Ordered(bars), Meets(cells, k), Holds(cells[k]));
      }
    } else {
      var j, k :| 0 <= j < k < |cells| && cells[j].session.closeNs > cells[k].session.openNs;
      var lost := Delivered(Bar(cells[k].symbol, cells[k].session.openNs + 1, 1.0, 1.0, 1.0, 1.0, 0.0, None), cells[k].interval);
      LostBar(cells, j, k, lost);
    }
  }

  lemma LostBar(cells: seq<Cell>, j: nat, k: nat, lost: Delivered)
    requires j < k < |cells| && cells[k].session.Valid() && cells[j].session.closeNs > cells[k].session.openNs
    requires lost.bar.ts == cells[k].session.openNs + 1
    ensures Select(Ordered([lost]), Meets(cells, k)) != Select(Ordered([lost]), Holds(cells[k]))
  {
    SortOfSorted([lost], ByTime());
    assert !Meets(cells, k)(lost) && Holds(cells[k])(lost);
    SelectOne(lost, Meets(cells, k));
    SelectOne(lost, Holds(cells[k]));
  }

  /** Two sessions of one window that overlap, each of them and the window accepted by its constructor, and
      a bar both hold: the walk hands it to the first alone. */
  lemma OverlapLosesABar()
    ensures var w := Window(0, 1, [Between(0, 0, 10), Between(1, 5, 15)]);
            var lost := Delivered(Bar(0, 6, 1.0, 1.0, 1.0, 1.0, 0.0, None), 1);
            && w.Valid() && w.cells[0].session.Valid() && w.cells[1].session.Valid() && !Disjoint(w.cells)
            && Select(Ordered([lost]), Holds(w.cells[1])) == [lost]
            && Select(Ordered([lost]), Meets(w.cells, 1)) == []
            && Select(Ordered([lost]), Meets(w.cells, 0)) == [lost]
  {
    var cells := [Between(0, 0, 10), Between(1, 5, 15)];
    var lost := Delivered(Bar(0, 6, 1.0, 1.0, 1.0, 1.0, 0.0, None), 1);
    SortOfSorted([lost], ByTime());
    assert cells[0].session.closeNs == 10 && cells[1].session.openNs == 5;
    SelectOne(lost, Holds(cells[1]));
    SelectOne(lost, Meets(cells, 1));
    SelectOne(lost, Meets(cells, 0));
  }

  function Between(date: int, openNs: int, closeNs: int): Cell {
    Cell(0, TradingSession(0, date, openNs, closeNs), 1, 0)
  }

  // ---- One request ----

  /** A session holds closes after its open and up to its close; a feed query takes its start and leaves
      its end out, so each bound moves on by one. */
  function RequestFor(w: Window): Request
    requires w.Valid()
  {
    Request(w.symbol, w.interval, w.cells[0].session.openNs + 1, w.cells[|w.cells| - 1].session.closeNs + 1)
  }

  /** The instant falls after one of the first n sessions closed and no later than the next one's open. */
  predicate InGap(cells: seq<Cell>, n: nat, ts: int)
    requires n <= |cells|
  {
    exists k :: 0 <= k < n - 1 && cells[k].session.closeNs < ts <= NextOpen(cells, k)
  }

  function NextOpen(cells: seq<Cell>, k: nat): int
    requires k + 1 < |cells|
  {
    cells[k + 1].session.openNs
  }

  predicate HeldByFirst(cells: seq<Cell>, n: nat, ts: int)
    requires n <= |cells|
  {
    exists k :: 0 <= k < n && cells[k].session.HoldsBar(ts)
  }

  lemma {:induction false} SessionsAndGaps(cells: seq<Cell>, n: nat, ts: int)
    requires 1 <= n <= |cells| && Disjoint(cells) && forall k :: 0 <= k < |cells| ==> cells[k].session.Valid()
    ensures cells[0].session.openNs < ts <= cells[n - 1].session.closeNs <==> HeldByFirst(cells, n, ts) || InGap(cells, n, ts)
    ensures !(HeldByFirst(cells, n, ts) && InGap(cells, n, ts))
  {
    if n > 1 {
      SessionsAndGaps(cells, n - 1, ts);
      var last, before := cells[n - 1].session, cells[n - 2].session;
      assert before.closeNs <= last.openNs == NextOpen(cells, n - 2);
      assert cells[0].session.openNs <= last.openNs;
      assert HeldByFirst(cells, n, ts) <==> HeldByFirst(cells, n - 1, ts) || last.HoldsBar(ts);
      assert InGap(cells, n, ts) <==> InGap(cells, n - 1, ts) || before.closeNs < ts <= last.openNs;
    } else {
      assert cells[0].session.HoldsBar(ts) <==> HeldByFirst(cells, 1, ts);
    }
  }

  /** The request admits exactly the bars its sessions hold and those that close between them: after one
      session's close and by the open of the next. The latter belong to no session of the window. */
  lemma RequestSpansSessions(w: Window, ts: int)
    requires w.Valid() && Disjoint(w.cells) && forall k :: 0 <= k < |w.cells| ==> w.cells[k].session.Valid()
    ensures RequestFor(w).from <= ts < RequestFor(w).until <==>
              HeldByFirst(w.cells, |w.cells|, ts) || InGap(w.cells, |w.cells|, ts)
    ensures InGap(w.cells, |w.cells|, ts) ==> !HeldByFirst(w.cells, |w.cells|, ts)
  {
    SessionsAndGaps(w.cells, |w.cells|, ts);
  }

  function AllWith(w: Window, status: Status): (r: seq<Outcome>)
    ensures |r| == |w.cells|
  {
    seq(|w.cells|, k requires 0 <= k < |w.cells| => Outcome(w.symbol, w.cells[k].Date(), status, 0))
  }

  /** One request: what was stored for each session, and what became of each. */
  datatype Fetched = Fetched(batches: seq<seq<Delivered>>, outcomes: seq<Outcome>)

  ghost predicate Foreign(w: Window, bars: seq<Delivered>) {
    exists i :: 0 <= i < |bars| && (bars[i].bar.symbol != w.symbol || bars[i].interval != w.interval)
  }

  /** The store will not take what falls to some session. */
  ghost predicate Unstored(w: Window, bars: seq<Delivered>, ports: Ports) {
    exists k :: 0 <= k < |w.cells| && !Stored(w, bars, ports, k)
  }

  ghost predicate Stored(w: Window, bars: seq<Delivered>, ports: Ports, k: nat)
    requires k < |w.cells|
  {
    var batch := Select(Ordered(bars), Meets(w.cells, k));
    batch == [] || ports.takes(w.symbol, w.cells[k].Date(), batch)
  }

  /** What ends a pass outright: another instrument's bar, or a store that fails. */
  ghost predicate Breaks(w: Window, answer: Result<seq<Delivered>>, ports: Ports) {
    answer.Ok? && (Foreign(w, answer.value) || Unstored(w, answer.value, ports))
  }

  /** A refused request fails every session it covers; otherwise each session gets the delivered bars
      it meets, and is filled or empty accordingly. */
  ghost predicate Answers(w: Window, answer: Result<seq<Delivered>>, f: Fetched) {
    match answer
    case Err(_) => f.batches == [] && f.outcomes == AllWith(w, FAILED)
    case Ok(bars) =>
      && |f.batches| == |f.outcomes| == |w.cells|
      && (forall k :: 0 <= k < |w.cells| ==> f.batches[k] == Select(Ordered(bars), Meets(w.cells, k)))
      && (forall k :: 0 <= k < |w.cells| ==>
            f.outcomes[k] == Outcome(w.symbol, w.cells[k].Date(), if f.batches[k] == [] then EMPTY else FILLED, |f.batches[k]|))
  }

  method FetchWindow(w: Window, answer: Result<seq<Delivered>>, ports: Ports) returns (r: Result<Fetched>)
    ensures r.Err? <==> Breaks(w, answer, ports)
    ensures r.Ok? ==> Answers(w, answer, r.value)
  {
    if answer.Err? { return Ok(Fetched([], AllWith(w, FAILED))); }
    for i := 0 to |answer.value|
      invariant !Foreign(w, answer.value[..i])
    {
      if answer.value[i].bar.symbol != w.symbol || answer.value[i].interval != w.interval {
        return Err("the feed answered with another instrument's bar");
      }
    }
    assert answer.value[..|answer.value|] == answer.value;
    var batches := SplitBySession(w.cells, answer.value);
    hide Ordered, Meets;
    var outcomes: seq<Outcome> := [];
    for k := 0 to |w.cells|
      invariant |outcomes| == k
      invariant forall j :: 0 <= j < k ==> Stored(w, answer.value, ports, j)
      invariant forall j :: 0 <= j < k ==>
        outcomes[j] == Outcome(w.symbol, w.cells[j].Date(), if batches[j] == [] then EMPTY else FILLED, |batches[j]|)
    {
      if batches[k] == [] {
        outcomes := outcomes + [Outcome(w.symbol, w.cells[k].Date(), EMPTY, 0)];
        continue;
      }
      if !ports.takes(w.symbol, w.cells[k].Date(), batches[k]) {
        assert !Stored(w, answer.value, ports, k);
        return Err("the store failed");
      }
      outcomes := outcomes + [Outcome(w.symbol, w.cells[k].Date(), FILLED, |batches[k]|)];
    }
    r := Ok(Fetched(batches, outcomes));
  }

  /** A bar is stored under a session only if that session holds it, and under one session at most. */
  lemma StoredWhereItBelongs(w: Window, bars: seq<Delivered>, f: Fetched, k: nat, d: Delivered)
    requires Answers(w, Ok(bars), f) && k < |w.cells|
    ensures d in f.batches[k] ==> d in bars && w.cells[k].session.HoldsBar(d.bar.ts)
    ensures d in f.batches[k] ==> forall j :: 0 <= j < |w.cells| && j != k ==> d !in f.batches[j]
  {
    hide Sort, Select;
    SortIsSort(bars, ByTime());
    forall j | 0 <= j < |w.cells| ensures d in f.batches[j] <==> d in Ordered(bars) && Meets(w.cells, j)(d) {
      InSelect(Ordered(bars), d, Meets(w.cells, j));
    }
    assert d in Ordered(bars) ==> d in multiset(bars);
  }
}
