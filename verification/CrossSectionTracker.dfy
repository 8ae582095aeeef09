/** The universe assembled tick by tick, and shown only once a tick has closed. */
module CrossSectionTracker {
  import opened Common
  import opened Reals
  import opened Dictionaries
  import opened Sorting
  import opened CrossSection
  import Levels

  /** One instrument's session levels as of a bar's close. */
  datatype Reading = Reading(symbol: Symbol, ts: int, levels: Levels.SessionLevels) {
    function Minute(): int { (ts - levels.openNs) / Levels.NANOS_PER_MINUTE }
    function Return(): real { Fraction(levels.close, levels.sessionOpen) }
    function Date(): int { levels.sessionDate }
  }

  type Profile = Levels.Profile

  /** Picks an instrument's benchmark for a date. */
  type Benchmarks = (Symbol, int) -> Option<Symbol>

  /** close / base - 1; a price is never zero. */
  function Fraction(close: real, base: real): real { if base == 0.0 then 0.0 else close / base - 1.0 }

  // ---- What the readings determine ----

  ghost predicate TimeOrdered(log: seq<Reading>) { forall i, j :: 0 <= i < j < |log| ==> log[i].ts <= log[j].ts }

  function Of(s: Symbol): Reading -> bool { (r: Reading) => r.symbol == s }
  function Before(ts: int): Reading -> bool { (r: Reading) => r.ts < ts }
  function UpTo(ts: int): Reading -> bool { (r: Reading) => r.ts <= ts }

  ghost function Mine(log: seq<Reading>, s: Symbol): seq<Reading> { Select(log, Of(s)) }

  /** One instrument's readings cut wherever the session date changes. */
  ghost function Days(mine: seq<Reading>): (days: seq<seq<Reading>>)
    ensures forall k :: 0 <= k < |days| ==> days[k] != []
    ensures mine == [] <==> days == []
  {
    if mine == [] then []
    else
      var front, r := Days(mine[..|mine| - 1]), mine[|mine| - 1];
      if front != [] && front[|front| - 1][0].Date() == r.Date() then
        front[|front| - 1 := front[|front| - 1] + [r]]
      else front + [[r]]
  }

  /** By minute of session, the session return at the last reading of that minute. */
  ghost function ProfileOf(day: seq<Reading>): (p: Profile)
    ensures day != [] ==> p != map[]
  {
    if day == [] then map[]
    else
      var last := day[|day| - 1];
      var p := ProfileOf(day[..|day| - 1])[last.Minute() := last.Return()];
      assert last.Minute() in p;
      p
  }

  function Mirrored(s: set<int>): set<int> { set x | x in s :: -x }

  lemma MirroredIsNotEmpty(s: set<int>)
    requires s != {}
    ensures Mirrored(s) != {}
  {
    var a := Pick(s);
    assert -a in Mirrored(s);
  }

  function Greatest(s: set<int>): (m: int)
    requires s != {}
    ensures m in s && forall x :: x in s ==> x <= m
  {
    MirroredIsNotEmpty(s);
    var m := -Earliest(Mirrored(s));
    assert -m in Mirrored(s);
    assert forall x :: x in s ==> -x in Mirrored(s);
    m
  }

  /** A day's open-to-close return: the last minute of its profile. */
  function FinalReturn(profile: Profile): real
    requires profile != map[]
  {
    assert profile.Keys != {};
    profile[Greatest(profile.Keys)]
  }

  ghost function History(days: seq<seq<Reading>>): Returns
    requires forall k :: 0 <= k < |days| ==> days[k] != []
  {
    if days == [] then map[]
    else
      var last := days[|days| - 1];
      History(days[..|days| - 1])[last[0].Date() := FinalReturn(ProfileOf(last))]
  }

  /** What is remembered of one instrument's days. */
  datatype Memory = Memory(session: Option<int>, trailing: Profile, history: Returns)

  /** The session it is in, that session's profile, and its most recent completed returns. */
  ghost function MemoryOf(mine: seq<Reading>): Memory {
    var days := Days(mine);
    if days == [] then Memory(None, map[], map[])
    else
      var today := days[|days| - 1];
      Memory(Some(today[0].Date()), ProfileOf(today), Trim(History(days[..|days| - 1])))
  }

  ghost function LatestOf(log: seq<Reading>, s: Symbol): Option<Reading> {
    if log == [] then None
    else if log[|log| - 1].symbol == s then Some(log[|log| - 1])
    else LatestOf(log[..|log| - 1], s)
  }

  /** What the instrument resolved to at its latest reading. */
  ghost function BenchmarkAt(log: seq<Reading>, s: Symbol, benchmarks: Benchmarks): Option<Symbol> {
    var latest := LatestOf(log, s);
    if latest.None? then None else benchmarks(s, latest.value.Date())
  }

  function TrailingReturn(profile: Profile, minute: int, window: int, sessionReturn: real): Option<real> {
    var earlier := minute - window;
    if earlier < 0 || earlier !in profile || 1.0 + profile[earlier] <= 0.0 then None
    else Some((1.0 + sessionReturn) / (1.0 + profile[earlier]) - 1.0)
  }

  function Values(history: Returns, days: seq<int>): (r: seq<real>)
    requires forall k :: 0 <= k < |days| ==> days[k] in history
    ensures |r| == |days|
  {
    seq(|days|, k requires 0 <= k < |days| => history[days[k]])
  }

  /** The slope over the last sessions both have, paired by date. */
  function BetaOf(own: Returns, market: Returns): Option<real> {
    var all := InOrder(own.Keys * market.Keys);
    if |all| < BETA_MEMORY then None
    else
      var shared := all[|all| - BETA_MEMORY..];
      assert forall k :: 0 <= k < |shared| ==> shared[k] in all;
      Slope(Values(own, shared), Values(market, shared))
  }

  function BetaAgainst(own: Returns, market: Returns, benchmark: Option<Symbol>): Option<real> {
    if benchmark.None? then None else BetaOf(own, market)
  }

  /** The row of the instrument whose reading came last. */
  ghost function RowOf(log: seq<Reading>, benchmarks: Benchmarks, window: int): Row
    requires log != []
  {
    var r := log[|log| - 1];
    var own, benchmark := MemoryOf(Mine(log, r.symbol)), benchmarks(r.symbol, r.Date());
    var market := if benchmark.Some? then MemoryOf(Mine(log, benchmark.value)).history else map[];
    Row(r.symbol, r.Return(), TrailingReturn(own.trailing, r.Minute(), window, r.Return()), r.levels.relativeVolume,
        BetaAgainst(own.history, market, benchmark), None)
  }

  ghost function Pending(log: seq<Reading>, benchmarks: Benchmarks, window: int): map<Symbol, Row> {
    if log == [] then map[]
    else Pending(log[..|log| - 1], benchmarks, window)[log[|log| - 1].symbol := RowOf(log, benchmarks, window)]
  }

  function ResidualOf(pending: map<Symbol, Row>, benchmark: Option<Symbol>, row: Row): Option<real> {
    if benchmark.None? || benchmark.value !in pending then None
    else row.ResidualAgainst(pending[benchmark.value].sessionReturn)
  }

  /** The universe once the readings are all in. */
  ghost function SectionOf(log: seq<Reading>, benchmarks: Benchmarks, window: int): Section
    requires log != []
  {
    var pending := Pending(log, benchmarks, window);
    Section(log[|log| - 1].ts,
            map s | s in pending :: pending[s].(residual := ResidualOf(pending, BenchmarkAt(log, s, benchmarks), pending[s])))
  }

  /** The readings of every tick but the one being assembled. */
  ghost function ClosedPart(log: seq<Reading>): seq<Reading> {
    if log == [] then [] else Select(log, Before(log[|log| - 1].ts))
  }

  /** What may be shown: the last closed tick. */
  ghost function ClosedOf(log: seq<Reading>, benchmarks: Benchmarks, window: int): Option<Section> {
    if ClosedPart(log) == [] then None else Some(SectionOf(ClosedPart(log), benchmarks, window))
  }

  // ---- Nothing open is shown ----

  /** A time-ordered record splits at any instant into what came before and what did not. */
  lemma {:induction false} SelectIsPrefix(log: seq<Reading>, k: nat, keep: Reading -> bool)
    requires k <= |log|
    requires forall i :: 0 <= i < k ==> keep(log[i])
    requires forall i :: k <= i < |log| ==> !keep(log[i])
    ensures Select(log, keep) == log[..k]
  {
    assert log == log[..k] + log[k..];
    SelectConcat(log[..k], log[k..], keep);
    KeepsAll(log[..k], keep);
    KeepsNone(log[k..], keep);
  }

  lemma {:induction false} TickStart(log: seq<Reading>) returns (k: nat)
    requires TimeOrdered(log) && log != []
    ensures k < |log| && log[k].ts == log[|log| - 1].ts && (k > 0 ==> log[k - 1].ts < log[k].ts)
  {
    var n := |log| - 1;
    if n > 0 && log[n - 1].ts == log[n].ts { k := TickStart(log[..n]); } else { k := n; }
  }

  /** What is shown lies strictly before the tick being assembled, no closed tick comes after it, and it
      is what the readings up to that instant give: nothing later can have reached it. */
  lemma ShownIsThePast(log: seq<Reading>, benchmarks: Benchmarks, window: int)
    requires TimeOrdered(log) && ClosedOf(log, benchmarks, window).Some?
    ensures var shown := ClosedOf(log, benchmarks, window).value;
            && shown.asOf < log[|log| - 1].ts
            && (forall i :: 0 <= i < |log| ==> log[i].ts <= shown.asOf || log[i].ts == log[|log| - 1].ts)
            && Select(log, UpTo(shown.asOf)) != []
            && shown == SectionOf(Select(log, UpTo(shown.asOf)), benchmarks, window)
  {
    hide SectionOf, ClosedPart, TimeOrdered;
    var k := TickSplit(log);
    SectionIsAsOf(log[..k], benchmarks, window);
  }

  lemma SectionIsAsOf(log: seq<Reading>, benchmarks: Benchmarks, window: int)
    requires log != []
    ensures SectionOf(log, benchmarks, window).asOf == log[|log| - 1].ts
  {
    hide Pending, BenchmarkAt, ResidualOf;
  }

  lemma TickSplit(log: seq<Reading>) returns (k: nat)
    requires TimeOrdered(log) && ClosedPart(log) != []
    ensures 0 < k < |log| && ClosedPart(log) == log[..k] == Select(log, UpTo(log[k - 1].ts))
    ensures log[k - 1].ts < log[|log| - 1].ts
    ensures forall i :: 0 <= i < |log| ==> log[i].ts <= log[k - 1].ts || log[i].ts == log[|log| - 1].ts
  {
    k := TickStart(log);
    SelectIsPrefix(log, k, Before(log[|log| - 1].ts));
    hide Select;
    SelectIsPrefix(log, k, UpTo(log[k - 1].ts));
  }

  /** Two feeds that agree up to an instant, whatever each does later, show the same universe as of it. */
  lemma NoLookahead(log: seq<Reading>, other: seq<Reading>, benchmarks: Benchmarks, window: int)
    requires TimeOrdered(log) && TimeOrdered(other)
    requires ClosedOf(log, benchmarks, window).Some? && ClosedOf(other, benchmarks, window).Some?
    requires ClosedOf(log, benchmarks, window).value.asOf == ClosedOf(other, benchmarks, window).value.asOf
    requires var asOf := ClosedOf(log, benchmarks, window).value.asOf; Select(log, UpTo(asOf)) == Select(other, UpTo(asOf))
    ensures ClosedOf(log, benchmarks, window) == ClosedOf(other, benchmarks, window)
  {
    hide ClosedOf, Select, SectionOf, TimeOrdered;
    ShownIsThePast(log, benchmarks, window);
    ShownIsThePast(other, benchmarks, window);
  }

  /** Each row is the instrument's latest reading, as it stood when that reading came in. */
  lemma {:induction false} RowIsTheLatest(log: seq<Reading>, benchmarks: Benchmarks, window: int, k: nat)
    requires k < |log| && forall i :: k < i < |log| ==> log[i].symbol != log[k].symbol
    ensures log[k].symbol in Pending(log, benchmarks, window)
    ensures Pending(log, benchmarks, window)[log[k].symbol] == RowOf(log[..k + 1], benchmarks, window)
    ensures LatestOf(log, log[k].symbol) == Some(log[k])
  {
    hide RowOf;
    var n := |log| - 1;
    if k == n {
      assert log[..k + 1] == log;
    } else {
      RowIsTheLatest(log[..n], benchmarks, window, k);
      assert log[..n][..k + 1] == log[..k + 1];
    }
  }

  /** Every residual is measured against the benchmark's own row in the same universe. */
  lemma ResidualUsesTheSameTick(log: seq<Reading>, benchmarks: Benchmarks, window: int, k: nat)
    requires k < |log| && forall i :: k < i < |log| ==> log[i].symbol != log[k].symbol
    ensures var section, s := SectionOf(log, benchmarks, window), log[k].symbol;
            && s in section.rows
            && var benchmark := benchmarks(s, log[k].Date());
            section.rows[s].residual ==
              if benchmark.None? || benchmark.value !in section.rows then None
              else section.rows[s].ResidualAgainst(section.rows[benchmark.value].sessionReturn)
  {
    hide RowOf, Pending, LatestOf;
    RowIsTheLatest(log, benchmarks, window, k);
    var pending, section, s := Pending(log, benchmarks, window), SectionOf(log, benchmarks, window), log[k].symbol;
    assert BenchmarkAt(log, s, benchmarks) == benchmarks(s, log[k].Date());
    assert section.rows.Keys == pending.Keys;
    var benchmark := benchmarks(s, log[k].Date());
    assert section.rows[s] == pending[s].(residual := ResidualOf(pending, benchmark, pending[s]));
    if benchmark.Some? && benchmark.value in pending {
      ResidualIgnoresResidual(pending[s], ResidualOf(pending, benchmark, pending[s]), pending[benchmark.value].sessionReturn);
    }
  }

  lemma ResidualIgnoresResidual(row: Row, residual: Option<real>, benchmarkReturn: real)
    ensures row.(residual := residual).ResidualAgainst(benchmarkReturn) == row.ResidualAgainst(benchmarkReturn)
  {
    hide Product;
  }

  // ---- One reading more ----

  lemma MineGrows(log: seq<Reading>, r: Reading, s: Symbol)
    ensures Mine(log + [r], s) == if r.symbol == s then Mine(log, s) + [r] else Mine(log, s)
  {
    SelectPush(log, r, Of(s));
  }

  lemma DaysPush(mine: seq<Reading>, r: Reading)
    ensures var days := Days(mine);
            Days(mine + [r]) ==
              if days != [] && days[|days| - 1][0].Date() == r.Date() then days[|days| - 1 := days[|days| - 1] + [r]]
              else days + [[r]]
  {
    assert (mine + [r])[..|mine|] == mine;
  }

  lemma ProfilePush(day: seq<Reading>, r: Reading)
    ensures ProfileOf(day + [r]) == ProfileOf(day)[r.Minute() := r.Return()]
  {
    assert (day + [r])[..|day|] == day;
  }

  /** A new date closes the session in hand: its return joins the history and its profile goes. */
  ghost function Rolled(m: Memory, date: int): Memory {
    if m.session == Some(date) then m
    else Memory(Some(date), map[],
                if m.session.Some? && m.trailing != map[] then Trim(m.history[m.session.value := FinalReturn(m.trailing)])
                else m.history)
  }

  ghost function Noted(m: Memory, minute: int, sessionReturn: real): Memory {
    m.(trailing := m.trailing[minute := sessionReturn])
  }

  lemma HistoryPush(days: seq<seq<Reading>>, day: seq<Reading>)
    requires day != [] && forall k :: 0 <= k < |days| ==> days[k] != []
    ensures forall k :: 0 <= k < |days + [day]| ==> (days + [day])[k] != []
    ensures History(days + [day]) == History(days)[day[0].Date() := FinalReturn(ProfileOf(day))]
  {
    assert (days + [day])[..|days|] == days;
  }

  lemma FirstOfDay(r: Reading)
    ensures ProfileOf([r]) == map[r.Minute() := r.Return()] && History([]) == map[] && Trim(map[]) == map[]
  {
    assert [] + [r] == [r];
    ProfilePush([], r);
    assert ProfileOf([]) == map[];
  }

  /** Remembering one reading at a time is remembering what all the readings determine. */
  lemma MemoryGrows(mine: seq<Reading>, r: Reading)
    ensures MemoryOf(mine + [r]) == Noted(Rolled(MemoryOf(mine), r.Date()), r.Minute(), r.Return())
  {
    var days := Days(mine);
    DaysPush(mine, r);
    FirstOfDay(r);
    hide Days, Trim, FinalReturn, ProfileOf, History;
    if days == [] {
      assert (days + [[r]])[..|days|] == [];
    } else {
      var earlier, today := days[..|days| - 1], days[|days| - 1];
      assert days == earlier + [today];
      if today[0].Date() == r.Date() {
        ProfilePush(today, r);
        assert days[|days| - 1 := today + [r]][..|days| - 1] == earlier;
      } else {
        HistoryPush(earlier, today);
        TrimAsYouGo(History(earlier), today[0].Date(), FinalReturn(ProfileOf(today)));
        assert (days + [[r]])[..|days|] == days;
      }
    }
  }

  lemma LatestGrows(log: seq<Reading>, r: Reading, s: Symbol)
    ensures LatestOf(log + [r], s) == if r.symbol == s then Some(r) else LatestOf(log, s)
  {
    assert (log + [r])[..|log|] == log;
  }

  /** A later instant closes everything before it; the same instant closes nothing new. */
  lemma ClosedGrows(log: seq<Reading>, r: Reading)
    requires TimeOrdered(log + [r])
    ensures log != [] && log[|log| - 1].ts < r.ts ==> ClosedPart(log + [r]) == log
    ensures log != [] && log[|log| - 1].ts == r.ts ==> ClosedPart(log + [r]) == ClosedPart(log)
    ensures log == [] ==> ClosedPart(log + [r]) == []
  {
    var grown := log + [r];
    SelectPush(log, r, Before(r.ts));
    assert forall i :: 0 <= i < |log| ==> grown[i] == log[i];
    if log != [] && log[|log| - 1].ts < r.ts {
      forall i | 0 <= i < |log| ensures Before(r.ts)(log[i]) { assert grown[i].ts <= grown[|log| - 1].ts; }
      KeepsAll(log, Before(r.ts));
    }
  }

  // ---- The tracker ----

  class CrossSectionTracker {
    const benchmarks: Benchmarks
    const window: int
    var tick: Option<int>
    var pending: map<Symbol, Row>
    var closed: Option<Section>
    var sessions: map<Symbol, int>
    var trailing: map<Symbol, Profile>
    var history: map<Symbol, Returns>
    var benchmark: map<Symbol, Option<Symbol>>
    /** Every reading folded in. */
    ghost var log: seq<Reading>

    function View(s: Symbol): Memory
      reads this`sessions, this`trailing, this`history
    {
      Memory(Find(sessions, s), Get(trailing, s, map[]), Get(history, s, map[]))
    }

    /** What is remembered of every instrument is what its readings determine. */
    ghost predicate Remembers(readings: seq<Reading>)
      reads this`sessions, this`trailing, this`history, this`benchmark
    {
      && (forall s :: View(s) == MemoryOf(Mine(readings, s)))
      && (forall s :: Get(benchmark, s, None) == BenchmarkAt(readings, s, benchmarks))
    }

    ghost predicate Valid()
      reads this
    {
      && TimeOrdered(log)
      && tick == (if log == [] then None else Some(log[|log| - 1].ts))
      && Remembers(log)
      && pending == Pending(log, benchmarks, window)
      && closed == ClosedOf(log, benchmarks, window)
    }

    constructor (benchmarks: Benchmarks, window: int)
      requires window >= 1
      ensures Valid() && log == [] && this.benchmarks == benchmarks && this.window == window
    {
      this.benchmarks, this.window := benchmarks, window;
      tick, pending, closed := None, map[], None;
      sessions, trailing, history, benchmark := map[], map[], map[], map[];
      log := [];
    }

    /** The last closed tick, never the one being assembled. */
    function Snapshot(): (r: Option<Section>)
      requires Valid()
      reads this
      ensures r == ClosedOf(log, benchmarks, window)
    {
      closed
    }

    method CloseTick()
      requires Valid() && tick.Some?
      modifies this`closed
      ensures closed == Some(SectionOf(log, benchmarks, window))
    {
      hide Pending, MemoryOf, Mine, ClosedOf, BenchmarkAt, ResidualOf, Get;
      var rows := map s | s in pending :: pending[s].(residual := ResidualOf(pending, Get(benchmark, s, None), pending[s]));
      ghost var determined := SectionOf(log, benchmarks, window).rows;
      assert rows.Keys == determined.Keys;
      forall s | s in rows ensures rows[s] == determined[s] { assert Get(benchmark, s, None) == BenchmarkAt(log, s, benchmarks); }
      assert rows == determined;
      closed := Some(Section(tick.value, rows));
    }

    /** On the first reading of a new date, files the return the last date ended with. */
    method RollSession(symbol: Symbol, date: int)
      modifies this`sessions, this`trailing, this`history
      ensures View(symbol) == Rolled(old(View(symbol)), date)
      ensures forall s :: s != symbol ==> View(s) == old(View(s))
    {
      if Find(sessions, symbol) == Some(date) { return; }
      Stores<int>(); Stores<Profile>(); Stores<Returns>();
      hide Find, Get, Put, Trim, FinalReturn;
      var held, profile := Find(sessions, symbol), Get(trailing, symbol, map[]);
      if held.Some? && profile != map[] {
        var kept := Forget(Get(history, symbol, map[])[held.value := FinalReturn(profile)]);
        history := Put(history, symbol, kept);
      }
      sessions := Put(sessions, symbol, date);
      trailing := Put(trailing, symbol, map[]);
    }

    method Note(symbol: Symbol, minute: int, sessionReturn: real)
      modifies this`trailing
      ensures View(symbol) == Noted(old(View(symbol)), minute, sessionReturn)
      ensures forall s :: s != symbol ==> View(s) == old(View(s))
    {
      Stores<Profile>();
      hide Find, Get, Put;
      trailing := Put(trailing, symbol, Get(trailing, symbol, map[])[minute := sessionReturn]);
    }

    /** The memory takes the reading in. */
    method Remember(r: Reading)
      requires Remembers(log)
      modifies this`sessions, this`trailing, this`history, this`benchmark
      ensures Remembers(log + [r])
    {
      hide MemoryOf, Mine, Rolled, Noted, LatestOf;
      RollSession(r.symbol, r.Date());
      Note(r.symbol, r.Minute(), r.Return());
      MemoryGrows(Mine(log, r.symbol), r);
      forall s ensures Mine(log + [r], s) == if r.symbol == s then Mine(log, s) + [r] else Mine(log, s) { MineGrows(log, r, s); }
      forall s ensures LatestOf(log + [r], s) == if r.symbol == s then Some(r) else LatestOf(log, s) { LatestGrows(log, r, s); }
      Stores<Option<Symbol>>();
      hide CrossSectionTracker.View, Get, Put;
      benchmark := Put(benchmark, r.symbol, benchmarks(r.symbol, r.Date()));
    }

    /** The row the memory gives for a reading just taken in. */
    method RowFor(r: Reading, ghost readings: seq<Reading>) returns (row: Row)
      requires Remembers(readings) && readings != [] && r == readings[|readings| - 1]
      ensures row == RowOf(readings, benchmarks, window)
    {
      hide MemoryOf, Mine, TrailingReturn, BetaAgainst, BenchmarkAt;
      var against := benchmarks(r.symbol, r.Date());
      var own, market := View(r.symbol), if against.Some? then View(against.value).history else map[];
      row := Row(r.symbol, r.Return(), TrailingReturn(own.trailing, r.Minute(), window, r.Return()), r.levels.relativeVolume,
                 BetaAgainst(own.history, market, against), None);
    }

    /** Takes a reading. Readings at one instant build one tick, a later instant seals it beforehand, and
        time never runs backwards. */
    method Observe(levels: Levels.SessionLevels, symbol: Symbol, ts: int) returns (ok: bool)
      requires Valid()
      modifies this
      ensures Valid()
      ensures ok <==> old(tick).None? || old(tick).value <= ts
      ensures log == if ok then old(log) + [Reading(symbol, ts, levels)] else old(log)
      ensures !ok || old(tick) == Some(ts) ==> closed == old(closed)
    {
      hide Remembers, ClosedOf, SectionOf, Pending, RowOf;
      if tick.Some? && ts < tick.value { return false; }
      ghost var r := Reading(symbol, ts, levels);
      ghost var before, after := log, log + [r];
      assert TimeOrdered(after);
      ClosedGrows(log, r);
      ShownNext(log, r, benchmarks, window);
      if tick.Some? && ts > tick.value { CloseTick(); }
      tick := Some(ts);
      Remember(Reading(symbol, ts, levels));
      var row := RowFor(Reading(symbol, ts, levels), after);
      PendingGrows(log, r, benchmarks, window);
      pending := pending[symbol := row];
      log := log + [r];
      ok := true;
    }
  }

  lemma PendingGrows(log: seq<Reading>, r: Reading, benchmarks: Benchmarks, window: int)
    ensures Pending(log + [r], benchmarks, window) ==
              Pending(log, benchmarks, window)[r.symbol := RowOf(log + [r], benchmarks, window)]
  {
    hide RowOf;
    assert (log + [r])[..|log|] == log;
  }

  lemma ShownNext(log: seq<Reading>, r: Reading, benchmarks: Benchmarks, window: int)
    requires TimeOrdered(log + [r])
    ensures ClosedOf(log + [r], benchmarks, window) ==
              if log != [] && log[|log| - 1].ts < r.ts then Some(SectionOf(log, benchmarks, window))
              else ClosedOf(log, benchmarks, window)
  {
    ClosedGrows(log, r);
    assert log != [] ==> (log + [r])[|log| - 1].ts <= (log + [r])[|log|].ts;
    hide SectionOf, Select;
  }
}
