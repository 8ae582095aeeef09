/** Incremental session levels, instrument by instrument. */
module LevelTracker {
  import opened Common
  import opened Dictionaries
  import opened Market
  import opened Sessions
  import opened Levels

  /** Everything the tracker remembers about one instrument. */
  datatype Track = Track(
    levels: Option<SessionLevels>,
    session: Option<int>,
    priorClose: Option<real>,
    ranges: seq<real>,
    moves: seq<Profile>,
    volumes: seq<Profile>,
    sessionMoves: Profile,
    sessionVolumes: Profile,
    value: real,
    volume: real,
    square: real,
    opening: seq<Bar>
  )

  const NOTHING: Track := Track(None, None, None, [], [], [], map[], map[], 0.0, 0.0, 0.0, [])

  /** What the tracker must remember after `earlier` completed sessions and the bars of the one in hand. */
  ghost function Remembered(earlier: seq<seq<Print>>, current: seq<Print>, session: Option<int>): Track
    requires forall k :: 0 <= k < |earlier| ==> earlier[k] != []
  {
    var bars := BarsOf(current);
    Track(
      if current == [] then None else Some(Recomputed(earlier, current)),
      session,
      PriorClose(earlier),
      LastN(Widths(earlier), MEMORY),
      LastN(AllMoves(earlier), MEMORY),
      LastN(AllVolumes(earlier), MEMORY),
      Moves(current),
      Volumes(current),
      Value(bars),
      Volume(bars),
      Square(bars),
      if |bars| <= LONGEST_WINDOW then bars else bars[..LONGEST_WINDOW])
  }

  ghost function TrackOf(log: seq<Print>): Track {
    var runs := Runs(log);
    if runs == [] then NOTHING
    else Remembered(runs[..|runs| - 1], runs[|runs| - 1], Some(runs[|runs| - 1][0].session.openNs))
  }

  /** A finished session leaves its close and its range behind. */
  ghost function Finished(t: Track): Track {
    if t.levels.None? then t
    else
      var l := t.levels.value;
      t.(levels := None, priorClose := Some(l.close), ranges := LastN(t.ranges + [l.high - l.low], MEMORY))
  }

  /** Its profiles join the ones before it. */
  ghost function Kept(t: Track): Track {
    t.(moves := if t.sessionMoves != map[] then LastN(t.moves + [t.sessionMoves], MEMORY) else t.moves,
       volumes := if t.sessionVolumes != map[] then LastN(t.volumes + [t.sessionVolumes], MEMORY) else t.volumes)
  }

  /** The accumulators start again. */
  ghost function Restarted(t: Track, openNs: int): Track {
    t.(session := Some(openNs), sessionMoves := map[], sessionVolumes := map[], value := 0.0, volume := 0.0, square := 0.0,
       opening := [])
  }

  /** The state once a new session has begun and before its first bar. */
  ghost function Rolled(t: Track, openNs: int): Track { Restarted(Kept(Finished(t)), openNs) }

  /** The snapshot the tracker builds from what it holds and the bar in hand. */
  function Next(previous: Option<SessionLevels>, t: Track, p: Print): SessionLevels {
    var bar := p.bar;
    var count := if previous.Some? then previous.value.barCount + 1 else 1;
    var ranges := if previous.Some? then previous.value.openingRanges else map[];
    var range := if count in OPENING_WINDOWS then OpeningRangeOf(t.opening, count) else None;
    SessionLevels(
      p.session.date, p.session.openNs, p.session.closeNs,
      if previous.Some? then previous.value.sessionOpen else bar.open,
      if previous.Some? then MaxReal(previous.value.high, bar.high) else bar.high,
      if previous.Some? then MinReal(previous.value.low, bar.low) else bar.low,
      bar.close,
      VwapOf(t.value, t.volume),
      SpreadOf(t.value, t.volume, t.square),
      count,
      t.priorClose,
      RangeMean(t.ranges),
      if range.Some? then ranges[count := range.value] else ranges,
      p.nextOpenNs,
      t.volume,
      RelativeVolume(t.volumes, p.Minute(), t.volume),
      MeanMove(t.moves, p.Minute()))
  }

  /** The running sums with one more bar in them. */
  function Summed(t: Track, bar: Bar): Track {
    t.(value := t.value + ContributedValue(bar),
       volume := t.volume + ContributedVolume(bar),
       square := t.square + ContributedSquare(bar),
       opening := if |t.opening| < LONGEST_WINDOW then t.opening + [bar] else t.opening)
  }

  /** The profiles of the session in hand with the bar's minute filled in. */
  function Profiled(t: Track, p: Print): Track {
    var open := if t.levels.Some? then t.levels.value.sessionOpen else p.bar.open;
    t.(sessionMoves := t.sessionMoves[p.Minute() := MoveFrom(open, p.bar.close)],
       sessionVolumes := t.sessionVolumes[p.Minute() := t.volume])
  }

  function Accumulated(t: Track, p: Print): Track { Profiled(Summed(t, p.bar), p) }

  function Folded(t: Track, p: Print): Track {
    var after := Accumulated(t, p);
    after.(levels := Some(Next(t.levels, after, p)))
  }

  // ---- One bar at a time is the recomputation ----

  lemma BarsPush(run: seq<Print>, p: Print)
    ensures BarsOf(run + [p]) == BarsOf(run) + [p.bar]
  {
  }

  lemma SumsPush(bars: seq<Bar>, bar: Bar)
    ensures Value(bars + [bar]) == Value(bars) + ContributedValue(bar)
    ensures Volume(bars + [bar]) == Volume(bars) + ContributedVolume(bar)
    ensures Square(bars + [bar]) == Square(bars) + ContributedSquare(bar)
  {
    assert (bars + [bar])[..|bars|] == bars;
  }

  lemma ExtremesPush(bars: seq<Bar>, bar: Bar)
    ensures Highest(bars + [bar]) == if bars == [] then bar.high else MaxReal(Highest(bars), bar.high)
    ensures Lowest(bars + [bar]) == if bars == [] then bar.low else MinReal(Lowest(bars), bar.low)
  {
    assert (bars + [bar])[..|bars|] == bars;
  }

  lemma ProfilesPush(run: seq<Print>, p: Print)
    ensures Moves(run + [p]) == Moves(run)[p.Minute() := MoveFrom(if run == [] then p.bar.open else run[0].bar.open, p.bar.close)]
    ensures Volumes(run + [p]) == Volumes(run)[p.Minute() := Volume(BarsOf(run + [p]))]
  {
    assert (run + [p])[..|run|] == run;
  }

  lemma OpeningPush(bars: seq<Bar>, bar: Bar)
    ensures var after, n := bars + [bar], |bars| + 1;
            OpeningRanges(after) ==
              if n in OPENING_WINDOWS then OpeningRanges(bars)[n := OpeningRangeOf(after, n).value] else OpeningRanges(bars)
  {
    var after, n := bars + [bar], |bars| + 1;
    forall m | m in OPENING_WINDOWS && m <= |bars| ensures OpeningRangeOf(after, m) == OpeningRangeOf(bars, m) {
      assert after[..m] == bars[..m];
    }
    hide OpeningRangeOf;
  }

  /** Folding a bar into what is remembered of its session gives what is remembered of the session with
      that bar in it. */
  lemma FoldIsRecomputation(earlier: seq<seq<Print>>, current: seq<Print>, session: Option<int>, p: Print)
    requires forall k :: 0 <= k < |earlier| ==> earlier[k] != []
    ensures Folded(Remembered(earlier, current, session), p) == Remembered(earlier, current + [p], session)
  {
    var t, after := Remembered(earlier, current, session), Remembered(earlier, current + [p], session);
    AccumulatedIsRemembered(earlier, current, session, p);
    SnapshotIsRecomputed(earlier, current, session, p);
    NextIgnoresLevels(t.levels, after, t.levels, p);
    LevelsAre(earlier, current + [p], session);
    hide Accumulated, Next, Recomputed, Remembered;
  }

  lemma NextIgnoresLevels(previous: Option<SessionLevels>, t: Track, levels: Option<SessionLevels>, p: Print)
    ensures Next(previous, t.(levels := levels), p) == Next(previous, t, p)
  {
  }

  lemma LevelsAre(earlier: seq<seq<Print>>, run: seq<Print>, session: Option<int>)
    requires run != [] && forall k :: 0 <= k < |earlier| ==> earlier[k] != []
    ensures Remembered(earlier, run, session).levels == Some(Recomputed(earlier, run))
  {
    hide Recomputed;
  }

  lemma AccumulatedIsRemembered(earlier: seq<seq<Print>>, current: seq<Print>, session: Option<int>, p: Print)
    requires forall k :: 0 <= k < |earlier| ==> earlier[k] != []
    ensures var t := Remembered(earlier, current, session);
            Accumulated(t, p) == Remembered(earlier, current + [p], session).(levels := t.levels)
  {
    BarsPush(current, p);
    SumsPush(BarsOf(current), p.bar);
    ProfilesPush(current, p);
    hide Moves, Volumes, Value, Volume, Square, ContributedSquare, ContributedValue, ContributedVolume, MoveFrom;
    hide Widths, AllMoves, AllVolumes, LastN, PriorClose;
    var t := Remembered(earlier, current, session);
    assert t.levels.Some? ==> t.levels.value.sessionOpen == current[0].bar.open by {
      hide *;
      SessionOpenIs(earlier, current, session);
    }
  }

  lemma SessionOpenIs(earlier: seq<seq<Print>>, current: seq<Print>, session: Option<int>)
    requires forall k :: 0 <= k < |earlier| ==> earlier[k] != []
    ensures var t := Remembered(earlier, current, session);
            (t.levels.Some? <==> current != []) && (t.levels.Some? ==> t.levels.value.sessionOpen == current[0].bar.open)
  {
  }

  lemma SnapshotIsRecomputed(earlier: seq<seq<Print>>, current: seq<Print>, session: Option<int>, p: Print)
    requires forall k :: 0 <= k < |earlier| ==> earlier[k] != []
    ensures var t := Remembered(earlier, current, session);
            Next(t.levels, Remembered(earlier, current + [p], session), p) == Recomputed(earlier, current + [p])
  {
    var bars, all := BarsOf(current), BarsOf(current + [p]);
    var t := Remembered(earlier, current, session);
    BarsPush(current, p);
    ExtremesPush(bars, p.bar);
    OpeningPush(bars, p.bar);
    OpeningHeld(all);
    assert bars == [] ==> OpeningRanges(bars) == map[];
    PreviousIs(earlier, current, session);
    HeldIs(earlier, current + [p], session);
    hide Highest, Lowest, OpeningRanges, OpeningRangeOf, VwapOf, SpreadOf, RangeMean, RelativeVolume, MeanMove;
    hide Moves, Volumes, Value, Volume, Square, Widths, AllMoves, AllVolumes, LastN, PriorClose, Remembered;
  }

  lemma PreviousIs(earlier: seq<seq<Print>>, current: seq<Print>, session: Option<int>)
    requires forall k :: 0 <= k < |earlier| ==> earlier[k] != []
    ensures var t := Remembered(earlier, current, session);
            && (t.levels.Some? <==> current != [])
            && (current != [] ==>
                  && t.levels.value.barCount == |current| && t.levels.value.sessionOpen == current[0].bar.open
                  && t.levels.value.high == Highest(BarsOf(current)) && t.levels.value.low == Lowest(BarsOf(current))
                  && t.levels.value.openingRanges == OpeningRanges(BarsOf(current)))
  {
    hide Highest, Lowest, OpeningRanges, VwapOf, SpreadOf, RangeMean, RelativeVolume, MeanMove;
    hide Moves, Volumes, Value, Volume, Square, Widths, AllMoves, AllVolumes, LastN, PriorClose;
  }

  lemma HeldIs(earlier: seq<seq<Print>>, current: seq<Print>, session: Option<int>)
    requires forall k :: 0 <= k < |earlier| ==> earlier[k] != []
    ensures var t, bars := Remembered(earlier, current, session), BarsOf(current);
            && t.value == Value(bars) && t.volume == Volume(bars) && t.square == Square(bars)
            && t.priorClose == PriorClose(earlier) && t.ranges == LastN(Widths(earlier), MEMORY)
            && t.moves == LastN(AllMoves(earlier), MEMORY) && t.volumes == LastN(AllVolumes(earlier), MEMORY)
            && t.opening == if |bars| <= LONGEST_WINDOW then bars else bars[..LONGEST_WINDOW]
  {
    hide Value, Volume, Square, Widths, AllMoves, AllVolumes, LastN, PriorClose, Recomputed;
  }

  /** The bars kept are enough for every window that closes on the bar in hand. */
  lemma OpeningHeld(bars: seq<Bar>)
    ensures var held := if |bars| <= LONGEST_WINDOW then bars else bars[..LONGEST_WINDOW];
            |bars| in OPENING_WINDOWS ==>
              OpeningRangeOf(held, |bars|) == OpeningRangeOf(bars, |bars|) && OpeningRangeOf(bars, |bars|).Some?
  {
  }

  lemma LastNPush<T>(s: seq<T>, x: T, n: nat)
    ensures LastN(LastN(s, n) + [x], n) == LastN(s + [x], n)
  {
  }

  lemma HistoriesPush(earlier: seq<seq<Print>>, run: seq<Print>)
    requires run != [] && forall k :: 0 <= k < |earlier| ==> earlier[k] != []
    ensures var runs := earlier + [run];
            && (forall k :: 0 <= k < |runs| ==> runs[k] != [])
            && LastN(Widths(runs), MEMORY) == LastN(LastN(Widths(earlier), MEMORY) + [Width(run)], MEMORY)
            && LastN(AllMoves(runs), MEMORY) == LastN(LastN(AllMoves(earlier), MEMORY) + [Moves(run)], MEMORY)
            && LastN(AllVolumes(runs), MEMORY) == LastN(LastN(AllVolumes(earlier), MEMORY) + [Volumes(run)], MEMORY)
            && PriorClose(runs) == Some(LastClose(run))
  {
    hide LastN, Width, Moves, Volumes;
    var runs := earlier + [run];
    assert Widths(runs) == Widths(earlier) + [Width(run)];
    assert AllMoves(runs) == AllMoves(earlier) + [Moves(run)];
    assert AllVolumes(runs) == AllVolumes(earlier) + [Volumes(run)];
    LastNPush(Widths(earlier), Width(run), MEMORY);
    LastNPush(AllMoves(earlier), Moves(run), MEMORY);
    LastNPush(AllVolumes(earlier), Volumes(run), MEMORY);
  }

  lemma NothingYet(earlier: seq<seq<Print>>, session: Option<int>)
    requires forall k :: 0 <= k < |earlier| ==> earlier[k] != []
    ensures Remembered(earlier, [], session) ==
              Track(None, session, PriorClose(earlier), LastN(Widths(earlier), MEMORY), LastN(AllMoves(earlier), MEMORY),
                    LastN(AllVolumes(earlier), MEMORY), map[], map[], 0.0, 0.0, 0.0, [])
  {
    assert BarsOf([]) == [];
  }

  lemma FinishedLevels(earlier: seq<seq<Print>>, run: seq<Print>, session: Option<int>)
    requires run != [] && forall k :: 0 <= k < |earlier| ==> earlier[k] != []
    ensures var t := Remembered(earlier, run, session);
            && t.levels.Some? && t.levels.value.close == LastClose(run)
            && t.levels.value.high - t.levels.value.low == Width(run)
            && t.sessionMoves == Moves(run) && t.sessionVolumes == Volumes(run)
            && t.ranges == LastN(Widths(earlier), MEMORY) && t.moves == LastN(AllMoves(earlier), MEMORY)
            && t.volumes == LastN(AllVolumes(earlier), MEMORY)
  {
    hide Moves, Volumes, Widths, AllMoves, AllVolumes, LastN, Value, Volume, Square, Highest, Lowest;
    hide VwapOf, SpreadOf, RangeMean, RelativeVolume, MeanMove, OpeningRanges;
  }

  /** Rolling into a new session remembers the finished one and nothing of the one to come. */
  lemma RollIsRecomputation(earlier: seq<seq<Print>>, run: seq<Print>, session: Option<int>, openNs: int)
    requires run != [] && forall k :: 0 <= k < |earlier| ==> earlier[k] != []
    ensures forall k :: 0 <= k < |earlier + [run]| ==> (earlier + [run])[k] != []
    ensures Rolled(Remembered(earlier, run, session), openNs) == Remembered(earlier + [run], [], Some(openNs))
  {
    HistoriesPush(earlier, run);
    NothingYet(earlier + [run], Some(openNs));
    FinishedLevels(earlier, run, session);
    ProfilesAreNotEmpty(run);
    hide Remembered, Moves, Volumes, Widths, AllMoves, AllVolumes, LastN, Width, PriorClose;
  }

  lemma ProfilesAreNotEmpty(run: seq<Print>)
    requires run != []
    ensures Moves(run) != map[] && Volumes(run) != map[]
  {
    assert run[|run| - 1].Minute() in Moves(run) && run[|run| - 1].Minute() in Volumes(run);
  }

  /** The tracker's reaction to one bar a session holds. */
  ghost function Updated(t: Track, p: Print): Track {
    Folded(if t.session == Some(p.session.openNs) then t else Rolled(t, p.session.openNs), p)
  }

  lemma RunsPush(log: seq<Print>, p: Print)
    ensures var runs := Runs(log);
            Runs(log + [p]) ==
              if runs != [] && runs[|runs| - 1][0].session.openNs == p.session.openNs
              then runs[|runs| - 1 := runs[|runs| - 1] + [p]] else runs + [[p]]
  {
    assert (log + [p])[..|log|] == log;
  }

  /** Streaming equals batch, one step: updating what the bars so far determine gives what the bars with
      the new one determine. */
  lemma UpdateIsRecomputation(log: seq<Print>, p: Print)
    ensures Updated(TrackOf(log), p) == TrackOf(log + [p])
  {
    var runs := Runs(log);
    var openNs := p.session.openNs;
    RunsPush(log, p);
    hide Runs, Folded, Rolled, Remembered;
    if runs == [] {
      NothingYet([], Some(openNs));
      StartsFromNothing(openNs);
      FoldIsRecomputation([], [], Some(openNs), p);
      assert [] + [p] == [p] && (runs + [[p]])[..|runs|] == [];
    } else {
      var earlier, current := runs[..|runs| - 1], runs[|runs| - 1];
      assert runs == earlier + [current];
      var session := Some(current[0].session.openNs);
      SessionOf(earlier, current, session);
      if current[0].session.openNs == openNs {
        FoldIsRecomputation(earlier, current, session, p);
        assert runs[|runs| - 1 := current + [p]][..|runs| - 1] == earlier;
      } else {
        RollIsRecomputation(earlier, current, session, openNs);
        FoldIsRecomputation(runs, [], Some(openNs), p);
        assert [] + [p] == [p] && (runs + [[p]])[..|runs|] == runs;
      }
    }
  }

  lemma SessionOf(earlier: seq<seq<Print>>, current: seq<Print>, session: Option<int>)
    requires forall k :: 0 <= k < |earlier| ==> earlier[k] != []
    ensures Remembered(earlier, current, session).session == session
  {
  }

  lemma StartsFromNothing(openNs: int)
    ensures NOTHING.session == None && Rolled(NOTHING, openNs) == Remembered([], [], Some(openNs))
  {
    NothingYet([], Some(openNs));
    assert Widths([]) == [] && AllMoves([]) == [] && AllVolumes([]) == [];
  }

  // ---- The tracker ----

  class SessionLevelTracker {
    var levels: map<Symbol, SessionLevels>
    var session: map<Symbol, int>
    var priorClose: map<Symbol, real>
    var ranges: map<Symbol, seq<real>>
    var moves: map<Symbol, seq<Profile>>
    var volumes: map<Symbol, seq<Profile>>
    var sessionMoves: map<Symbol, Profile>
    var sessionVolumes: map<Symbol, Profile>
    var value: map<Symbol, real>
    var volume: map<Symbol, real>
    var square: map<Symbol, real>
    var openingBars: map<Symbol, seq<Bar>>
    /** Every bar a session held, by instrument. */
    ghost var log: map<Symbol, seq<Print>>

    ghost function Log(s: Symbol): seq<Print>
      reads this`log
    {
      Get(log, s, [])
    }

    /** What is held about one instrument. */
    function View(s: Symbol): Track
      reads this`levels, this`session, this`priorClose, this`ranges, this`moves, this`volumes
      reads this`sessionMoves, this`sessionVolumes, this`value, this`volume, this`square, this`openingBars
    {
      Track(Find(levels, s), Find(session, s), Find(priorClose, s), Get(ranges, s, []), Get(moves, s, []),
            Get(volumes, s, []), Get(sessionMoves, s, map[]), Get(sessionVolumes, s, map[]), Get(value, s, 0.0),
            Get(volume, s, 0.0), Get(square, s, 0.0), Get(openingBars, s, []))
    }

    /** The accumulators exist. */
    ghost predicate Ready(s: Symbol)
      reads this`sessionMoves, this`sessionVolumes, this`value, this`volume, this`square, this`openingBars
    {
      s in value && s in volume && s in square && s in openingBars && s in sessionMoves && s in sessionVolumes
    }

    /** What is held about every instrument is what its own bars determine. */
    ghost predicate Valid()
      reads this
    {
      && (forall s :: View(s) == TrackOf(Log(s)))
      && (forall s :: s in session ==> Ready(s))
    }

    constructor ()
      ensures Valid() && log == map[]
    {
      levels, session, priorClose, ranges, moves, volumes := map[], map[], map[], map[], map[], map[];
      sessionMoves, sessionVolumes, value, volume, square, openingBars := map[], map[], map[], map[], map[], map[];
      log := map[];
    }

    /** The current levels, which are what recomputing from the instrument's bars gives. */
    method Levels(symbol: Symbol) returns (r: Option<SessionLevels>)
      requires Valid()
      ensures r == LevelsOf(Log(symbol))
    {
      r := Find(levels, symbol);
      assert View(symbol).levels == TrackOf(Log(symbol)).levels;
      TrackHoldsLevels(Log(symbol));
    }

    /** Nothing is different for any other instrument. */
    twostate predicate OnlyChanged(symbol: Symbol)
      reads this
    {
      forall s :: s != symbol ==>
        View(s) == old(View(s)) && (Ready(s) <==> old(Ready(s))) && (s in session <==> s in old(session))
    }

    method Finish(symbol: Symbol)
      modifies this`levels, this`priorClose, this`ranges
      ensures View(symbol) == Finished(old(View(symbol))) && OnlyChanged(symbol)
    {
      ghost var before := View(symbol);
      assert before.levels == Find(levels, symbol) && before.ranges == Get(ranges, symbol, []);
      if symbol in levels {
        var finished := levels[symbol];
        RememberFinished(symbol, finished.close, finished.high - finished.low);
        assert View(symbol).levels == before.levels;
        DropLevels(symbol);
      }
    }

    method RememberFinished(symbol: Symbol, close: real, width: real)
      modifies this`priorClose, this`ranges
      ensures View(symbol) == var t := old(View(symbol));
                t.(priorClose := Some(close), ranges := LastN(t.ranges + [width], MEMORY))
      ensures OnlyChanged(symbol)
    {
      Stores<real>(); Stores<seq<real>>();
      hide Find, Get, LastN, Put, Without;
      priorClose := Put(priorClose, symbol, close);
      ranges := Put(ranges, symbol, LastN(Get(ranges, symbol, []) + [width], MEMORY));
    }

    method DropLevels(symbol: Symbol)
      modifies this`levels
      ensures View(symbol) == old(View(symbol)).(levels := None) && OnlyChanged(symbol)
    {
      Stores<SessionLevels>();
      hide Find, Get, Put, Without;
      levels := Without(levels, symbol);
    }

    method KeepProfiles(symbol: Symbol)
      modifies this`moves, this`volumes
      ensures View(symbol) == Kept(old(View(symbol))) && OnlyChanged(symbol)
    {
      Stores<seq<Profile>>();
      hide Find, Get, LastN, Put, Without;
      if Get(sessionMoves, symbol, map[]) != map[] {
        moves := Put(moves, symbol, LastN(Get(moves, symbol, []) + [Get(sessionMoves, symbol, map[])], MEMORY));
      }
      if Get(sessionVolumes, symbol, map[]) != map[] {
        volumes := Put(volumes, symbol, LastN(Get(volumes, symbol, []) + [Get(sessionVolumes, symbol, map[])], MEMORY));
      }
    }

    method Restart(symbol: Symbol, openNs: int)
      modifies this`session, this`sessionMoves, this`sessionVolumes, this`value, this`volume, this`square, this`openingBars
      ensures View(symbol) == Restarted(old(View(symbol)), openNs) && OnlyChanged(symbol) && Ready(symbol) && symbol in session
    {
      ghost var before := View(symbol);
      ClearProfiles(symbol, openNs);
      assert View(symbol) == before.(session := Some(openNs), sessionMoves := map[], sessionVolumes := map[]);
      hide SessionLevelTracker.View;
      ClearSums(symbol);
    }

    method ClearProfiles(symbol: Symbol, openNs: int)
      modifies this`session, this`sessionMoves, this`sessionVolumes
      ensures View(symbol) == old(View(symbol)).(session := Some(openNs), sessionMoves := map[], sessionVolumes := map[])
      ensures OnlyChanged(symbol) && symbol in session && symbol in sessionMoves && symbol in sessionVolumes
    {
      Stores<int>(); Stores<Profile>();
      hide Find, Get, Put, Without;
      sessionMoves := Put(sessionMoves, symbol, map[]);
      sessionVolumes := Put(sessionVolumes, symbol, map[]);
      session := Put(session, symbol, openNs);
    }

    method ClearSums(symbol: Symbol)
      requires symbol in sessionMoves && symbol in sessionVolumes
      modifies this`value, this`volume, this`square, this`openingBars
      ensures View(symbol) == old(View(symbol)).(value := 0.0, volume := 0.0, square := 0.0, opening := [])
      ensures OnlyChanged(symbol) && Ready(symbol)
    {
      ClearTotals(symbol);
      Stores<real>(); Stores<seq<Bar>>();
      hide Find, Get, Put, Without;
      square := Put(square, symbol, 0.0);
      openingBars := Put(openingBars, symbol, []);
    }

    method ClearTotals(symbol: Symbol)
      modifies this`value, this`volume
      ensures View(symbol) == old(View(symbol)).(value := 0.0, volume := 0.0)
      ensures OnlyChanged(symbol) && symbol in value && symbol in volume
    {
      Stores<real>();
      hide Find, Get, Put, Without;
      value := Put(value, symbol, 0.0);
      volume := Put(volume, symbol, 0.0);
    }

    /** Files the finished session and begins the next: the prior close, the last range and the profiles
        go over, all else starts empty. */
    method Roll(symbol: Symbol, openNs: int)
      modifies this
      ensures View(symbol) == Rolled(old(View(symbol)), openNs) && OnlyChanged(symbol) && Ready(symbol) && symbol in session
      ensures log == old(log)
    {
      hide SessionLevelTracker.View, SessionLevelTracker.Ready, Finished, Kept, Restarted;
      Finish(symbol);
      KeepProfiles(symbol);
      Restart(symbol, openNs);
    }

    method AddSums(symbol: Symbol, bar: Bar)
      requires Ready(symbol)
      modifies this`value, this`volume, this`square, this`openingBars
      ensures View(symbol) == Summed(old(View(symbol)), bar) && OnlyChanged(symbol) && Ready(symbol)
    {
      ghost var before := View(symbol);
      AddTotals(symbol, bar);
      assert View(symbol).opening == before.opening;
      hide SessionLevelTracker.View;
      AddOpening(symbol, bar);
    }

    method AddTotals(symbol: Symbol, bar: Bar)
      requires Ready(symbol)
      modifies this`value, this`volume, this`square
      ensures View(symbol) == var t := old(View(symbol)); t.(value := t.value + ContributedValue(bar),
                                volume := t.volume + ContributedVolume(bar), square := t.square + ContributedSquare(bar))
      ensures OnlyChanged(symbol) && Ready(symbol)
    {
      assert Get(value, symbol, 0.0) == value[symbol] && Get(volume, symbol, 0.0) == volume[symbol];
      assert Get(square, symbol, 0.0) == square[symbol];
      Stores<real>();
      hide Get, Put, Find, ContributedValue, ContributedVolume, ContributedSquare;
      value := Put(value, symbol, value[symbol] + ContributedValue(bar));
      volume := Put(volume, symbol, volume[symbol] + ContributedVolume(bar));
      square := Put(square, symbol, square[symbol] + ContributedSquare(bar));
    }

    method AddOpening(symbol: Symbol, bar: Bar)
      requires Ready(symbol)
      modifies this`openingBars
      ensures View(symbol) == var t := old(View(symbol));
                t.(opening := if |t.opening| < LONGEST_WINDOW then t.opening + [bar] else t.opening)
      ensures OnlyChanged(symbol) && Ready(symbol)
    {
      assert Get(openingBars, symbol, []) == openingBars[symbol];
      Stores<seq<Bar>>();
      hide Get, Put, Find;
      if |openingBars[symbol]| < LONGEST_WINDOW {
        openingBars := Put(openingBars, symbol, openingBars[symbol] + [bar]);
      }
    }

    method AddProfiles(symbol: Symbol, p: Print)
      requires Ready(symbol)
      modifies this`sessionMoves, this`sessionVolumes
      ensures View(symbol) == Profiled(old(View(symbol)), p) && OnlyChanged(symbol) && Ready(symbol)
    {
      assert Get(volume, symbol, 0.0) == volume[symbol];
      assert Get(sessionMoves, symbol, map[]) == sessionMoves[symbol]
          && Get(sessionVolumes, symbol, map[]) == sessionVolumes[symbol];
      Stores<Profile>();
      hide Get, Put, Find, MoveFrom;
      var previous := Find(levels, symbol);
      var sessionOpen := if previous.Some? then previous.value.sessionOpen else p.bar.open;
      sessionMoves := Put(sessionMoves, symbol, sessionMoves[symbol][p.Minute() := MoveFrom(sessionOpen, p.bar.close)]);
      sessionVolumes := Put(sessionVolumes, symbol, sessionVolumes[symbol][p.Minute() := volume[symbol]]);
    }

    /** Adds one bar to the session in hand; refused when the average price comes to nothing that could be
        held, and then the instrument is left without a snapshot of the bar. */
    method Fold(symbol: Symbol, p: Print) returns (ok: bool)
      requires Ready(symbol)
      modifies this
      ensures OnlyChanged(symbol) && Ready(symbol) && log == old(log) && session == old(session)
      ensures ok <==> Priced(Folded(old(View(symbol)), p).levels.value)
      ensures ok ==> View(symbol) == Folded(old(View(symbol)), p)
    {
      ghost var before := View(symbol);
      AddSums(symbol, p.bar);
      AddProfiles(symbol, p);
      assert View(symbol) == Accumulated(before, p) && View(symbol).levels == before.levels;
      var vwap := VwapOf(Get(value, symbol, 0.0), Get(volume, symbol, 0.0));
      assert vwap == Folded(before, p).levels.value.vwap;
      if vwap.Some? && vwap.value <= 0.0 { return false; }
      TakeSnapshot(symbol, p);
      ok := true;
    }

    method TakeSnapshot(symbol: Symbol, p: Print)
      modifies this`levels
      ensures View(symbol) == old(View(symbol)).(levels := Some(Next(old(View(symbol)).levels, old(View(symbol)), p)))
      ensures OnlyChanged(symbol)
    {
      Stores<SessionLevels>();
      hide Get, Next, Find, Put;
      levels := Put(levels, symbol, Next(Find(levels, symbol), View(symbol), p));
    }

    lemma SessionHeld(symbol: Symbol)
      ensures View(symbol).session == Find(session, symbol)
      ensures symbol in session <==> Find(session, symbol).Some?
    {
    }

    /** One bar a session holds: a new session is begun where its open differs from the last one's. */
    method Enter(symbol: Symbol, p: Print) returns (ok: bool)
      requires symbol in session ==> Ready(symbol)
      modifies this
      ensures OnlyChanged(symbol) && Ready(symbol) && symbol in session && log == old(log)
      ensures ok <==> Priced(Updated(old(View(symbol)), p).levels.value)
      ensures ok ==> View(symbol) == Updated(old(View(symbol)), p)
    {
      SessionHeld(symbol);
      hide Rolled, Priced, SessionLevelTracker.Ready, SessionLevelTracker.View, Find, Accumulated, Next;
      if Find(session, symbol) != Some(p.session.openNs) { Roll(symbol, p.session.openNs); }
      ok := Fold(symbol, p);
    }

    /** Takes one bar: outside every session it changes nothing, and it is refused when the average price
        would round to zero. Other instruments keep what they had. */
    method Update(bar: Bar, held: Option<TradingSession>, nextOpenNs: Option<int>) returns (ok: bool)
      requires Valid()
      modifies this
      ensures ok <==> held.None? || Priced(LevelsOf(old(Log(bar.symbol)) + [Print(bar, held.value, nextOpenNs)]).value)
      ensures ok ==> Valid()
      ensures log == if held.None? || !ok then old(log)
                     else Put(old(log), bar.symbol, old(Log(bar.symbol)) + [Print(bar, held.value, nextOpenNs)])
      ensures OnlyChanged(bar.symbol)
    {
      hide TrackOf, Updated, Priced, LevelsOf, SessionLevelTracker.Ready, SessionLevelTracker.View, Find, Get, Put;
      if held.None? { return true; }
      var symbol, p := bar.symbol, Print(bar, held.value, nextOpenNs);
      ghost var before := Log(symbol);
      Stores<seq<Print>>();
      UpdateIsRecomputation(before, p);
      TrackHoldsLevels(before + [p]);
      ok := Enter(symbol, p);
      if ok { log := Put(log, symbol, before + [p]); }
    }
  }

  lemma TrackHoldsLevels(log: seq<Print>)
    ensures TrackOf(log).levels == LevelsOf(log)
  {
    hide Runs, Recomputed;
  }
}
