/** The universe at one instant, its rankings, and the regression behind a beta. */
module CrossSection {
  import opened Common
  import opened Reals
  import opened Sequences
  import opened Sorting

  const BETA_MEMORY: nat := 60
  const RETURN_MEMORY: nat := 120
  const MIN_BETA_VARIANCE: real := 0.000000000001

  datatype Row = Row(
    symbol: Symbol,
    sessionReturn: real,
    trailingReturn: Option<real>,
    relativeVolume: Option<real>,
    beta: Option<real>,
    residual: Option<real>
  ) {
    /** The return net of what the beta explains; nothing without a beta. */
    function ResidualAgainst(benchmarkReturn: real): Option<real> {
      if beta.None? then None else Some(sessionReturn - Product(beta.value, benchmarkReturn))
    }
  }

  datatype Section = Section(asOf: int, rows: map<Symbol, Row>)

  // ---- Dates in order ----

  predicate IsLeast(s: set<int>, m: int) { m in s && forall x :: x in s ==> m <= x }

  function Earliest(s: set<int>): (m: int)
    requires s != {}
    ensures IsLeast(s, m)
  {
    EarliestExists(s);
    var m :| m in s && IsLeast(s, m); m
  }

  lemma {:induction false} EarliestExists(s: set<int>)
    requires s != {}
    ensures exists m :: m in s && IsLeast(s, m)
  {
    var a := Pick(s);
    var rest := s - {a};
    if rest == {} {
      forall x | x in s ensures a <= x { assert x == a || x in rest; }
      assert IsLeast(s, a);
    } else {
      EarliestExists(rest);
      var m :| m in rest && IsLeast(rest, m);
      var least := if a <= m then a else m;
      forall x | x in s ensures least <= x { assert x == a || x in rest; }
      assert IsLeast(s, least);
    }
  }

  lemma Pick(s: set<int>) returns (a: int)
    requires s != {}
    ensures a in s
  {
    assert (forall x :: x !in s) ==> s == {};
    a :| a in s;
  }

  function InOrder(s: set<int>): (r: seq<int>)
    ensures |r| == |s| && forall x :: x in r <==> x in s
    decreases |s|
  {
    if s == {} then [] else [Earliest(s)] + InOrder(s - {Earliest(s)})
  }

  lemma {:induction false} InOrderAscends(s: set<int>)
    ensures forall i, j :: 0 <= i < j < |InOrder(s)| ==> InOrder(s)[i] < InOrder(s)[j]
    decreases |s|
  {
    if s != {} {
      var first := Earliest(s);
      var rest := InOrder(s - {first});
      InOrderAscends(s - {first});
      assert InOrder(s) == [first] + rest;
      hide InOrder;
      forall j | 0 <= j < |rest| ensures first < rest[j] { assert rest[j] in rest; }
    }
  }

  // ---- Rankings ----

  function Scored(rows: map<Symbol, Row>, symbols: seq<Symbol>, measure: Row -> Option<real>): seq<(real, Symbol)> {
    if symbols == [] then []
    else
      var last := symbols[|symbols| - 1];
      Scored(rows, symbols[..|symbols| - 1], measure) +
      (if last in rows && measure(rows[last]).Some? then [(measure(rows[last]).value, last)] else [])
  }

  /** Strongest first when descending; ties go to the earlier symbol. */
  function Stronger(descending: bool): ((real, Symbol), (real, Symbol)) -> bool {
    (a: (real, Symbol), b: (real, Symbol)) =>
      if a.0 == b.0 then a.1 <= b.1 else if descending then a.0 > b.0 else a.0 < b.0
  }

  function Ranked(s: Section, measure: Row -> Option<real>, descending: bool): seq<(real, Symbol)> {
    Sort(Scored(s.rows, InOrder(s.rows.Keys), measure), Stronger(descending))
  }

  /** The measured instruments, largest first, ties by symbol; unmeasured ones take no place. */
  function RankBy(s: Section, measure: Row -> Option<real>, descending: bool): (r: seq<Symbol>)
    ensures |r| == |Ranked(s, measure, descending)|
  {
    var ranked := Ranked(s, measure, descending);
    seq(|ranked|, k requires 0 <= k < |ranked| => ranked[k].1)
  }

  ghost predicate Measured(rows: map<Symbol, Row>, measure: Row -> Option<real>, symbol: Symbol) {
    symbol in rows && measure(rows[symbol]).Some?
  }

  lemma {:induction false} ScoredIsExact(rows: map<Symbol, Row>, symbols: seq<Symbol>, measure: Row -> Option<real>)
    requires forall i, j :: 0 <= i < j < |symbols| ==> symbols[i] < symbols[j]
    ensures var r := Scored(rows, symbols, measure);
            && (forall p :: p in r <==> p.1 in symbols && Measured(rows, measure, p.1) && p.0 == measure(rows[p.1]).value)
            && (forall i, j :: 0 <= i < j < |r| ==> r[i].1 < r[j].1)
  {
    if symbols != [] {
      var n := |symbols| - 1;
      ScoredIsExact(rows, symbols[..n], measure);
      assert symbols == symbols[..n] + [symbols[n]];
      var front := Scored(rows, symbols[..n], measure);
      forall i | 0 <= i < |front| ensures front[i].1 < symbols[n] { assert front[i] in front; }
    }
  }

  lemma StrongerIsOrder(descending: bool)
    ensures TotalPreorder(Stronger(descending))
  {
  }

  /** A ranking holds exactly the instruments the measure exists for, once each, by measure and then by
      symbol: nothing about the order rows arrived in is left in it. */
  lemma RankIsDetermined(s: Section, measure: Row -> Option<real>, descending: bool)
    ensures var r := RankBy(s, measure, descending);
            && (forall x :: x in r <==> Measured(s.rows, measure, x))
            && Distinct(r)
            && forall i, j :: 0 <= i < j < |r| && Measured(s.rows, measure, r[i]) && Measured(s.rows, measure, r[j]) ==>
                 var a, b := measure(s.rows[r[i]]).value, measure(s.rows[r[j]]).value;
                 if a == b then r[i] < r[j] else if descending then a > b else a < b
  {
    var symbols := InOrder(s.rows.Keys);
    var scored, ranked := Scored(s.rows, symbols, measure), Ranked(s, measure, descending);
    InOrderAscends(s.rows.Keys);
    ScoredIsExact(s.rows, symbols, measure);
    StrongerIsOrder(descending);
    SortIsSort(scored, Stronger(descending));
    hide Sort, Scored, InOrder, TotalPreorder;
    SameEntries(scored, ranked);
    DistinctOnce(scored);
    DistinctOnce(ranked);
    RankFollows(s, measure, descending, ranked);
  }

  lemma SameEntries<T>(a: seq<T>, b: seq<T>)
    requires multiset(a) == multiset(b)
    ensures forall x :: x in a <==> x in b
  {
    forall x ensures x in a <==> x in b { assert x in multiset(a) <==> x in multiset(b); }
  }

  lemma RankFollows(s: Section, measure: Row -> Option<real>, descending: bool, ranked: seq<(real, Symbol)>)
    requires ranked == Ranked(s, measure, descending) && Distinct(ranked) && SortedBy(ranked, Stronger(descending))
    requires forall p :: p in ranked <==> Measured(s.rows, measure, p.1) && p.0 == measure(s.rows[p.1]).value
    ensures var r := RankBy(s, measure, descending);
            && (forall x :: x in r <==> Measured(s.rows, measure, x))
            && Distinct(r)
            && forall i, j :: 0 <= i < j < |r| && Measured(s.rows, measure, r[i]) && Measured(s.rows, measure, r[j]) ==>
                 var a, b := measure(s.rows[r[i]]).value, measure(s.rows[r[j]]).value;
                 if a == b then r[i] < r[j] else if descending then a > b else a < b
  {
    var r := RankBy(s, measure, descending);
    hide Ranked;
    assert forall k :: 0 <= k < |ranked| ==> ranked[k] in ranked && r[k] == ranked[k].1;
    forall x ensures x in r <==> Measured(s.rows, measure, x) {
      if Measured(s.rows, measure, x) {
        var p := (measure(s.rows[x]).value, x);
        assert p in ranked;
        var k :| 0 <= k < |ranked| && ranked[k] == p;
        assert r[k] == x;
      }
    }
    forall i, j | 0 <= i < j < |r| ensures r[i] != r[j] { assert ranked[i] != ranked[j]; }
    forall i, j | 0 <= i < j < |r| ensures Stronger(descending)(ranked[i], ranked[j]) {}
  }

  // ---- The most recent dates ----

  type Returns = map<int, real>

  ghost function Above(dates: set<int>, d: int): set<int> { set e | e in dates && e > d }

  /** The dates fewer than `RETURN_MEMORY` others are later than. */
  ghost predicate Recent(dates: set<int>, d: int) { d in dates && |Above(dates, d)| < RETURN_MEMORY }

  ghost function Trim(history: Returns): Returns { map d | d in history && Recent(history.Keys, d) :: history[d] }

  lemma SubsetSize<T>(a: set<T>, b: set<T>)
    requires a <= b
    ensures |a| <= |b|
  {
    assert b == a + (b - a);
  }

  /** Deleting the oldest date of too long a history changes nothing that is kept. */
  lemma DropOldest(history: Returns, oldest: int)
    requires |history| > RETURN_MEMORY && oldest == Earliest(history.Keys)
    ensures Trim(history - {oldest}) == Trim(history)
  {
    var dates, rest := history.Keys, history.Keys - {oldest};
    assert (history - {oldest}).Keys == rest;
    assert Above(dates, oldest) == rest;
    assert |rest| == |dates| - 1 >= RETURN_MEMORY;
    forall d | d in rest ensures Above(rest, d) == Above(dates, d) {
      assert oldest <= d;
    }
  }

  /** A history no longer than the memory is kept whole. */
  lemma ShortIsKept(history: Returns)
    requires |history| <= RETURN_MEMORY
    ensures Trim(history) == history
  {
    forall d | d in history ensures Recent(history.Keys, d) {
      assert Above(history.Keys, d) <= history.Keys - {d};
      SubsetSize(Above(history.Keys, d), history.Keys - {d});
    }
  }

  /** A trimmed history still has a full memory of dates above anything trimmed away. */
  lemma {:induction false} EnoughAbove(dates: set<int>, kept: set<int>, d: int)
    requires forall e :: e in kept <==> Recent(dates, e)
    requires |Above(dates, d)| >= RETURN_MEMORY
    ensures |Above(kept, d)| >= RETURN_MEMORY
    decreases |Above(dates, d)|
  {
    var above := Above(dates, d);
    var least := Earliest(above);
    assert Above(dates, least) == above - {least};
    if |above| == RETURN_MEMORY {
      forall e | e in above ensures e in kept {
        assert Above(dates, e) <= above - {least};
        SubsetSize(Above(dates, e), above - {least});
      }
      assert Above(kept, d) == above;
    } else {
      EnoughAbove(dates, kept, least);
      assert Above(kept, least) <= Above(kept, d);
      SubsetSize(Above(kept, least), Above(kept, d));
    }
  }

  lemma TrimmedKeys(history: Returns)
    ensures forall e :: e in Trim(history).Keys <==> Recent(history.Keys, e)
  {
  }

  lemma RecentSurvives(history: Returns, d: int, e: int)
    requires Recent(history.Keys + {d}, e)
    ensures Recent(Trim(history).Keys + {d}, e)
  {
    TrimmedKeys(history);
    var all, kept := history.Keys + {d}, Trim(history).Keys + {d};
    assert Above(history.Keys, e) <= Above(all, e) && Above(kept, e) <= Above(all, e);
    SubsetSize(Above(history.Keys, e), Above(all, e));
    SubsetSize(Above(kept, e), Above(all, e));
  }

  lemma KeptWasRecent(history: Returns, d: int, e: int)
    requires Recent(Trim(history).Keys + {d}, e)
    ensures Recent(history.Keys + {d}, e)
  {
    TrimmedKeys(history);
    var all, kept := history.Keys + {d}, Trim(history).Keys + {d};
    if f :| f in Above(all, e) && f !in kept {
      assert |Above(history.Keys, f)| >= RETURN_MEMORY;
      EnoughAbove(history.Keys, Trim(history).Keys, f);
      assert Above(Trim(history).Keys, f) <= Above(kept, e);
      SubsetSize(Above(Trim(history).Keys, f), Above(kept, e));
    } else {
      assert Above(all, e) == Above(kept, e);
    }
  }

  /** Trimming as the history grows keeps what trimming the whole history would: the most recent dates. */
  lemma TrimAsYouGo(history: Returns, d: int, x: real)
    ensures Trim(Trim(history)[d := x]) == Trim(history[d := x])
  {
    var whole, grown := history[d := x], Trim(history)[d := x];
    assert whole.Keys == history.Keys + {d} && grown.Keys == Trim(history).Keys + {d};
    forall e ensures Recent(whole.Keys, e) <==> Recent(grown.Keys, e) {
      if Recent(whole.Keys, e) { RecentSurvives(history, d, e); }
      if Recent(grown.Keys, e) { KeptWasRecent(history, d, e); }
    }
    hide Recent;
  }

  /** What is kept is the latest part: as many dates as fit, each later than every date let go. */
  lemma {:induction false} TrimKeepsTheLatest(history: Returns)
    ensures |Trim(history)| == Min(|history|, RETURN_MEMORY)
    ensures forall d, e :: d in Trim(history) && e in history && e !in Trim(history) ==> e < d
    decreases |history|
  {
    if |history| <= RETURN_MEMORY {
      ShortIsKept(history);
    } else {
      var oldest := Earliest(history.Keys);
      var rest := history - {oldest};
      assert rest.Keys == history.Keys - {oldest};
      DropOldest(history, oldest);
      TrimKeepsTheLatest(rest);
      assert Trim(rest).Keys <= rest.Keys;
      hide Trim;
      assert forall d :: d in Trim(history) ==> oldest < d;
      assert forall e :: e in history ==> e == oldest || e in rest;
    }
  }

  /** The oldest dates go until the memory fits. */
  method Forget(history: Returns) returns (r: Returns)
    ensures r == Trim(history)
  {
    r := history;
    while |r| > RETURN_MEMORY
      invariant Trim(r) == Trim(history)
      decreases |r|
    {
      var oldest := Earliest(r.Keys);
      DropOldest(r, oldest);
      assert |r - {oldest}| < |r| by { assert (r - {oldest}).Keys == r.Keys - {oldest}; }
      r := r - {oldest};
    }
    ShortIsKept(r);
  }

  // ---- The regression ----

  /** Sum of the products of deviations from two given centres. */
  function Products(a: seq<real>, b: seq<real>, x: real, y: real): real
    requires |a| == |b|
  {
    if a == [] then 0.0
    else
      var n := |a| - 1;
      Products(a[..n], b[..n], x, y) + Product(a[n] - x, b[n] - y)
  }

  function Mean(s: seq<real>): real
    requires s != []
  {
    SumReal(s) / |s| as real
  }

  function Covariance(own: seq<real>, market: seq<real>): real
    requires |own| == |market| > 0
  {
    Products(own, market, Mean(own), Mean(market))
  }

  function Variance(market: seq<real>): real
    requires market != []
  {
    Products(market, market, Mean(market), Mean(market))
  }

  function Slope(own: seq<real>, market: seq<real>): Option<real>
    requires |own| == |market| > 0
  {
    if Variance(market) < MIN_BETA_VARIANCE then None else Some(Covariance(own, market) / Variance(market))
  }

  /** Squared distance of the line `level + slope * market` from the instrument's returns. */
  ghost function Misfit(own: seq<real>, market: seq<real>, slope: real, level: real): real
    requires |own| == |market|
  {
    if own == [] then 0.0
    else
      var n := |own| - 1;
      Misfit(own[..n], market[..n], slope, level) + Gap(own[n], market[n], slope, level)
  }

  ghost function Gap(a: real, b: real, slope: real, level: real): real {
    Sq(a - level - slope * b)
  }

  ghost function Sq(x: real): real { x * x }

  ghost function Deviations(s: seq<real>, x: real): real {
    if s == [] then 0.0 else Deviations(s[..|s| - 1], x) + (s[|s| - 1] - x)
  }

  /** The misfit of a line as a polynomial in its slope and its offset k from the line through the means. */
  ghost function Poly(aa: real, ab: real, bb: real, n: real, a: real, b: real, s: real, k: real): real {
    aa - 2.0 * (s * ab) + s * s * bb + n * (k * k) - 2.0 * (k * a) + 2.0 * (k * s * b)
  }

  lemma PolyAdds(aa: real, ab: real, bb: real, n: real, a: real, b: real,
                 cc: real, cd: real, dd: real, m: real, c: real, d: real, s: real, k: real)
    ensures Poly(aa + cc, ab + cd, bb + dd, n + m, a + c, b + d, s, k) ==
              Poly(aa, ab, bb, n, a, b, s, k) + Poly(cc, cd, dd, m, c, d, s, k)
  {
  }

  lemma GapExpands(a: real, b: real, x: real, y: real, s: real, level: real, k: real, p: real, q: real)
    requires k == level - x + s * y && p == a - x && q == b - y
    ensures Gap(a, b, s, level) == Poly(Product(p, p), Product(p, q), Product(q, q), 1.0, p, q, s, k)
  {
    hide Sq, Poly, Product;
    assert s * q == s * b - s * y;
    SameSquare(a - level - s * b, p - s * q - k);
    SquareExpands(p, q, s, k);
  }

  lemma SameSquare(u: real, v: real)
    requires u == v
    ensures Sq(u) == Sq(v)
  {
  }

  lemma SquareExpands(p: real, q: real, s: real, k: real)
    ensures Sq(p - s * q - k) == Poly(Product(p, p), Product(p, q), Product(q, q), 1.0, p, q, s, k)
  {
  }

  lemma {:induction false} MisfitExpands(own: seq<real>, market: seq<real>, x: real, y: real, s: real, level: real, k: real)
    requires |own| == |market| && k == level - x + s * y
    ensures Misfit(own, market, s, level) == Expanded(own, market, x, y, s, k)
  {
    hide Poly, Gap, Expanded;
    if own == [] {
      ExpandedOfNothing(x, y, s, k);
    } else {
      var n := |own| - 1;
      MisfitExpands(own[..n], market[..n], x, y, s, level, k);
      GapExpands(own[n], market[n], x, y, s, level, k, own[n] - x, market[n] - y);
      ExpandedGrows(own, market, x, y, s, k, own[n] - x, market[n] - y);
    }
  }

  ghost function Expanded(own: seq<real>, market: seq<real>, x: real, y: real, s: real, k: real): real
    requires |own| == |market|
  {
    Poly(Products(own, own, x, x), Products(own, market, x, y), Products(market, market, y, y), |own| as real,
         Deviations(own, x), Deviations(market, y), s, k)
  }

  lemma ExpandedOfNothing(x: real, y: real, s: real, k: real)
    ensures Expanded([], [], x, y, s, k) == 0.0
  {
    PolyOfNothing(s, k);
    hide Poly;
  }

  lemma ExpandedGrows(own: seq<real>, market: seq<real>, x: real, y: real, s: real, k: real, p: real, q: real)
    requires |own| == |market| > 0 && p == own[|own| - 1] - x && q == market[|own| - 1] - y
    ensures var n := |own| - 1;
            Expanded(own, market, x, y, s, k) ==
              Expanded(own[..n], market[..n], x, y, s, k) + Poly(Product(p, p), Product(p, q), Product(q, q), 1.0, p, q, s, k)
  {
    hide Poly, Product;
    var n := |own| - 1;
    var a, b := own[..n], market[..n];
    PolyAdds(Products(a, a, x, x), Products(a, b, x, y), Products(b, b, y, y), n as real, Deviations(a, x), Deviations(b, y),
             Product(p, p), Product(p, q), Product(q, q), 1.0, p, q, s, k);
    assert |own| as real == n as real + 1.0;
  }

  lemma PolyOfNothing(s: real, k: real)
    ensures Poly(0.0, 0.0, 0.0, 0.0, 0.0, 0.0, s, k) == 0.0
  {
  }

  lemma {:induction false} DeviationsAre(s: seq<real>, x: real)
    ensures Deviations(s, x) == SumReal(s) - Times(|s|, x)
  {
    if s != [] {
      DeviationsAre(s[..|s| - 1], x);
      TimesNext(|s| - 1, x);
    } else {
      assert Times(0, x) == 0.0;
    }
  }

  ghost function Times(n: nat, x: real): real { n as real * x }

  lemma TimesNext(n: nat, x: real)
    ensures Times(n + 1, x) == Times(n, x) + x
  {
    assert (n + 1) as real == n as real + 1.0;
    assert (n as real + 1.0) * x == n as real * x + x;
  }

  lemma DeviationsCancel(s: seq<real>)
    requires s != []
    ensures Deviations(s, Mean(s)) == 0.0
  {
    DeviationsAre(s, Mean(s));
    assert Times(|s|, Mean(s)) == SumReal(s);
  }

  /** How much worse a line is for missing the best slope by d and the best offset by k. */
  ghost function Excess(bb: real, d: real, n: real, k: real): real { Product(bb, Sq(d)) + Product(n, Sq(k)) }

  lemma PolyAtLeast(aa: real, ab: real, bb: real, n: real, s: real, k: real, best: real)
    requires best * bb == ab
    ensures Poly(aa, ab, bb, n, 0.0, 0.0, s, k) == Poly(aa, ab, bb, n, 0.0, 0.0, best, 0.0) + Excess(bb, s - best, n, k)
  {
    PolyAround(aa, best, bb, n, s, k);
  }

  lemma PolyAround(aa: real, best: real, bb: real, n: real, s: real, k: real)
    ensures Poly(aa, best * bb, bb, n, 0.0, 0.0, s, k) ==
              Poly(aa, best * bb, bb, n, 0.0, 0.0, best, 0.0) + Excess(bb, s - best, n, k)
  {
  }

  lemma SquareIsNotNegative(x: real)
    ensures Sq(x) >= 0.0
  {
  }

  /** Around the means the cross terms vanish. */
  lemma MisfitAround(own: seq<real>, market: seq<real>, s: real, level: real, k: real)
    requires |own| == |market| > 0 && k == level - Mean(own) + s * Mean(market)
    ensures Misfit(own, market, s, level) ==
              Poly(Products(own, own, Mean(own), Mean(own)), Covariance(own, market), Variance(market),
                  |own| as real, 0.0, 0.0, s, k)
  {
    MisfitExpands(own, market, Mean(own), Mean(market), s, level, k);
    DeviationsCancel(own);
    DeviationsCancel(market);
    hide Misfit, Poly, Mean, Products, Deviations;
  }

  lemma Dividing(a: real, b: real)
    requires b > 0.0
    ensures a / b * b == a
  {
  }

  /** A beta is the least-squares slope: no line, whatever its slope and level, fits the shared sessions
      better than the one with that slope through the means. */
  lemma SlopeIsLeastSquares(own: seq<real>, market: seq<real>, slope: real, level: real)
    requires |own| == |market| > 0 && Slope(own, market).Some?
    ensures var beta := Slope(own, market).value;
            && BestMisfit(own, market, beta) <= Misfit(own, market, slope, level)
            && (Misfit(own, market, slope, level) == BestMisfit(own, market, beta) ==> slope == beta)
  {
    var beta := Slope(own, market).value;
    SlopeTimesVariance(own, market);
    hide *;
    var k := Offset(own, market, slope, level);
    MisfitAround(own, market, slope, level, k);
    BestMisfitAround(own, market, beta);
    Compares(Products(own, own, Mean(own), Mean(own)), Covariance(own, market), Variance(market), |own| as real, slope, k, beta);
  }

  /** The misfit of the line of this slope through the means. */
  ghost function BestMisfit(own: seq<real>, market: seq<real>, slope: real): real
    requires |own| == |market| > 0
  {
    Misfit(own, market, slope, Mean(own) - slope * Mean(market))
  }

  lemma BestMisfitAround(own: seq<real>, market: seq<real>, slope: real)
    requires |own| == |market| > 0
    ensures BestMisfit(own, market, slope) ==
              Poly(Products(own, own, Mean(own), Mean(own)), Covariance(own, market), Variance(market),
                  |own| as real, 0.0, 0.0, slope, 0.0)
  {
    hide Misfit, Mean, Poly, Products, Covariance, Variance;
    MisfitAround(own, market, slope, Mean(own) - slope * Mean(market), 0.0);
  }

  lemma Offset(own: seq<real>, market: seq<real>, slope: real, level: real) returns (k: real)
    requires |own| == |market| > 0
    ensures k == level - Mean(own) + slope * Mean(market)
  {
    k := level - Mean(own) + slope * Mean(market);
  }

  lemma SlopeTimesVariance(own: seq<real>, market: seq<real>)
    requires |own| == |market| > 0 && Slope(own, market).Some?
    ensures Slope(own, market).value * Variance(market) == Covariance(own, market) && Variance(market) > 0.0
  {
    Dividing(Covariance(own, market), Variance(market));
    hide Covariance, Variance;
  }

  /** No other slope and offset lower the polynomial, and another slope raises it. */
  lemma Compares(aa: real, ab: real, bb: real, n: real, s: real, k: real, best: real)
    requires best * bb == ab && bb > 0.0 && n >= 0.0
    ensures Poly(aa, ab, bb, n, 0.0, 0.0, best, 0.0) <= Poly(aa, ab, bb, n, 0.0, 0.0, s, k)
    ensures Poly(aa, ab, bb, n, 0.0, 0.0, s, k) == Poly(aa, ab, bb, n, 0.0, 0.0, best, 0.0) ==> s == best
  {
    hide Poly, Excess;
    PolyAtLeast(aa, ab, bb, n, s, k, best);
    Gains(bb, s - best, n, k);
  }

  lemma Gains(bb: real, d: real, n: real, k: real)
    requires bb > 0.0 && n >= 0.0
    ensures Excess(bb, d, n, k) >= 0.0
    ensures Excess(bb, d, n, k) == 0.0 ==> d == 0.0
  {
    SquareIsNotNegative(d);
    SquareIsNotNegative(k);
    if d != 0.0 { SquareIsPositive(d); }
    hide Sq;
    ProductIsNotNegative(n, Sq(k));
    ProductIsNotNegative(bb, Sq(d));
    if Sq(d) > 0.0 { ProductIsPositive(bb, Sq(d)); }
  }

  lemma ProductIsNotNegative(a: real, b: real)
    requires a >= 0.0 && b >= 0.0
    ensures Product(a, b) >= 0.0
  {
  }

  lemma ProductIsPositive(a: real, b: real)
    requires a > 0.0 && b > 0.0
    ensures Product(a, b) > 0.0
  {
  }

  lemma SquareIsPositive(x: real)
    requires x != 0.0
    ensures Sq(x) > 0.0
  {
    if x > 0.0 {
      ProductIsPositive(x, x);
    } else {
      ProductIsPositive(-x, -x);
      assert Product(-x, -x) == Sq(x);
    }
  }

  /** An instrument that moves as a fixed multiple of its benchmark has that multiple for a beta. */
  lemma BetaOfAMultiple(own: seq<real>, market: seq<real>, multiple: real, level: real)
    requires |own| == |market| > 0 && Slope(own, market).Some?
    requires forall i :: 0 <= i < |own| ==> own[i] == level + multiple * market[i]
    ensures Slope(own, market).value == multiple
  {
    hide *;
    var beta := Slope(own, market).value;
    PerfectFit(own, market, multiple, level);
    BestMisfitIsNotNegative(own, market, beta);
    SlopeIsLeastSquares(own, market, multiple, level);
  }

  lemma BestMisfitIsNotNegative(own: seq<real>, market: seq<real>, slope: real)
    requires |own| == |market| > 0
    ensures BestMisfit(own, market, slope) >= 0.0
  {
    hide Misfit, Mean;
    MisfitIsNotNegative(own, market, slope, Mean(own) - slope * Mean(market));
  }

  lemma {:induction false} PerfectFit(own: seq<real>, market: seq<real>, multiple: real, level: real)
    requires |own| == |market| && forall i :: 0 <= i < |own| ==> own[i] == level + multiple * market[i]
    ensures Misfit(own, market, multiple, level) == 0.0
  {
    if own != [] {
      var n := |own| - 1;
      PerfectFit(own[..n], market[..n], multiple, level);
      assert own[n] - level - multiple * market[n] == 0.0;
    }
  }

  lemma {:induction false} MisfitIsNotNegative(own: seq<real>, market: seq<real>, slope: real, level: real)
    requires |own| == |market|
    ensures Misfit(own, market, slope, level) >= 0.0
  {
    if own != [] {
      var n := |own| - 1;
      MisfitIsNotNegative(own[..n], market[..n], slope, level);
      SquareIsNotNegative(own[n] - level - slope * market[n]);
      assert Gap(own[n], market[n], slope, level) >= 0.0;
      hide Gap;
    }
  }
}
