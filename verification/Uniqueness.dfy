/** Overlapping labels: how many are live at each bar, and how much of its span each has to itself. */
module Uniqueness {
  import opened Common
  import opened CrossValidation

  predicate Covers(s: Span, x: int) { s.0 <= x <= s.1 }

  function Live(spans: seq<Span>, x: int): nat {
    if spans == [] then 0
    else Live(spans[..|spans| - 1], x) + (if Covers(spans[|spans| - 1], x) then 1 else 0)
  }

  predicate SpanFits(s: Span, length: nat) { 0 <= s.0 <= s.1 < length }

  predicate SpansFit(spans: seq<Span>, length: nat) {
    forall j :: 0 <= j < |spans| ==> SpanFits(spans[j], length)
  }

  /** Counts labels by walking each span and incrementing the bars under it. */
  method Concurrency(spans: seq<Span>, length: nat) returns (r: Result<seq<nat>>)
    ensures r.Ok? <==> SpansFit(spans, length)
    ensures r.Ok? ==> |r.value| == length && forall x :: 0 <= x < length ==> r.value[x] == Live(spans, x)
  {
    var counts := new nat[length](_ => 0);
    for j := 0 to |spans|
      invariant SpansFit(spans[..j], length)
      invariant forall x :: 0 <= x < length ==> counts[x] == Live(spans[..j], x)
    {
      var (start, end) := spans[j];
      if end < start { return Err("span ends before it starts"); }
      if start < 0 || end >= length { return Err("span falls outside the bars"); }
      assert spans[..j + 1][..j] == spans[..j];
      for index := start to end + 1
        invariant forall x :: 0 <= x < length ==>
                    counts[x] == Live(spans[..j], x) + (if start <= x < index then 1 else 0)
      {
        counts[index] := counts[index] + 1;
      }
    }
    assert spans[..|spans|] == spans;
    return Ok(counts[..]);
  }

  // ---- Sums over bars ----

  function SumRange(w: seq<real>, lo: nat, hi: nat): real
    requires lo <= hi <= |w|
  {
    if lo == hi then 0.0 else SumRange(w, lo, hi - 1) + w[hi - 1]
  }

  /** One label's share of each bar is one over the labels live there. */
  function Shares(spans: seq<Span>, length: nat): (w: seq<real>)
    ensures |w| == length
  {
    seq(length, x requires 0 <= x < length => Share(spans, x))
  }

  function Share(spans: seq<Span>, x: int): real {
    if Live(spans, x) == 0 then 0.0 else 1.0 / Live(spans, x) as real
  }

  function Length(s: Span): int { s.1 - s.0 + 1 }

  /** A label's average uniqueness: the mean of its shares over its own span. */
  function Weight(spans: seq<Span>, length: nat, j: nat): real
    requires SpansFit(spans, length) && j < |spans|
  {
    SumRange(Shares(spans, length), spans[j].0, spans[j].1 + 1) / Length(spans[j]) as real
  }

  method AverageUniqueness(spans: seq<Span>, length: nat) returns (r: Result<seq<real>>)
    ensures r.Ok? <==> SpansFit(spans, length)
    ensures r.Ok? ==> |r.value| == |spans| && forall j :: 0 <= j < |spans| ==> r.value[j] == Weight(spans, length, j)
  {
    var counted := Concurrency(spans, length);
    if counted.Err? { return Err(counted.error); }
    var counts := counted.value;
    var weights: seq<real> := [];
    for j := 0 to |spans|
      invariant |weights| == j && forall k :: 0 <= k < j ==> weights[k] == Weight(spans, length, k)
    {
      var (start, end) := spans[j];
      assert SpanFits(spans[j], length);
      var total := 0.0;
      for index := start to end + 1
        invariant total == SumRange(Shares(spans, length), start, index)
      {
        LiveUnder(spans, j, index);
        total := total + 1.0 / counts[index] as real;
      }
      weights := weights + [total / (end - start + 1) as real];
    }
    return Ok(weights);
  }

  /** A bar under some label has at least one label live. */
  lemma {:induction false} LiveUnder(spans: seq<Span>, j: nat, x: int)
    requires j < |spans| && Covers(spans[j], x)
    ensures Live(spans, x) >= 1
  {
    if j < |spans| - 1 { LiveUnder(spans[..|spans| - 1], j, x); }
  }

  // ---- Double counting ----

  /** Each bar's weight times the labels live there, over the first n bars. */
  function Dot(spans: seq<Span>, w: seq<real>, n: nat): real
    requires n <= |w|
  {
    if n == 0 then 0.0 else Dot(spans, w, n - 1) + Live(spans, n - 1) as real * w[n - 1]
  }

  /** Each label's weight summed over its span, over all labels. */
  function ByLabel(spans: seq<Span>, w: seq<real>): real
    requires SpansFit(spans, |w|)
  {
    if spans == [] then 0.0
    else
      var last := spans[|spans| - 1];
      ByLabel(spans[..|spans| - 1], w) + SumRange(w, last.0, last.1 + 1)
  }

  lemma {:induction false} DotPush(spans: seq<Span>, w: seq<real>, n: nat)
    requires n <= |w| && spans != [] && SpanFits(spans[|spans| - 1], |w|)
    ensures var last := spans[|spans| - 1];
            Dot(spans, w, n) == Dot(spans[..|spans| - 1], w, n) + SumRange(w, Min(last.0, n), Min(last.1 + 1, n))
  {
    if n > 0 {
      var front, last := spans[..|spans| - 1], spans[|spans| - 1];
      DotPush(spans, w, n - 1);
      assert Live(spans, n - 1) == Live(front, n - 1) + (if Covers(last, n - 1) then 1 else 0);
      hide Live;
      OneMore(Live(front, n - 1), w[n - 1]);
    }
  }

  lemma OneMore(a: nat, w: real)
    ensures (a + 1) as real * w == a as real * w + w
  {
  }

  lemma {:induction false} DotOfNone(w: seq<real>, n: nat)
    requires n <= |w|
    ensures Dot([], w, n) == 0.0
  {
    if n > 0 { DotOfNone(w, n - 1); }
  }

  /** Summing by label and summing by bar is the same sum. */
  lemma {:induction false} LabelsAgreeWithBars(spans: seq<Span>, w: seq<real>)
    requires SpansFit(spans, |w|)
    ensures ByLabel(spans, w) == Dot(spans, w, |w|)
  {
    if spans == [] {
      DotOfNone(w, |w|);
    } else {
      assert SpanFits(spans[|spans| - 1], |w|);
      LabelsAgreeWithBars(spans[..|spans| - 1], w);
      DotPush(spans, w, |w|);
    }
  }

  // ---- Conservation ----

  function TotalLength(spans: seq<Span>): int {
    if spans == [] then 0 else TotalLength(spans[..|spans| - 1]) + Length(spans[|spans| - 1])
  }

  function TotalLive(spans: seq<Span>, n: nat): int {
    if n == 0 then 0 else TotalLive(spans, n - 1) + Live(spans, n - 1)
  }

  /** Bars covered by at least one label. */
  function Covered(spans: seq<Span>, n: nat): nat {
    if n == 0 then 0 else Covered(spans, n - 1) + (if Live(spans, n - 1) > 0 then 1 else 0)
  }

  function Weighed(spans: seq<Span>, length: nat, upto: nat): real
    requires SpansFit(spans, length) && upto <= |spans|
  {
    if upto == 0 then 0.0
    else Weighed(spans, length, upto - 1) + Weight(spans, length, upto - 1) * Length(spans[upto - 1]) as real
  }

  function Ones(n: nat): (w: seq<real>)
    ensures |w| == n
  {
    seq(n, _ => 1.0)
  }

  lemma {:induction false} SumOfOnes(n: nat, lo: nat, hi: nat)
    requires lo <= hi <= n
    ensures SumRange(Ones(n), lo, hi) == (hi - lo) as real
  {
    if lo < hi { SumOfOnes(n, lo, hi - 1); }
  }

  lemma {:induction false} ByLabelOfOnes(spans: seq<Span>, n: nat)
    requires SpansFit(spans, n)
    ensures ByLabel(spans, Ones(n)) == TotalLength(spans) as real
  {
    if spans != [] {
      var last := spans[|spans| - 1];
      assert SpanFits(last, n);
      ByLabelOfOnes(spans[..|spans| - 1], n);
      SumOfOnes(n, last.0, last.1 + 1);
    }
  }

  lemma {:induction false} DotOfOnes(spans: seq<Span>, m: nat, n: nat)
    requires n <= m
    ensures Dot(spans, Ones(m), n) == TotalLive(spans, n) as real
  {
    if n > 0 { DotOfOnes(spans, m, n - 1); }
  }

  /** The concurrency counts sum to the total length of the spans. */
  lemma CountsConserveLength(spans: seq<Span>, length: nat)
    requires SpansFit(spans, length)
    ensures TotalLive(spans, length) == TotalLength(spans)
  {
    LabelsAgreeWithBars(spans, Ones(length));
    ByLabelOfOnes(spans, length);
    DotOfOnes(spans, length, length);
  }

  lemma {:induction false} DotOfShares(spans: seq<Span>, length: nat, n: nat)
    requires n <= length
    ensures Dot(spans, Shares(spans, length), n) == Covered(spans, n) as real
  {
    if n > 0 {
      DotOfShares(spans, length, n - 1);
      ShareTimesLive(spans, n - 1);
    }
  }

  lemma ShareTimesLive(spans: seq<Span>, x: int)
    ensures Live(spans, x) as real * Share(spans, x) == if Live(spans, x) > 0 then 1.0 else 0.0
  {
    Reciprocal(Live(spans, x));
  }

  lemma Reciprocal(n: nat)
    ensures n > 0 ==> n as real * (1.0 / n as real) == 1.0
  {
  }

  lemma {:induction false} WeighedIsByLabel(spans: seq<Span>, length: nat, upto: nat)
    requires SpansFit(spans, length) && upto <= |spans|
    ensures SpansFit(spans[..upto], length)
    ensures Weighed(spans, length, upto) == ByLabel(spans[..upto], Shares(spans, length))
  {
    if upto > 0 {
      WeighedIsByLabel(spans, length, upto - 1);
      var last := spans[upto - 1];
      assert SpanFits(last, length);
      assert spans[..upto][..upto - 1] == spans[..upto - 1];
      hide SumRange, Shares;
      CancelLength(SumRange(Shares(spans, length), last.0, last.1 + 1), Length(last));
    }
  }

  lemma CancelLength(total: real, n: int)
    requires n > 0
    ensures total / n as real * n as real == total
  {
  }

  /** Weights conserve bars: weighted by length they add up to the bars some label covers, however
      the labels overlap. */
  lemma WeightsConserveBars(spans: seq<Span>, length: nat)
    requires SpansFit(spans, length)
    ensures Weighed(spans, length, |spans|) == Covered(spans, length) as real
  {
    WeighedIsByLabel(spans, length, |spans|);
    assert spans[..|spans|] == spans;
    LabelsAgreeWithBars(spans, Shares(spans, length));
    DotOfShares(spans, length, length);
  }

  // ---- Each weight ----

  lemma ShareRange(spans: seq<Span>, x: int)
    requires Live(spans, x) >= 1
    ensures 0.0 < Share(spans, x) <= 1.0
    ensures Share(spans, x) == 1.0 <==> Live(spans, x) == 1
  {
    Reciprocal(Live(spans, x));
  }

  lemma {:induction false} SharesOfSpan(spans: seq<Span>, length: nat, j: nat, hi: nat)
    requires SpansFit(spans, length) && j < |spans| && spans[j].0 <= hi <= spans[j].1 + 1
    ensures hi <= length
    ensures var total := SumRange(Shares(spans, length), spans[j].0, hi);
            var n := (hi - spans[j].0) as real;
            && 0.0 <= total <= n && (hi > spans[j].0 ==> 0.0 < total)
            && (total == n <==> forall x :: spans[j].0 <= x < hi ==> Live(spans, x) == 1)
  {
    assert SpanFits(spans[j], length);
    if spans[j].0 < hi {
      SharesOfSpan(spans, length, j, hi - 1);
      LiveUnder(spans, j, hi - 1);
      ShareRange(spans, hi - 1);
      hide Share, Live;
    }
  }

  lemma {:induction false} TwoLive(spans: seq<Span>, j: nat, k: nat, x: int)
    requires j < k < |spans| && Covers(spans[j], x) && Covers(spans[k], x)
    ensures Live(spans, x) >= 2
  {
    if k < |spans| - 1 { TwoLive(spans[..|spans| - 1], j, k, x); } else { LiveUnder(spans[..|spans| - 1], j, x); }
  }

  lemma {:induction false} Crowded(spans: seq<Span>, x: int) returns (j: nat)
    requires Live(spans, x) >= 1
    ensures j < |spans| && Covers(spans[j], x)
  {
    if Covers(spans[|spans| - 1], x) { j := |spans| - 1; } else { j := Crowded(spans[..|spans| - 1], x); }
  }

  lemma {:induction false} OtherLive(spans: seq<Span>, j: nat, x: int) returns (k: nat)
    requires j < |spans| && Covers(spans[j], x) && Live(spans, x) >= 2
    ensures k < |spans| && k != j && Covers(spans[k], x)
  {
    var n := |spans| - 1;
    if j == n {
      k := Crowded(spans[..n], x);
    } else if Covers(spans[n], x) {
      k := n;
    } else {
      k := OtherLive(spans[..n], j, x);
    }
  }

  /** Every weight is in (0, 1], and it is 1 exactly for a label that shares no bar with another. */
  lemma WeightMeasuresOverlap(spans: seq<Span>, length: nat, j: nat)
    requires SpansFit(spans, length) && j < |spans|
    ensures 0.0 < Weight(spans, length, j) <= 1.0
    ensures Weight(spans, length, j) == 1.0 <==>
              forall k :: 0 <= k < |spans| && k != j ==> !Overlap(spans[j], spans[k])
  {
    var s := spans[j];
    assert SpanFits(s, length);
    SharesOfSpan(spans, length, j, s.1 + 1);
    RatioRange(SumRange(Shares(spans, length), s.0, s.1 + 1), Length(s));
    if k :| 0 <= k < |spans| && k != j && Overlap(s, spans[k]) {
      var x := Max(s.0, spans[k].0);
      assert SpanFits(spans[k], length);
      if j < k { TwoLive(spans, j, k, x); } else { TwoLive(spans, k, j, x); }
    }
    if x :| s.0 <= x < s.1 + 1 && Live(spans, x) != 1 {
      LiveUnder(spans, j, x);
      var k := OtherLive(spans, j, x);
      assert Overlap(s, spans[k]);
    }
  }

  lemma RatioRange(total: real, n: int)
    requires 0.0 < total <= n as real
    ensures 0.0 < total / n as real <= 1.0
    ensures total / n as real == 1.0 <==> total == n as real
  {
    CancelLength(total, n);
  }
}
