/** Trend statistics, the trend- and target-aware pulse score and the
    overall trend classification (app/lib/trend-analysis.ts). */
module TrendAnalysis {
  import opened Types
  import opened Seqs
  import Dates

  datatype Metric = Commits | Hours

  function MetricValue(w: WeekSample, metric: Metric): real
  {
    match metric
    case Commits => w.commits as real
    case Hours => w.hours
  }

  /** The chosen metric of every week, in order. */
  function Values(s: seq<WeekSample>, metric: Metric): (vs: seq<real>)
    ensures |vs| == |s|
    ensures forall i :: 0 <= i < |s| ==> vs[i] == MetricValue(s[i], metric)
  {
    seq(|s|, i requires 0 <= i < |s| => MetricValue(s[i], metric))
  }

  predicate NonNegativeHours(s: seq<WeekSample>)
  {
    forall i :: 0 <= i < |s| ==> s[i].hours >= 0.0
  }

  // ---------------------------------------------------------------------
  // Ordering by week label

  predicate MostRecentFirst(s: seq<WeekSample>)
  {
    forall i, j :: 0 <= i < j < |s| ==> s[i].weekStart >= s[j].weekStart
  }

  predicate StrictlyMostRecentFirst(s: seq<WeekSample>)
  {
    forall i, j :: 0 <= i < j < |s| ==> s[i].weekStart > s[j].weekStart
  }

  predicate StrictlyOldestFirst(s: seq<WeekSample>)
  {
    forall i, j :: 0 <= i < j < |s| ==> s[i].weekStart < s[j].weekStart
  }

  predicate UniqueLabels(s: seq<WeekSample>)
  {
    forall i, j :: 0 <= i < j < |s| ==> s[i].weekStart != s[j].weekStart
  }

  /** A week no older than the head of an ordered series may go in front. */
  lemma PrependKeepsOrder(h: WeekSample, t: seq<WeekSample>)
    requires |t| == 0 || t[0].weekStart <= h.weekStart
    ensures MostRecentFirst(t) ==> MostRecentFirst([h] + t)
    ensures (StrictlyMostRecentFirst(t) && (|t| == 0 || t[0].weekStart < h.weekStart))
              ==> StrictlyMostRecentFirst([h] + t)
  {
    var r := [h] + t;
    if MostRecentFirst(t) {
      forall i, j | 0 <= i < j < |r|
        ensures r[i].weekStart >= r[j].weekStart
      {
        if i > 0 {
          assert r[i] == t[i - 1] && r[j] == t[j - 1];
        } else {
          assert r[j] == t[j - 1];
        }
      }
    }
    if StrictlyMostRecentFirst(t) && (|t| == 0 || t[0].weekStart < h.weekStart) {
      forall i, j | 0 <= i < j < |r|
        ensures r[i].weekStart > r[j].weekStart
      {
        if i > 0 {
          assert r[i] == t[i - 1] && r[j] == t[j - 1];
        } else {
          assert r[j] == t[j - 1];
        }
      }
    }
  }

  /** Places `x` before the first week that is not more recent than it, so
      that among equal labels the earlier input stays first (the sort the
      source relies on is stable). */
  function InsertByRecency(x: WeekSample, t: seq<WeekSample>): (r: seq<WeekSample>)
    requires MostRecentFirst(t)
    ensures |r| == |t| + 1
    ensures r[0] == x || (|t| > 0 && r[0] == t[0])
    ensures MostRecentFirst(r)
    ensures multiset(r) == multiset(t) + multiset{x}
    ensures (StrictlyMostRecentFirst(t) && forall k :: 0 <= k < |t| ==> t[k].weekStart != x.weekStart)
              ==> StrictlyMostRecentFirst(r)
  {
    if |t| == 0 || x.weekStart >= t[0].weekStart then
      PrependKeepsOrder(x, t);
      [x] + t
    else
      TailKeepsOrder(t);
      var rest := InsertByRecency(x, t[1..]);
      InsertBehindHead(x, t, rest);
      [t[0]] + rest
  }

  /** Putting the head of `t` back in front of `x` inserted into the tail. */
  lemma InsertBehindHead(x: WeekSample, t: seq<WeekSample>, rest: seq<WeekSample>)
    requires |t| > 0 && MostRecentFirst(t) && x.weekStart < t[0].weekStart
    requires |rest| == |t| && (rest[0] == x || (|t| > 1 && rest[0] == t[1]))
    requires MostRecentFirst(rest)
    requires multiset(rest) == multiset(t[1..]) + multiset{x}
    requires (StrictlyMostRecentFirst(t[1..]) && forall k :: 0 <= k < |t[1..]| ==> t[1..][k].weekStart != x.weekStart)
             ==> StrictlyMostRecentFirst(rest)
    ensures MostRecentFirst([t[0]] + rest)
    ensures multiset([t[0]] + rest) == multiset(t) + multiset{x}
    ensures (StrictlyMostRecentFirst(t) && forall k :: 0 <= k < |t| ==> t[k].weekStart != x.weekStart)
              ==> StrictlyMostRecentFirst([t[0]] + rest)
  {
    PrependKeepsOrder(t[0], rest);
    assert t == [t[0]] + t[1..];
    if StrictlyMostRecentFirst(t) && forall k :: 0 <= k < |t| ==> t[k].weekStart != x.weekStart {
      TailKeepsOrder(t);
      assert forall k :: 0 <= k < |t[1..]| ==> t[1..][k].weekStart != x.weekStart by {
        forall k | 0 <= k < |t[1..]| ensures t[1..][k].weekStart != x.weekStart {
          assert t[1..][k] == t[k + 1];
        }
      }
    }
  }

  /** With unique labels, the first week's label is not among the labels of
      any rearrangement of the remaining weeks. */
  lemma HeadLabelFresh(s: seq<WeekSample>, rest: seq<WeekSample>)
    requires |s| > 0 && multiset(rest) == multiset(s[1..])
    ensures UniqueLabels(s) ==> UniqueLabels(s[1..])
    ensures UniqueLabels(s) ==> forall k :: 0 <= k < |rest| ==> rest[k].weekStart != s[0].weekStart
  {
    if UniqueLabels(s) {
      forall k | 0 <= k < |rest|
        ensures rest[k].weekStart != s[0].weekStart
      {
        assert rest[k] in multiset(s[1..]);
        var j :| 0 <= j < |s[1..]| && s[1..][j] == rest[k];
        assert s[j + 1] == rest[k];
      }
    }
  }

  /** The copy sorted most recent first on which every average is taken. */
  function SortMostRecentFirst(s: seq<WeekSample>): (r: seq<WeekSample>)
    ensures MostRecentFirst(r)
    ensures multiset(r) == multiset(s)
    ensures UniqueLabels(s) ==> StrictlyMostRecentFirst(r)
  {
    if |s| == 0 then []
    else
      var rest := SortMostRecentFirst(s[1..]);
      HeadLabelFresh(s, rest);
      assert s == [s[0]] + s[1..];
      InsertByRecency(s[0], rest)
  }

  /** Two orderings of the same weeks agree once one of them is strictly
      most recent first and the other is most recent first. */
  lemma TailKeepsOrder(s: seq<WeekSample>)
    requires |s| > 0
    ensures MostRecentFirst(s) ==> MostRecentFirst(s[1..])
    ensures StrictlyMostRecentFirst(s) ==> StrictlyMostRecentFirst(s[1..])
  {
  }

  lemma {:induction false} StrictOrderIsUnique(a: seq<WeekSample>, b: seq<WeekSample>)
    requires StrictlyMostRecentFirst(a) && MostRecentFirst(b)
    requires multiset(a) == multiset(b)
    ensures a == b
  {
    assert |a| == |multiset(a)| == |multiset(b)| == |b|;
    if |a| > 0 {
      HeadsAgree(a, b);
      TailsPermuted(a, b);
      TailKeepsOrder(a);
      TailKeepsOrder(b);
      StrictOrderIsUnique(a[1..], b[1..]);
      assert a == [a[0]] + a[1..] && b == [b[0]] + b[1..];
    }
  }

  /** The most recent week of a strictly ordered series heads every ordered
      rearrangement of it. */
  lemma HeadsAgree(a: seq<WeekSample>, b: seq<WeekSample>)
    requires StrictlyMostRecentFirst(a) && MostRecentFirst(b)
    requires multiset(a) == multiset(b) && |a| > 0 && |b| > 0
    ensures a[0] == b[0]
  {
    assert b[0] in multiset(a);
    var i :| 0 <= i < |a| && a[i] == b[0];
    assert a[0] in multiset(b);
    var j :| 0 <= j < |b| && b[j] == a[0];
    assert b[0].weekStart >= b[j].weekStart;
    if i != 0 {
      assert false;
    }
  }

  lemma TailsPermuted(a: seq<WeekSample>, b: seq<WeekSample>)
    requires multiset(a) == multiset(b) && |a| > 0 && |b| > 0 && a[0] == b[0]
    ensures multiset(a[1..]) == multiset(b[1..])
  {
    assert a == [a[0]] + a[1..] && b == [b[0]] + b[1..];
    assert multiset(a[1..]) == multiset(a) - multiset{a[0]};
    assert multiset(b[1..]) == multiset(b) - multiset{b[0]};
  }

  function Reverse(s: seq<WeekSample>): (r: seq<WeekSample>)
    ensures |r| == |s|
    ensures forall i :: 0 <= i < |s| ==> r[i] == s[|s| - 1 - i]
  {
    if |s| == 0 then [] else Reverse(s[1..]) + [s[0]]
  }

  lemma {:induction false} InsertOldest(x: WeekSample, t: seq<WeekSample>)
    requires MostRecentFirst(t)
    requires forall k :: 0 <= k < |t| ==> t[k].weekStart > x.weekStart
    ensures InsertByRecency(x, t) == t + [x]
  {
    if |t| > 0 {
      var rest := t[1..];
      assert t[0].weekStart > x.weekStart;
      InsertOldest(x, rest);
      assert InsertByRecency(x, t) == [t[0]] + (rest + [x]);
      assert t + [x] == [t[0]] + (rest + [x]);
    }
  }

  /** A series laid out oldest first, as the week generator produces it,
      is sorted into exactly its reverse. */
  lemma {:induction false} SortOfOldestFirst(s: seq<WeekSample>)
    requires StrictlyOldestFirst(s)
    ensures SortMostRecentFirst(s) == Reverse(s)
  {
    if |s| > 0 {
      SortOfOldestFirst(s[1..]);
      InsertOldest(s[0], Reverse(s[1..]));
    }
  }

  // ---------------------------------------------------------------------
  // Ordered-field facts the solver needs spelled out

  lemma ScaleMonotone(x: real, y: real, k: real)
    requires x <= y && k >= 0.0
    ensures x * k <= y * k
  {
    assert (y - x) * k >= 0.0;
  }

  lemma ProductNonNegative(x: real, k: real)
    ensures x >= 0.0 && k >= 0.0 ==> x * k >= 0.0
  {
  }

  lemma ProductBetween(k: real, lo: real, x: real, hi: real)
    ensures k >= 0.0 && lo <= x <= hi ==> k * lo <= k * x <= k * hi
  {
  }

  lemma ProductPositive(x: real, k: real)
    ensures x > 0.0 && k > 0.0 ==> x * k > 0.0
  {
  }

  lemma ScaleOrderIff(x: real, y: real, k: real)
    requires k > 0.0
    ensures x <= y <==> x * k <= y * k
  {
  }

  // ---------------------------------------------------------------------
  // Averages and direction

  function Abs(x: real): real
  {
    if x < 0.0 then -x else x
  }

  function Min(x: real, y: real): real
  {
    if x < y then x else y
  }

  function Max(x: real, y: real): real
  {
    if x > y then x else y
  }

  /** calculateAverage: the mean of the metric, 0 for no weeks. */
  function CalculateAverage(data: seq<WeekSample>, metric: Metric): (avg: real)
    ensures |data| > 0 ==> Sum(Repeat(avg, |data|)) == Sum(Values(data, metric))
    ensures |data| > 0 ==> Between(avg, Values(data, metric))
    ensures |data| == 0 ==> avg == 0.0
  {
    if |data| > 0 then
      MeanSpread(data, metric);
      MeanBetween(Values(data, metric));
      Mean(Values(data, metric))
    else 0.0
  }

  /** Giving every week of a non-empty window the window's mean keeps the
      window's total. */
  lemma MeanSpread(data: seq<WeekSample>, metric: Metric)
    requires |data| > 0
    ensures Sum(Repeat(Mean(Values(data, metric)), |data|)) == Sum(Values(data, metric))
  {
    assert |Values(data, metric)| == |data|;
    SumOfRepeat(Mean(Values(data, metric)), |data|);
  }

  /** calculateTrendDirection: recent against longer, with a ±10% band. */
  function TrendDirection(recent: real, longer: real): (r: (Direction, real))
    ensures longer == 0.0 && recent > 0.0 ==> r == (Increasing, 100.0)
    ensures longer == 0.0 && recent <= 0.0 ==> r == (Stable, 0.0)
    ensures longer != 0.0 ==> r.1 * longer == (recent - longer) * 100.0
    ensures longer != 0.0 ==>
              && (r.0 == Stable <==> -10.0 < r.1 < 10.0)
              && (r.0 == Increasing <==> r.1 >= 10.0)
              && (r.0 == Decreasing <==> r.1 <= -10.0)
  {
    if longer == 0.0 then
      if recent > 0.0 then (Increasing, 100.0) else (Stable, 0.0)
    else
      var change := ((recent - longer) / longer) * 100.0;
      var direction :=
        if Abs(change) < 10.0 then Stable
        else if change > 0.0 then Increasing
        else Decreasing;
      (direction, change)
  }

  /** For a positive longer-term average the direction is a statement about
      the ratio recent / longer: at least 1.1, at most 0.9, or in between. */
  lemma DirectionByRatio(recent: real, longer: real)
    requires longer > 0.0
    ensures TrendDirection(recent, longer).0 == Increasing <==> recent >= 1.1 * longer
    ensures TrendDirection(recent, longer).0 == Decreasing <==> recent <= 0.9 * longer
    ensures TrendDirection(recent, longer).0 == Stable <==> 0.9 * longer < recent < 1.1 * longer
  {
    BandByRatio(TrendDirection(recent, longer).1, longer, recent);
  }

  /** The ±10% band on the percentage, restated on recent / longer. */
  lemma BandByRatio(cp: real, longer: real, recent: real)
    requires longer > 0.0
    requires cp * longer == (recent - longer) * 100.0
    ensures cp >= 10.0 <==> recent >= 1.1 * longer
    ensures cp <= -10.0 <==> recent <= 0.9 * longer
  {
    ScaleOrderIff(10.0, cp, longer);
    ScaleOrderIff(cp, -10.0, longer);
  }

  /** calculateTrend on one metric of a weekly series. */
  function CalculateTrend(series: seq<WeekSample>, metric: Metric): (t: TrendStats)
    ensures |series| == 0 ==> t == ZeroTrend
    ensures |series| > 0 ==>
              var sorted := SortMostRecentFirst(series);
              && Between(t.recent, Values(Take(sorted, 2), metric))
              && Between(t.medium, Values(Take(sorted, 4), metric))
              && Between(t.longer, Values(Take(sorted, 12), metric))
    ensures |series| > 0 ==>
              var sorted := SortMostRecentFirst(series);
              && t.recent == CalculateAverage(Take(sorted, 2), metric)
              && t.medium == CalculateAverage(Take(sorted, 4), metric)
              && t.longer == CalculateAverage(Take(sorted, 12), metric)
    ensures (t.direction, t.changePercentage) == TrendDirection(t.recent, t.longer)
  {
    if |series| == 0 then ZeroTrend
    else
      var sorted := SortMostRecentFirst(series);
      var recent := CalculateAverage(Take(sorted, 2), metric);
      var medium := CalculateAverage(Take(sorted, 4), metric);
      var longer := CalculateAverage(Take(sorted, 12), metric);
      var (direction, change) := TrendDirection(recent, longer);
      TrendStats(recent, medium, longer, direction, change)
  }

  /** With unique week labels the statistics depend only on which weeks are
      present, not on the order the series lists them in. */
  lemma TrendIgnoresInputOrder(s1: seq<WeekSample>, s2: seq<WeekSample>, metric: Metric)
    requires UniqueLabels(s1)
    requires multiset(s1) == multiset(s2)
    ensures CalculateTrend(s1, metric) == CalculateTrend(s2, metric)
  {
    assert |s1| == |multiset(s1)| == |multiset(s2)| == |s2|;
    StrictOrderIsUnique(SortMostRecentFirst(s1), SortMostRecentFirst(s2));
  }

  predicate MetricAtLeastZero(s: seq<WeekSample>, metric: Metric)
  {
    forall i :: 0 <= i < |s| ==> MetricValue(s[i], metric) >= 0.0
  }

  predicate MetricAllZero(s: seq<WeekSample>, metric: Metric)
  {
    forall i :: 0 <= i < |s| ==> MetricValue(s[i], metric) == 0.0
  }

  /** Rearranging a series keeps what holds of every one of its weeks. */
  lemma PermutationKeepsMetricSigns(s: seq<WeekSample>, r: seq<WeekSample>, metric: Metric)
    requires multiset(r) == multiset(s)
    ensures MetricAtLeastZero(s, metric) ==> MetricAtLeastZero(r, metric)
    ensures MetricAllZero(s, metric) ==> MetricAllZero(r, metric)
  {
    forall i | 0 <= i < |r|
      ensures exists j :: 0 <= j < |s| && s[j] == r[i]
    {
      assert r[i] in multiset(s);
    }
  }

  lemma AverageNonNegative(data: seq<WeekSample>, metric: Metric)
    requires MetricAtLeastZero(data, metric)
    ensures CalculateAverage(data, metric) >= 0.0
  {
    if |data| > 0 {
      var vs := Values(data, metric);
      var i :| 0 <= i < |vs| && vs[i] == Minimum(vs);
    }
  }

  lemma AverageOfZeros(data: seq<WeekSample>, metric: Metric)
    requires MetricAllZero(data, metric)
    ensures CalculateAverage(data, metric) == 0.0
  {
    SumOfZeros(Values(data, metric));
  }

  /** A zero average of non-negative values forces every value, and so every
      prefix average, to zero. */
  lemma ZeroAverageZeroPrefix(data: seq<WeekSample>, metric: Metric, k: nat)
    requires MetricAtLeastZero(data, metric)
    requires CalculateAverage(data, metric) == 0.0
    requires k <= |data|
    ensures CalculateAverage(data[..k], metric) == 0.0
  {
    var vs := Values(data, metric);
    if |data| > 0 {
      assert Sum(vs) == 0.0;
      ZeroSumOfNonNegative(vs);
    }
    assert MetricAllZero(data[..k], metric) by {
      forall i | 0 <= i < k
        ensures MetricValue(data[..k][i], metric) == 0.0
      {
        assert vs[i] == 0.0;
      }
    }
    AverageOfZeros(data[..k], metric);
  }

  /** On a non-negative series every average is non-negative, and a zero
      longer-term average forces a zero recent one, so the rule "longer is 0
      but recent is positive" never fires. */
  lemma TrendOfNonNegativeSeries(series: seq<WeekSample>, metric: Metric)
    requires NonNegativeHours(series)
    ensures var t := CalculateTrend(series, metric);
            t.recent >= 0.0 && t.medium >= 0.0 && t.longer >= 0.0
    ensures var t := CalculateTrend(series, metric);
            t.longer == 0.0 ==> t.recent == 0.0 && t.direction == Stable && t.changePercentage == 0.0
  {
    if |series| > 0 {
      var sorted := SortMostRecentFirst(series);
      assert MetricAtLeastZero(series, metric);
      PermutationKeepsMetricSigns(series, sorted, metric);
      WindowAverages(sorted, metric);
      var t := CalculateTrend(series, metric);
      assert t.recent == CalculateAverage(Take(sorted, 2), metric);
      assert t.medium == CalculateAverage(Take(sorted, 4), metric);
      assert t.longer == CalculateAverage(Take(sorted, 12), metric);
    }
  }

  /** The 2-, 4- and 12-week window averages of a non-negative series are
      non-negative, and the 2-week one is zero when the 12-week one is. */
  lemma WindowAverages(sorted: seq<WeekSample>, metric: Metric)
    requires MetricAtLeastZero(sorted, metric)
    ensures var a2, a4, a12 := CalculateAverage(Take(sorted, 2), metric), CalculateAverage(Take(sorted, 4), metric),
                               CalculateAverage(Take(sorted, 12), metric);
            a2 >= 0.0 && a4 >= 0.0 && a12 >= 0.0 && (a12 == 0.0 ==> a2 == 0.0)
  {
    var w2, w4, w12 := Take(sorted, 2), Take(sorted, 4), Take(sorted, 12);
    assert MetricAtLeastZero(w2, metric) && MetricAtLeastZero(w4, metric) && MetricAtLeastZero(w12, metric);
    AverageNonNegative(w2, metric);
    AverageNonNegative(w4, metric);
    AverageNonNegative(w12, metric);
    ZeroLongerZeroRecent(sorted, metric);
  }

  /** A zero twelve-week average of non-negative weeks leaves nothing for
      the two most recent weeks to average. */
  lemma ZeroLongerZeroRecent(sorted: seq<WeekSample>, metric: Metric)
    requires MetricAtLeastZero(Take(sorted, 12), metric)
    ensures CalculateAverage(Take(sorted, 12), metric) == 0.0 ==> CalculateAverage(Take(sorted, 2), metric) == 0.0
  {
    var w2, w12 := Take(sorted, 2), Take(sorted, 12);
    if CalculateAverage(w12, metric) == 0.0 {
      assert w2 == w12[..|w2|];
      ZeroAverageZeroPrefix(w12, metric, |w2|);
    }
  }

  /** A series whose metric is zero in every week has all-zero, stable
      statistics. */
  lemma AllZeroSeries(series: seq<WeekSample>, metric: Metric)
    requires MetricAllZero(series, metric)
    ensures CalculateTrend(series, metric) == ZeroTrend
  {
    if |series| > 0 {
      var sorted := SortMostRecentFirst(series);
      PermutationKeepsMetricSigns(series, sorted, metric);
      var w2, w4, w12 := Take(sorted, 2), Take(sorted, 4), Take(sorted, 12);
      assert MetricAllZero(w2, metric) && MetricAllZero(w4, metric) && MetricAllZero(w12, metric);
      AverageOfZeros(w2, metric);
      AverageOfZeros(w4, metric);
      AverageOfZeros(w12, metric);
    }
  }

  // ---------------------------------------------------------------------
  // Pulse score

  /** getTrendMultiplier. */
  function TrendMultiplier(direction: Direction, changePercentage: real): (m: real)
    ensures direction == Stable ==> m == 1.0
    ensures direction == Increasing ==> m <= 1.5
    ensures direction == Increasing && changePercentage >= 0.0 ==> m >= 1.0
    ensures direction == Decreasing ==> 0.7 <= m <= 1.0
    ensures direction == Increasing && changePercentage > 0.0 ==> m > 1.0
    ensures direction == Increasing && changePercentage >= 50.0 ==> m == 1.5
    ensures direction == Decreasing && changePercentage != 0.0 ==> m < 1.0
    ensures direction == Decreasing && Abs(changePercentage) >= 30.0 ==> m == 0.7
  {
    match direction
    case Increasing => 1.0 + Min(changePercentage / 100.0, 0.5)
    case Decreasing => 1.0 - Min(Abs(changePercentage) / 100.0, 0.3)
    case Stable => 1.0
  }

  /** Statistics produced by calculateTrend always get a multiplier in
      [0.7, 1.5]; an increasing trend gets at least 1.1 and a decreasing one
      at most 0.9. */
  lemma MultiplierOfComputedTrend(series: seq<WeekSample>, metric: Metric)
    ensures var t := CalculateTrend(series, metric);
            0.7 <= TrendMultiplier(t.direction, t.changePercentage) <= 1.5
    ensures var t := CalculateTrend(series, metric);
            t.direction == Increasing ==> TrendMultiplier(t.direction, t.changePercentage) >= 1.1
    ensures var t := CalculateTrend(series, metric);
            t.direction == Decreasing ==> TrendMultiplier(t.direction, t.changePercentage) <= 0.9
  {
    var t := CalculateTrend(series, metric);
    MultiplierOfDirection(t.recent, t.longer);
  }

  lemma MultiplierOfDirection(recent: real, longer: real)
    ensures var r := TrendDirection(recent, longer);
            && 0.7 <= TrendMultiplier(r.0, r.1) <= 1.5
            && (r.0 == Increasing ==> TrendMultiplier(r.0, r.1) >= 1.1)
            && (r.0 == Decreasing ==> TrendMultiplier(r.0, r.1) <= 0.9)
  {
    var r := TrendDirection(recent, longer);
    if r.0 == Increasing {
      assert r.1 >= 10.0;
      assert TrendMultiplier(r.0, r.1) == 1.0 + Min(r.1 / 100.0, 0.5);
    } else if r.0 == Decreasing {
      assert r.1 <= -10.0;
      assert TrendMultiplier(r.0, r.1) == 1.0 - Min(Abs(r.1) / 100.0, 0.3);
    }
  }

  /** Twelve weeks with activity 10 only in the two most recent ones: the
      recent average 10 against the longer average 10/6 is a 500% rise. */
  lemma TwoBusyWeeksExample()
    ensures TrendDirection(10.0, 20.0 / 12.0) == (Increasing, 500.0)
  {
  }

  /** calculateTargetAdjustment: bonus at or above the target, a neutral
      band on [0.7, 1), a floored penalty below 0.7. */
  function TargetAdjustment(completion: real, bonusMultiplier: real, penaltyMultiplier: real): (a: real)
    ensures completion >= 1.0 ==> a <= 1.5
    ensures completion == 1.0 ==> a == 1.0
    ensures bonusMultiplier >= 0.0 && completion >= 1.0 ==> 1.0 <= a
    ensures 0.7 <= completion < 1.0 ==> a == 1.0
    ensures completion < 0.7 ==> 0.6 <= a
    ensures penaltyMultiplier >= 0.0 && completion < 0.7 ==> a <= 1.0
    ensures bonusMultiplier > 0.0 && completion > 1.0 ==> a > 1.0
    ensures bonusMultiplier >= 0.0 && (completion - 1.0) * bonusMultiplier >= 0.5 ==> a == 1.5
    ensures penaltyMultiplier > 0.0 && completion < 0.7 ==> a < 1.0
    ensures completion < 0.7 && (1.0 - completion) * penaltyMultiplier >= 0.4 ==> a == 0.6
  {
    if completion >= 1.0 then
      var bonus := Min((completion - 1.0) * bonusMultiplier, 0.5);
      ProductNonNegative(completion - 1.0, bonusMultiplier);
      ProductPositive(completion - 1.0, bonusMultiplier);
      1.0 + bonus
    else if completion >= 0.7 then
      BonusNeedsSurplus(completion, bonusMultiplier);
      1.0
    else
      var shortfall := 1.0 - completion;
      var penalty := Min(shortfall * penaltyMultiplier, 0.4);
      ProductNonNegative(shortfall, penaltyMultiplier);
      ProductPositive(shortfall, penaltyMultiplier);
      BonusNeedsSurplus(completion, bonusMultiplier);
      Max(0.6, 1.0 - penalty)
  }

  /** With non-negative multipliers the adjustment never decreases as the
      completion ratio grows, across all three regimes. */
  lemma TargetAdjustmentMonotone(c1: real, c2: real, bonusMultiplier: real, penaltyMultiplier: real)
    requires bonusMultiplier >= 0.0 && penaltyMultiplier >= 0.0
    requires c1 <= c2
    ensures TargetAdjustment(c1, bonusMultiplier, penaltyMultiplier)
         <= TargetAdjustment(c2, bonusMultiplier, penaltyMultiplier)
  {
    if c1 >= 1.0 {
      ScaleMonotone(c1 - 1.0, c2 - 1.0, bonusMultiplier);
      BonusOrdered((c1 - 1.0) * bonusMultiplier, (c2 - 1.0) * bonusMultiplier);
    } else if c2 < 0.7 {
      ScaleMonotone(1.0 - c2, 1.0 - c1, penaltyMultiplier);
      PenaltyOrdered((1.0 - c2) * penaltyMultiplier, (1.0 - c1) * penaltyMultiplier);
    }
  }

  /** Below the target a non-negative bonus multiplier earns no bonus. */
  lemma BonusNeedsSurplus(completion: real, bonusMultiplier: real)
    requires completion < 1.0
    ensures bonusMultiplier >= 0.0 ==> (completion - 1.0) * bonusMultiplier <= 0.0
  {
    if bonusMultiplier >= 0.0 {
      ScaleMonotone(completion - 1.0, 0.0, bonusMultiplier);
    }
  }

  /** A larger raw bonus never gives a smaller capped bonus factor. */
  lemma BonusOrdered(b1: real, b2: real)
    requires b1 <= b2
    ensures 1.0 + Min(b1, 0.5) <= 1.0 + Min(b2, 0.5)
  {
  }

  /** A larger raw penalty never gives a larger factor; and since the
      penalty is capped at 0.4, the 0.6 floor never takes effect. */
  lemma PenaltyOrdered(p1: real, p2: real)
    requires p1 <= p2
    ensures Max(0.6, 1.0 - Min(p2, 0.4)) <= Max(0.6, 1.0 - Min(p1, 0.4))
    ensures Max(0.6, 1.0 - Min(p1, 0.4)) == 1.0 - Min(p1, 0.4)
  {
  }

  /** The penalty regime does not meet the neutral band continuously: just
      below 0.7 the adjustment is at most 1 - min(0.3 * penalty, 0.4), while
      at 0.7 it is 1. */
  lemma TargetAdjustmentStepAtSeventyPercent(completion: real, bonusMultiplier: real, penaltyMultiplier: real)
    requires penaltyMultiplier >= 0.0 && completion < 0.7
    ensures TargetAdjustment(completion, bonusMultiplier, penaltyMultiplier)
         <= 1.0 - Min(0.3 * penaltyMultiplier, 0.4)
    ensures TargetAdjustment(0.7, bonusMultiplier, penaltyMultiplier) == 1.0
  {
    var step, shortfall := 0.3 * penaltyMultiplier, (1.0 - completion) * penaltyMultiplier;
    ShortfallBeyondStep(completion, penaltyMultiplier);
    PenaltyOrdered(step, shortfall);
    assert TargetAdjustment(completion, bonusMultiplier, penaltyMultiplier) == Max(0.6, 1.0 - Min(shortfall, 0.4));
  }

  lemma ShortfallBeyondStep(completion: real, penaltyMultiplier: real)
    requires penaltyMultiplier >= 0.0 && completion < 0.7
    ensures 0.3 * penaltyMultiplier <= (1.0 - completion) * penaltyMultiplier
  {
    var extra := 0.7 - completion;
    assert extra * penaltyMultiplier >= 0.0;
    assert (1.0 - completion) * penaltyMultiplier == 0.3 * penaltyMultiplier + extra * penaltyMultiplier;
  }

  /** The ratio of recent hours to the weekly target, 1 when no positive
      target is set. */
  function TargetCompletion(recentHours: real, targetWeeklyHours: real): (c: real)
    ensures targetWeeklyHours <= 0.0 ==> c == 1.0
    ensures targetWeeklyHours > 0.0 ==> c * targetWeeklyHours == recentHours
  {
    if targetWeeklyHours > 0.0 then recentHours / targetWeeklyHours else 1.0
  }

  /** recent/medium/longer blended with the configured weights. */
  function WeightedBlend(t: TrendStats, config: ScoreConfig): real
  {
    t.recent * config.recentWeight + t.medium * config.mediumWeight + t.longer * config.longerWeight
  }

  function BaseScore(commitTrend: TrendStats, hoursTrend: TrendStats, config: ScoreConfig): real
  {
    WeightedBlend(commitTrend, config) * config.commitWeight
      + WeightedBlend(hoursTrend, config) * config.hoursWeight
  }

  datatype ScoreResult = ScoreResult(pulseScore: real, trendScore: real)

  predicate NonNegativeWeights(config: ScoreConfig)
  {
    && config.commitWeight >= 0.0 && config.hoursWeight >= 0.0
    && config.recentWeight >= 0.0 && config.mediumWeight >= 0.0 && config.longerWeight >= 0.0
    && config.trendWeight >= 0.0
    && config.targetCompletionBonus >= 0.0 && config.targetCompletionPenalty >= 0.0
  }

  /** The base score scaled by the mean of the two trend multipliers and the
      trend weight. */
  function TrendScore(baseScore: real, commitMultiplier: real, hoursMultiplier: real, trendWeight: real): (s: real)
    ensures baseScore >= 0.0 && trendWeight >= 0.0
            && 0.7 <= commitMultiplier <= 1.5 && 0.7 <= hoursMultiplier <= 1.5 ==>
              baseScore * trendWeight * 0.7 <= s <= baseScore * trendWeight * 1.5
    ensures commitMultiplier == 1.0 && hoursMultiplier == 1.0 ==> s == baseScore * trendWeight
  {
    var average := (commitMultiplier + hoursMultiplier) / 2.0;
    RegroupedBounds(baseScore, average, trendWeight);
    baseScore * average * trendWeight
  }

  /** With a positive base and weight, the trend score exceeds base ×
      weight exactly when the two multipliers sum to more than 2, and falls
      short of it exactly when they sum to less. */
  lemma TrendScoreAgainstNeutral(baseScore: real, commitMultiplier: real, hoursMultiplier: real, trendWeight: real)
    requires baseScore > 0.0 && trendWeight > 0.0
    ensures TrendScore(baseScore, commitMultiplier, hoursMultiplier, trendWeight) > baseScore * trendWeight <==>
            commitMultiplier + hoursMultiplier > 2.0
    ensures TrendScore(baseScore, commitMultiplier, hoursMultiplier, trendWeight) < baseScore * trendWeight <==>
            commitMultiplier + hoursMultiplier < 2.0
  {
    var average := (commitMultiplier + hoursMultiplier) / 2.0;
    var scale := baseScore * trendWeight;
    var score := TrendScore(baseScore, commitMultiplier, hoursMultiplier, trendWeight);
    assert score == baseScore * average * trendWeight;
    assert baseScore * average * trendWeight == scale * average;
    ProductPositive(baseScore, trendWeight);
    AverageAgainstOne(score, scale, average, commitMultiplier + hoursMultiplier);
  }

  /** A positive scale times the average of two values exceeds the scale
      exactly when the two values sum to more than 2. */
  lemma AverageAgainstOne(score: real, scale: real, average: real, sum: real)
    requires scale > 0.0 && score == scale * average && sum == 2.0 * average
    ensures score > scale <==> sum > 2.0
    ensures score < scale <==> sum < 2.0
  {
    ScaledAgainstOne(scale, average);
  }

  /** With a non-negative base score and trend weight, raising either
      multiplier never lowers the trend score; the two multipliers count
      equally. */
  lemma TrendScoreMonotone(
    baseScore: real, c1: real, c2: real, h1: real, h2: real, trendWeight: real)
    requires baseScore >= 0.0 && trendWeight >= 0.0
    requires c1 <= c2 && h1 <= h2
    ensures TrendScore(baseScore, c1, h1, trendWeight) <= TrendScore(baseScore, c2, h2, trendWeight)
    ensures TrendScore(baseScore, c1, h1, trendWeight) == TrendScore(baseScore, h1, c1, trendWeight)
  {
    var m1, m2 := (c1 + h1) / 2.0, (c2 + h2) / 2.0;
    ScaleMonotone(m1, m2, baseScore);
    assert baseScore * m1 <= baseScore * m2;
    ScaleMonotone(baseScore * m1, baseScore * m2, trendWeight);
    assert (h1 + c1) / 2.0 == m1;
  }

  lemma RegroupedBounds(x: real, m: real, w: real)
    ensures x >= 0.0 && w >= 0.0 && 0.7 <= m <= 1.5 ==> x * w * 0.7 <= x * m * w <= x * w * 1.5
  {
    if x >= 0.0 && w >= 0.0 && 0.7 <= m <= 1.5 {
      ProductNonNegative(x, w);
      ProductBetween(x * w, 0.7, m, 1.5);
      assert x * m * w == (x * w) * m;
    }
  }

  /** `Math.max(0, total * adjustment)`: the final, non-negative score. */
  function AdjustedScore(total: real, adjustment: real): (score: real)
    ensures score >= 0.0
    ensures total >= 0.0 && 0.6 <= adjustment <= 1.5 ==> total * 0.6 <= score <= total * 1.5
    ensures adjustment == 1.0 ==> score == Max(0.0, total)
    ensures total >= 0.0 && adjustment >= 1.0 ==> score >= total
    ensures total >= 0.0 && 0.0 <= adjustment <= 1.0 ==> score <= total
    ensures total <= 0.0 && adjustment >= 0.0 ==> score == 0.0
    ensures total > 0.0 && adjustment > 1.0 ==> score > total
    ensures total > 0.0 && 0.0 <= adjustment < 1.0 ==> score < total
  {
    ClampedProductBounds(total, adjustment);
    ClampAroundTotal(total, adjustment);
    Max(0.0, total * adjustment)
  }

  /** The clamped product against the unscaled total. */
  lemma ClampAroundTotal(total: real, adjustment: real)
    ensures adjustment == 1.0 ==> Max(0.0, total * adjustment) == Max(0.0, total)
    ensures total >= 0.0 && adjustment >= 1.0 ==> Max(0.0, total * adjustment) >= total
    ensures total >= 0.0 && 0.0 <= adjustment <= 1.0 ==> Max(0.0, total * adjustment) <= total
    ensures total <= 0.0 && adjustment >= 0.0 ==> Max(0.0, total * adjustment) == 0.0
    ensures total > 0.0 && adjustment > 1.0 ==> Max(0.0, total * adjustment) > total
    ensures total > 0.0 && 0.0 <= adjustment < 1.0 ==> Max(0.0, total * adjustment) < total
  {
    if total > 0.0 {
      ScaledAgainstOne(total, adjustment);
    }
    if total >= 0.0 && adjustment >= 1.0 {
      ScaleUp(total, adjustment);
    }
    if total >= 0.0 && 0.0 <= adjustment <= 1.0 {
      ScaleDown(total, adjustment);
    }
    if total <= 0.0 && adjustment >= 0.0 {
      ScaleNonPositive(total, adjustment);
    }
  }

  /** Scaling a non-negative total by at least 1 does not shrink it. */
  lemma ScaleUp(total: real, adjustment: real)
    requires total >= 0.0 && adjustment >= 1.0
    ensures total * adjustment >= total
  {
    ProductNonNegative(total, adjustment - 1.0);
    assert total * (adjustment - 1.0) == total * adjustment - total;
  }

  /** Scaling a non-negative total by at most 1 does not grow it. */
  lemma ScaleDown(total: real, adjustment: real)
    requires total >= 0.0 && 0.0 <= adjustment <= 1.0
    ensures total * adjustment <= total
  {
    ProductNonNegative(total, 1.0 - adjustment);
    assert total * (1.0 - adjustment) == total - total * adjustment;
  }

  /** A non-positive total stays non-positive under a non-negative factor. */
  lemma ScaleNonPositive(total: real, adjustment: real)
    requires total <= 0.0 && adjustment >= 0.0
    ensures total * adjustment <= 0.0
  {
    ProductNonNegative(-total, adjustment);
    assert (-total) * adjustment == -(total * adjustment);
  }

  /** For a non-negative total a larger adjustment never gives a lower
      score. */
  lemma AdjustedScoreMonotone(total: real, a1: real, a2: real)
    requires total >= 0.0 && a1 <= a2
    ensures AdjustedScore(total, a1) <= AdjustedScore(total, a2)
  {
    var p1, p2 := total * a1, total * a2;
    ProductNonNegative(total, a2 - a1);
    assert p1 <= p2;
    assert AdjustedScore(total, a1) == Max(0.0, p1);
    assert AdjustedScore(total, a2) == Max(0.0, p2);
  }

  lemma ScaledBetween(total: real, adjustment: real)
    requires total >= 0.0 && 0.6 <= adjustment <= 1.5
    ensures 0.0 <= total * 0.6 <= total * adjustment <= total * 1.5
  {
    assert total * (adjustment - 0.6) >= 0.0;
    assert total * (1.5 - adjustment) >= 0.0;
  }

  lemma ClampWithin(p: real, lo: real, hi: real)
    requires 0.0 <= lo <= p <= hi
    ensures lo <= Max(0.0, p) <= hi
  {
  }

  lemma ClampedProductBounds(total: real, adjustment: real)
    ensures total >= 0.0 && 0.6 <= adjustment <= 1.5 ==>
              total * 0.6 <= Max(0.0, total * adjustment) <= total * 1.5
  {
    if total >= 0.0 && 0.6 <= adjustment <= 1.5 {
      ScaledBetween(total, adjustment);
      ClampWithin(total * adjustment, total * 0.6, total * 1.5);
    }
  }

  /** calculateTrendBasedPulseScore, with the whole configuration passed. */
  function TrendBasedPulseScore(
    commitTrend: TrendStats, hoursTrend: TrendStats, targetWeeklyHours: real, config: ScoreConfig): (r: ScoreResult)
    ensures r.pulseScore >= 0.0
    ensures var total := BaseScore(commitTrend, hoursTrend, config) + r.trendScore;
            NonNegativeWeights(config) && total >= 0.0 ==>
              total * 0.6 <= r.pulseScore <= total * 1.5
    ensures var total := BaseScore(commitTrend, hoursTrend, config) + r.trendScore;
            targetWeeklyHours <= 0.0 ==> r.pulseScore == (if total > 0.0 then total else 0.0)
    ensures r.trendScore == TrendScore(BaseScore(commitTrend, hoursTrend, config),
                                       TrendMultiplier(commitTrend.direction, commitTrend.changePercentage),
                                       TrendMultiplier(hoursTrend.direction, hoursTrend.changePercentage),
                                       config.trendWeight)
    ensures r.pulseScore == AdjustedScore(BaseScore(commitTrend, hoursTrend, config) + r.trendScore,
                                          TargetAdjustment(TargetCompletion(hoursTrend.recent, targetWeeklyHours),
                                                           config.targetCompletionBonus,
                                                           config.targetCompletionPenalty))
  {
    var baseScore := BaseScore(commitTrend, hoursTrend, config);
    var commitMultiplier := TrendMultiplier(commitTrend.direction, commitTrend.changePercentage);
    var hoursMultiplier := TrendMultiplier(hoursTrend.direction, hoursTrend.changePercentage);
    var trendScore := TrendScore(baseScore, commitMultiplier, hoursMultiplier, config.trendWeight);
    var completion := TargetCompletion(hoursTrend.recent, targetWeeklyHours);
    var adjustment := TargetAdjustment(completion, config.targetCompletionBonus, config.targetCompletionPenalty);
    assert NonNegativeWeights(config) ==> 0.6 <= adjustment <= 1.5;
    assert targetWeeklyHours <= 0.0 ==> adjustment == 1.0;
    ScoreResult(AdjustedScore(baseScore + trendScore, adjustment), trendScore)
  }

  /** With non-negative weights, a positive target and a non-negative total,
      meeting the target never lowers the score and falling below 70% of it
      never raises it. */
  lemma TargetSteersScore(
    commitTrend: TrendStats, hoursTrend: TrendStats, targetWeeklyHours: real, config: ScoreConfig)
    requires NonNegativeWeights(config) && targetWeeklyHours > 0.0
    requires BaseScore(commitTrend, hoursTrend, config)
             + TrendBasedPulseScore(commitTrend, hoursTrend, targetWeeklyHours, config).trendScore >= 0.0
    ensures var r := TrendBasedPulseScore(commitTrend, hoursTrend, targetWeeklyHours, config);
            var total := BaseScore(commitTrend, hoursTrend, config) + r.trendScore;
            && (hoursTrend.recent >= targetWeeklyHours ==> r.pulseScore >= total)
            && (hoursTrend.recent < 0.7 * targetWeeklyHours ==> r.pulseScore <= total)
    ensures var r := TrendBasedPulseScore(commitTrend, hoursTrend, targetWeeklyHours, config);
            var total := BaseScore(commitTrend, hoursTrend, config) + r.trendScore;
            && (config.targetCompletionBonus > 0.0 && total > 0.0 && hoursTrend.recent > targetWeeklyHours ==>
                  r.pulseScore > total)
            && (config.targetCompletionPenalty > 0.0 && total > 0.0 && hoursTrend.recent < 0.7 * targetWeeklyHours ==>
                  r.pulseScore < total)
  {
    var completion := TargetCompletion(hoursTrend.recent, targetWeeklyHours);
    var adjustment := TargetAdjustment(completion, config.targetCompletionBonus, config.targetCompletionPenalty);
    CompletionAgainstTarget(hoursTrend.recent, targetWeeklyHours, completion);
    if hoursTrend.recent >= targetWeeklyHours {
      assert adjustment >= 1.0;
    }
    if hoursTrend.recent > targetWeeklyHours && config.targetCompletionBonus > 0.0 {
      assert adjustment > 1.0;
    }
    if hoursTrend.recent < 0.7 * targetWeeklyHours {
      assert 0.0 <= adjustment <= 1.0;
      if config.targetCompletionPenalty > 0.0 {
        assert adjustment < 1.0;
      }
    }
  }

  /** The completion ratio is at least 1 exactly when the recent hours meet
      the target, and below 0.7 exactly when they fall below 70% of it. */
  lemma CompletionAgainstTarget(recentHours: real, targetWeeklyHours: real, completion: real)
    requires targetWeeklyHours > 0.0 && completion * targetWeeklyHours == recentHours
    ensures recentHours >= targetWeeklyHours <==> completion >= 1.0
    ensures recentHours > targetWeeklyHours <==> completion > 1.0
    ensures recentHours < 0.7 * targetWeeklyHours <==> completion < 0.7
  {
    var surplus, margin := completion - 1.0, completion - 0.7;
    assert recentHours - targetWeeklyHours == surplus * targetWeeklyHours;
    assert recentHours - 0.7 * targetWeeklyHours == margin * targetWeeklyHours;
    SignOfScaled(surplus, targetWeeklyHours);
    SignOfScaled(-surplus, targetWeeklyHours);
    assert (-surplus) * targetWeeklyHours == targetWeeklyHours - recentHours;
    SignOfScaled(margin, targetWeeklyHours);
  }

  /** Scaling a positive amount by more than 1 grows it, by less than 1
      shrinks it. */
  lemma ScaledAgainstOne(p: real, m: real)
    requires p > 0.0
    ensures p * m > p <==> m > 1.0
    ensures p * m < p <==> m < 1.0
  {
    SignOfScaled(m - 1.0, p);
    SignOfScaled(1.0 - m, p);
    assert (m - 1.0) * p == p * m - p;
    assert (1.0 - m) * p == p - p * m;
  }

  /** A positive factor keeps the sign. */
  lemma SignOfScaled(x: real, k: real)
    requires k > 0.0
    ensures x >= 0.0 <==> x * k >= 0.0
  {
    ProductNonNegative(x, k);
    ProductPositive(-x, k);
    assert (-x) * k == -(x * k);
  }

  /** The base score is non-negative, the trend score lies between 0.7 and
      1.5 times the base score scaled by the trend weight, and the pulse score
      between 0.6 and 1.5 times their sum. */
  predicate ScoreWithinBounds(ct: TrendStats, ht: TrendStats, targetWeeklyHours: real, config: ScoreConfig)
  {
    var base := BaseScore(ct, ht, config);
    var r := TrendBasedPulseScore(ct, ht, targetWeeklyHours, config);
    && base >= 0.0
    && base * config.trendWeight * 0.7 <= r.trendScore <= base * config.trendWeight * 1.5
    && (base + r.trendScore) * 0.6 <= r.pulseScore <= (base + r.trendScore) * 1.5
  }

  /** For non-negative series and weights the base score is non-negative,
      the trend score lies between 0.7 and 1.5 times the base score scaled by
      the trend weight, and the pulse score between 0.6 and 1.5 times their
      sum. */
  lemma PulseScoreOfNonNegativeSeries(
    series: seq<WeekSample>, targetWeeklyHours: real, config: ScoreConfig)
    requires NonNegativeHours(series) && NonNegativeWeights(config)
    ensures ScoreWithinBounds(CalculateTrend(series, Commits), CalculateTrend(series, Hours),
                              targetWeeklyHours, config)
  {
    var ct, ht := CalculateTrend(series, Commits), CalculateTrend(series, Hours);
    TrendOfNonNegativeSeries(series, Commits);
    TrendOfNonNegativeSeries(series, Hours);
    MultiplierOfComputedTrend(series, Commits);
    MultiplierOfComputedTrend(series, Hours);
    PulseScoreBounds(ct, ht, targetWeeklyHours, config);
  }

  /** The same bounds for any pair of statistics with non-negative averages
      whose multipliers lie in [0.7, 1.5]. */
  lemma PulseScoreBounds(ct: TrendStats, ht: TrendStats, targetWeeklyHours: real, config: ScoreConfig)
    requires NonNegativeWeights(config)
    requires ct.recent >= 0.0 && ct.medium >= 0.0 && ct.longer >= 0.0
    requires ht.recent >= 0.0 && ht.medium >= 0.0 && ht.longer >= 0.0
    requires 0.7 <= TrendMultiplier(ct.direction, ct.changePercentage) <= 1.5
    requires 0.7 <= TrendMultiplier(ht.direction, ht.changePercentage) <= 1.5
    ensures ScoreWithinBounds(ct, ht, targetWeeklyHours, config)
  {
    var base := BaseScore(ct, ht, config);
    BaseScoreNonNegative(ct, ht, config);
    ProductNonNegative(base, config.trendWeight);
    TrendScoreWithin(ct, ht, targetWeeklyHours, config);
  }

  /** The trend score of two statistics lies between 0.7 and 1.5 times the
      base score scaled by the trend weight. */
  lemma TrendScoreWithin(ct: TrendStats, ht: TrendStats, targetWeeklyHours: real, config: ScoreConfig)
    requires BaseScore(ct, ht, config) >= 0.0 && config.trendWeight >= 0.0
    requires 0.7 <= TrendMultiplier(ct.direction, ct.changePercentage) <= 1.5
    requires 0.7 <= TrendMultiplier(ht.direction, ht.changePercentage) <= 1.5
    ensures var base := BaseScore(ct, ht, config);
            var r := TrendBasedPulseScore(ct, ht, targetWeeklyHours, config);
            base * config.trendWeight * 0.7 <= r.trendScore <= base * config.trendWeight * 1.5
  {
  }

  lemma BaseScoreNonNegative(ct: TrendStats, ht: TrendStats, config: ScoreConfig)
    requires NonNegativeWeights(config)
    requires ct.recent >= 0.0 && ct.medium >= 0.0 && ct.longer >= 0.0
    requires ht.recent >= 0.0 && ht.medium >= 0.0 && ht.longer >= 0.0
    ensures BaseScore(ct, ht, config) >= 0.0
  {
    BlendNonNegative(ct, config);
    BlendNonNegative(ht, config);
    ProductNonNegative(WeightedBlend(ct, config), config.commitWeight);
    ProductNonNegative(WeightedBlend(ht, config), config.hoursWeight);
  }

  lemma BlendNonNegative(t: TrendStats, config: ScoreConfig)
    requires NonNegativeWeights(config)
    requires t.recent >= 0.0 && t.medium >= 0.0 && t.longer >= 0.0
    ensures WeightedBlend(t, config) >= 0.0
  {
    ProductNonNegative(t.recent, config.recentWeight);
    ProductNonNegative(t.medium, config.mediumWeight);
    ProductNonNegative(t.longer, config.longerWeight);
  }

  // ---------------------------------------------------------------------
  // Trend status

  /** How many of the listed directions equal `d` (the `filter(...).length`
      of the source). */
  function CountDirection(ds: seq<Direction>, d: Direction): (n: nat)
    ensures n <= |ds|
  {
    if |ds| == 0 then 0 else (if ds[0] == d then 1 else 0) + CountDirection(ds[1..], d)
  }

  lemma CountOfPair(a: Direction, b: Direction, d: Direction)
    ensures CountDirection([a, b], d) == (if a == d then 1 else 0) + (if b == d then 1 else 0)
  {
    assert [a, b][1..] == [b];
    assert [b][1..] == [];
  }

  /** getTrendStatus: more increasing than decreasing metrics is improving,
      the converse declining, a tie stable. */
  function GetTrendStatus(commitTrend: TrendStats, hoursTrend: TrendStats): (s: TrendStatus)
    ensures var c, h := commitTrend.direction, hoursTrend.direction;
            s == Improving <==> (c == Increasing && h != Decreasing) || (h == Increasing && c != Decreasing)
    ensures var c, h := commitTrend.direction, hoursTrend.direction;
            s == Declining <==> (c == Decreasing && h != Increasing) || (h == Decreasing && c != Increasing)
  {
    var directions := [commitTrend.direction, hoursTrend.direction];
    CountOfPair(commitTrend.direction, hoursTrend.direction, Increasing);
    CountOfPair(commitTrend.direction, hoursTrend.direction, Decreasing);
    var increasing := CountDirection(directions, Increasing);
    var decreasing := CountDirection(directions, Decreasing);
    if increasing > decreasing then Improving
    else if decreasing > increasing then Declining
    else Steady
  }

  /** Swapping the two metrics does not change the status; equal directions
      and opposite directions are both a tie. */
  lemma TrendStatusSymmetric(a: TrendStats, b: TrendStats)
    ensures GetTrendStatus(a, b) == GetTrendStatus(b, a)
    ensures a.direction == b.direction ==>
              (GetTrendStatus(a, b) == match a.direction
                                       case Increasing => Improving
                                       case Decreasing => Declining
                                       case Stable => Steady)
    ensures {a.direction, b.direction} == {Increasing, Decreasing} ==> GetTrendStatus(a, b) == Steady
  {
  }

  // ---------------------------------------------------------------------
  // Week window

  /** `dayOfWeek === 6 ? 0 : dayOfWeek + 1`, the offset generateWeekStarts
      steps back by. */
  function DaysToSaturday(dayOfWeek: int): (n: int)
    requires 0 <= dayOfWeek < 7
    ensures n == Dates.DaysSinceSaturday(dayOfWeek)
  {
    if dayOfWeek == 6 then 0 else dayOfWeek + 1
  }

  /** The label of the week `weeksBack` weeks before `today`. */
  function WeekLabel(today: int, weeksBack: nat): (start: int)
    ensures start == Dates.WeekStart(today) - 7 * weeksBack
  {
    var day := today - 7 * weeksBack;
    Dates.WeekdayPeriodic(today, weeksBack);
    day - DaysToSaturday(Dates.DayOfWeek(day))
  }

  /** generateWeekStarts: labels for i = 0 .. n-1 weeks back, reversed so
      that the oldest comes first. */
  function GenerateWeekStarts(weeksCount: nat, today: int): (weeks: seq<int>)
    ensures |weeks| == weeksCount
    ensures forall j :: 0 <= j < weeksCount ==>
              var day := today - 7 * (weeksCount - 1 - j);
              Dates.DayOfWeek(weeks[j]) == Dates.Saturday && weeks[j] <= day < weeks[j] + 7
    ensures forall j :: 0 <= j < weeksCount - 1 ==> weeks[j + 1] == weeks[j] + 7
    ensures weeksCount > 0 ==> weeks[weeksCount - 1] == Dates.WeekStart(today)
  {
    var newestFirst := seq(weeksCount, i requires 0 <= i < weeksCount => WeekLabel(today, i));
    var weeks := seq(weeksCount, j requires 0 <= j < weeksCount => newestFirst[weeksCount - 1 - j]);
    assert forall j :: 0 <= j < weeksCount ==>
      Dates.DayOfWeek(weeks[j]) == Dates.Saturday by {
      forall j | 0 <= j < weeksCount
        ensures Dates.DayOfWeek(weeks[j]) == Dates.Saturday
      {
        Dates.WeekdayPeriodic(Dates.WeekStart(today), weeksCount - 1 - j);
      }
    }
    weeks
  }

  /** Generated labels lie a whole number of weeks apart, so they are
      strictly increasing and distinct. */
  lemma WeekStartsSpaced(weeksCount: nat, today: int)
    ensures var weeks := GenerateWeekStarts(weeksCount, today);
            forall i, j :: 0 <= i <= j < weeksCount ==> weeks[j] - weeks[i] == 7 * (j - i)
  {
    var weeks := GenerateWeekStarts(weeksCount, today);
    forall i, j | 0 <= i <= j < weeksCount
      ensures weeks[j] - weeks[i] == 7 * (j - i)
    {
      assert weeks[i] == Dates.WeekStart(today) - 7 * (weeksCount - 1 - i);
      assert weeks[j] == Dates.WeekStart(today) - 7 * (weeksCount - 1 - j);
    }
  }
}
