/** The arithmetic of the endpoint history chart. Times are seconds. */
module Chart {
  import opened Prelude
  import opened Sorting

  predicate AtMost(a: real, b: real) {
    a <= b
  }

  // ---------------------------------------------------------------------------
  // Gap threshold
  // ---------------------------------------------------------------------------

  function Intervals(times: seq<real>): (r: seq<real>)
    ensures |r| == if times == [] then 0 else |times| - 1
    ensures forall i :: 0 <= i < |r| ==> r[i] == times[i + 1] - times[i]
  {
    if times == [] then [] else seq(|times| - 1, i requires 0 <= i < |times| - 1 => times[i + 1] - times[i])
  }

  function Positive(s: seq<real>): (r: seq<real>)
    ensures forall x :: x in r ==> x > 0.0
    ensures forall x :: x > 0.0 ==> multiset(r)[x] == multiset(s)[x]
  {
    assert s != [] ==> s == s[..|s| - 1] + [s[|s| - 1]];
    if s == [] then []
    else if s[|s| - 1] > 0.0 then Positive(s[..|s| - 1]) + [s[|s| - 1]] else Positive(s[..|s| - 1])
  }

  function Median(sorted: seq<real>): real
    requires sorted != []
  {
    var middle := |sorted| / 2;
    if |sorted| % 2 == 0 then (sorted[middle - 1] + sorted[middle]) / 2.0 else sorted[middle]
  }

  function GapThreshold(times: seq<real>): Option<real> {
    var intervals := Positive(Intervals(times));
    if |intervals| < 2 then None else Some(Median(Sort(intervals, AtMost)) * 2.5)
  }

  function Above(s: seq<real>, bound: real): (n: nat)
    ensures n <= |s|
  {
    if s == [] then 0 else Above(s[..|s| - 1], bound) + if s[|s| - 1] > bound then 1 else 0
  }

  function GapCount(times: seq<real>): nat {
    var threshold := GapThreshold(times);
    if threshold.None? then 0 else Above(Intervals(times), threshold.value)
  }

  lemma {:induction false} AboveIsSymmetric(a: seq<real>, b: seq<real>, bound: real)
    requires multiset(a) == multiset(b)
    ensures Above(a, bound) == Above(b, bound)
  {
    assert |multiset(a)| == |a| && |multiset(b)| == |b|;
    if a != [] {
      var x := a[|a| - 1];
      assert x in multiset(b);
      var i :| 0 <= i < |b| && b[i] == x;
      var b' := b[..i] + b[i + 1..];
      assert b == b[..i] + [x] + b[i + 1..];
      assert a == a[..|a| - 1] + [x];
      assert multiset(a[..|a| - 1]) == multiset(a) - multiset{x};
      assert multiset(b') == multiset(b) - multiset{x};
      AboveIsSymmetric(a[..|a| - 1], b', bound);
      AboveOfSum(b[..i], b[i + 1..], bound);
      AboveOfSum(b[..i] + [x], b[i + 1..], bound);
    }
  }

  lemma {:induction false} AboveOfSum(a: seq<real>, b: seq<real>, bound: real)
    ensures Above(a + b, bound) == Above(a, bound) + Above(b, bound)
  {
    if b == [] {
      assert a + b == a;
    } else {
      assert (a + b)[..|a + b| - 1] == a + b[..|b| - 1];
      AboveOfSum(a, b[..|b| - 1], bound);
    }
  }

  /** Only elements past the first k can be above a bound that the first k do not exceed. */
  lemma {:induction false} AboveFromIndex(s: seq<real>, k: nat, bound: real)
    requires k <= |s| && forall i :: 0 <= i < k ==> s[i] <= bound
    ensures Above(s, bound) <= |s| - k
  {
    if |s| > k {
      AboveFromIndex(s[..|s| - 1], k, bound);
    } else if k > 0 {
      AboveFromIndex(s[..k - 1], k - 1, bound);
    }
  }

  lemma {:induction false} OnlyPositiveAbove(s: seq<real>, bound: real)
    requires bound >= 0.0
    ensures Above(s, bound) == Above(Positive(s), bound)
  {
    if s != [] {
      OnlyPositiveAbove(s[..|s| - 1], bound);
      var front := Positive(s[..|s| - 1]);
      assert (front + [s[|s| - 1]])[..|front|] == front;
    }
  }

  lemma MedianSplits(sorted: seq<real>)
    requires sorted != [] && Sorted(sorted, AtMost) && forall x :: x in sorted ==> x > 0.0
    ensures Median(sorted) > 0.0
    ensures 2 * Above(sorted, Median(sorted) * 2.5) <= |sorted|
  {
    hide Above;
    var middle, median := |sorted| / 2, Median(sorted);
    assert sorted[middle] in sorted;
    if |sorted| % 2 == 0 {
      assert sorted[middle - 1] in sorted;
      assert sorted[middle - 1] <= sorted[middle];
      assert forall i :: 0 <= i < middle ==> i == middle - 1 || sorted[i] <= sorted[middle - 1];
      AboveFromIndex(sorted, middle, median * 2.5);
    } else {
      assert forall i :: 0 <= i < middle + 1 ==> i == middle || sorted[i] <= sorted[middle];
      AboveFromIndex(sorted, middle + 1, median * 2.5);
    }
  }

  function Below(s: seq<real>, bound: real): (n: nat)
    ensures n <= |s|
  {
    if s == [] then 0 else Below(s[..|s| - 1], bound) + if s[|s| - 1] < bound then 1 else 0
  }

  /** Only the first k elements can be below a bound that the rest reach. */
  lemma {:induction false} BelowUpToIndex(s: seq<real>, k: nat, bound: real)
    requires k <= |s| && forall i :: k <= i < |s| ==> s[i] >= bound
    ensures Below(s, bound) <= k
  {
    if |s| > k {
      BelowUpToIndex(s[..|s| - 1], k, bound);
    }
  }

  /** The median: no more than half lie below it and no more than half above. */
  lemma MedianIsCentral(sorted: seq<real>)
    requires sorted != [] && Sorted(sorted, AtMost)
    ensures 2 * Below(sorted, Median(sorted)) <= |sorted|
    ensures 2 * Above(sorted, Median(sorted)) <= |sorted|
  {
    hide Above, Below;
    var middle, median := |sorted| / 2, Median(sorted);
    if |sorted| % 2 == 0 {
      assert sorted[middle - 1] <= sorted[middle];
      assert forall i :: 0 <= i < middle ==> i == middle - 1 || sorted[i] <= sorted[middle - 1];
      assert forall i :: middle <= i < |sorted| ==> i == middle || sorted[i] >= sorted[middle];
      AboveFromIndex(sorted, middle, median);
      BelowUpToIndex(sorted, middle, median);
    } else {
      assert forall i :: 0 <= i <= middle ==> i == middle || sorted[i] <= sorted[middle];
      assert forall i :: middle <= i < |sorted| ==> i == middle || sorted[i] >= sorted[middle];
      AboveFromIndex(sorted, middle + 1, median);
      BelowUpToIndex(sorted, middle, median);
    }
  }

  /** The same values seen from the other side of zero. */
  function Mirrored(sorted: seq<real>): (r: seq<real>)
    ensures |r| == |sorted| && forall i :: 0 <= i < |r| ==> r[i] == -sorted[|sorted| - 1 - i]
  {
    seq(|sorted|, i requires 0 <= i < |sorted| => -sorted[|sorted| - 1 - i])
  }

  /** The median favours neither side: of two middle values it is halfway between. */
  lemma MedianMirrors(sorted: seq<real>)
    requires sorted != []
    ensures Median(Mirrored(sorted)) == -Median(sorted)
    ensures |sorted| == 2 ==> Median(sorted) - sorted[0] == sorted[1] - Median(sorted)
  {}

  predicate LongGap(times: seq<real>, bound: real, k: nat) {
    0 < k < |times| && times[k] - times[k - 1] > bound
  }

  /** The sampling intervals that are longer than the threshold, by their later end. */
  function Gaps(times: seq<real>): set<nat> {
    var threshold := GapThreshold(times);
    set k: nat | k < |times| && threshold.Some? && LongGap(times, threshold.value, k)
  }

  /** Every interval over the threshold is counted, and nothing else. */
  lemma GapCountIsExact(times: seq<real>)
    ensures GapCount(times) == |Gaps(times)|
  {
    hide GapThreshold, Above;
    var threshold := GapThreshold(times);
    if threshold.Some? && times == [] {
      NoGapYet(times, Intervals(times), threshold.value);
      assert Gaps(times) == LongBefore(times, threshold.value, 0);
    } else if threshold.Some? {
      AboveCounts(times, Intervals(times), threshold.value, |Intervals(times)|);
      assert Intervals(times)[..|Intervals(times)|] == Intervals(times);
      assert Gaps(times) == LongBefore(times, threshold.value, |Intervals(times)|);
    }
  }

  function LongBefore(times: seq<real>, bound: real, n: nat): set<nat> {
    set k: nat | k <= n && LongGap(times, bound, k)
  }

  lemma {:induction false} AboveCounts(times: seq<real>, intervals: seq<real>, bound: real, n: nat)
    requires |intervals| + 1 == |times| && forall i :: 0 <= i < |intervals| ==> intervals[i] == times[i + 1] - times[i]
    requires n <= |intervals|
    ensures Above(intervals[..n], bound) == |LongBefore(times, bound, n)|
  {
    hide LongBefore, Above;
    if n == 0 {
      NoGapYet(times, intervals[..0], bound);
    } else {
      AboveCounts(times, intervals, bound, n - 1);
      AboveStep(intervals, n, bound);
      OneMoreGap(times, bound, n, intervals[n - 1]);
    }
  }

  lemma NoGapYet(times: seq<real>, none: seq<real>, bound: real)
    requires none == []
    ensures Above(none, bound) == |LongBefore(times, bound, 0)|
  {
    assert LongBefore(times, bound, 0) == {};
  }

  lemma AboveStep(s: seq<real>, n: nat, bound: real)
    requires 0 < n <= |s|
    ensures Above(s[..n], bound) == Above(s[..n - 1], bound) + if s[n - 1] > bound then 1 else 0
  {
    assert s[..n][..n - 1] == s[..n - 1];
  }

  lemma OneMoreGap(times: seq<real>, bound: real, n: nat, interval: real)
    requires 0 < n < |times| && interval == times[n] - times[n - 1]
    ensures |LongBefore(times, bound, n)| == |LongBefore(times, bound, n - 1)| + if interval > bound then 1 else 0
  {
    assert LongBefore(times, bound, n) == LongBefore(times, bound, n - 1) + if interval > bound then {n} else {};
  }

  /** There is a threshold from two positive intervals on, and it is two and a half times a central one. */
  lemma ThresholdIsCentral(times: seq<real>)
    ensures var sorted := Sort(Positive(Intervals(times)), AtMost);
            && (GapThreshold(times).Some? <==> |sorted| >= 2)
            && (GapThreshold(times).Some? ==>
                  var typical := GapThreshold(times).value / 2.5;
                  2 * Below(sorted, typical) <= |sorted| && 2 * Above(sorted, typical) <= |sorted|)
  {
    hide Sort, Median, Below, Above, Positive, Intervals;
    var sorted := Sort(Positive(Intervals(times)), AtMost);
    SortSorts(Positive(Intervals(times)), AtMost);
    if |sorted| >= 2 {
      MedianIsCentral(sorted);
      assert GapThreshold(times).value / 2.5 == Median(sorted);
    }
  }

  /** At most half of the positive sampling intervals are ever counted as gaps. */
  lemma AtMostHalfAreGaps(times: seq<real>)
    ensures 2 * GapCount(times) <= |Positive(Intervals(times))|
  {
    hide Median, Above, Sort, Positive, Intervals;
    var intervals := Positive(Intervals(times));
    if |intervals| >= 2 {
      var sorted := Sort(intervals, AtMost);
      SortSorts(intervals, AtMost);
      SameMembers(sorted, intervals);
      MedianSplits(sorted);
      var bound := Median(sorted) * 2.5;
      OnlyPositiveAbove(Intervals(times), bound);
      AboveIsSymmetric(sorted, intervals, bound);
    }
  }

  // ---------------------------------------------------------------------------
  // Line segments
  // ---------------------------------------------------------------------------

  datatype Sample = Sample(time: real, value: Option<real>)
  datatype Point = Point(time: real, value: real, segment: nat)

  function Times(samples: seq<Sample>): (times: seq<real>)
    ensures |times| == |samples| && forall i :: 0 <= i < |times| ==> times[i] == samples[i].time
  {
    seq(|samples|, i requires 0 <= i < |samples| => samples[i].time)
  }

  /** Sample k comes too long after the one before it. */
  predicate LateAt(samples: seq<Sample>, threshold: Option<real>, k: nat)
    requires k < |samples|
  {
    k > 0 && threshold.Some? && samples[k].time - samples[k - 1].time > threshold.value
  }

  /** The line is cut at sample k: it has no value, or it comes too late. */
  predicate CutAt(samples: seq<Sample>, threshold: Option<real>, k: nat)
    requires k < |samples|
  {
    samples[k].value.None? || LateAt(samples, threshold, k)
  }

  /** How often the segment number has been raised by the first n samples. */
  function Raises(samples: seq<Sample>, threshold: Option<real>, n: nat): nat
    requires n <= |samples|
  {
    if n == 0 then 0
    else
      Raises(samples, threshold, n - 1)
      + (if LateAt(samples, threshold, n - 1) then 1 else 0)
      + (if samples[n - 1].value.None? then 1 else 0)
  }

  ghost predicate Uncut(samples: seq<Sample>, threshold: Option<real>, from: nat, upTo: nat)
    requires upTo < |samples|
  {
    forall k :: from < k <= upTo ==> !CutAt(samples, threshold, k)
  }

  lemma {:induction false} SameRaisesMeansUncut(samples: seq<Sample>, threshold: Option<real>, i: nat, j: nat)
    requires i <= j < |samples|
    ensures Raises(samples, threshold, i + 1) <= Raises(samples, threshold, j + 1)
    ensures Raises(samples, threshold, i + 1) == Raises(samples, threshold, j + 1) <==> Uncut(samples, threshold, i, j)
  {
    if i < j {
      SameRaisesMeansUncut(samples, threshold, i, j - 1);
      assert Uncut(samples, threshold, i, j) <==> Uncut(samples, threshold, i, j - 1) && !CutAt(samples, threshold, j);
    }
  }

  /** The samples among the first n that have a value, by index, in order. */
  function WithValue(samples: seq<Sample>, n: nat): (r: seq<nat>)
    requires n <= |samples|
    ensures forall k: nat :: k in r <==> k < n && samples[k].value.Some?
    ensures forall p :: 0 <= p < |r| ==> r[p] < n
    ensures forall p, q :: 0 <= p < q < |r| ==> r[p] < r[q]
  {
    if n == 0 then []
    else
      var front := WithValue(samples, n - 1);
      assert forall p :: 0 <= p < |front| ==> front[p] in front;
      if samples[n - 1].value.Some? then front + [n - 1] else front
  }

  /** The point drawn for sample k. */
  predicate Draws(point: Point, samples: seq<Sample>, k: nat)
    requires k < |samples|
  {
    samples[k] == Sample(point.time, Some(point.value))
  }

  /** The points of the first n samples, each with the segment number reached there. */
  ghost predicate Drawn(points: seq<Point>, samples: seq<Sample>, threshold: Option<real>, n: nat) {
    && n <= |samples| && |points| == |WithValue(samples, n)|
    && forall p :: 0 <= p < |points| ==>
         var k := WithValue(samples, n)[p];
         k < |samples| && Draws(points[p], samples, k) && points[p].segment == Raises(samples, threshold, k + 1)
  }

  lemma NothingDrawn(samples: seq<Sample>, threshold: Option<real>)
    ensures Drawn([], samples, threshold, 0) && Raises(samples, threshold, 0) == 0
  {}

  lemma RaisesStep(samples: seq<Sample>, threshold: Option<real>, n: nat)
    requires n < |samples|
    ensures Raises(samples, threshold, n + 1) == Raises(samples, threshold, n)
              + (if LateAt(samples, threshold, n) then 1 else 0) + (if samples[n].value.None? then 1 else 0)
  {}

  lemma WithValueStep(samples: seq<Sample>, n: nat)
    requires n < |samples|
    ensures WithValue(samples, n + 1) == WithValue(samples, n) + if samples[n].value.Some? then [n] else []
  {}

  lemma OneMoreSample(points: seq<Point>, samples: seq<Sample>, threshold: Option<real>, n: nat)
    requires n < |samples| && Drawn(points, samples, threshold, n)
    ensures Raises(samples, threshold, n + 1) == Raises(samples, threshold, n)
              + (if LateAt(samples, threshold, n) then 1 else 0) + (if samples[n].value.None? then 1 else 0)
    ensures samples[n].value.None? ==> Drawn(points, samples, threshold, n + 1)
    ensures samples[n].value.Some? ==> forall point: Point ::
              Draws(point, samples, n) && point.segment == Raises(samples, threshold, n + 1) ==>
              Drawn(points + [point], samples, threshold, n + 1)
  {
    hide Draws, Raises, WithValue;
    RaisesStep(samples, threshold, n);
    WithValueStep(samples, n);
    var before, after := WithValue(samples, n), WithValue(samples, n + 1);
    assert forall p :: 0 <= p < |before| ==> after[p] == before[p];
  }

  /**
   One point per sample with a value, in order; two points share a segment exactly
   when the line is not cut anywhere after the first up to and including the second.
   */
  method LineSeries(samples: seq<Sample>) returns (points: seq<Point>)
    ensures |points| == |WithValue(samples, |samples|)|
    ensures forall p :: 0 <= p < |points| ==> Draws(points[p], samples, WithValue(samples, |samples|)[p])
    ensures forall p, q :: 0 <= p < q < |points| ==>
              (points[p].segment == points[q].segment <==>
               Uncut(samples, GapThreshold(Times(samples)),
                     WithValue(samples, |samples|)[p], WithValue(samples, |samples|)[q]))
  {
    hide Uncut, GapThreshold, WithValue, Raises;
    var threshold := GapThreshold(Times(samples));
    points := [];
    var segment := 0;
    var previous: Option<real> := None;
    NothingDrawn(samples, threshold);
    for i := 0 to |samples|
      invariant previous == if i == 0 then None else Some(samples[i - 1].time)
      invariant segment == Raises(samples, threshold, i)
      invariant Drawn(points, samples, threshold, i)
    {
      OneMoreSample(points, samples, threshold, i);
      var sample := samples[i];
      if previous.Some? && threshold.Some? && sample.time - previous.value > threshold.value {
        segment := segment + 1;
      }
      if sample.value.None? {
        segment := segment + 1;
      } else {
        points := points + [Point(sample.time, sample.value.value, segment)];
      }
      previous := Some(sample.time);
    }
    var source := WithValue(samples, |samples|);
    forall p, q | 0 <= p < q < |points|
      ensures points[p].segment == points[q].segment <==> Uncut(samples, threshold, source[p], source[q])
    {
      assert source[p] in source && source[q] in source;
      SameRaisesMeansUncut(samples, threshold, source[p], source[q]);
    }
  }

  // ---------------------------------------------------------------------------
  // The sample under the cursor
  // ---------------------------------------------------------------------------

  function Distance(a: real, b: real): real {
    if a <= b then b - a else a - b
  }

  class Selection {
    var items: seq<real>           // the times of the hover items, in order
    var selected: Option<nat>

    constructor (items: seq<real>)
      ensures this.items == items && selected == None
    {
      this.items := items;
      this.selected := None;
    }

    /** Select an item nearest to the date; of two equally near ones the earlier. */
    method UpdateSelection(date: real)
      requires forall i, j :: 0 <= i <= j < |items| ==> items[i] <= items[j]
      modifies this`selected
      ensures items == [] ==> selected == old(selected)
      ensures items != [] ==>
                && selected.Some? && selected.value < |items|
                && forall k :: 0 <= k < |items| ==>
                     && Distance(items[selected.value], date) <= Distance(items[k], date)
                     && (Distance(items[selected.value], date) == Distance(items[k], date) ==>
                           items[selected.value] <= items[k])
    {
      if items == [] {
        return;
      }
      var lower, upper := 0, |items|;
      while lower < upper
        invariant 0 <= lower <= upper <= |items|
        invariant forall i :: 0 <= i < lower ==> items[i] < date
        invariant forall i :: upper <= i < |items| ==> items[i] >= date
      {
        var middle := (lower + upper) / 2;
        if items[middle] < date {
          lower := middle + 1;
        } else {
          upper := middle;
        }
      }
      var candidate: nat;
      if lower == 0 {
        candidate := 0;
      } else if lower == |items| {
        candidate := |items| - 1;
      } else if Distance(items[lower - 1], date) <= Distance(items[lower], date) {
        candidate := lower - 1;
      } else {
        candidate := lower;
      }
      selected := Some(candidate);
    }
  }
}
