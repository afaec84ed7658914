/** The values `printLoggedPodsWithTimeDiffStats` (main.go) prints: the
    largest, smallest and mean time difference of the recorded samples, or
    the "No logged pods found." outcome when there are none. Durations are
    unbounded integers of nanoseconds; the mean uses Go's int64 division,
    which truncates toward zero. */
module Stats {
  import opened Pods

  datatype TimeDiffStats =
    | NoLoggedPods
    | TimeDiffStats(maxTimeDiff: int, minTimeDiff: int, meanTimeDiff: int)

  /** Go's integer division for a positive divisor: the quotient rounded
      toward zero, so the remainder takes the sign of the dividend. */
  function TruncDiv(a: int, b: int): (q: int)
    requires b > 0
    ensures a >= 0 ==> 0 <= a - q * b < b
    ensures a < 0 ==> -b < a - q * b <= 0
  {
    if a >= 0 then a / b else -((-a) / b)
  }

  function TimeDiffs(loggedPods: seq<LoggedPodInfo>): (ds: seq<int>)
    ensures |ds| == |loggedPods|
    ensures forall i :: 0 <= i < |ds| ==> ds[i] == loggedPods[i].timeDiff
  {
    seq(|loggedPods|, i requires 0 <= i < |loggedPods| => loggedPods[i].timeDiff)
  }

  function Sum(xs: seq<int>): int
    decreases |xs|
  {
    if |xs| == 0 then 0 else Sum(xs[..|xs| - 1]) + xs[|xs| - 1]
  }

  /** The smallest element, scanning left to right as the Go loop does. */
  function MinOf(xs: seq<int>): (m: int)
    requires |xs| > 0
    ensures m in xs
    ensures forall i :: 0 <= i < |xs| ==> m <= xs[i]
    decreases |xs|
  {
    if |xs| == 1 then xs[0]
    else
      var m := MinOf(xs[..|xs| - 1]);
      if xs[|xs| - 1] < m then xs[|xs| - 1] else m
  }

  /** The largest element, scanning left to right as the Go loop does. */
  function MaxOf(xs: seq<int>): (m: int)
    requires |xs| > 0
    ensures m in xs
    ensures forall i :: 0 <= i < |xs| ==> xs[i] <= m
    decreases |xs|
  {
    if |xs| == 1 then xs[0]
    else
      var m := MaxOf(xs[..|xs| - 1]);
      if xs[|xs| - 1] > m then xs[|xs| - 1] else m
  }

  /** Reference statistics: the extremes and the truncated mean of the time
      differences, or `NoLoggedPods` for an empty list. */
  function Summarize(loggedPods: seq<LoggedPodInfo>): (r: TimeDiffStats)
    ensures r.NoLoggedPods? <==> |loggedPods| == 0
    ensures r.TimeDiffStats? ==>
      && (exists i :: 0 <= i < |loggedPods| && loggedPods[i].timeDiff == r.minTimeDiff)
      && (exists i :: 0 <= i < |loggedPods| && loggedPods[i].timeDiff == r.maxTimeDiff)
      && (forall i :: 0 <= i < |loggedPods| ==> r.minTimeDiff <= loggedPods[i].timeDiff <= r.maxTimeDiff)
      && r.meanTimeDiff == TruncDiv(Sum(TimeDiffs(loggedPods)), |loggedPods|)
  {
    if |loggedPods| == 0 then NoLoggedPods
    else
      var ds := TimeDiffs(loggedPods);
      TimeDiffStats(MaxOf(ds), MinOf(ds), TruncDiv(Sum(ds), |ds|))
  }

  /** The statistics loop as written in Go: seed both extremes with the first
      sample, then one pass that totals and updates the extremes. */
  method ComputeTimeDiffStats(loggedPods: seq<LoggedPodInfo>) returns (r: TimeDiffStats)
    ensures r == Summarize(loggedPods)
  {
    if |loggedPods| == 0 {
      return NoLoggedPods;
    }
    ghost var ds := TimeDiffs(loggedPods);
    var maxTimeDiff := loggedPods[0].timeDiff;
    var minTimeDiff := loggedPods[0].timeDiff;
    var totalTimeDiff := 0;
    var i := 0;
    while i < |loggedPods|
      invariant 0 <= i <= |loggedPods|
      invariant totalTimeDiff == Sum(ds[..i])
      invariant maxTimeDiff == MaxOf(ds[..if i == 0 then 1 else i])
      invariant minTimeDiff == MinOf(ds[..if i == 0 then 1 else i])
    {
      var timeDiff := loggedPods[i].timeDiff;
      assert ds[..i + 1][..i] == ds[..i];
      totalTimeDiff := totalTimeDiff + timeDiff;
      if timeDiff > maxTimeDiff {
        maxTimeDiff := timeDiff;
      }
      if timeDiff < minTimeDiff {
        minTimeDiff := timeDiff;
      }
      i := i + 1;
    }
    assert ds[..i] == ds;
    var meanTimeDiff := TruncDiv(totalTimeDiff, |loggedPods|);
    r := TimeDiffStats(maxTimeDiff, minTimeDiff, meanTimeDiff);
  }

  /** Bounds on the elements bound the sum. */
  lemma {:induction false} SumBounds(xs: seq<int>, lo: int, hi: int)
    requires forall i :: 0 <= i < |xs| ==> lo <= xs[i] <= hi
    ensures lo * |xs| <= Sum(xs) <= hi * |xs|
    decreases |xs|
  {
    if |xs| > 0 {
      SumBounds(xs[..|xs| - 1], lo, hi);
    }
  }

  /** Multiplying by a positive factor keeps the order. */
  lemma MulMonotone(a: int, b: int, n: int)
    requires n > 0 && a <= b
    ensures a * n <= b * n
  {
  }

  /** A truncated quotient of a dividend within `[lo * n, hi * n]` lies
      within `[lo, hi]`. */
  lemma TruncDivBetween(s: int, n: int, lo: int, hi: int)
    requires n > 0
    requires lo * n <= s <= hi * n
    ensures lo <= TruncDiv(s, n) <= hi
  {
    var q := TruncDiv(s, n);
    if q < lo {
      MulMonotone(q + 1, lo, n);
    }
    if q > hi {
      MulMonotone(hi + 1, q, n);
    }
  }

  /** The truncated mean lies between the smallest and the largest sample. */
  lemma MeanBetweenExtremes(loggedPods: seq<LoggedPodInfo>)
    requires |loggedPods| > 0
    ensures Summarize(loggedPods).minTimeDiff <= Summarize(loggedPods).meanTimeDiff <= Summarize(loggedPods).maxTimeDiff
  {
    var r := Summarize(loggedPods);
    var ds := TimeDiffs(loggedPods);
    SumBounds(ds, r.minTimeDiff, r.maxTimeDiff);
    TruncDivBetween(Sum(ds), |ds|, r.minTimeDiff, r.maxTimeDiff);
  }

  /** Latencies of 2s, 4s and 6s give min 2s, max 6s and mean 4s. */
  lemma ThreeSamplesExample()
    ensures Summarize([LoggedPodInfo("ns", "a", 2_000_000_000),
                       LoggedPodInfo("ns", "b", 4_000_000_000),
                       LoggedPodInfo("ns", "c", 6_000_000_000)])
      == TimeDiffStats(6_000_000_000, 2_000_000_000, 4_000_000_000)
  {
    var ps := [LoggedPodInfo("ns", "a", 2_000_000_000),
               LoggedPodInfo("ns", "b", 4_000_000_000),
               LoggedPodInfo("ns", "c", 6_000_000_000)];
    var ds := TimeDiffs(ps);
    assert ds == [2_000_000_000, 4_000_000_000, 6_000_000_000];
    assert ds[..2] == [2_000_000_000, 4_000_000_000];
    assert ds[..2][..1] == [2_000_000_000];
    assert ds[..2][..1][..0] == [];
    assert Sum(ds[..2][..1]) == 2_000_000_000;
    assert Sum(ds[..2]) == 6_000_000_000;
    assert Sum(ds) == 12_000_000_000;
  }
}
