/** The inertial side of one scan: start-up averaging, splitting time into filter predictions,
    and the backwards walk that undistorts the cloud. */
module ImuProcess {
  import opened Reals
  import opened Sensors
  import S = ImuStatistics

  const MAX_INI_COUNT := 10

  // ---------- Start-up ----------

  datatype Stats = Stats(meanAcc: V3, meanGyr: V3, covAcc: V3, covGyr: V3)

  function MeanStep(m: V3, v: V3, k: real): V3
    requires k != 0.0
  {
    V3(m.x + (v.x - m.x) / k, m.y + (v.y - m.y) / k, m.z + (v.z - m.z) / k)
  }

  function AccCovStep(c: V3, d: V3, k: real): V3
    requires k != 0.0
  {
    V3(S.AccCovStep(c.x, Sq(d.x), k), S.AccCovStep(c.y, Sq(d.y), k), S.AccCovStep(c.z, Sq(d.z), k))
  }

  function GyrCovStep(c: V3, d: V3, k: real): V3
    requires k != 0.0
  {
    V3(S.GyrCovStep(c.x, Sq(d.x), k), S.GyrCovStep(c.y, Sq(d.y), k), S.GyrCovStep(c.z, Sq(d.z), k))
  }

  function Observe(s: Stats, m: Imu, n: nat): Stats
    requires n >= 1
  {
    var k := n as real;
    var acc, gyr := MeanStep(s.meanAcc, m.acc, k), MeanStep(s.meanGyr, m.gyr, k);
    Stats(acc, gyr, AccCovStep(s.covAcc, m.acc.Minus(acc), k), GyrCovStep(s.covGyr, m.gyr.Minus(gyr), k))
  }

  function ObserveAll(start: Stats, imu: seq<Imu>): Stats {
    if imu == [] then start
    else Observe(ObserveAll(start, imu[..|imu| - 1]), imu[|imu| - 1], |imu|)
  }

  lemma ObserveOneMore(start: Stats, imu: seq<Imu>, m: Imu)
    ensures ObserveAll(start, imu + [m]) == Observe(ObserveAll(start, imu), m, |imu| + 1)
  {
    assert (imu + [m])[..|imu|] == imu;
  }

  lemma NothingObserved()
    ensures forall start: Stats :: ObserveAll(start, []) == start
  {
  }

  function AccAxis(imu: seq<Imu>, axis: nat): (r: seq<real>)
    ensures |r| == |imu|
  {
    seq(|imu|, i requires 0 <= i < |imu| => imu[i].acc.At(axis))
  }

  function GyrAxis(imu: seq<Imu>, axis: nat): (r: seq<real>)
    ensures |r| == |imu|
  {
    seq(|imu|, i requires 0 <= i < |imu| => imu[i].gyr.At(axis))
  }

  lemma AccStep(s: Stats, m: Imu, n: nat, axis: nat, b: S.Axis)
    requires n >= 1 && b.mean == s.meanAcc.At(axis) && b.accCov == s.covAcc.At(axis)
    ensures Observe(s, m, n).meanAcc.At(axis) == S.Observe(b, m.acc.At(axis), n).mean
    ensures Observe(s, m, n).covAcc.At(axis) == S.Observe(b, m.acc.At(axis), n).accCov
  {
    hide S.AccCovStep, S.GyrCovStep, GyrCovStep, Sq;
  }

  lemma GyrStep(s: Stats, m: Imu, n: nat, axis: nat, b: S.Axis)
    requires n >= 1 && b.mean == s.meanGyr.At(axis) && b.gyrCov == s.covGyr.At(axis)
    ensures Observe(s, m, n).meanGyr.At(axis) == S.Observe(b, m.gyr.At(axis), n).mean
    ensures Observe(s, m, n).covGyr.At(axis) == S.Observe(b, m.gyr.At(axis), n).gyrCov
  {
    hide S.AccCovStep, S.GyrCovStep, AccCovStep, Sq;
  }

  lemma {:induction false} AxesSeparate(start: Stats, imu: seq<Imu>, axis: nat)
    ensures var s := ObserveAll(start, imu);
            var a := S.Axis(start.meanAcc.At(axis), start.covAcc.At(axis), start.covAcc.At(axis));
            var g := S.Axis(start.meanGyr.At(axis), start.covGyr.At(axis), start.covGyr.At(axis));
            && s.meanAcc.At(axis) == S.ObserveAll(a, AccAxis(imu, axis)).mean
            && s.covAcc.At(axis) == S.ObserveAll(a, AccAxis(imu, axis)).accCov
            && s.meanGyr.At(axis) == S.ObserveAll(g, GyrAxis(imu, axis)).mean
            && s.covGyr.At(axis) == S.ObserveAll(g, GyrAxis(imu, axis)).gyrCov
  {
    if imu != [] {
      var before := imu[..|imu| - 1];
      hide Observe, S.Observe;
      AxesSeparate(start, before, axis);
      assert AccAxis(imu, axis)[..|imu| - 1] == AccAxis(before, axis);
      assert GyrAxis(imu, axis)[..|imu| - 1] == GyrAxis(before, axis);
      var s, m := ObserveAll(start, before), imu[|imu| - 1];
      var a := S.Axis(start.meanAcc.At(axis), start.covAcc.At(axis), start.covAcc.At(axis));
      var g := S.Axis(start.meanGyr.At(axis), start.covGyr.At(axis), start.covGyr.At(axis));
      AccStep(s, m, |imu|, axis, S.ObserveAll(a, AccAxis(before, axis)));
      GyrStep(s, m, |imu|, axis, S.ObserveAll(g, GyrAxis(before, axis)));
    }
  }

  /** Over any number of samples, on every axis: the means are exact; the acceleration covariance
      lies between half and all of the population variance, the gyro covariance between a
      quarter and all of it, and both are given exactly. What the object held before does not matter. */
  lemma StartUpStatistics(start: Stats, imu: seq<Imu>, axis: nat)
    requires imu != []
    ensures var s, acc, gyr := ObserveAll(start, imu), AccAxis(imu, axis), GyrAxis(imu, axis);
            && s.meanAcc.At(axis) == Mean(acc) && s.meanGyr.At(axis) == Mean(gyr)
            && S.Variance(acc) / 2.0 <= s.covAcc.At(axis) <= S.Variance(acc)
            && S.Variance(gyr) / 4.0 <= s.covGyr.At(axis) <= S.Variance(gyr)
            && Prod(|imu| as real, s.covAcc.At(axis)) == S.AccSum(acc)
            && Prod(|imu| as real, s.covGyr.At(axis)) == S.GyrSum(gyr)
  {
    hide Prod;
    AxesSeparate(start, imu, axis);
    var a := S.Axis(start.meanAcc.At(axis), start.covAcc.At(axis), start.covAcc.At(axis));
    var g := S.Axis(start.meanGyr.At(axis), start.covGyr.At(axis), start.covGyr.At(axis));
    S.MeanIsExact(a, AccAxis(imu, axis));
    S.MeanIsExact(g, GyrAxis(imu, axis));
    S.CovarianceBounds(a, AccAxis(imu, axis));
    S.CovarianceBounds(g, GyrAxis(imu, axis));
    S.CovarianceIsExact(a, AccAxis(imu, axis));
    S.CovarianceIsExact(g, GyrAxis(imu, axis));
  }

  // ---------- Splitting a scan into predictions ----------

  /** Time steps for consecutive samples; pairs that end before the previous scan did are skipped. */
  function ForwardSteps(v: seq<Imu>, lastEnd: real): seq<real>
    decreases |v|
  {
    if |v| < 2 then []
    else
      var rest := ForwardSteps(v[1..], lastEnd);
      if v[1].stamp < lastEnd then rest
      else if v[0].stamp < lastEnd then [v[1].stamp - lastEnd] + rest
      else [v[1].stamp - v[0].stamp] + rest
  }

  /** All time steps given to the filter for one scan. */
  function PredictSteps(lastImu: Imu, imu: seq<Imu>, lastEnd: real, end: real): seq<real> {
    var v := [lastImu] + imu;
    ForwardSteps(v, lastEnd) + [Abs(end - v[|v| - 1].stamp)]
  }

  function Total(dts: seq<real>): real {
    if dts == [] then 0.0 else dts[0] + Total(dts[1..])
  }

  ghost predicate Nonnegative(dts: seq<real>) {
    forall i :: 0 <= i < |dts| ==> dts[i] >= 0.0
  }

  lemma {:induction false} TotalConcat(a: seq<real>, b: seq<real>)
    ensures Total(a + b) == Total(a) + Total(b)
  {
    if a == [] {
      assert a + b == b;
    } else {
      TotalConcat(a[1..], b);
      assert (a + b)[1..] == a[1..] + b;
    }
  }

  function Later(a: real, b: real): real { if a < b then b else a }

  /** Where the predictions of a scan start: at the previous end, or at the first sample if that
      is later; and at the last sample if even that is before the previous end. */
  function StartTime(v: seq<Imu>, lastEnd: real): real
    requires v != []
  {
    var last := v[|v| - 1].stamp;
    if last < lastEnd then last else Later(lastEnd, v[0].stamp)
  }

  lemma {:induction false} ForwardStepsTotal(v: seq<Imu>, lastEnd: real)
    requires v != [] && Ordered(v)
    ensures Nonnegative(ForwardSteps(v, lastEnd))
    ensures Total(ForwardSteps(v, lastEnd)) == v[|v| - 1].stamp - StartTime(v, lastEnd)
    decreases |v|
  {
    if |v| >= 2 {
      hide Ordered;
      assert Ordered(v[1..]) && v[0].stamp <= v[1].stamp <= v[|v| - 1].stamp by { OrderedTail(v); }
      ForwardStepsTotal(v[1..], lastEnd);
      var dts, rest := ForwardSteps(v, lastEnd), ForwardSteps(v[1..], lastEnd);
      if v[1].stamp >= lastEnd {
        assert dts[1..] == rest;
      }
    }
  }

  lemma OrderedTail(v: seq<Imu>)
    requires |v| >= 2 && Ordered(v)
    ensures Ordered(v[1..]) && v[0].stamp <= v[1].stamp <= v[|v| - 1].stamp
  {
  }

  /** With ordered samples none later than the scan's end, every prediction step is nonnegative
      (the final absolute value changes nothing) and together they run from StartTime to the end. */
  lemma PredictStepsTotal(lastImu: Imu, imu: seq<Imu>, lastEnd: real, end: real)
    requires Ordered([lastImu] + imu) && ([lastImu] + imu)[|imu|].stamp <= end
    ensures Nonnegative(PredictSteps(lastImu, imu, lastEnd, end))
    ensures Total(PredictSteps(lastImu, imu, lastEnd, end)) == end - StartTime([lastImu] + imu, lastEnd)
  {
    var v := [lastImu] + imu;
    var dts := ForwardSteps(v, lastEnd);
    ForwardStepsTotal(v, lastEnd);
    TotalConcat(dts, [Abs(end - v[|imu|].stamp)]);
    var all := PredictSteps(lastImu, imu, lastEnd, end);
    forall i | 0 <= i < |all| ensures all[i] >= 0.0 {
      if i < |dts| { assert all[i] == dts[i]; }
    }
  }

  /** When the carried-over sample is no later than the previous scan's end and no new sample is
      earlier, the steps run exactly from the previous end to this one. */
  lemma ScanTimeConserved(lastImu: Imu, imu: seq<Imu>, lastEnd: real, end: real)
    requires imu != [] && Ordered(imu) && AllAtMost(imu, end)
    requires lastImu.stamp <= lastEnd && AllAtLeast(imu, lastEnd)
    ensures Nonnegative(PredictSteps(lastImu, imu, lastEnd, end))
    ensures Total(PredictSteps(lastImu, imu, lastEnd, end)) == end - lastEnd
  {
    PrependOrdered(lastImu, imu);
    PredictStepsTotal(lastImu, imu, lastEnd, end);
  }

  lemma PrependOrdered(m: Imu, imu: seq<Imu>)
    requires Ordered(imu) && AllAtLeast(imu, m.stamp)
    ensures Ordered([m] + imu)
  {
  }

  // ---------- The backwards walk over the cloud ----------

  function Time(p: Point): real { p.curvature / 1000.0 }

  ghost predicate ByTime(pts: seq<Point>) {
    forall i, j :: 0 <= i < j < |pts| ==> Time(pts[i]) <= Time(pts[j])
  }

  /** Where a point measured after pose k goes; only its position changes. */
  function Moved(comp: (nat, Point) -> V3, k: nat, p: Point): Point { p.(pos := comp(k, p)) }

  /** The latest of the first n poses strictly before time t, or -1. */
  function LatestBefore(offsets: seq<real>, n: nat, t: real): (k: int)
    requires n <= |offsets|
    ensures -1 <= k < n && (k >= 0 ==> offsets[k] < t)
    ensures forall h :: k < h < n ==> t <= offsets[h]
  {
    if n == 0 then -1
    else if offsets[n - 1] < t then n - 1
    else LatestBefore(offsets, n - 1, t)
  }

  /** The per-point search the walk should agree with: every pose but the last can be a head. */
  function Undistorted(comp: (nat, Point) -> V3, offsets: seq<real>, p: Point): Point
    requires offsets != []
  {
    var k := LatestBefore(offsets, |offsets| - 1, Time(p));
    if k < 0 then p else Moved(comp, k, p)
  }

  /** Compensating for every head from the last down to k that lies before the point. */
  function Repeated(comp: (nat, Point) -> V3, offsets: seq<real>, k: nat, p: Point): (r: Point)
    requires k < |offsets|
    ensures r.curvature == p.curvature
    decreases |offsets| - k
  {
    if k == |offsets| - 1 then p
    else
      var q := Repeated(comp, offsets, k + 1, p);
      if Time(q) > offsets[k] then Moved(comp, k, q) else q
  }

  /** How many heads from k on lie before time t. */
  function HeadsBefore(offsets: seq<real>, k: nat, t: real): nat
    requires k < |offsets|
    decreases |offsets| - k
  {
    if k == |offsets| - 1 then 0
    else (if t > offsets[k] then 1 else 0) + HeadsBefore(offsets, k + 1, t)
  }

  lemma {:induction false} RepeatedOnce(comp: (nat, Point) -> V3, offsets: seq<real>, k: nat, p: Point)
    requires k < |offsets|
    ensures HeadsBefore(offsets, k, Time(p)) == 0 ==> Repeated(comp, offsets, k, p) == p
    ensures HeadsBefore(offsets, k, Time(p)) == 0 ==>
              forall h :: k <= h < |offsets| - 1 ==> Time(p) <= offsets[h]
    ensures HeadsBefore(offsets, k, Time(p)) == 1 ==>
              var h := LatestBefore(offsets, |offsets| - 1, Time(p));
              h >= k && Repeated(comp, offsets, k, p) == Moved(comp, h, p)
    decreases |offsets| - k
  {
    if k < |offsets| - 1 {
      RepeatedOnce(comp, offsets, k + 1, p);
    }
  }

  lemma {:induction false} RepeatedShifts(offsets: seq<real>, k: nat, p: Point)
    requires k < |offsets|
    ensures Repeated((h, q: Point) => q.pos.Plus(V3(1.0, 0.0, 0.0)), offsets, k, p).pos.x
         == p.pos.x + HeadsBefore(offsets, k, Time(p)) as real
    decreases |offsets| - k
  {
    if k < |offsets| - 1 {
      RepeatedShifts(offsets, k + 1, p);
    }
  }

  /** The first point of the cloud is compensated once per head before it, instead of once. It
      agrees with the per-point search, for every compensation, exactly when at most one head
      lies before it. */
  lemma FirstPointAgreesIff(offsets: seq<real>, p: Point)
    requires offsets != []
    ensures HeadsBefore(offsets, 0, Time(p)) <= 1 <==>
              forall comp: (nat, Point) -> V3 ::
                Repeated(comp, offsets, 0, p) == Undistorted(comp, offsets, p)
  {
    if HeadsBefore(offsets, 0, Time(p)) <= 1 {
      forall comp: (nat, Point) -> V3
        ensures Repeated(comp, offsets, 0, p) == Undistorted(comp, offsets, p)
      {
        RepeatedOnce(comp, offsets, 0, p);
      }
    } else {
      var comp: (nat, Point) -> V3 := (h, q: Point) => q.pos.Plus(V3(1.0, 0.0, 0.0));
      RepeatedShifts(offsets, 0, p);
      assert Repeated(comp, offsets, 0, p) != Undistorted(comp, offsets, p);
    }
  }

  /** Poses every ten milliseconds and a first point at fifteen: it is moved twice, not once. */
  lemma FirstPointExample(p: Point)
    requires p.curvature == 15.0
    ensures var offsets, shift := [0.0, 0.01, 0.02, 0.03], (h: nat, q: Point) => q.pos.Plus(V3(1.0, 0.0, 0.0));
            && Undistorted(shift, offsets, p).pos.x == p.pos.x + 1.0
            && Repeated(shift, offsets, 0, p).pos.x == p.pos.x + 2.0
  {
    var offsets := [0.0, 0.01, 0.02, 0.03];
    assert Time(p) == 0.015;
    RepeatedShifts(offsets, 0, p);
    assert HeadsBefore(offsets, 3, 0.015) == 0;
    assert HeadsBefore(offsets, 2, 0.015) == 0;
    assert HeadsBefore(offsets, 1, 0.015) == 1;
    assert HeadsBefore(offsets, 0, 0.015) == 2;
    assert LatestBefore(offsets, 3, 0.015) == 1;
  }

  /** Points above `it` are final, points from 1 to `it` untouched and not after any head from kp
      on, and the first has seen the heads from kp on. */
  ghost predicate WalkState(
    now: seq<Point>, was: seq<Point>, offsets: seq<real>, comp: (nat, Point) -> V3, it: nat, kp: nat)
    requires it < |was| && kp < |offsets|
  {
    && |now| == |was|
    && (forall j :: 1 <= j <= it ==> now[j] == was[j])
    && (forall j :: it < j < |was| ==> now[j] == Undistorted(comp, offsets, was[j]))
    && now[0] == Repeated(comp, offsets, kp, was[0])
    && (it > 0 ==> forall h :: kp <= h < |offsets| - 1 ==> Time(was[it]) <= offsets[h])
  }

  /** A point after this head but after no later one is compensated with it. */
  lemma HeadFound(comp: (nat, Point) -> V3, offsets: seq<real>, head: nat, p: Point)
    requires head + 1 < |offsets| && offsets[head] < Time(p)
    requires forall h :: head < h < |offsets| - 1 ==> Time(p) <= offsets[h]
    ensures Undistorted(comp, offsets, p) == Moved(comp, head, p)
  {
  }

  /** One head's stretch of the walk. */
  method WalkHead(pts: array<Point>, offsets: seq<real>, comp: (nat, Point) -> V3, head: nat, start: nat,
                  ghost was: seq<Point>)
    returns (it: nat)
    requires head + 1 < |offsets| && start < pts.Length == |was| && ByTime(was)
    requires WalkState(pts[..], was, offsets, comp, start, head + 1)
    modifies pts
    ensures it <= start && WalkState(pts[..], was, offsets, comp, it, head)
  {
    it := start;
    while Time(pts[it]) > offsets[head]
      invariant it <= start
      invariant WalkState(pts[..], was, offsets, comp, it, head + 1)
      decreases it
    {
      var p := pts[it];
      if it > 0 { HeadFound(comp, offsets, head, p); }
      pts[it] := Moved(comp, head, p);
      if it == 0 { return; }
      assert Time(was[it - 1]) <= Time(was[it]);
      it := it - 1;
    }
    assert Time(was[0]) <= Time(was[it]);
  }

  /** The two-pointer walk. Points are ordered by time, the poses need not be. Every point but
      the first is compensated exactly as the per-point search says, the first one repeatedly. */
  method WalkBack(pts: array<Point>, offsets: seq<real>, comp: (nat, Point) -> V3)
    requires offsets != [] && ByTime(pts[..])
    modifies pts
    ensures forall j :: 1 <= j < pts.Length ==> pts[j] == Undistorted(comp, offsets, old(pts[j]))
    ensures pts.Length > 0 ==> pts[0] == Repeated(comp, offsets, 0, old(pts[0]))
  {
    if pts.Length == 0 { return; }
    ghost var was := pts[..];
    var it: nat, kp: nat := pts.Length - 1, |offsets| - 1;
    while kp > 0
      invariant it < pts.Length && kp < |offsets|
      invariant WalkState(pts[..], was, offsets, comp, it, kp)
    {
      it := WalkHead(pts, offsets, comp, kp - 1, it, was);
      kp := kp - 1;
    }
    FinishWalk(pts[..], was, offsets, comp, it);
    forall j | 1 <= j < pts.Length ensures pts[j] == Undistorted(comp, offsets, old(pts[j])) {
      assert pts[..][j] == Undistorted(comp, offsets, was[j]);
    }
  }

  /** Once every head has been used, the untouched points are those no head lies before. */
  lemma FinishWalk(now: seq<Point>, was: seq<Point>, offsets: seq<real>, comp: (nat, Point) -> V3, it: nat)
    requires it < |was| && offsets != [] && ByTime(was) && WalkState(now, was, offsets, comp, it, 0)
    ensures forall j :: 1 <= j < |was| ==> now[j] == Undistorted(comp, offsets, was[j])
  {
  }

  // ---------- What one scan does to the inertial state ----------

  /** The part of the object that decides when time is split and where it resumes. */
  datatype Clock = Clock(needInit: bool, count: nat, lastImu: Imu, lastEnd: real)

  /** The offsets of the poses the forward pass records, relative to the scan's start. */
  function PoseOffsets(v: seq<Imu>, lastEnd: real, beg: real): seq<real>
    decreases |v|
  {
    if |v| < 2 then []
    else
      var rest := PoseOffsets(v[1..], lastEnd, beg);
      if v[1].stamp < lastEnd then rest else [v[1].stamp - beg] + rest
  }

  /** Samples from i on are no earlier than the previous scan's end, those between are. */
  ghost predicate ResumesAt(v: seq<Imu>, lastEnd: real, i: nat) {
    && 1 <= i <= |v|
    && (forall j :: 1 <= j < i ==> v[j].stamp < lastEnd)
    && (forall j :: i <= j < |v| ==> v[j].stamp >= lastEnd)
  }

  /** One pose for every sample from the previous scan's end on, at the sample's own time. */
  lemma {:induction false} PosesAreSamples(v: seq<Imu>, lastEnd: real, beg: real, i: nat)
    requires ResumesAt(v, lastEnd, i)
    ensures |PoseOffsets(v, lastEnd, beg)| == |v| - i
    ensures forall k :: i <= k < |v| ==> beg + PoseOffsets(v, lastEnd, beg)[k - i] == v[k].stamp
    decreases |v|
  {
    if |v| >= 2 {
      var rest := v[1..];
      assert forall j :: 1 <= j < |rest| ==> rest[j] == v[j + 1];
      PosesAreSamples(rest, lastEnd, beg, if i == 1 then 1 else i - 1);
      forall k | i <= k < |v| ensures beg + PoseOffsets(v, lastEnd, beg)[k - i] == v[k].stamp {
        if k > 1 { assert rest[k - 1] == v[k]; }
      }
    }
  }

  lemma TotalOfFirst(d: real, rest: seq<real>, k: nat)
    requires k <= |rest|
    ensures Total(([d] + rest)[..k + 1]) == d + Total(rest[..k])
  {
    assert ([d] + rest)[..k + 1] == [d] + rest[..k];
    assert ([d] + rest[..k])[1..] == rest[..k];
  }

  /** The filter reaches the time of every pose with the step that ends there. */
  lemma {:induction false} PosesFollowSteps(v: seq<Imu>, lastEnd: real, beg: real, k: nat)
    requires v != [] && Ordered(v) && k < |PoseOffsets(v, lastEnd, beg)|
    ensures |ForwardSteps(v, lastEnd)| == |PoseOffsets(v, lastEnd, beg)|
    ensures beg + PoseOffsets(v, lastEnd, beg)[k]
         == Later(lastEnd, v[0].stamp) + Total(ForwardSteps(v, lastEnd)[..k + 1])
    decreases |v|
  {
    hide Ordered;
    OrderedTail(v);
    var steps, rest := ForwardSteps(v[1..], lastEnd), PoseOffsets(v[1..], lastEnd, beg);
    if v[1].stamp < lastEnd {
      PosesFollowSteps(v[1..], lastEnd, beg, k);
    } else {
      var d := v[1].stamp - Later(lastEnd, v[0].stamp);
      assert ForwardSteps(v, lastEnd) == [d] + steps && PoseOffsets(v, lastEnd, beg)[0] == v[1].stamp - beg;
      SameNumber(v[1..], lastEnd, beg);
      TotalOfFirst(d, steps, k);
      if k == 0 {
        assert steps[..0] == [];
      } else {
        PosesFollowSteps(v[1..], lastEnd, beg, k - 1);
      }
    }
  }

  lemma {:induction false} SameNumber(v: seq<Imu>, lastEnd: real, beg: real)
    ensures |ForwardSteps(v, lastEnd)| == |PoseOffsets(v, lastEnd, beg)|
    decreases |v|
  {
    if |v| >= 2 { SameNumber(v[1..], lastEnd, beg); }
  }

  lemma OnePair(v: seq<Imu>, i: nat, lastEnd: real, beg: real)
    requires i + 1 < |v|
    ensures var steps, offsets := ForwardSteps(v[i + 1..], lastEnd), PoseOffsets(v[i + 1..], lastEnd, beg);
            if v[i + 1].stamp < lastEnd then
              ForwardSteps(v[i..], lastEnd) == steps && PoseOffsets(v[i..], lastEnd, beg) == offsets
            else
              && ForwardSteps(v[i..], lastEnd)
                 == [v[i + 1].stamp - if v[i].stamp < lastEnd then lastEnd else v[i].stamp] + steps
              && PoseOffsets(v[i..], lastEnd, beg) == [v[i + 1].stamp - beg] + offsets
  {
    assert v[i..][1..] == v[i + 1..];
  }

  lemma NoPair(v: seq<Imu>, lastEnd: real, beg: real)
    requires |v| < 2
    ensures ForwardSteps(v, lastEnd) == [] && PoseOffsets(v, lastEnd, beg) == []
  {
  }

  /** A scan without samples is ignored; start-up scans are only counted; any later one is split
      into prediction steps. */
  function Process(c: Clock, g: Group): (Clock, seq<real>) {
    if g.imu == [] then (c, [])
    else
      var last := g.imu[|g.imu| - 1];
      if c.needInit then
        var count := c.count + |g.imu|;
        (Clock(count <= MAX_INI_COUNT, count, last, c.lastEnd), [])
      else
        (c.(lastImu := last, lastEnd := g.endTime), PredictSteps(c.lastImu, g.imu, c.lastEnd, g.endTime))
  }

  class ImuProcessor {
    var firstFrame: bool
    var needInit: bool
    var count: nat
    var stats: Stats
    var lastImu: Imu
    var lastEnd: real
    const covAccScale: V3
    const covGyrScale: V3
    ghost var samples: seq<Imu>      // every sample averaged since the first frame
    ghost var before: Stats          // the statistics held before the first sample

    function View(): Clock
      reads this
    {
      Clock(needInit, count, lastImu, lastEnd)
    }

    /** While averaging, the statistics are those of all samples so far; afterwards the configured
        covariances replace the measured ones. */
    ghost predicate Valid()
      reads this
    {
      && count == |samples| + 1
      && (firstFrame ==> needInit && samples == [])
      && (!firstFrame && needInit ==> stats == ObserveAll(before, samples))
      && (!needInit ==>
            stats == ObserveAll(before, samples).(covAcc := covAccScale, covGyr := covGyrScale))
    }

    /** The first scan end is whatever the memory held. */
    constructor (lastEnd: real, covAcc: V3, covGyr: V3)
      ensures Valid() && firstFrame && View() == Clock(true, 1, lastImu, lastEnd)
    {
      firstFrame, needInit, count := true, true, 1;
      stats := Stats(V3(0.0, 0.0, -1.0), V3(0.0, 0.0, 0.0), V3(0.1, 0.1, 0.1), V3(0.1, 0.1, 0.1));
      lastImu := Imu(0.0, V3(0.0, 0.0, 0.0), V3(0.0, 0.0, 0.0));
      this.lastEnd := lastEnd;
      covAccScale, covGyrScale := covAcc, covGyr;
      samples := [];
    }

    /** The averaging loop of the start-up phase. */
    method ImuInit(imu: seq<Imu>)
      requires Valid() && needInit && imu != []
      modifies this
      ensures Valid() && !firstFrame && needInit && lastEnd == old(lastEnd)
      ensures samples == old(samples) + imu && count == old(count) + |imu|
      ensures stats == ObserveAll(before, samples)
      ensures lastImu == imu[|imu| - 1]
    {
      hide Observe, ObserveAll;
      NothingObserved();
      if firstFrame {
        count := 1;
        firstFrame := false;
        stats := stats.(meanAcc := imu[0].acc, meanGyr := imu[0].gyr);
        before := stats;
      }
      for i := 0 to |imu|
        invariant !firstFrame && needInit && lastEnd == old(lastEnd)
        invariant samples == old(samples) + imu[..i]
        invariant count == |samples| + 1 && stats == ObserveAll(before, samples)
      {
        ObserveOneMore(before, samples, imu[i]);
        stats := Observe(stats, imu[i], count);
        samples := samples + [imu[i]];
        count := count + 1;
      }
      lastImu := imu[|imu| - 1];
    }

    /** The forward pass: the prediction steps in order, and the offsets of the recorded poses. */
    method Propagate(g: Group) returns (dts: seq<real>, offsets: seq<real>)
      requires Valid() && !needInit && g.imu != []
      modifies this`lastImu, this`lastEnd
      ensures Valid()
      ensures dts == PredictSteps(old(lastImu), g.imu, old(lastEnd), g.endTime)
      ensures offsets == [0.0] + PoseOffsets([old(lastImu)] + g.imu, old(lastEnd), g.begTime)
      ensures lastImu == g.imu[|g.imu| - 1] && lastEnd == g.endTime
    {
      hide ForwardSteps, PoseOffsets;
      var v := [lastImu] + g.imu;
      dts, offsets := [], [0.0];
      var i := 0;
      assert v[0..] == v;
      while i + 1 < |v|
        invariant i < |v| && lastEnd == old(lastEnd)
        invariant dts + ForwardSteps(v[i..], lastEnd) == ForwardSteps(v, lastEnd)
        invariant offsets + PoseOffsets(v[i..], lastEnd, g.begTime)
               == [0.0] + PoseOffsets(v, lastEnd, g.begTime)
      {
        var head, tail := v[i], v[i + 1];
        OnePair(v, i, lastEnd, g.begTime);
        if tail.stamp >= lastEnd {
          var dt := if head.stamp < lastEnd then tail.stamp - lastEnd else tail.stamp - head.stamp;
          dts := dts + [dt];
          offsets := offsets + [tail.stamp - g.begTime];
        }
        i := i + 1;
      }
      NoPair(v[i..], lastEnd, g.begTime);
      assert dts + [] == dts && offsets + [] == offsets;
      assert dts == ForwardSteps(v, lastEnd);
      assert v == [old(lastImu)] + g.imu;
      dts := dts + [Abs(g.endTime - v[|v| - 1].stamp)];
      lastImu := g.imu[|g.imu| - 1];
      lastEnd := g.endTime;
    }

    /** What one scan does, by the phase the object is in. */
    method ProcessGroup(g: Group) returns (dts: seq<real>)
      requires Valid()
      modifies this
      ensures Valid()
      ensures View() == Process(old(View()), g).0 && dts == Process(old(View()), g).1
      ensures samples == if old(needInit) then old(samples) + g.imu else old(samples)
    {
      if |g.imu| == 0 { return []; }
      if needInit {
        ImuInit(g.imu);
        if count > MAX_INI_COUNT {
          needInit := false;
          stats := stats.(covAcc := covAccScale, covGyr := covGyrScale);
        }
        return [];
      }
      var offsets;
      dts, offsets := Propagate(g);
    }
  }
}
