/** The first pass of feature extraction over one scan line: plane segments, found one after
    another by an index the loop rewrites itself, and the labels they leave on the points. */
module SurfaceScan {
  import opened Reals
  import opened Sensors
  import Rotations
  import opened PlaneJudge

  datatype Feature = Nor | PossPlane | RealPlane | EdgeJump | EdgePlane | Wire | ZeroPoint

  datatype Segment = Segment(lo: nat, hi: nat, dir: V3)

  /** Whether two directions meet at an angle between 45 and 135 degrees: the cosine of the
      normalised directions lies strictly between -0.707 and 0.707. A zero direction counts. */
  predicate Sharp(a: V3, b: V3) {
    b == ZERO || a.Dot(b) * a.Dot(b) < 0.707 * 0.707 * a.Norm2() * b.Norm2()
  }

  /** Read on the lengths of the two directions, without squaring. */
  lemma SharpIff(a: V3, b: V3, na: real, nb: real)
    requires na > 0.0 && nb > 0.0 && na * na == a.Norm2() && nb * nb == b.Norm2()
    ensures Sharp(a, b) <==> -0.707 * na * nb < a.Dot(b) < 0.707 * na * nb
  {
    var l := 0.707 * na * nb;
    assert l > 0.0 by { assert na * nb > 0.0; }
    assert l * l == 0.707 * 0.707 * a.Norm2() * b.Norm2() by {
      SquareOfProduct(na, nb, a.Norm2(), b.Norm2());
    }
    SquareLess(a.Dot(b), l);
    if b == ZERO {
      assert b.Norm2() == 0.0;
      assert nb * nb > 0.0;
    }
  }

  lemma SquareOfProduct(na: real, nb: real, aa: real, bb: real)
    requires na * na == aa && nb * nb == bb
    ensures (0.707 * na * nb) * (0.707 * na * nb) == 0.707 * 0.707 * aa * bb
  {
    assert (0.707 * na * nb) * (0.707 * na * nb) == 0.707 * 0.707 * ((na * na) * (nb * nb));
  }

  /** The segment is one that the plane test accepts from its start. */
  ghost predicate Accepted(pl: seq<Point>, info: seq<Info>, c: Config, s: Segment)
    requires Line(pl, info, c)
  {
    s.lo + c.groupSize < |pl| && Judged(pl, info, c, s.lo, Plane, s.hi, s.dir)
  }

  ghost predicate InOrder(segs: seq<Segment>) {
    && (forall t :: 0 <= t < |segs| ==> segs[t].lo < segs[t].hi)
    && (forall t, u :: 0 <= t < u < |segs| ==> segs[t].hi <= segs[u].lo)
  }

  /** Accepted segments in order, sharing at most their end points. */
  ghost predicate Segments(pl: seq<Point>, info: seq<Info>, c: Config, segs: seq<Segment>)
    requires Line(pl, info, c)
  {
    InOrder(segs) && forall t :: 0 <= t < |segs| ==> Accepted(pl, info, c, segs[t])
  }

  /** Segment t starts where the one before it ended. */
  ghost predicate Joint(segs: seq<Segment>, t: nat, k: nat) {
    0 < t < |segs| && segs[t - 1].hi == k == segs[t].lo
  }

  ghost predicate SharpJoint(segs: seq<Segment>, k: nat) {
    exists t: nat :: Joint(segs, t, k) && Sharp(segs[t - 1].dir, segs[t].dir)
  }

  ghost predicate FlatJoint(segs: seq<Segment>, k: nat) {
    exists t: nat :: Joint(segs, t, k) && !Sharp(segs[t - 1].dir, segs[t].dir)
  }

  ghost predicate Inside(segs: seq<Segment>, k: nat) {
    exists t :: 0 <= t < |segs| && segs[t].lo < k < segs[t].hi
  }

  function JointLabel(a: V3, b: V3): Feature {
    if a == ZERO then PossPlane else if Sharp(a, b) then EdgePlane else RealPlane
  }

  /** The label the segments leave on point k. */
  function LabelOf(segs: seq<Segment>, k: nat, was: Feature): Feature
    decreases |segs|
  {
    if segs == [] then was
    else
      var n := |segs| - 1;
      var s := segs[n];
      if s.lo < k < s.hi then RealPlane
      else if k == s.hi then PossPlane
      else if k == s.lo then
        if n > 0 && segs[n - 1].hi == k then JointLabel(segs[n - 1].dir, s.dir) else PossPlane
      else LabelOf(segs[..n], k, was)
  }

  lemma FewerSegments(segs: seq<Segment>, k: nat)
    requires segs != []
    ensures var before := segs[..|segs| - 1];
            && (SharpJoint(before, k) ==> SharpJoint(segs, k))
            && (FlatJoint(before, k) ==> FlatJoint(segs, k))
            && (Inside(before, k) ==> Inside(segs, k))
  {
  }

  lemma LastJoint(segs: seq<Segment>, k: nat)
    requires |segs| >= 2 && segs[|segs| - 2].hi == k == segs[|segs| - 1].lo
    ensures var l := JointLabel(segs[|segs| - 2].dir, segs[|segs| - 1].dir);
            (l == EdgePlane ==> SharpJoint(segs, k)) && (l == RealPlane ==> FlatJoint(segs, k))
  {
  }

  /** What the labels mean: an edge is a sharp joint of two segments, and a plane point is strictly
      inside one or a joint that is not sharp. */
  lemma {:induction false} LabelMeaning(segs: seq<Segment>, k: nat, was: Feature)
    requires was == Nor
    ensures LabelOf(segs, k, was) == EdgePlane ==> SharpJoint(segs, k)
    ensures LabelOf(segs, k, was) == RealPlane ==> Inside(segs, k) || FlatJoint(segs, k)
    decreases |segs|
  {
    if segs != [] {
      hide SharpJoint, FlatJoint, JointLabel;
      var n := |segs| - 1;
      if segs[n].lo < k < segs[n].hi {
        assert Inside(segs, k);
      } else if k == segs[n].lo {
        if n > 0 && segs[n - 1].hi == k { LastJoint(segs, k); }
      } else if k != segs[n].hi {
        LabelMeaning(segs[..n], k, was);
        FewerSegments(segs, k);
      }
    }
  }

  /** Every point strictly inside a segment is a plane point. */
  lemma {:induction false} InsideIsPlane(segs: seq<Segment>, t: nat, k: nat, was: Feature)
    requires InOrder(segs) && t < |segs| && segs[t].lo < k < segs[t].hi
    ensures LabelOf(segs, k, was) == RealPlane
    decreases |segs|
  {
    var n := |segs| - 1;
    if t < n {
      assert segs[t].hi <= segs[n].lo;
      InsideIsPlane(segs[..n], t, k, was);
    }
  }

  lemma {:induction false} JointIsKept(segs: seq<Segment>, t: nat, was: Feature)
    requires InOrder(segs) && 0 < t < |segs| && segs[t - 1].hi == segs[t].lo
    ensures LabelOf(segs, segs[t].lo, was) == JointLabel(segs[t - 1].dir, segs[t].dir)
    decreases |segs|
  {
    hide JointLabel;
    var n := |segs| - 1;
    if t < n {
      assert segs[t].lo < segs[t].hi <= segs[n].lo;
      JointIsKept(segs[..n], t, was);
    }
  }

  lemma LengthZeroIff(a: V3, na: real)
    requires na >= 0.0 && na * na == a.Norm2()
    ensures na == 0.0 <==> a == ZERO
  {
    if a != ZERO { NormPositive(a); }
    if na > 0.0 { ProductOfPositives(na, na); }
    assert Prod(na, na) == a.Norm2();
  }

  /** The label of a joint, whatever comes after: an edge exactly when the cosine of the angle
      between the two directions lies strictly between -0.707 and 0.707 (a direction of no length
      has cosine zero), a plane point otherwise, and undecided after a segment of no length. */
  lemma LabelAtJoint(segs: seq<Segment>, t: nat, was: Feature, na: real, nb: real)
    requires InOrder(segs) && 0 < t < |segs| && segs[t - 1].hi == segs[t].lo
    requires na >= 0.0 && nb >= 0.0 && na * na == segs[t - 1].dir.Norm2() && nb * nb == segs[t].dir.Norm2()
    ensures LabelOf(segs, segs[t].lo, was)
         == if na == 0.0 then PossPlane
            else if nb == 0.0 || -0.707 * na * nb < segs[t - 1].dir.Dot(segs[t].dir) < 0.707 * na * nb then EdgePlane
            else RealPlane
  {
    hide V3.Dot, V3.Norm2;
    JointIsKept(segs, t, was);
    LengthZeroIff(segs[t - 1].dir, na);
    LengthZeroIff(segs[t].dir, nb);
    if na > 0.0 && nb > 0.0 { SharpIff(segs[t - 1].dir, segs[t].dir, na, nb); }
  }

  /** A segment that turns by a right angle makes an edge, one that goes straight on or straight
      back makes a plane point. */
  lemma RightAngleAndStraight(a: V3, b: V3, c: real)
    requires a != ZERO && b != ZERO
    ensures a.Dot(b) == 0.0 ==> JointLabel(a, b) == EdgePlane
    ensures b == a.Scaled(c) ==> JointLabel(a, b) == RealPlane
  {
    hide V3.Dot, V3.Norm2, V3.Scaled, Sharp, Prod, Sq;
    NormPositive(a); NormPositive(b);
    SharpIs(a, b, a.Dot(b), a.Norm2(), b.Norm2());
    RightAngle(a.Norm2(), b.Norm2());
    ScaledDots(a, c);
    StraightOn(a.Norm2(), c);
  }

  lemma NormPositive(a: V3)
    requires a != ZERO
    ensures a.Norm2() > 0.0
  {
    hide Sq;
    SquareSign(a.x); SquareSign(a.y); SquareSign(a.z);
    Rotations.NormIs(a);
    assert a == V3(a.x, a.y, a.z);
  }

  lemma SharpIs(a: V3, b: V3, d: real, aa: real, bb: real)
    requires b != ZERO && a.Dot(b) == d && a.Norm2() == aa && b.Norm2() == bb
    ensures Sharp(a, b) <==> Prod(d, d) < Prod(0.707 * 0.707, Prod(aa, bb))
  {
    assert 0.707 * 0.707 * aa * bb == Prod(0.707 * 0.707, Prod(aa, bb));
  }

  lemma RightAngle(aa: real, bb: real)
    requires aa > 0.0 && bb > 0.0
    ensures Prod(0.0, 0.0) < Prod(0.707 * 0.707, Prod(aa, bb))
  {
    ProductOfPositives(aa, bb);
  }

  lemma ScaledDots(a: V3, c: real)
    ensures a.Dot(a.Scaled(c)) == Prod(c, a.Norm2())
    ensures a.Scaled(c).Norm2() == Prod(Sq(c), a.Norm2())
  {
  }

  lemma StraightOn(aa: real, c: real)
    ensures Prod(Prod(c, aa), Prod(c, aa)) >= Prod(0.707 * 0.707, Prod(aa, Prod(Sq(c), aa)))
  {
    var s := Prod(c, aa);
    SquareSign(s);
    assert Prod(aa, Prod(Sq(c), aa)) == Sq(s);
  }

  /** Points on no segment keep the label they had. */
  lemma {:induction false} LabelElsewhere(segs: seq<Segment>, k: nat, was: Feature)
    requires forall t :: 0 <= t < |segs| ==> k < segs[t].lo || segs[t].hi < k
    requires InOrder(segs)
    ensures LabelOf(segs, k, was) == was
    decreases |segs|
  {
    if segs != [] {
      LabelElsewhere(segs[..|segs| - 1], k, was);
    }
  }

  /** Ends of segments that meet no other are possible planes. */
  lemma {:induction false} LabelAtLooseEnd(segs: seq<Segment>, t: nat, k: nat, was: Feature)
    requires InOrder(segs) && t < |segs| && (k == segs[t].lo || k == segs[t].hi)
    requires k == segs[t].lo && t > 0 ==> segs[t - 1].hi < k
    requires k == segs[t].hi && t < |segs| - 1 ==> k < segs[t + 1].lo
    ensures LabelOf(segs, k, was) == PossPlane
    decreases |segs|
  {
    var n := |segs| - 1;
    if t < n {
      assert k < segs[n].lo by {
        assert segs[t].lo < segs[t].hi <= segs[t + 1].lo <= segs[n].lo by {
          assert t + 1 < n ==> segs[t + 1].lo < segs[t + 1].hi <= segs[n].lo;
        }
      }
      LabelAtLooseEnd(segs[..n], t, k, was);
    }
  }

  /** Points inside an accepted segment lie near its chord, by the configured ratio. */
  lemma InsideIsStraight(pl: seq<Point>, info: seq<Info>, c: Config, s: Segment, k: nat)
    requires Line(pl, info, c) && Accepted(pl, info, c, s) && s.lo < k < s.hi
    ensures k < |pl| && Near(pl, c, s.lo, k, s.dir)
    ensures s.hi >= s.lo + c.groupSize && s.hi <= |pl|
  {
  }

  ghost predicate LabelsAre(labels: seq<Feature>, was: seq<Feature>, segs: seq<Segment>) {
    |labels| == |was| && forall k :: 0 <= k < |was| ==> labels[k] == LabelOf(segs, k, was[k])
  }

  /** One more segment changes only the points from its start to its end. */
  lemma AddSegment(labels: seq<Feature>, now: seq<Feature>, was: seq<Feature>, segs: seq<Segment>, s: Segment)
    requires LabelsAre(labels, was, segs) && |now| == |was|
    requires forall k :: 0 <= k < |was| && (k < s.lo || s.hi < k) ==> now[k] == labels[k]
    requires forall k :: s.lo < k < s.hi && k < |was| ==> now[k] == RealPlane
    requires s.lo < s.hi && (s.hi < |was| ==> now[s.hi] == PossPlane)
    requires s.lo < |was| ==>
      now[s.lo] == if segs != [] && segs[|segs| - 1].hi == s.lo
                   then JointLabel(segs[|segs| - 1].dir, s.dir)
                   else PossPlane
    ensures LabelsAre(now, was, segs + [s])
  {
  }

  /** Labels of one segment; past the end of the line there is nothing to label. */
  method Paint(labels: array<Feature>, lo: nat, hi: nat)
    requires lo < labels.Length && lo < hi <= labels.Length
    modifies labels
    ensures forall k :: 0 <= k < labels.Length && (k < lo || hi < k) ==> labels[k] == old(labels[k])
    ensures forall k :: lo < k < hi ==> labels[k] == RealPlane
    ensures labels[lo] == PossPlane && (hi < labels.Length ==> labels[hi] == PossPlane)
  {
    var j := lo;
    while j <= hi && j < labels.Length
      invariant lo <= j <= hi + 1 && j <= labels.Length
      invariant forall k :: 0 <= k < labels.Length && (k < lo || j <= k) ==> labels[k] == old(labels[k])
      invariant forall k :: lo < k < j && k < hi ==> labels[k] == RealPlane
      invariant j > lo ==> labels[lo] == PossPlane
      invariant j > hi ==> labels[hi] == PossPlane
      decreases hi + 1 - j
    {
      if j != lo && j != hi {
        labels[j] := RealPlane;
      } else {
        labels[j] := PossPlane;
      }
      j := j + 1;
    }
  }

  /** A plane segment's labels, its start set apart when it continues the segment before. */
  method LabelSegment(labels: array<Feature>, s: Segment, continues: bool, lastDir: V3,
                      ghost segs: seq<Segment>, ghost was: seq<Feature>)
    requires s.lo < s.hi <= labels.Length && LabelsAre(labels[..], was, segs)
    requires continues <==> segs != [] && segs[|segs| - 1].hi == s.lo
    requires continues ==> lastDir == segs[|segs| - 1].dir
    modifies labels
    ensures LabelsAre(labels[..], was, segs + [s])
  {
    ghost var before := labels[..];
    Paint(labels, s.lo, s.hi);
    if continues && lastDir != ZERO {
      if Sharp(lastDir, s.dir) {
        labels[s.lo] := EdgePlane;
      } else {
        labels[s.lo] := RealPlane;
      }
    }
    AddSegment(before, labels[..], was, segs, s);
  }

  lemma AppendSegment(pl: seq<Point>, info: seq<Info>, c: Config, segs: seq<Segment>, s: Segment)
    requires Line(pl, info, c) && Segments(pl, info, c, segs) && Accepted(pl, info, c, s)
    requires s.lo < s.hi
    requires segs != [] ==> segs[|segs| - 1].hi <= s.lo
    ensures Segments(pl, info, c, segs + [s])
  {
    hide Judged;
    forall t | 0 <= t < |segs| ensures segs[t].hi <= s.lo {
      if t < |segs| - 1 { assert segs[t].hi <= segs[|segs| - 1].lo; }
    }
  }

  /** Past the fixed group a point belongs to it while it is closer to the first than the configured
      fraction of the first point's range, plus the configured length. */
  lemma ReachIsDistance(pl: seq<Point>, info: seq<Info>, c: Config, i: nat, k: nat, distance: real)
    requires |pl| == |info| && i < |pl| && k < |pl|
    requires distance >= 0.0 && distance * distance == pl[k].pos.Minus(pl[i].pos).Norm2()
    requires c.disA * info[i].range + c.disB > 0.0
    ensures InReach(pl, info, c, i, k) <==> distance < c.disA * info[i].range + c.disB
  {
    hide V3.Norm2, V3.Minus;
    SquareLess(distance, c.disA * info[i].range + c.disB);
  }

  // ---------- Which points are judged ----------

  /** One call of the plane test. */
  datatype Visit = Visit(at: nat, kind: Kind, nex: nat, dir: V3) {
    /** Where the loop goes on: at a segment's end, or past whatever ended the group. */
    function Resume(): nat { if kind == Plane then nex else nex + 1 }
  }

  ghost predicate BlindBetween(info: seq<Info>, c: Config, i: int, j: int) {
    forall k :: i <= k < j && 0 <= k < |info| ==> IsBlind(info, c, k)
  }

  /** Where the loop stands after these visits. */
  function Reached(visits: seq<Visit>): nat {
    if visits == [] then 0 else visits[|visits| - 1].Resume()
  }

  /** Each visit judges the first point outside the blind range from where the one before left off. */
  ghost predicate Visits(pl: seq<Point>, info: seq<Info>, c: Config, visits: seq<Visit>)
    requires Line(pl, info, c)
  {
    forall t :: 0 <= t < |visits| ==>
      var v := visits[t];
      && Reached(visits[..t]) <= v.at && v.at + c.groupSize < |pl|
      && BlindBetween(info, c, Reached(visits[..t]), v.at) && !IsBlind(info, c, v.at)
      && Judged(pl, info, c, v.at, v.kind, v.nex, v.dir)
  }

  /** The segments are the visits judged to be planes. */
  function PlanesOf(visits: seq<Visit>): seq<Segment> {
    if visits == [] then []
    else
      var before, v := PlanesOf(visits[..|visits| - 1]), visits[|visits| - 1];
      if v.kind == Plane then before + [Segment(v.at, v.nex, v.dir)] else before
  }

  lemma AppendVisit(pl: seq<Point>, info: seq<Info>, c: Config, visits: seq<Visit>, v: Visit)
    requires Line(pl, info, c) && Visits(pl, info, c, visits)
    requires Reached(visits) <= v.at && v.at + c.groupSize < |pl|
    requires BlindBetween(info, c, Reached(visits), v.at) && !IsBlind(info, c, v.at)
    requires Judged(pl, info, c, v.at, v.kind, v.nex, v.dir)
    ensures Visits(pl, info, c, visits + [v])
    ensures Reached(visits + [v]) == v.Resume()
    ensures PlanesOf(visits + [v]) ==
            PlanesOf(visits) + if v.kind == Plane then [Segment(v.at, v.nex, v.dir)] else []
  {
    hide Judged, BlindBetween;
    var all := visits + [v];
    assert all[..|visits|] == visits;
    forall t | 0 <= t < |visits| ensures all[..t] == visits[..t] && all[t] == visits[t] { }
  }

  /** Where the judging goes on: at the first point outside the blind range from the end of a plane,
      or from the point after whatever ended a group that is none. */
  lemma NextVisit(pl: seq<Point>, info: seq<Info>, c: Config, visits: seq<Visit>, t: nat)
    requires Line(pl, info, c) && Visits(pl, info, c, visits) && t < |visits|
    ensures var start := if t == 0 then 0
                         else if visits[t - 1].kind == Plane then visits[t - 1].nex
                         else visits[t - 1].nex + 1;
            && start <= visits[t].at < |info| && info[visits[t].at].range >= c.blind
            && forall k :: start <= k < visits[t].at ==> info[k].range < c.blind
  {
    hide Judged;
    var v, start := visits[t], Reached(visits[..t]);
    assert t > 0 ==> visits[..t][|visits[..t]| - 1] == visits[t - 1];
    assert BlindBetween(info, c, start, v.at) && !IsBlind(info, c, v.at);
    forall k | start <= k < v.at ensures info[k].range < c.blind {
      assert IsBlind(info, c, k);
    }
  }

  /** The loop's index strictly advances, by at least the group size after a plane, and never
      passes the end of the line by more than the step after a group that reached it. */
  lemma JudgedAdvances(pl: seq<Point>, info: seq<Info>, c: Config, v: Visit)
    requires Line(pl, info, c) && v.at + c.groupSize < |pl| && !IsBlind(info, c, v.at)
    requires Judged(pl, info, c, v.at, v.kind, v.nex, v.dir)
    ensures v.at < v.nex <= |pl| && v.at < v.Resume()
    ensures v.kind != Blind ==> v.nex >= v.at + c.groupSize && (v.nex < |pl| ==> !IsBlind(info, c, v.nex))
  {
  }

  /** What the loop keeps: everything judged so far, the labels it has left, and whether index i
      is the end of the segment just found. */
  ghost predicate ScanState(
    pl: seq<Point>, info: seq<Info>, c: Config, labels: seq<Feature>, was: seq<Feature>,
    visits: seq<Visit>, i: nat, continues: bool, lastDir: V3)
    requires Line(pl, info, c)
  {
    var segs := PlanesOf(visits);
    && Visits(pl, info, c, visits)
    && Reached(visits) <= i && BlindBetween(info, c, Reached(visits), i)
    && Segments(pl, info, c, segs) && LabelsAre(labels, was, segs)
    && (segs != [] ==> segs[|segs| - 1].hi <= Reached(visits))
    && (continues <==> segs != [] && segs[|segs| - 1].hi == i)
    && (continues ==> lastDir == segs[|segs| - 1].dir && (i < |pl| ==> !IsBlind(info, c, i)))
  }

  lemma BlindStep(
    pl: seq<Point>, info: seq<Info>, c: Config, labels: seq<Feature>, was: seq<Feature>,
    visits: seq<Visit>, i: nat, continues: bool, lastDir: V3)
    requires Line(pl, info, c) && i < |pl| && IsBlind(info, c, i)
    requires ScanState(pl, info, c, labels, was, visits, i, continues, lastDir)
    ensures ScanState(pl, info, c, labels, was, visits, i + 1, continues, lastDir)
  {
    hide Visits, Segments, LabelsAre, PlanesOf, Reached;
  }

  lemma OtherStep(
    pl: seq<Point>, info: seq<Info>, c: Config, labels: seq<Feature>, was: seq<Feature>,
    visits: seq<Visit>, v: Visit, continues: bool, lastDir: V3)
    requires Line(pl, info, c) && ScanState(pl, info, c, labels, was, visits, v.at, continues, lastDir)
    requires v.at + c.groupSize < |pl| && !IsBlind(info, c, v.at) && v.kind != Plane
    requires Judged(pl, info, c, v.at, v.kind, v.nex, v.dir)
    ensures ScanState(pl, info, c, labels, was, visits + [v], v.nex + 1, false, v.dir)
  {
    hide Judged, Segments, LabelsAre, PlanesOf;
    JudgedAdvances(pl, info, c, v);
    AppendVisit(pl, info, c, visits, v);
    assert PlanesOf(visits) + [] == PlanesOf(visits);
  }

  lemma PlaneStep(
    pl: seq<Point>, info: seq<Info>, c: Config, before: seq<Feature>, labels: seq<Feature>, was: seq<Feature>,
    visits: seq<Visit>, v: Visit, continues: bool, lastDir: V3)
    requires Line(pl, info, c) && ScanState(pl, info, c, before, was, visits, v.at, continues, lastDir)
    requires v.at + c.groupSize < |pl| && !IsBlind(info, c, v.at) && v.kind == Plane
    requires Judged(pl, info, c, v.at, v.kind, v.nex, v.dir)
    requires LabelsAre(labels, was, PlanesOf(visits) + [Segment(v.at, v.nex, v.dir)])
    ensures ScanState(pl, info, c, labels, was, visits + [v], v.nex, true, v.dir)
  {
    hide Judged, LabelsAre, PlanesOf, Visits;
    JudgedAdvances(pl, info, c, v);
    AppendVisit(pl, info, c, visits, v);
    PlaneAccepted(pl, info, c, Segment(v.at, v.nex, v.dir));
    AppendSegment(pl, info, c, PlanesOf(visits), Segment(v.at, v.nex, v.dir));
  }

  /** The pass over one line. Some point must be outside the blind range. */
  method Scan(pl: seq<Point>, info: seq<Info>, c: Config, labels: array<Feature>)
    returns (ghost visits: seq<Visit>)
    requires Line(pl, info, c) && labels.Length == |pl|
    requires exists k :: 0 <= k < |pl| && !IsBlind(info, c, k)
    modifies labels
    ensures Visits(pl, info, c, visits)
    ensures BlindBetween(info, c, Reached(visits), |pl| - c.groupSize)
    ensures Segments(pl, info, c, PlanesOf(visits))
    ensures LabelsAre(labels[..], old(labels[..]), PlanesOf(visits))
  {
    hide Judged, Visits, Segments, BlindBetween, InOrder;
    ghost var was := labels[..];
    visits := [];
    var head := FindHead(info, c);
    var n := |pl|;
    var last := if n > c.groupSize then n - c.groupSize else 0;
    var continues, lastDir, i: nat := false, ZERO, head;
    assert ScanState(pl, info, c, labels[..], was, visits, i, continues, lastDir) by {
      StartState(pl, info, c, was, head);
    }
    while i < last
      invariant ScanState(pl, info, c, labels[..], was, visits, i, continues, lastDir)
      decreases last - i
    {
      if info[i].range < c.blind {
        BlindStep(pl, info, c, labels[..], was, visits, i, continues, lastDir);
        i := i + 1;
        continue;
      }
      var kind, nex, dir := Judge(pl, info, c, i);
      ghost var v, before := Visit(i, kind, nex, dir), labels[..];
      JudgedAdvances(pl, info, c, v);
      if kind == Plane {
        LabelSegment(labels, Segment(i, nex, dir), continues, lastDir, PlanesOf(visits), was);
        PlaneStep(pl, info, c, before, labels[..], was, visits, v, continues, lastDir);
        i := nex - 1;
        continues := true;
      } else {
        OtherStep(pl, info, c, before, was, visits, v, continues, lastDir);
        i := nex;
        continues := false;
      }
      visits := visits + [v];
      lastDir := dir;
      i := i + 1;
    }
    BlindPrefix(info, c, Reached(visits), i, |pl| - c.groupSize);
  }

  lemma StartState(pl: seq<Point>, info: seq<Info>, c: Config, was: seq<Feature>, head: nat)
    requires Line(pl, info, c) && BlindBetween(info, c, 0, head)
    ensures ScanState(pl, info, c, was, was, [], head, false, ZERO)
  {
  }

  /** The first point outside the blind range. */
  method FindHead(info: seq<Info>, c: Config) returns (head: nat)
    requires exists k :: 0 <= k < |info| && !IsBlind(info, c, k)
    ensures head < |info| && !IsBlind(info, c, head) && BlindBetween(info, c, 0, head)
  {
    ghost var open :| 0 <= open < |info| && !IsBlind(info, c, open);
    head := 0;
    while info[head].range < c.blind
      invariant 0 <= head <= open && BlindBetween(info, c, 0, head)
      decreases open - head
    {
      head := head + 1;
    }
  }

  lemma PlaneAccepted(pl: seq<Point>, info: seq<Info>, c: Config, s: Segment)
    requires Line(pl, info, c) && s.lo + c.groupSize < |pl| && Judged(pl, info, c, s.lo, Plane, s.hi, s.dir)
    ensures Accepted(pl, info, c, s)
  {
  }

  lemma BlindPrefix(info: seq<Info>, c: Config, a: int, i: int, j: int)
    requires BlindBetween(info, c, a, i) && (j <= i || j <= 0)
    ensures BlindBetween(info, c, a, j)
  {
  }
}
