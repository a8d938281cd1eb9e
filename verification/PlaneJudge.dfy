/** Deciding whether the points after a start point form a plane segment: how far the group
    reaches, how straight it is, and how evenly its points are spaced. */
module PlaneJudge {
  import opened Sensors

  /** What is known of a point besides its position: horizontal range, and the gap to the next. */
  datatype Info = Info(range: real, dista: real)

  datatype Config = Config(
    groupSize: nat,
    blind: real,
    disA: real,
    disB: real,
    p2lRatio: real,
    avia: bool,
    limitMaxMid: real,
    limitMidMin: real,
    limitMaxMin: real)

  datatype Kind = NotPlane | Plane | Blind

  const ZERO := V3(0.0, 0.0, 0.0)

  /** One scan line. */
  ghost predicate Line(pl: seq<Point>, info: seq<Info>, c: Config) {
    |pl| == |info| && c.groupSize >= 4 && c.p2lRatio > 0.0
  }

  function Chord(pl: seq<Point>, i: nat, k: nat): V3
    requires i < |pl| && k < |pl|
  {
    pl[k].pos.Minus(pl[i].pos)
  }

  /** The squared distance up to which the group keeps growing. */
  function GroupReach(info: seq<Info>, c: Config, i: nat): real
    requires i < |info|
  {
    var d := c.disA * info[i].range + c.disB;
    d * d
  }

  // ---------- How far the group reaches ----------

  predicate IsBlind(info: seq<Info>, c: Config, k: nat)
    requires k < |info|
  {
    info[k].range < c.blind
  }

  predicate InReach(pl: seq<Point>, info: seq<Info>, c: Config, i: nat, k: nat)
    requires |pl| == |info| && i < |pl| && k < |pl|
  {
    Chord(pl, i, k).Norm2() < GroupReach(info, c, i)
  }

  /** From i up to nex nothing is blind, and past the fixed group everything is in reach. */
  ghost predicate Group(pl: seq<Point>, info: seq<Info>, c: Config, i: nat, nex: nat)
    requires Line(pl, info, c)
  {
    && i < |pl| && i <= nex <= |pl|
    && (forall k :: i <= k < nex ==> !IsBlind(info, c, k))
    && (forall k :: i + c.groupSize <= k < nex ==> InReach(pl, info, c, i, k))
  }

  /** The group cannot be continued at nex. */
  ghost predicate GroupEnds(pl: seq<Point>, info: seq<Info>, c: Config, i: nat, nex: nat)
    requires Line(pl, info, c) && i < |pl|
  {
    && i + c.groupSize <= nex <= |pl|
    && (nex < |pl| ==> !IsBlind(info, c, nex) && !InReach(pl, info, c, i, nex))
  }

  // ---------- How straight it is ----------

  /** The chord runs to the point that ended the group, or to the last point of the line. */
  function ChordEnd(n: nat, nex: nat): nat
    requires n > 0
  {
    if nex < n then nex else n - 1
  }

  /** Every point between lies near the chord: p2l · |(p_j − p_i) × v|² <= |v|⁴. */
  ghost predicate Straight(pl: seq<Point>, c: Config, i: nat, nex: nat, v: V3)
    requires i < nex <= |pl|
  {
    forall j :: i < j < nex ==> Near(pl, c, i, j, v)
  }

  predicate Near(pl: seq<Point>, c: Config, i: nat, j: nat, v: V3)
    requires i < |pl| && j < |pl|
  {
    c.p2lRatio * Chord(pl, i, j).Cross(v).Norm2() <= v.Norm2() * v.Norm2()
  }

  /** With the ratio 225 that is: within a fifteenth of the chord's length from its line. */
  lemma NearIsAFifteenth(pl: seq<Point>, c: Config, i: nat, j: nat, v: V3)
    requires i < |pl| && j < |pl| && c.p2lRatio == 225.0 && v.Norm2() > 0.0
    ensures var distance2 := Chord(pl, i, j).Cross(v).Norm2() / v.Norm2();
            Near(pl, c, i, j, v) <==> 15.0 * 15.0 * distance2 <= v.Norm2()
  {
    hide V3.Norm2, V3.Cross, Chord;
    FifteenthIff(Chord(pl, i, j).Cross(v).Norm2(), v.Norm2());
  }

  lemma FifteenthIff(width: real, two: real)
    requires two > 0.0
    ensures 225.0 * width <= two * two <==> 15.0 * 15.0 * (width / two) <= two
  {
    var d := width / two;
    assert d * two == width;
    assert 225.0 * width == (225.0 * d) * two;
    if 225.0 * d <= two {
      assert (two - 225.0 * d) * two >= 0.0;
    } else {
      assert (225.0 * d - two) * two > 0.0;
    }
  }

  // ---------- How evenly it is spaced ----------

  function Gaps(info: seq<Info>, i: nat, nex: nat): (r: seq<real>)
    requires i <= nex <= |info|
    ensures |r| == nex - i
  {
    seq(nex - i, k requires 0 <= k < nex - i => info[i + k].dista)
  }

  ghost predicate Descending(s: seq<real>) {
    forall j, k :: 0 <= j < k < |s| ==> s[j] >= s[k]
  }

  ghost predicate SortOf(d: seq<real>, s: seq<real>) {
    Descending(d) && multiset(d) == multiset(s)
  }

  /** The gap test on the sorted gaps. */
  predicate EvenSorted(d: seq<real>, c: Config)
    requires |d| >= 2
  {
    var n := |d|;
    && d[n - 2] >= 0.0000000000000001
    && if c.avia then
         && d[n / 2] > 0.0
         && d[0] / d[n / 2] < c.limitMaxMid && d[n / 2] / d[n - 2] < c.limitMidMin
       else d[0] / d[n - 2] < c.limitMaxMin
  }

  ghost predicate Even(gaps: seq<real>, c: Config)
    requires |gaps| >= 2
  {
    exists d: seq<real> :: |d| == |gaps| && SortOf(d, gaps) && EvenSorted(d, c)
  }

  /** There is only one descending order of the same gaps. */
  lemma {:induction false} SortUnique(d: seq<real>, e: seq<real>)
    requires Descending(d) && Descending(e) && multiset(d) == multiset(e)
    ensures d == e
    decreases |d|
  {
    assert |d| == |multiset(d)| == |multiset(e)| == |e|;
    if d != [] {
      FirstIsLargest(d, e);
      FirstIsLargest(e, d);
      TailMultiset(d); TailMultiset(e);
      SortUnique(d[1..], e[1..]);
      assert d == [d[0]] + d[1..] && e == [e[0]] + e[1..];
    }
  }

  lemma FirstIsLargest(d: seq<real>, e: seq<real>)
    requires Descending(d) && multiset(d) == multiset(e) && d != [] && e != []
    ensures d[0] >= e[0]
  {
    assert e[0] in multiset(e);
    assert e[0] in multiset(d);
    var k :| 0 <= k < |d| && d[k] == e[0];
    if k > 0 { assert d[0] >= d[k]; }
  }

  lemma TailMultiset(d: seq<real>)
    requires d != []
    ensures multiset(d[1..]) == multiset(d) - multiset{d[0]}
  {
    assert d == [d[0]] + d[1..];
  }

  /** Any descending permutation gives the verdict. */
  lemma EvenIff(gaps: seq<real>, d: seq<real>, c: Config)
    requires |gaps| >= 2 && SortOf(d, gaps)
    ensures |d| == |gaps| && (Even(gaps, c) <==> EvenSorted(d, c))
  {
    assert |d| == |multiset(d)| == |multiset(gaps)| == |gaps|;
    if Even(gaps, c) {
      var e: seq<real> :| |e| == |gaps| && SortOf(e, gaps) && EvenSorted(e, c);
      SortUnique(d, e);
    }
  }

  /** The verdict does not depend on the order of the gaps. */
  lemma EvenIgnoresOrder(a: seq<real>, b: seq<real>, c: Config)
    requires |a| >= 2 && |b| >= 2 && multiset(a) == multiset(b)
    ensures Even(a, c) <==> Even(b, c)
  {
  }

  // ---------- The exchange sort ----------

  /** The first j places hold the largest values, in order. */
  ghost predicate Placed(s: seq<real>, j: nat) {
    && j <= |s|
    && (forall a, b :: 0 <= a < j && a < b < |s| ==> s[a] >= s[b])
  }

  lemma SwapMultiset(s: seq<real>, j: nat, k: nat)
    requires j < k < |s|
    ensures multiset(s[j := s[k]][k := s[j]]) == multiset(s)
  {
  }

  lemma SwapKeepsPlaced(s: seq<real>, j: nat, k: nat)
    requires Placed(s, j) && j < k < |s|
    ensures Placed(s[j := s[k]][k := s[j]], j)
  {
  }

  /** The hand-written sort. */
  method ExchangeSort(d: array<real>)
    requires d.Length >= 1
    modifies d
    ensures SortOf(d[..], old(d[..]))
  {
    for j := 0 to d.Length - 1
      invariant Placed(d[..], j)
      invariant multiset(d[..]) == multiset(old(d[..]))
    {
      BringLargest(d, j);
    }
  }

  /** One turn of the outer loop brings the largest of the rest to its place. */
  method BringLargest(d: array<real>, j: nat)
    requires j < d.Length && Placed(d[..], j)
    modifies d
    ensures Placed(d[..], j + 1) && multiset(d[..]) == multiset(old(d[..]))
  {
    hide Placed;
    for k := j + 1 to d.Length
      invariant Placed(d[..], j) && LargestAt(d[..], j, k)
      invariant multiset(d[..]) == multiset(old(d[..]))
    {
      ghost var was := d[..];
      if d[j] < d[k] {
        SwapMultiset(was, j, k);
        SwapKeepsPlaced(was, j, k);
        SwapKeepsLargest(was, j, k);
        Swap(d, j, k);
      }
    }
    LargestPlaced(d[..], j);
  }

  /** Entry j is no smaller than those behind it and before k. */
  ghost predicate LargestAt(s: seq<real>, j: nat, k: nat) {
    j < k <= |s| && forall b :: j < b < k ==> s[j] >= s[b]
  }

  lemma SwapKeepsLargest(s: seq<real>, j: nat, k: nat)
    requires k < |s| && LargestAt(s, j, k) && s[j] < s[k]
    ensures LargestAt(s[j := s[k]][k := s[j]], j, k + 1)
  {
  }

  method Swap(d: array<real>, j: nat, k: nat)
    requires j < k < d.Length
    modifies d
    ensures d[..] == old(d[..])[j := old(d[k])][k := old(d[j])]
  {
    var t := d[j];
    d[j] := d[k];
    d[k] := t;
  }

  lemma LargestPlaced(s: seq<real>, j: nat)
    requires Placed(s, j) && LargestAt(s, j, |s|)
    ensures Placed(s, j + 1)
  {
  }

  // ---------- The verdict ----------

  /** What the verdict means. The direction is the chord itself, to be normalised. */
  ghost predicate Judged(pl: seq<Point>, info: seq<Info>, c: Config, i: nat, kind: Kind, nex: nat, dir: V3)
    requires Line(pl, info, c) && i + c.groupSize < |pl|
  {
    && (kind == Blind ==>
          Group(pl, info, c, i, nex) && nex < |pl| && IsBlind(info, c, nex) && dir == ZERO)
    && (kind != Blind ==>
          && Group(pl, info, c, i, nex) && GroupEnds(pl, info, c, i, nex)
          && var v := Chord(pl, i, ChordEnd(|pl|, nex));
             && (kind == Plane <==> Straight(pl, c, i, nex, v) && Even(Gaps(info, i, nex), c))
             && dir == if kind == Plane then v else ZERO)
  }

  /** What an accepted group is, point by point: none of it blind, its far part within reach, the
      point that ended it out of reach, and the direction from its first point to that one, or to
      the last of the line. */
  lemma PlaneMeans(pl: seq<Point>, info: seq<Info>, c: Config, i: nat, nex: nat, dir: V3, k: nat)
    requires Line(pl, info, c) && i + c.groupSize < |pl| && Judged(pl, info, c, i, Plane, nex, dir)
    ensures i + c.groupSize <= nex <= |pl|
    ensures i <= k < nex ==> info[k].range >= c.blind
    ensures i + c.groupSize <= k < nex ==> InReach(pl, info, c, i, k)
    ensures nex < |pl| ==> info[nex].range >= c.blind && !InReach(pl, info, c, i, nex)
    ensures dir == pl[if nex < |pl| then nex else |pl| - 1].pos.Minus(pl[i].pos)
  {
    hide InReach, Straight, Even;
    if i <= k < nex { assert !IsBlind(info, c, k); }
  }

  /** How the group grows: the fixed part, then as long as points stay in reach. */
  method FindGroup(pl: seq<Point>, info: seq<Info>, c: Config, i: nat) returns (blind: bool, nex: nat, gaps: seq<real>)
    requires Line(pl, info, c) && i + c.groupSize < |pl|
    ensures Group(pl, info, c, i, nex)
    ensures blind ==> nex < |pl| && IsBlind(info, c, nex)
    ensures !blind ==> GroupEnds(pl, info, c, i, nex) && gaps == Gaps(info, i, nex)
  {
    nex, gaps := i, [];
    while nex < i + c.groupSize
      invariant i <= nex <= i + c.groupSize && Group(pl, info, c, i, nex)
      invariant gaps == Gaps(info, i, nex)
    {
      if info[nex].range < c.blind { return true, nex, gaps; }
      gaps := gaps + [info[nex].dista];
      nex := nex + 1;
    }
    var reach := GroupReach(info, c, i);
    while true
      invariant i + c.groupSize <= nex <= |pl| && Group(pl, info, c, i, nex)
      invariant gaps == Gaps(info, i, nex)
      decreases |pl| - nex
    {
      if nex >= |pl| { break; }
      if info[nex].range < c.blind { return true, nex, gaps; }
      if Chord(pl, i, nex).Norm2() >= reach { break; }
      gaps := gaps + [info[nex].dista];
      nex := nex + 1;
    }
    blind := false;
  }

  /** The widest cross product decides; dividing by zero width passes. */
  method IsStraight(pl: seq<Point>, c: Config, i: nat, nex: nat, v: V3) returns (r: bool)
    requires i < nex <= |pl| && c.p2lRatio > 0.0
    ensures r <==> Straight(pl, c, i, nex, v)
  {
    hide Near, V3.Cross, V3.Norm2, Chord;
    var width := 0.0;
    ghost var at: int := i;
    for j := i + 1 to nex
      invariant i <= at < j && width >= 0.0
      invariant forall k :: i < k < j ==> Chord(pl, i, k).Cross(v).Norm2() <= width
      invariant at == i ==> width == 0.0
      invariant at > i ==> width == Chord(pl, i, at).Cross(v).Norm2()
    {
      var w := Chord(pl, i, j).Cross(v).Norm2();
      if w > width { width := w; at := j; }
    }
    var two := v.Norm2();
    r := !(width > 0.0 && two * two / width < c.p2lRatio);
    WidthDecides(two, width, c.p2lRatio);
    if r {
      forall j | i < j < nex ensures Near(pl, c, i, j, v) {
        Wider(c.p2lRatio, Chord(pl, i, j).Cross(v).Norm2(), width);
        NearIs(pl, c, i, j, v);
      }
    } else {
      NearIs(pl, c, i, at, v);
    }
  }

  lemma NearIs(pl: seq<Point>, c: Config, i: nat, j: nat, v: V3)
    requires i < |pl| && j < |pl|
    ensures Near(pl, c, i, j, v) <==> c.p2lRatio * Chord(pl, i, j).Cross(v).Norm2() <= v.Norm2() * v.Norm2()
  {
  }

  lemma WidthDecides(two: real, width: real, ratio: real)
    requires width >= 0.0 && ratio > 0.0
    ensures !(width > 0.0 && two * two / width < ratio) <==> ratio * width <= two * two
  {
    if width > 0.0 {
      RatioLess(two * two, width, ratio);
    } else {
      assert ratio * width == 0.0;
      assert two * two >= 0.0;
    }
  }

  lemma RatioLess(s: real, width: real, ratio: real)
    requires width > 0.0
    ensures s / width < ratio <==> s < ratio * width
  {
  }

  lemma Wider(ratio: real, a: real, b: real)
    requires ratio > 0.0 && a <= b
    ensures ratio * a <= ratio * b
  {
  }

  method IsEven(gaps: seq<real>, c: Config) returns (r: bool)
    requires |gaps| >= 4
    ensures r <==> Even(gaps, c)
  {
    var n := |gaps|;
    var d := new real[n](k requires 0 <= k < n => gaps[k]);
    assert d[..] == gaps;
    ExchangeSort(d);
    EvenIff(gaps, d[..], c);
    if d[n - 2] < 0.0000000000000001 { return false; }
    if c.avia {
      assert d[..][n / 2] >= d[..][n - 2];
      var maxMid, midMin := d[0] / d[n / 2], d[n / 2] / d[n - 2];
      r := !(maxMid >= c.limitMaxMid || midMin >= c.limitMidMin);
    } else {
      r := !(d[0] / d[n - 2] >= c.limitMaxMin);
    }
  }

  /** The whole plane test. */
  method Judge(pl: seq<Point>, info: seq<Info>, c: Config, i: nat) returns (kind: Kind, nex: nat, dir: V3)
    requires Line(pl, info, c) && i + c.groupSize < |pl|
    ensures Judged(pl, info, c, i, kind, nex, dir)
  {
    var blind, gaps;
    blind, nex, gaps := FindGroup(pl, info, c, i);
    if blind { return Blind, nex, ZERO; }
    var v := Chord(pl, i, ChordEnd(|pl|, nex));
    var straight := IsStraight(pl, c, i, nex, v);
    if !straight { return NotPlane, nex, ZERO; }
    var even := IsEven(gaps, c);
    if !even { return NotPlane, nex, ZERO; }
    return Plane, nex, v;
  }
}
