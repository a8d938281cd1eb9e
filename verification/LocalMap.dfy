/** The cube of map that slides with the LiDAR, and the boxes deleted when it moves. */
module LocalMap {
  import opened Reals
  import opened Sensors

  datatype Box = Box(lo: V3, hi: V3) {
    predicate Contains(p: V3) {
      lo.x <= p.x <= hi.x && lo.y <= p.y <= hi.y && lo.z <= p.z <= hi.z
    }
  }

  datatype Config = Config(cube: real, range: real)

  /** How near a face the LiDAR may come before the cube moves. */
  function Margin(c: Config): real { 1.5 * c.range }

  function MoveDistance(c: Config): real {
    Max((c.cube - 2.0 * 1.5 * c.range) * 0.5 * 0.9, c.range * (1.5 - 1.0))
  }

  // ---------- One axis ----------

  datatype Interval = Interval(lo: real, hi: real) {
    predicate Has(x: real) { lo <= x <= hi }
  }

  predicate NearLow(c: Config, i: Interval, p: real) { Abs(p - i.lo) <= Margin(c) }
  predicate NearHigh(c: Config, i: Interval, p: real) { Abs(p - i.hi) <= Margin(c) }

  function Slide(c: Config, i: Interval, p: real): Interval {
    var m := MoveDistance(c);
    if NearLow(c, i, p) then Interval(i.lo - m, i.hi - m)
    else if NearHigh(c, i, p) then Interval(i.lo + m, i.hi + m)
    else i
  }

  /** The part of the interval given up by the slide, if any. */
  function GivenUp(c: Config, i: Interval, p: real): seq<Interval> {
    var m := MoveDistance(c);
    if NearLow(c, i, p) then [Interval(i.hi - m, i.hi)]
    else if NearHigh(c, i, p) then [Interval(i.lo, i.lo + m)]
    else []
  }

  ghost predicate Inside(c: Config, i: Interval, p: real, d: real) {
    i.hi - i.lo == c.cube && p - i.lo >= d && i.hi - p >= d
  }

  ghost predicate Roomy(c: Config) { c.range > 0.0 && c.cube >= 3.5 * c.range }

  predicate InGivenUp(c: Config, i: Interval, p: real, x: real) {
    GivenUp(c, i, p) != [] && GivenUp(c, i, p)[0].Has(x)
  }

  /** One axis, one call: enough room is restored and the length is kept. */
  lemma SlideRestoresMargin(c: Config, i: Interval, p: real)
    requires Roomy(c) && Inside(c, i, p, c.range)
    ensures Inside(c, Slide(c, i, p), p, Margin(c))
  {
  }

  /** The given-up part is at least the margin away from the LiDAR, and is exactly what the
      interval lost. */
  lemma GivenUpIsLost(c: Config, i: Interval, p: real, x: real)
    requires Roomy(c) && Inside(c, i, p, c.range)
    ensures InGivenUp(c, i, p, x) ==>
              && Abs(x - p) >= Margin(c) && i.Has(x)
              && (x <= Slide(c, i, p).lo || x >= Slide(c, i, p).hi)
    ensures i.Has(x) && !Slide(c, i, p).Has(x) ==> InGivenUp(c, i, p, x)
  {
  }

  // ---------- The cube ----------

  function Axis(b: Box, a: nat): Interval { Interval(b.lo.At(a), b.hi.At(a)) }

  function With(v: V3, a: nat, x: real): V3 {
    if a == 0 then V3(x, v.y, v.z) else if a == 1 then V3(v.x, x, v.z) else V3(v.x, v.y, x)
  }

  function WithAxis(b: Box, a: nat, i: Interval): Box {
    Box(With(b.lo, a, i.lo), With(b.hi, a, i.hi))
  }

  function Centred(c: Config, p: V3): Box {
    var h := c.cube / 2.0;
    Box(p.Minus(V3(h, h, h)), p.Plus(V3(h, h, h)))
  }

  function Moved(c: Config, b: Box, p: V3): Box {
    var x, y, z := Slide(c, Axis(b, 0), p.x), Slide(c, Axis(b, 1), p.y), Slide(c, Axis(b, 2), p.z);
    Box(V3(x.lo, y.lo, z.lo), V3(x.hi, y.hi, z.hi))
  }

  /** The box deleted on one axis: the whole old cube but for that axis. */
  function DeletedOn(c: Config, b: Box, p: V3, a: nat): seq<Box> {
    var g := GivenUp(c, Axis(b, a), p.At(a));
    if g == [] then [] else [WithAxis(b, a, g[0])]
  }

  function Deleted(c: Config, b: Box, p: V3): seq<Box> {
    DeletedOn(c, b, p, 0) + DeletedOn(c, b, p, 1) + DeletedOn(c, b, p, 2)
  }

  datatype State = State(initialised: bool, box: Box)

  /** One call: the state after it and the boxes it deletes. */
  function Segment(c: Config, s: State, p: V3): (State, seq<Box>) {
    if !s.initialised then (State(true, Centred(c, p)), [])
    else (s.(box := Moved(c, s.box, p)), Deleted(c, s.box, p))
  }

  /** The cube has its configured side and p is at least d from every face. */
  ghost predicate Within(c: Config, b: Box, p: V3, d: real) {
    forall a :: 0 <= a < 3 ==> Inside(c, Axis(b, a), p.At(a), d)
  }

  /** Distance along the axis where it is largest. */
  function AxisDistance(p: V3, q: V3): real {
    Max(Abs(p.x - q.x), Max(Abs(p.y - q.y), Abs(p.z - q.z)))
  }

  lemma MovedAxis(c: Config, b: Box, p: V3, a: nat)
    requires a < 3
    ensures Axis(Moved(c, b, p), a) == Slide(c, Axis(b, a), p.At(a))
  {
  }

  /** How far one call moves both ends on an axis: by the larger of 0.45 times what the cube has
      beyond three ranges and half a range, away from the face that is within one and a half ranges. */
  lemma AxisMoves(c: Config, b: Box, p: V3, a: nat)
    requires a < 3
    ensures var m := Max(0.45 * (c.cube - 3.0 * c.range), 0.5 * c.range);
            var old', new', x := Axis(b, a), Axis(Segment(c, State(true, b), p).0.box, a), p.At(a);
            if Abs(x - old'.lo) <= 1.5 * c.range then new' == Interval(old'.lo - m, old'.hi - m)
            else if Abs(x - old'.hi) <= 1.5 * c.range then new' == Interval(old'.lo + m, old'.hi + m)
            else new' == old'
  {
    MovedAxis(c, b, p, a);
  }

  /** A cube of side 1000 and a range of 100: it moves by 315. */
  lemma MoveExample(b: Box, p: V3)
    requires Axis(b, 0) == Interval(0.0, 1000.0) && p.x == 150.0
    ensures Axis(Segment(Config(1000.0, 100.0), State(true, b), p).0.box, 0) == Interval(-315.0, 685.0)
  {
    AxisMoves(Config(1000.0, 100.0), b, p, 0);
  }

  /** The first call puts the LiDAR in the middle of a cube of the configured side. */
  lemma FirstCallCentres(c: Config, b: Box, p: V3, a: nat)
    requires a < 3
    ensures var (s, deleted) := Segment(c, State(false, b), p);
            && s.initialised && deleted == []
            && p.At(a) - Axis(s.box, a).lo == Axis(s.box, a).hi - p.At(a)
            && Axis(s.box, a).hi - Axis(s.box, a).lo == c.cube
  {
  }

  /** One call brings the LiDAR back to the full margin on every axis. */
  lemma MarginRestored(c: Config, b: Box, p: V3)
    requires Roomy(c) && Within(c, b, p, c.range)
    ensures Within(c, Moved(c, b, p), p, Margin(c))
  {
    forall a | 0 <= a < 3 ensures Inside(c, Axis(Moved(c, b, p), a), p.At(a), Margin(c)) {
      SlideRestoresMargin(c, Axis(b, a), p.At(a));
      MovedAxis(c, b, p, a);
    }
  }

  lemma DeletedOnIsFar(c: Config, b: Box, p: V3, a: nat, q: V3)
    requires Roomy(c) && Within(c, b, p, c.range) && a < 3
    requires exists d :: d in DeletedOn(c, b, p, a) && d.Contains(q)
    ensures Abs(q.At(a) - p.At(a)) >= Margin(c)
    ensures b.Contains(q)
  {
    GivenUpIsLost(c, Axis(b, a), p.At(a), q.At(a));
    assert InGivenUp(c, Axis(b, a), p.At(a), q.At(a));
  }

  /** No deleted point is near the LiDAR. */
  lemma DeletedIsFar(c: Config, b: Box, p: V3, q: V3)
    requires Roomy(c) && Within(c, b, p, c.range)
    requires exists d :: d in Deleted(c, b, p) && d.Contains(q)
    ensures AxisDistance(q, p) >= Margin(c)
  {
    var d :| d in Deleted(c, b, p) && d.Contains(q);
    if d in DeletedOn(c, b, p, 0) { DeletedOnIsFar(c, b, p, 0, q); }
    else if d in DeletedOn(c, b, p, 1) { DeletedOnIsFar(c, b, p, 1, q); }
    else { DeletedOnIsFar(c, b, p, 2, q); }
  }

  /** What is deleted and what stays together make up the old cube. */
  lemma OldCubeIsCovered(c: Config, b: Box, p: V3, q: V3)
    requires Roomy(c) && Within(c, b, p, c.range) && b.Contains(q)
    ensures Moved(c, b, p).Contains(q) || exists d :: d in Deleted(c, b, p) && d.Contains(q)
  {
    if !Moved(c, b, p).Contains(q) {
      var a: nat := if !OnAxis(c, b, p, q, 0) then 0 else if !OnAxis(c, b, p, q, 1) then 1 else 2;
      assert Axis(b, a).Has(q.At(a)) && !Slide(c, Axis(b, a), p.At(a)).Has(q.At(a));
      GivenUpIsLost(c, Axis(b, a), p.At(a), q.At(a));
      var d := WithAxis(b, a, GivenUp(c, Axis(b, a), p.At(a))[0]);
      assert d in DeletedOn(c, b, p, a);
      assert d in Deleted(c, b, p) && d.Contains(q);
    }
  }

  predicate OnAxis(c: Config, b: Box, p: V3, q: V3, a: nat) {
    Slide(c, Axis(b, a), p.At(a)).Has(q.At(a))
  }

  /** Deleted boxes do not reach inside the new cube. */
  lemma DeletedOutsideNewCube(c: Config, b: Box, p: V3, q: V3)
    requires Roomy(c) && Within(c, b, p, c.range)
    requires exists d :: d in Deleted(c, b, p) && d.Contains(q)
    ensures exists a :: 0 <= a < 3 &&
              (q.At(a) <= Axis(Moved(c, b, p), a).lo || q.At(a) >= Axis(Moved(c, b, p), a).hi)
  {
    var d :| d in Deleted(c, b, p) && d.Contains(q);
    var a: nat := if d in DeletedOn(c, b, p, 0) then 0 else if d in DeletedOn(c, b, p, 1) then 1 else 2;
    GivenUpIsLost(c, Axis(b, a), p.At(a), q.At(a));
    MovedAxis(c, b, p, a);
    assert InGivenUp(c, Axis(b, a), p.At(a), q.At(a));
  }

  // ---------- Whole runs ----------

  function Run(c: Config, path: seq<V3>): State {
    if path == [] then State(false, Box(V3(0.0, 0.0, 0.0), V3(0.0, 0.0, 0.0)))
    else Segment(c, Run(c, path[..|path| - 1]), path[|path| - 1]).0
  }

  /** The boxes the last call of a run deletes. */
  function LastDeleted(c: Config, path: seq<V3>): seq<Box>
    requires path != []
  {
    Segment(c, Run(c, path[..|path| - 1]), path[|path| - 1]).1
  }

  /** Between calls the LiDAR moves at most half the detection range on each axis. */
  ghost predicate Gentle(c: Config, path: seq<V3>) {
    forall k, l :: 0 <= k < l < |path| && l == k + 1 ==> Near(c, path[k], path[l])
  }

  ghost predicate Near(c: Config, p: V3, q: V3) {
    forall a :: 0 <= a < 3 ==> Abs(q.At(a) - p.At(a)) <= 0.5 * c.range
  }

  /** With a roomy cube and a gentle path, after every call the LiDAR is at least 1.5 detection
      ranges inside every face and the cube keeps its side. */
  lemma {:induction false} RunKeepsMargin(c: Config, path: seq<V3>)
    requires Roomy(c) && Gentle(c, path) && path != []
    ensures Run(c, path).initialised && Within(c, Run(c, path).box, path[|path| - 1], Margin(c))
  {
    var before, p := path[..|path| - 1], path[|path| - 1];
    if before == [] {
      assert Run(c, before) == State(false, Box(V3(0.0, 0.0, 0.0), V3(0.0, 0.0, 0.0)));
    } else {
      RunKeepsMargin(c, before);
      RoomBeforeCall(c, path);
      MarginRestored(c, Run(c, before).box, p);
    }
  }

  lemma RoomBeforeCall(c: Config, path: seq<V3>)
    requires Roomy(c) && Gentle(c, path) && |path| >= 2
    requires var before := path[..|path| - 1];
             Run(c, before).initialised && Within(c, Run(c, before).box, path[|path| - 2], Margin(c))
    ensures Within(c, Run(c, path[..|path| - 1]).box, path[|path| - 1], c.range)
  {
  }

  /** And no call ever deletes a map point nearer than 1.5 detection ranges to the LiDAR. */
  lemma RunDeletesOnlyFar(c: Config, path: seq<V3>, q: V3)
    requires Roomy(c) && Gentle(c, path) && path != []
    requires exists d :: d in LastDeleted(c, path) && d.Contains(q)
    ensures AxisDistance(q, path[|path| - 1]) >= Margin(c)
  {
    hide Deleted, AxisDistance, Within;
    var before := path[..|path| - 1];
    if before != [] {
      RunKeepsMargin(c, before);
      RoomBeforeCall(c, path);
      DeletedIsFar(c, Run(c, before).box, path[|path| - 1], q);
    }
  }

  /** Two calls after which a cube that is too small has lost its margin. */
  function BadPath(c: Config): seq<V3> {
    [V3(0.0, 0.0, 0.0), V3(-Max(0.0, c.cube / 2.0 - Margin(c)), 0.0, 0.0)]
  }

  /** A cube shorter than 3.5 detection ranges loses its margin on some gentle path. */
  lemma SmallCubeLosesMargin(c: Config)
    requires c.range > 0.0 && c.cube < 3.5 * c.range
    ensures Gentle(c, BadPath(c))
    ensures var n := if c.cube < 3.0 * c.range then 1 else 2;
            var path := BadPath(c)[..n];
            !Within(c, Run(c, path).box, path[n - 1], Margin(c))
  {
    var o, p := BadPath(c)[0], BadPath(c)[1];
    var first := BadPath(c)[..1];
    assert first == [o] && first[..0] == [];
    assert Run(c, first) == State(true, Centred(c, o));
    assert Axis(Centred(c, o), 0) == Interval(-c.cube / 2.0, c.cube / 2.0);
    if c.cube < 3.0 * c.range {
      assert !Inside(c, Axis(Run(c, first).box, 0), o.At(0), Margin(c));
    } else {
      var path := BadPath(c)[..2];
      assert path == [o, p] && path[..1] == first;
      MovedAxis(c, Centred(c, o), p, 0);
      assert !Inside(c, Axis(Run(c, path).box, 0), p.At(0), Margin(c));
    }
  }

  /** The margin is kept on every gentle path exactly when the side is at least 3.5 detection
      ranges. */
  lemma MarginKeptIff(c: Config)
    requires c.range > 0.0
    ensures c.cube >= 3.5 * c.range <==>
              forall path :: path != [] && Gentle(c, path) ==>
                Within(c, Run(c, path).box, path[|path| - 1], Margin(c))
  {
    if c.cube >= 3.5 * c.range {
      forall path | path != [] && Gentle(c, path)
        ensures Within(c, Run(c, path).box, path[|path| - 1], Margin(c))
      {
        RunKeepsMargin(c, path);
      }
    } else {
      SmallCubeLosesMargin(c);
      var path := BadPath(c)[..if c.cube < 3.0 * c.range then 1 else 2];
      assert path != [] && Gentle(c, path);
    }
  }

  // ---------- The object ----------

  class Mapper {
    const config: Config
    var initialised: bool
    var box: Box
    var toDelete: seq<Box>

    function View(): State
      reads this
    {
      State(initialised, box)
    }

    constructor (config: Config)
      ensures this.config == config && !initialised && toDelete == []
    {
      this.config := config;
      initialised := false;
      box := Box(V3(0.0, 0.0, 0.0), V3(0.0, 0.0, 0.0));
      toDelete := [];
    }

    method SegmentFov(p: V3)
      modifies this
      ensures View() == Segment(config, old(View()), p).0
      ensures toDelete == Segment(config, old(View()), p).1
    {
      toDelete := [];
      if !initialised {
        var h := config.cube / 2.0;
        box := Box(p.Minus(V3(h, h, h)), p.Plus(V3(h, h, h)));
        initialised := true;
        return;
      }
      var needMove := AnyCrossed(config, box, p);
      if !needMove {
        StayPut(config, box, p);
        return;
      }
      box, toDelete := SlideCube(config, box, p);
    }
  }

  /** Whether any face is too near. */
  method AnyCrossed(c: Config, b: Box, p: V3) returns (r: bool)
    ensures r <==> exists a :: 0 <= a < 3 && Crossed(c, b, p, a)
  {
    r := false;
    for a := 0 to 3
      invariant r <==> exists k :: 0 <= k < a && Crossed(c, b, p, k)
    {
      if Crossed(c, b, p, a) { r := true; }
    }
  }

  /** The loop over the three axes. */
  method SlideCube(c: Config, b: Box, p: V3) returns (moved: Box, deleted: seq<Box>)
    ensures moved == Moved(c, b, p) && deleted == Deleted(c, b, p)
  {
    var m := MoveDistance(c);
    moved, deleted := b, [];
    for a := 0 to 3
      invariant forall k :: 0 <= k < a ==> Axis(moved, k) == Slide(c, Axis(b, k), p.At(k))
      invariant forall k :: a <= k < 3 ==> Axis(moved, k) == Axis(b, k)
      invariant deleted == DeletedUpTo(c, b, p, a)
    {
      var i := Axis(b, a);
      SlideAxis(c, b, moved, p, a);
      if NearLow(c, i, p.At(a)) {
        moved := WithAxis(moved, a, Interval(i.lo - m, i.hi - m));
        deleted := deleted + [WithAxis(b, a, Interval(i.hi - m, i.hi))];
      } else if NearHigh(c, i, p.At(a)) {
        moved := WithAxis(moved, a, Interval(i.lo + m, i.hi + m));
        deleted := deleted + [WithAxis(b, a, Interval(i.lo, i.lo + m))];
      }
    }
    SameAxes(moved, Moved(c, b, p), c, b, p);
  }

  lemma SlideAxis(c: Config, b: Box, moved: Box, p: V3, a: nat)
    requires a < 3 && Axis(moved, a) == Axis(b, a)
    ensures var moved' := WithAxis(moved, a, Slide(c, Axis(b, a), p.At(a)));
            && Axis(moved', a) == Slide(c, Axis(b, a), p.At(a))
            && forall k :: 0 <= k < 3 && k != a ==> Axis(moved', k) == Axis(moved, k)
    ensures WithAxis(moved, a, Axis(b, a)) == moved
  {
  }

  predicate Crossed(c: Config, b: Box, p: V3, a: nat) {
    NearLow(c, Axis(b, a), p.At(a)) || NearHigh(c, Axis(b, a), p.At(a))
  }

  function DeletedUpTo(c: Config, b: Box, p: V3, n: nat): seq<Box> {
    if n == 0 then [] else DeletedUpTo(c, b, p, n - 1) + DeletedOn(c, b, p, n - 1)
  }

  lemma StayPut(c: Config, b: Box, p: V3)
    requires forall k :: 0 <= k < 3 ==> !Crossed(c, b, p, k)
    ensures Moved(c, b, p) == b && Deleted(c, b, p) == []
  {
    assert !Crossed(c, b, p, 0) && !Crossed(c, b, p, 1) && !Crossed(c, b, p, 2);
  }

  lemma SameAxes(m: Box, n: Box, c: Config, b: Box, p: V3)
    requires n == Moved(c, b, p)
    requires forall k :: 0 <= k < 3 ==> Axis(m, k) == Slide(c, Axis(b, k), p.At(k))
    ensures m == n
    ensures DeletedUpTo(c, b, p, 3) == Deleted(c, b, p)
  {
    assert Axis(m, 0) == Slide(c, Axis(b, 0), p.At(0));
    assert Axis(m, 1) == Slide(c, Axis(b, 1), p.At(1));
    assert Axis(m, 2) == Slide(c, Axis(b, 2), p.At(2));
    assert DeletedUpTo(c, b, p, 1) == DeletedOn(c, b, p, 0);
    assert DeletedUpTo(c, b, p, 2) == DeletedOn(c, b, p, 0) + DeletedOn(c, b, p, 1);
  }
}
