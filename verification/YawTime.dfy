/** Time offsets for a spinning LiDAR that sends none: each ring's points are dated from the angle
    the ring has turned since its first point. Angles are in degrees, times in milliseconds. */
module YawTime {
  import opened Reals
  import opened Sensors

  /** One raw return; `yaw` is the bearing of `pos` seen from the sensor. */
  datatype Return = Return(ring: nat, yaw: real, pos: V3, intensity: real)

  /** The returns of one ring, in order of arrival. */
  function Ring(rs: seq<Return>, r: nat): seq<Return> {
    if rs == [] then []
    else
      var before := Ring(rs[..|rs| - 1], r);
      if rs[|rs| - 1].ring == r then before + [rs[|rs| - 1]] else before
  }

  /** A return is in its ring, behind those of the ring that came before it. */
  lemma {:induction false} RingHolds(rs: seq<Return>, i: nat)
    requires i < |rs|
    ensures var (ring, before) := (Ring(rs, rs[i].ring), Ring(rs[..i], rs[i].ring));
            |before| < |ring| && ring[..|before|] == before && ring[|before|] == rs[i]
  {
    var n := |rs| - 1;
    if i < n {
      RingHolds(rs[..n], i);
      assert rs[..n][..i] == rs[..i];
    }
  }

  /** And a ring holds nothing else. */
  lemma {:induction false} RingHoldsOnly(rs: seq<Return>, r: nat, j: nat) returns (i: nat)
    requires j < |Ring(rs, r)|
    ensures i < |rs| && rs[i].ring == r && rs[i] == Ring(rs, r)[j] && |Ring(rs[..i], r)| == j
  {
    var n := |rs| - 1;
    if j < |Ring(rs[..n], r)| {
      i := RingHoldsOnly(rs[..n], r, j);
      assert rs[..n][..i] == rs[..i];
    } else {
      i := n;
    }
  }

  function Behind(first: real, yaw: real): real {
    if yaw <= first then first - yaw else first - yaw + 360.0
  }

  /** The time given to the last return of a ring. */
  function Offset(ring: seq<Return>, w: real): real
    requires ring != [] && w > 0.0
  {
    if |ring| == 1 then 0.0
    else
      var t := Ratio(Behind(ring[0].yaw, ring[|ring| - 1].yaw), w);
      if t < Offset(ring[..|ring| - 1], w) then t + Ratio(360.0, w) else t
  }

  function Dated(r: Return, t: real): Point { Point(r.pos, r.intensity, t) }

  /** The line a ring leaves: every return but its first, dated. */
  function Line(ring: seq<Return>, w: real): seq<Point>
    requires w > 0.0
  {
    if |ring| <= 1 then []
    else Line(ring[..|ring| - 1], w) + [Dated(ring[|ring| - 1], Offset(ring, w))]
  }

  /** Every return of a ring but the first is kept, in order, in its place and with its brightness,
      its time in the field the rest of the program reads it from. */
  lemma {:induction false} LineAt(ring: seq<Return>, w: real, k: nat)
    requires w > 0.0 && 0 < k < |ring|
    ensures |Line(ring, w)| == |ring| - 1
    ensures var p := Line(ring, w)[k - 1];
            p.pos == ring[k].pos && p.intensity == ring[k].intensity && p.curvature == Offset(ring[..k + 1], w)
  {
    if k < |ring| - 1 {
      LineAt(ring[..|ring| - 1], w, k);
      assert ring[..|ring| - 1][..k + 1] == ring[..k + 1];
    } else {
      assert ring[..k + 1] == ring;
      if k > 1 { LineAt(ring[..k], w, k - 1); }
    }
  }

  // ---------- What the times mean when the ring only turns one way ----------

  predicate Bearing(yaw: real) { -180.0 < yaw <= 180.0 }

  function Turns(m: int): real { 360.0 * (m as real) }

  /** `yaw` is what is seen of a ring that started at `first` and has turned by `swept`. */
  ghost predicate Sees(first: real, swept: real, yaw: real) {
    exists turns: int :: yaw == first - swept + Turns(turns)
  }

  /** The ring turns by swept[k] between its first return and return k, never backwards. */
  ghost predicate Sweep(ring: seq<Return>, swept: seq<real>) {
    && |ring| == |swept| > 0 && swept[0] == 0.0
    && (forall k :: 0 <= k < |ring| ==> Bearing(ring[k].yaw) && Sees(ring[0].yaw, swept[k], ring[k].yaw))
    && (forall k :: 0 < k < |swept| ==> swept[k - 1] <= swept[k])
  }

  ghost predicate Exact(ring: seq<Return>, swept: seq<real>, w: real, k: nat)
    requires k < |ring| == |swept| && w > 0.0
  {
    Offset(ring[..k + 1], w) == Ratio(swept[k], w)
  }

  /** What a caller can check of the motion: under two turns, and no step of a whole turn. */
  ghost predicate Slow(swept: seq<real>) {
    && (forall k :: 0 <= k < |swept| ==> swept[k] < 720.0)
    && (forall k :: 0 < k < |swept| ==> swept[k] - swept[k - 1] < 360.0)
  }

  lemma RatioIsMonotone(a: real, b: real, w: real)
    requires w > 0.0
    ensures Ratio(a, w) < Ratio(b, w) <==> a < b
    ensures Ratio(a, w) == Ratio(b, w) <==> a == b
    ensures Ratio(a, w) + Ratio(b, w) == Ratio(a + b, w)
  {
  }

  /** The angle measured back from the first return is the swept angle less whole turns. */
  lemma BehindIsRemainder(first: real, swept: real, yaw: real)
    requires Bearing(first) && Bearing(yaw) && Sees(first, swept, yaw)
    ensures 0.0 <= Behind(first, yaw) < 360.0
    ensures exists turns: int :: swept == Behind(first, yaw) + Turns(turns)
  {
    var m: int :| yaw == first - swept + Turns(m);
    if yaw <= first {
      assert swept == Behind(first, yaw) + Turns(m);
    } else {
      assert swept == Behind(first, yaw) + Turns(m - 1);
    }
  }

  /** One return, dated after one that was dated exactly. */
  lemma OneReturn(first: real, yaw: real, before: real, swept: real, w: real)
    requires Bearing(first) && Bearing(yaw) && Sees(first, swept, yaw) && w > 0.0 && 0.0 <= before <= swept
    ensures var t := Ratio(Behind(first, yaw), w);
            var dated := if t < Ratio(before, w) then t + Ratio(360.0, w) else t;
            dated == Ratio(swept, w) <==> swept < 720.0 && swept - before < 360.0
  {
    hide Ratio, Behind, Sees;
    var b := Behind(first, yaw);
    BehindIsRemainder(first, swept, yaw);
    var m: int :| swept == b + Turns(m);
    RatioIsMonotone(b, before, w);
    RatioIsMonotone(b, 360.0, w);
    RatioIsMonotone(b, swept, w);
    RatioIsMonotone(b + 360.0, swept, w);
    if m <= 0 {
      assert m == 0 || swept < 0.0;
    } else if m == 1 {
    } else {
      assert Turns(m) >= 720.0;
    }
  }

  lemma SweptIsPositive(ring: seq<Return>, swept: seq<real>, k: nat)
    requires Sweep(ring, swept) && k < |swept|
    ensures swept[k] >= 0.0
  {
    if k > 0 { SweptIsPositive(ring, swept, k - 1); }
  }

  /** A return after one dated exactly is dated exactly just under these conditions. */
  lemma NextReturn(ring: seq<Return>, swept: seq<real>, w: real, k: nat)
    requires Sweep(ring, swept) && w > 0.0 && 0 < k < |ring| && Exact(ring, swept, w, k - 1)
    ensures Exact(ring, swept, w, k) <==> swept[k] < 720.0 && swept[k] - swept[k - 1] < 360.0
  {
    hide Ratio, Behind, Sees;
    SweptIsPositive(ring, swept, k - 1);
    OneReturn(ring[0].yaw, ring[k].yaw, swept[k - 1], swept[k], w);
    assert ring[..k + 1][..k] == ring[..k];
  }

  /** The rebuilt times of a ring are exact throughout if and only if it turns by less than two
      turns in all and by less than one between any two returns. */
  lemma {:induction false} TimesAreExactIff(ring: seq<Return>, swept: seq<real>, w: real)
    requires Sweep(ring, swept) && w > 0.0
    ensures (forall k :: 0 <= k < |ring| ==> Exact(ring, swept, w, k)) <==> Slow(swept)
  {
    hide Sweep, Exact;
    FirstIsExact(ring, swept, w);
    if forall k :: 0 <= k < |ring| ==> Exact(ring, swept, w, k) {
      forall k | 0 < k < |ring| ensures swept[k] < 720.0 && swept[k] - swept[k - 1] < 360.0 {
        assert Exact(ring, swept, w, k - 1);
        NextReturn(ring, swept, w, k);
      }
    }
    if Slow(swept) {
      forall k | 0 <= k < |ring| ensures Exact(ring, swept, w, k) { SlowIsExact(ring, swept, w, k); }
    }
  }

  lemma FirstIsExact(ring: seq<Return>, swept: seq<real>, w: real)
    requires Sweep(ring, swept) && w > 0.0
    ensures |ring| == |swept| > 0 && Exact(ring, swept, w, 0) && swept[0] == 0.0
  {
  }

  lemma {:induction false} SlowIsExact(ring: seq<Return>, swept: seq<real>, w: real, k: nat)
    requires Sweep(ring, swept) && w > 0.0 && k < |ring| && Slow(swept)
    ensures Exact(ring, swept, w, k)
  {
    if k == 0 {
      FirstIsExact(ring, swept, w);
    } else {
      SlowIsExact(ring, swept, w, k - 1);
      NextReturn(ring, swept, w, k);
    }
  }

  /** So the times of a slow ring never go back. */
  lemma TimesNeverGoBack(ring: seq<Return>, swept: seq<real>, w: real, k: nat)
    requires Sweep(ring, swept) && w > 0.0 && Slow(swept) && 0 < k < |ring|
    ensures Offset(ring[..k], w) <= Offset(ring[..k + 1], w)
  {
    SlowIsExact(ring, swept, w, k - 1);
    SlowIsExact(ring, swept, w, k);
    RatioIsMonotone(swept[k], swept[k - 1], w);
  }

  // ---------- The loop over the returns of a scan ----------

  ghost predicate RingState(ring: seq<Return>, w: real, isFirst: bool, first: real, last: real, line: seq<Point>)
    requires w > 0.0
  {
    && (isFirst <==> ring == [])
    && (ring != [] ==> first == ring[0].yaw && last == Offset(ring, w))
    && line == Line(ring, w)
  }

  lemma RingStarts(ring: seq<Return>, r: Return, w: real, first: real, last: real, line: seq<Point>)
    requires w > 0.0 && RingState(ring, w, true, first, last, line)
    ensures RingState(ring + [r], w, false, r.yaw, 0.0, line)
  {
  }

  lemma RingGrows(ring: seq<Return>, r: Return, w: real, first: real, last: real, line: seq<Point>, t: real)
    requires w > 0.0 && RingState(ring, w, false, first, last, line)
    requires var b := Ratio(Behind(first, r.yaw), w); t == if b < last then b + Ratio(360.0, w) else b
    ensures RingState(ring + [r], w, false, first, t, line + [Dated(r, t)])
  {
  }

  lemma RingOfNext(rs: seq<Return>, i: nat, r: nat)
    requires i < |rs|
    ensures Ring(rs[..i + 1], r) == if rs[i].ring == r then Ring(rs[..i], r) + [rs[i]] else Ring(rs[..i], r)
  {
    assert rs[..i + 1][..i] == rs[..i];
  }

  /** Dates the returns and sorts them into one line per ring; rings from `count` on are dropped. */
  method Rebuild(rs: seq<Return>, count: nat, w: real) returns (lines: seq<seq<Point>>)
    requires w > 0.0
    ensures |lines| == count
    ensures forall r :: 0 <= r < count ==> lines[r] == Line(Ring(rs, r), w)
  {
    hide Ring, RingState, Line, Offset;
    var isFirst := new bool[count](_ => true);
    var yawFp := new real[count](_ => 0.0);
    var timeLast := new real[count](_ => 0.0);
    var buff := new seq<Point>[count](_ => []);
    assert rs[..0] == [];
    NothingYet(w);
    for i := 0 to |rs|
      invariant forall r :: 0 <= r < count ==>
                  RingState(Ring(rs[..i], r), w, isFirst[r], yawFp[r], timeLast[r], buff[r])
    {
      forall r: nat { RingOfNext(rs, i, r); }
      var layer := rs[i].ring;
      if layer >= count { continue; }
      ghost var ring := Ring(rs[..i], layer);
      var yaw := rs[i].yaw;
      if isFirst[layer] {
        RingStarts(ring, rs[i], w, yawFp[layer], timeLast[layer], buff[layer]);
        yawFp[layer] := yaw;
        isFirst[layer] := false;
        timeLast[layer] := 0.0;
        continue;
      }
      var t: real;
      if yaw <= yawFp[layer] {
        t := (yawFp[layer] - yaw) / w;
      } else {
        t := (yawFp[layer] - yaw + 360.0) / w;
      }
      if t < timeLast[layer] { t := t + 360.0 / w; }
      RingGrows(ring, rs[i], w, yawFp[layer], timeLast[layer], buff[layer], t);
      timeLast[layer] := t;
      buff[layer] := buff[layer] + [Dated(rs[i], t)];
    }
    assert rs[..|rs|] == rs;
    forall r | 0 <= r < count ensures buff[r] == Line(Ring(rs, r), w) {
      LineIsReady(Ring(rs, r), w, isFirst[r], yawFp[r], timeLast[r], buff[r]);
    }
    lines := buff[..];
  }

  lemma LineIsReady(ring: seq<Return>, w: real, isFirst: bool, first: real, last: real, line: seq<Point>)
    requires w > 0.0 && RingState(ring, w, isFirst, first, last, line)
    ensures line == Line(ring, w)
  {
  }

  lemma NothingYet(w: real)
    requires w > 0.0
    ensures forall r: nat :: RingState(Ring([], r), w, true, 0.0, 0.0, [])
  {
  }
}
