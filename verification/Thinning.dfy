/** The last pass of feature extraction over one scan line: plane points are thinned to one point
    per chunk, edge points are copied. */
module Thinning {
  import R = Reals
  import opened Sensors
  import S = SurfaceScan

  predicate OnSurface(f: S.Feature) { f == S.PossPlane || f == S.RealPlane }

  predicate OnEdge(f: S.Feature) { f == S.EdgeJump || f == S.EdgePlane }

  /** Consecutive points lo .. hi - 1 that one output point stands for. */
  datatype Chunk = Chunk(lo: nat, hi: nat)

  /** Where the run of plane points that holds i ends. */
  function RunEnd(labels: seq<S.Feature>, i: nat): (e: nat)
    requires i <= |labels|
    ensures i <= e <= |labels|
    ensures forall k :: i <= k < e ==> OnSurface(labels[k])
    ensures e < |labels| ==> !OnSurface(labels[e])
    decreases |labels| - i
  {
    if i < |labels| && OnSurface(labels[i]) then RunEnd(labels, i + 1) else i
  }

  /** Every run of plane points cut from its start into chunks of n; the rest is a shorter chunk. */
  function Chunks(labels: seq<S.Feature>, i: nat, n: nat): seq<Chunk>
    requires i <= |labels| && n >= 1
    decreases |labels| - i
  {
    if i == |labels| then []
    else if !OnSurface(labels[i]) then Chunks(labels, i + 1, n)
    else
      var e := RunEnd(labels, i);
      var hi := if i + n <= e then i + n else e;
      [Chunk(i, hi)] + Chunks(labels, hi, n)
  }

  function Add(a: Point, b: Point): Point {
    Point(a.pos.Plus(b.pos), a.intensity + b.intensity, a.curvature + b.curvature)
  }

  function Divided(p: Point, m: nat): Point
    requires m > 0
  {
    var d := m as real;
    Point(V3(p.pos.x / d, p.pos.y / d, p.pos.z / d), p.intensity / d, p.curvature / d)
  }

  const NO_POINT := Point(V3(0.0, 0.0, 0.0), 0.0, 0.0)

  function Total(pl: Scan, lo: nat, hi: nat): Point
    requires lo <= hi <= |pl|
  {
    if lo == hi then NO_POINT else Add(Total(pl, lo, hi - 1), pl[hi - 1])
  }

  ghost predicate Fits(c: Chunk, pl: Scan, n: nat) {
    c.lo < c.hi <= |pl| && c.hi - c.lo <= n
  }

  /** What a chunk leaves: its last point if it is full, its mean if it is shorter, and nothing if
      it is shorter and the line ends with it. */
  function Kept(pl: Scan, c: Chunk, n: nat): seq<Point>
    requires Fits(c, pl, n)
  {
    if c.hi - c.lo == n then [pl[c.hi - 1]]
    else if c.hi == |pl| then []
    else [Divided(Total(pl, c.lo, c.hi), c.hi - c.lo)]
  }

  function AllKept(pl: Scan, cs: seq<Chunk>, n: nat): seq<Point>
    requires forall c :: c in cs ==> Fits(c, pl, n)
  {
    if cs == [] then [] else Kept(pl, cs[0], n) + AllKept(pl, cs[1..], n)
  }

  function Edges(pl: Scan, labels: seq<S.Feature>, i: nat): seq<Point>
    requires |pl| == |labels| && i <= |pl|
    decreases |pl| - i
  {
    if i == |pl| then []
    else (if OnEdge(labels[i]) then [pl[i]] else []) + Edges(pl, labels, i + 1)
  }

  ghost predicate Covers(c: Chunk, k: nat) { c.lo <= k < c.hi }

  ghost predicate Disjoint(cs: seq<Chunk>) {
    forall t, u :: 0 <= t < u < |cs| ==> cs[t].hi <= cs[u].lo
  }

  /** A chunk of plane points; it is full, or its run ends with it. */
  ghost predicate WellCut(labels: seq<S.Feature>, i: nat, n: nat, c: Chunk) {
    && i <= c.lo < c.hi <= |labels| && c.hi - c.lo <= n
    && (forall k :: c.lo <= k < c.hi ==> OnSurface(labels[k]))
    && (c.hi - c.lo < n && c.hi < |labels| ==> !OnSurface(labels[c.hi]))
  }

  /** Every chunk holds one to n plane points, ends its run if it is shorter, and comes after the one before. */
  lemma {:induction false} ChunksAreWellCut(labels: seq<S.Feature>, i: nat, n: nat)
    requires i <= |labels| && n >= 1
    ensures forall c :: c in Chunks(labels, i, n) ==> WellCut(labels, i, n, c)
    ensures Disjoint(Chunks(labels, i, n))
    decreases |labels| - i
  {
    if i == |labels| {
    } else if !OnSurface(labels[i]) {
      ChunksAreWellCut(labels, i + 1, n);
    } else {
      var e := RunEnd(labels, i);
      assert e > i;
      var hi := if i + n <= e then i + n else e;
      ChunksAreWellCut(labels, hi, n);
      var rest := Chunks(labels, hi, n);
      forall u | 0 <= u < |rest| ensures hi <= rest[u].lo {
        assert WellCut(labels, hi, n, rest[u]);
      }
    }
  }

  /** No point is lost or used twice: the plane points are exactly those in some chunk, and two
      chunks share no point. */
  lemma {:induction false} PlanePointsAreCovered(labels: seq<S.Feature>, i: nat, n: nat, k: nat)
    requires i <= k < |labels| && n >= 1
    ensures labels[k] == S.PossPlane || labels[k] == S.RealPlane <==>
            exists c :: c in Chunks(labels, i, n) && Covers(c, k)
    decreases |labels| - i
  {
    if !OnSurface(labels[i]) {
      if i < k {
        PlanePointsAreCovered(labels, i + 1, n, k);
      } else {
        ChunksAreWellCut(labels, i, n);
      }
    } else {
      var e := RunEnd(labels, i);
      assert e > i;
      var hi := if i + n <= e then i + n else e;
      assert Chunks(labels, i, n)[0] == Chunk(i, hi);
      if k < hi {
        assert Covers(Chunk(i, hi), k);
      } else {
        PlanePointsAreCovered(labels, hi, n, k);
        assert forall c :: c in Chunks(labels, i, n) && c != Chunk(i, hi) ==> c in Chunks(labels, hi, n);
        assert forall c :: c in Chunks(labels, hi, n) ==> c in Chunks(labels, i, n);
      }
    }
  }

  /** A run of plane points starts at i when the line is read from `from`. */
  ghost predicate RunStart(labels: seq<S.Feature>, from: nat, i: nat) {
    from <= i < |labels| && OnSurface(labels[i]) && (i > from ==> !OnSurface(labels[i - 1]))
  }

  ghost predicate EndsWith(cs: seq<Chunk>, last: seq<Chunk>) {
    |last| <= |cs| && cs[|cs| - |last|..] == last
  }

  /** Cutting starts afresh at the start of every run. */
  lemma {:induction false} RunsAreCutFromTheirStart(labels: seq<S.Feature>, from: nat, i: nat, n: nat)
    requires n >= 1 && RunStart(labels, from, i)
    ensures EndsWith(Chunks(labels, from, n), Chunks(labels, i, n))
    decreases i - from
  {
    hide Chunks, EndsWith;
    if from == i {
      EndsWithItself(Chunks(labels, i, n));
    } else if !OnSurface(labels[from]) {
      NoChunkAt(labels, from, n);
      RunsAreCutFromTheirStart(labels, from + 1, i, n);
    } else {
      FirstOfRun(labels, from, n);
      var e := RunEnd(labels, from);
      assert e <= i - 1;
      var hi := if from + n <= e then from + n else e;
      RunsAreCutFromTheirStart(labels, hi, i, n);
      EndsWithMore(Chunk(from, hi), Chunks(labels, hi, n), Chunks(labels, i, n));
    }
  }

  lemma EndsWithItself(cs: seq<Chunk>)
    ensures EndsWith(cs, cs)
  {
  }

  lemma EndsWithMore(c: Chunk, cs: seq<Chunk>, last: seq<Chunk>)
    requires EndsWith(cs, last)
    ensures EndsWith([c] + cs, last)
  {
    var all := [c] + cs;
    assert all[|all| - |last|..] == cs[|cs| - |last|..];
  }

  lemma NoChunkAt(labels: seq<S.Feature>, i: nat, n: nat)
    requires i < |labels| && n >= 1 && !OnSurface(labels[i])
    ensures Chunks(labels, i, n) == Chunks(labels, i + 1, n) && PlaneCount(labels, i) == PlaneCount(labels, i + 1)
  {
  }

  lemma RunEndInside(labels: seq<S.Feature>, i: nat, k: nat)
    requires i <= |labels| && i <= k <= RunEnd(labels, i)
    ensures RunEnd(labels, k) == RunEnd(labels, i)
    decreases k - i
  {
  }

  lemma FirstOfRun(labels: seq<S.Feature>, i: nat, n: nat)
    requires i <= |labels| && n >= 1 && i < RunEnd(labels, i)
    ensures var hi := if i + n <= RunEnd(labels, i) then i + n else RunEnd(labels, i);
            Chunks(labels, i, n) == [Chunk(i, hi)] + Chunks(labels, hi, n)
  {
  }

  lemma NextMultiple(m: nat, n: nat)
    ensures (m + 1) * n == m * n + n && m * n >= 0
  {
  }

  /** Chunk t of the run that starts at i covers the points i + t * n up to n further, cut at the
      end of the run. */
  lemma {:induction false} ChunkAt(labels: seq<S.Feature>, i: nat, n: nat, t: nat)
    requires i <= |labels| && n >= 1 && i + t * n < RunEnd(labels, i)
    ensures var e := RunEnd(labels, i);
            && t < |Chunks(labels, i, n)|
            && Chunks(labels, i, n)[t] == Chunk(i + t * n, if i + (t + 1) * n <= e then i + (t + 1) * n else e)
    decreases t
  {
    hide Chunks, RunEnd;
    FirstOfRun(labels, i, n);
    NextMultiple(t, n);
    if t > 0 {
      NextMultiple(t - 1, n);
      RunEndInside(labels, i, i + n);
      ChunkAt(labels, i + n, n, t - 1);
    }
  }

  /** Number of plane points from i on. */
  function PlaneCount(labels: seq<S.Feature>, i: nat): nat
    requires i <= |labels|
    decreases |labels| - i
  {
    if i == |labels| then 0 else (if OnSurface(labels[i]) then 1 else 0) + PlaneCount(labels, i + 1)
  }

  lemma CountRun(labels: seq<S.Feature>, i: nat, hi: nat)
    requires i <= hi <= |labels| && forall k :: i <= k < hi ==> OnSurface(labels[k])
    ensures PlaneCount(labels, i) == hi - i + PlaneCount(labels, hi)
    decreases hi - i
  {
    if i < hi { CountRun(labels, i + 1, hi); }
  }

  lemma FitsAll(pl: Scan, labels: seq<S.Feature>, i: nat, n: nat)
    requires |pl| == |labels| && i <= |labels| && n >= 1
    ensures forall c :: c in Chunks(labels, i, n) ==> Fits(c, pl, n)
  {
    ChunksAreWellCut(labels, i, n);
  }

  lemma KeptLength(pl: Scan, c: Chunk, rest: seq<Chunk>, n: nat)
    requires Fits(c, pl, n) && forall d :: d in rest ==> Fits(d, pl, n)
    ensures forall d :: d in [c] + rest ==> Fits(d, pl, n)
    ensures |AllKept(pl, [c] + rest, n)| == |AllKept(pl, rest, n)| + (if c.hi - c.lo < n && c.hi == |pl| then 0 else 1)
  {
  }

  /** Each point kept stands for at most n plane points, and fewer than n, all at the end of the
      line, are represented by none. */
  lemma {:induction false} KeptCount(pl: Scan, labels: seq<S.Feature>, i: nat, n: nat)
    requires |pl| == |labels| && i <= |labels| && n >= 1
    ensures forall c :: c in Chunks(labels, i, n) ==> Fits(c, pl, n)
    ensures var kept := |AllKept(pl, Chunks(labels, i, n), n)|;
            kept <= PlaneCount(labels, i) <= kept * n + (n - 1)
    decreases |labels| - i
  {
    hide AllKept, Chunks, PlaneCount;
    FitsAll(pl, labels, i, n);
    if i == |labels| {
      NothingLeft(pl, labels, n);
    } else if !OnSurface(labels[i]) {
      NoChunkAt(labels, i, n);
      KeptCount(pl, labels, i + 1, n);
    } else {
      var e := RunEnd(labels, i);
      assert e > i;
      var hi := if i + n <= e then i + n else e;
      CountRun(labels, i, hi);
      FirstOfRun(labels, i, n);
      KeptCount(pl, labels, hi, n);
      KeptLength(pl, Chunk(i, hi), Chunks(labels, hi, n), n);
      var kept := |AllKept(pl, Chunks(labels, hi, n), n)|;
      NextMultiple(kept, n);
      if hi == |pl| && hi - i < n { NothingLeft(pl, labels, n); }
    }
  }

  lemma NothingLeft(pl: Scan, labels: seq<S.Feature>, n: nat)
    requires |pl| == |labels| && n >= 1
    ensures AllKept(pl, Chunks(labels, |labels|, n), n) == [] && PlaneCount(labels, |labels|) == 0
  {
  }

  function Thinned(pl: Scan, labels: seq<S.Feature>, i: nat, n: nat): seq<Point>
    requires |pl| == |labels| && i <= |pl| && n >= 1
  {
    ChunksAreWellCut(labels, i, n);
    AllKept(pl, Chunks(labels, i, n), n)
  }

  // ---------- What each chunk leaves ----------

  lemma FirstKept(pl: Scan, c: Chunk, rest: seq<Chunk>, n: nat)
    requires Fits(c, pl, n) && forall d :: d in rest ==> Fits(d, pl, n)
    ensures forall d :: d in [c] + rest ==> Fits(d, pl, n)
    ensures AllKept(pl, [c] + rest, n) == Kept(pl, c, n) + AllKept(pl, rest, n)
  {
  }

  /** The five numbers of a point. */
  function Field(p: Point, f: nat): real {
    if f == 0 then p.pos.x else if f == 1 then p.pos.y else if f == 2 then p.pos.z
    else if f == 3 then p.intensity else p.curvature
  }

  function Fields(pl: Scan, lo: nat, hi: nat, f: nat): (r: seq<real>)
    requires lo <= hi <= |pl|
    ensures |r| == hi - lo
  {
    seq(hi - lo, k requires 0 <= k < hi - lo => Field(pl[lo + k], f))
  }

  lemma {:induction false} TotalIsSum(pl: Scan, lo: nat, hi: nat, f: nat)
    requires lo <= hi <= |pl|
    ensures Field(Total(pl, lo, hi), f) == R.Sum(Fields(pl, lo, hi, f))
  {
    if lo < hi {
      TotalIsSum(pl, lo, hi - 1, f);
      var xs := Fields(pl, lo, hi, f);
      assert xs[..hi - lo - 1] == Fields(pl, lo, hi - 1, f);
      assert |xs| == hi - lo && xs[hi - lo - 1] == Field(pl[hi - 1], f);
      AddField(Total(pl, lo, hi - 1), pl[hi - 1], f);
    }
  }

  lemma AddField(a: Point, b: Point, f: nat)
    ensures Field(Add(a, b), f) == Field(a, f) + Field(b, f)
  {
  }

  lemma DividedField(p: Point, m: nat, f: nat)
    requires m > 0
    ensures Field(Divided(p, m), f) == R.Ratio(Field(p, f), m as real)
  {
  }

  /** The first chunks that leave one point each leave it at their own place. */
  lemma {:induction false} AllKeptAt(pl: Scan, cs: seq<Chunk>, n: nat, t: nat)
    requires t < |cs| && forall c :: c in cs ==> Fits(c, pl, n)
    requires forall u :: 0 <= u < t ==> |Kept(pl, cs[u], n)| == 1
    ensures Kept(pl, cs[t], n) == [] && t == |cs| - 1 ==> |AllKept(pl, cs, n)| == t
    ensures |Kept(pl, cs[t], n)| == 1 ==>
              |AllKept(pl, cs, n)| > t && AllKept(pl, cs, n)[t] == Kept(pl, cs[t], n)[0]
  {
    hide Kept;
    var first, rest := cs[0], cs[1..];
    assert cs == [first] + rest;
    assert forall c :: c in rest ==> c in cs;
    FirstKept(pl, first, rest, n);
    if t > 0 {
      forall u | 0 <= u < t - 1 ensures |Kept(pl, rest[u], n)| == 1 { assert rest[u] == cs[u + 1]; }
      assert |Kept(pl, cs[0], n)| == 1 && rest[t - 1] == cs[t];
      AllKeptAt(pl, rest, n, t - 1);
    } else if |cs| == 1 {
      assert AllKept(pl, rest, n) == [];
    }
  }

  /** The output points are those of the chunks, one each and in order: the last point of a full
      chunk, and the mean of a shorter one in every field. Only a shorter chunk at the very end of
      the line leaves none. */
  lemma ThinnedAt(pl: Scan, labels: seq<S.Feature>, i: nat, n: nat, t: nat)
    requires |pl| == |labels| && i <= |pl| && n >= 1 && t < |Chunks(labels, i, n)|
    ensures var (c, surf) := (Chunks(labels, i, n)[t], Thinned(pl, labels, i, n));
            && c.lo < c.hi <= |pl|
            && (c.hi - c.lo == n ==> t < |surf| && surf[t] == pl[c.hi - 1])
            && (c.hi - c.lo < n && c.hi < |pl| ==>
                  t < |surf| && forall f: nat :: Field(surf[t], f) == R.Mean(Fields(pl, c.lo, c.hi, f)))
            && (c.hi - c.lo < n && c.hi == |pl| ==> |surf| == t)
  {
    hide Chunks, AllKept;
    var cs := Chunks(labels, i, n);
    ChunksAreWellCut(labels, i, n);
    FitsAll(pl, labels, i, n);
    assert WellCut(labels, i, n, cs[t]);
    forall u | 0 <= u < t ensures |Kept(pl, cs[u], n)| == 1 {
      assert cs[u].hi <= cs[t].lo;
    }
    if t < |cs| - 1 { assert WellCut(labels, i, n, cs[t + 1]); }
    AllKeptAt(pl, cs, n, t);
    forall f: nat
      ensures Field(Divided(Total(pl, cs[t].lo, cs[t].hi), cs[t].hi - cs[t].lo), f)
           == R.Mean(Fields(pl, cs[t].lo, cs[t].hi, f))
    {
      TotalIsSum(pl, cs[t].lo, cs[t].hi, f);
      DividedField(Total(pl, cs[t].lo, cs[t].hi), cs[t].hi - cs[t].lo, f);
    }
  }

  /** Number of edge points from i up to k. */
  function EdgeCount(labels: seq<S.Feature>, i: nat, k: nat): nat
    requires i <= k <= |labels|
    decreases k - i
  {
    if i == k then 0
    else (if labels[i] == S.EdgeJump || labels[i] == S.EdgePlane then 1 else 0) + EdgeCount(labels, i + 1, k)
  }

  lemma {:induction false} EdgesCounted(pl: Scan, labels: seq<S.Feature>, i: nat)
    requires |pl| == |labels| && i <= |pl|
    ensures |Edges(pl, labels, i)| == EdgeCount(labels, i, |pl|)
    decreases |pl| - i
  {
    if i < |pl| { EdgesCounted(pl, labels, i + 1); }
  }

  /** The corner cloud is the edge points, in order and nothing else. */
  lemma {:induction false} EdgeAt(pl: Scan, labels: seq<S.Feature>, i: nat, k: nat)
    requires |pl| == |labels| && i <= k < |pl| && (labels[k] == S.EdgeJump || labels[k] == S.EdgePlane)
    ensures EdgeCount(labels, i, k) < |Edges(pl, labels, i)| == EdgeCount(labels, i, |pl|)
    ensures Edges(pl, labels, i)[EdgeCount(labels, i, k)] == pl[k]
    decreases k - i
  {
    EdgesCounted(pl, labels, i);
    if i < k { EdgeAt(pl, labels, i + 1, k); }
  }

  lemma FirstChunk(pl: Scan, labels: seq<S.Feature>, lo: nat, hi: nat, n: nat)
    requires |pl| == |labels| && lo < hi <= |pl| && n >= 1 && hi - lo <= n
    requires forall k :: lo <= k < hi ==> OnSurface(labels[k])
    requires hi - lo < n && hi < |pl| ==> !OnSurface(labels[hi])
    ensures Thinned(pl, labels, lo, n) == Kept(pl, Chunk(lo, hi), n) + Thinned(pl, labels, hi, n)
  {
    hide Chunks, RunEnd, Kept, AllKept;
    RunCovers(labels, lo, hi);
    FirstOfRun(labels, lo, n);
    FitsAll(pl, labels, hi, n);
    FirstKept(pl, Chunk(lo, hi), Chunks(labels, hi, n), n);
  }

  lemma RunCovers(labels: seq<S.Feature>, lo: nat, hi: nat)
    requires lo <= hi <= |labels| && forall k :: lo <= k < hi ==> OnSurface(labels[k])
    ensures hi <= RunEnd(labels, lo)
    decreases hi - lo
  {
  }

  /** The mean of the points lo .. hi - 1, field by field. */
  method Mean(pl: Scan, lo: nat, hi: nat) returns (p: Point)
    requires lo < hi <= |pl|
    ensures p == Divided(Total(pl, lo, hi), hi - lo)
  {
    p := NO_POINT;
    for k := lo to hi
      invariant p == Total(pl, lo, k)
    {
      p := Add(p, pl[k]);
    }
    p := Divided(p, hi - lo);
  }

  /** The plane points last .. j - 1 wait for their chunk; none wait if last is -1. */
  ghost predicate Waiting(labels: seq<S.Feature>, last: int, j: nat, n: nat) {
    && j <= |labels|
    && (last == -1 || (0 <= last < j && j - last < n))
    && (last >= 0 ==> forall k :: last <= k < j ==> OnSurface(labels[k]))
  }

  ghost predicate SurfaceDone(pl: Scan, labels: seq<S.Feature>, n: nat, all: seq<Point>, surf: seq<Point>, from: nat) {
    |pl| == |labels| && from <= |pl| && n >= 1 && all == surf + Thinned(pl, labels, from, n)
  }

  lemma ChunkDone(pl: Scan, labels: seq<S.Feature>, n: nat, all: seq<Point>, surf: seq<Point>, lo: nat, hi: nat)
    requires SurfaceDone(pl, labels, n, all, surf, lo) && lo < hi <= |pl| && hi - lo <= n
    requires forall k :: lo <= k < hi ==> OnSurface(labels[k])
    requires hi - lo < n && hi < |pl| ==> !OnSurface(labels[hi])
    ensures SurfaceDone(pl, labels, n, all, surf + Kept(pl, Chunk(lo, hi), n), hi)
  {
    hide Thinned, Kept;
    FirstChunk(pl, labels, lo, hi, n);
  }

  lemma OtherDone(pl: Scan, labels: seq<S.Feature>, n: nat, all: seq<Point>, surf: seq<Point>, j: nat)
    requires SurfaceDone(pl, labels, n, all, surf, j) && j < |pl| && !OnSurface(labels[j])
    ensures SurfaceDone(pl, labels, n, all, surf, j + 1)
  {
  }

  lemma NothingDone(pl: Scan, labels: seq<S.Feature>, n: nat, head: nat)
    requires |pl| == |labels| && head <= |pl| && n >= 1
    ensures SurfaceDone(pl, labels, n, Thinned(pl, labels, head, n), [], head)
  {
  }

  lemma EdgeDone(pl: Scan, labels: seq<S.Feature>, j: nat)
    requires |pl| == |labels| && j < |pl|
    ensures Edges(pl, labels, j) == (if OnEdge(labels[j]) then [pl[j]] else []) + Edges(pl, labels, j + 1)
    ensures OnSurface(labels[j]) ==> !OnEdge(labels[j])
  {
  }

  /** The thinning loop from the first point outside the blind range. */
  method Thin(pl: Scan, labels: seq<S.Feature>, head: nat, n: nat) returns (surf: seq<Point>, corn: seq<Point>)
    requires |pl| == |labels| && head <= |pl| && n >= 1
    ensures surf == Thinned(pl, labels, head, n)
    ensures corn == Edges(pl, labels, head)
  {
    hide Chunks, AllKept, Thinned, Total, Divided, SurfaceDone, OnSurface, OnEdge, Edges;
    ghost var all := Thinned(pl, labels, head, n);
    surf, corn := [], [];
    NothingDone(pl, labels, n, head);
    var last := -1;
    for j := head to |pl|
      invariant Waiting(labels, last, j, n)
      invariant SurfaceDone(pl, labels, n, all, surf, if last < 0 then j else last)
      invariant Edges(pl, labels, head) == corn + Edges(pl, labels, j)
    {
      if OnSurface(labels[j]) {
        EdgeDone(pl, labels, j);
        if last == -1 { last := j; }
        if j == last + n - 1 {
          ChunkDone(pl, labels, n, all, surf, last, j + 1);
          surf := surf + [pl[j]];
          last := -1;
        }
      } else {
        if OnEdge(labels[j]) { corn := corn + [pl[j]]; }
        EdgeDone(pl, labels, j);
        if last != -1 {
          ChunkDone(pl, labels, n, all, surf, last, j);
          var p := Mean(pl, last, j);
          surf := surf + [p];
        }
        OtherDone(pl, labels, n, all, surf, j);
        last := -1;
      }
    }
    if last >= 0 { ChunkDone(pl, labels, n, all, surf, last, |pl|); }
    assert surf + [] == surf;
    LineEnd(pl, labels, n, all, surf);
  }

  lemma LineEnd(pl: Scan, labels: seq<S.Feature>, n: nat, all: seq<Point>, surf: seq<Point>)
    requires SurfaceDone(pl, labels, n, all, surf, |pl|)
    ensures all == surf && Edges(pl, labels, |pl|) == []
  {
  }
}
