/** What the gap test asks of the gaps as they come, without sorting them. */
module GapEvenness {
  import opened Reals
  import opened PlaneJudge

  /** No gap is smaller than the one at m. */
  predicate SmallestAt(gaps: seq<real>, m: nat) {
    m < |gaps| && forall j :: 0 <= j < |gaps| ==> gaps[m] <= gaps[j]
  }

  function Without(gaps: seq<real>, m: nat): (r: seq<real>)
    requires m < |gaps|
    ensures |r| == |gaps| - 1
  {
    gaps[..m] + gaps[m + 1..]
  }

  lemma WithoutMultiset(gaps: seq<real>, m: nat)
    requires m < |gaps|
    ensures multiset(Without(gaps, m)) == multiset(gaps) - multiset{gaps[m]}
  {
    assert gaps == gaps[..m] + [gaps[m]] + gaps[m + 1..];
  }

  lemma InBoth(a: seq<real>, b: seq<real>, k: nat) returns (j: nat)
    requires multiset(a) == multiset(b) && k < |a|
    ensures j < |b| && b[j] == a[k]
  {
    assert a[k] in multiset(a);
    assert a[k] in multiset(b);
    j :| 0 <= j < |b| && b[j] == a[k];
  }

  lemma SmallestIsLast(gaps: seq<real>, d: seq<real>, m: nat)
    requires |gaps| >= 1 && |d| == |gaps| && SortOf(d, gaps) && SmallestAt(gaps, m)
    ensures d[|d| - 1] == gaps[m]
  {
    var j := InBoth(d, gaps, |d| - 1);
    var k := InBoth(gaps, d, m);
    assert d[k] >= d[|d| - 1];
  }

  /** The sorted gaps end in a smallest gap, and what stands before it are the other gaps. */
  lemma SortedTail(gaps: seq<real>, d: seq<real>, m: nat)
    requires |gaps| >= 1 && SortOf(d, gaps) && SmallestAt(gaps, m)
    ensures |d| == |gaps| && multiset(d[..|d| - 1]) == multiset(Without(gaps, m))
  {
    hide Descending;
    assert |d| == |multiset(d)| == |multiset(gaps)| == |gaps|;
    SmallestIsLast(gaps, d, m);
    assert d == d[..|d| - 1] + [d[|d| - 1]];
    WithoutMultiset(gaps, m);
  }

  /** The largest gap and the smallest of the others, read off the sorted gaps. */
  lemma SortedEnds(gaps: seq<real>, d: seq<real>, m: nat)
    requires |gaps| >= 2 && SortOf(d, gaps) && SmallestAt(gaps, m)
    ensures |d| == |gaps|
    ensures exists i :: 0 <= i < |gaps| && gaps[i] == d[0]
    ensures forall i :: 0 <= i < |gaps| ==> gaps[i] <= d[0]
    ensures exists j :: 0 <= j < |gaps| && j != m && gaps[j] == d[|d| - 2]
    ensures forall j :: 0 <= j < |gaps| && j != m ==> gaps[j] >= d[|d| - 2]
  {
    SortedTail(gaps, d, m);
    var n := |d|;
    var first := InBoth(d, gaps, 0);
    forall i | 0 <= i < n ensures gaps[i] <= d[0] {
      var k := InBoth(gaps, d, i);
    }
    var second := InBoth(d[..n - 1], Without(gaps, m), n - 2);
    assert Without(gaps, m)[second] == gaps[if second < m then second else second + 1];
    forall j | 0 <= j < n && j != m ensures gaps[j] >= d[n - 2] {
      var k := InBoth(Without(gaps, m), d[..n - 1], if j < m then j else j - 1);
      assert d[..n - 1][k] == d[k];
    }
  }

  lemma RatioBelow(a: real, b: real, limit: real)
    requires b > 0.0
    ensures a / b < limit <==> a < Prod(limit, b)
  {
  }

  lemma BelowEach(a: real, b: real, c: real, limit: real)
    requires 0.0 < b <= c && b <= a && a < Prod(limit, b)
    ensures a < Prod(limit, c)
  {
    assert limit > 0.0;
    assert limit * (c - b) >= 0.0;
    assert limit * c == limit * b + limit * (c - b);
  }

  /** Apart from the one at m, no gap is zero and none is limit times smaller than another. */
  predicate AllClose(gaps: seq<real>, m: nat, limit: real) {
    forall j :: 0 <= j < |gaps| && j != m ==>
      && gaps[j] >= 0.0000000000000001
      && forall i :: 0 <= i < |gaps| ==> gaps[i] < Prod(limit, gaps[j])
  }

  lemma AllCloseIff(gaps: seq<real>, m: nat, limit: real, largest: nat, second: nat)
    requires largest < |gaps| && second < |gaps| && second != m
    requires forall i :: 0 <= i < |gaps| ==> gaps[i] <= gaps[largest]
    requires forall j :: 0 <= j < |gaps| && j != m ==> gaps[j] >= gaps[second]
    ensures AllClose(gaps, m, limit) <==>
            gaps[second] >= 0.0000000000000001 && gaps[largest] < Prod(limit, gaps[second])
  {
    hide Prod;
    if gaps[second] >= 0.0000000000000001 && gaps[largest] < Prod(limit, gaps[second]) {
      forall j | 0 <= j < |gaps| && j != m ensures gaps[largest] < Prod(limit, gaps[j]) {
        BelowEach(gaps[largest], gaps[second], gaps[j], limit);
      }
    }
  }

  /** For every sensor but the Avia: leaving out one smallest gap, no other is zero, and the
      largest is below limitMaxMin times each of them. */
  lemma EvenMeans(gaps: seq<real>, m: nat, c: Config)
    requires |gaps| >= 2 && SmallestAt(gaps, m) && !c.avia
    ensures Even(gaps, c) <==> AllClose(gaps, m, c.limitMaxMin)
  {
    hide Even, AllClose, SortOf, Prod, SmallestAt;
    var d := SomeOrder(gaps);
    EvenIff(gaps, d, c);
    SortedEnds(gaps, d, m);
    var largest: nat :| largest < |gaps| && gaps[largest] == d[0];
    var second: nat :| second < |gaps| && second != m && gaps[second] == d[|d| - 2];
    if d[|d| - 2] > 0.0 { RatioBelow(d[0], d[|d| - 2], c.limitMaxMin); }
    AllCloseIff(gaps, m, c.limitMaxMin, largest, second);
  }

  // ---------- The middle gap ----------

  function Count(s: seq<real>, f: real -> bool): (n: nat) {
    if s == [] then 0 else (if f(s[0]) then 1 else 0) + Count(s[1..], f)
  }

  function Above(v: real): real -> bool { x => x > v }

  function AtLeast(v: real): real -> bool { x => x >= v }

  lemma {:induction false} CountWithout(s: seq<real>, k: nat, f: real -> bool)
    requires k < |s|
    ensures Count(s, f) == Count(Without(s, k), f) + if f(s[k]) then 1 else 0
  {
    if k == 0 {
      assert Without(s, 0) == s[1..];
    } else {
      CountWithout(s[1..], k - 1, f);
      assert Without(s, k) == [s[0]] + Without(s[1..], k - 1);
    }
  }

  lemma {:induction false} CountIgnoresOrder(a: seq<real>, b: seq<real>, f: real -> bool)
    requires multiset(a) == multiset(b)
    ensures Count(a, f) == Count(b, f)
    decreases |a|
  {
    assert |a| == |multiset(a)| == |multiset(b)| == |b|;
    if a != [] {
      var k := InBoth(a, b, 0);
      WithoutMultiset(a, 0); WithoutMultiset(b, k);
      CountWithout(a, 0, f); CountWithout(b, k, f);
      CountIgnoresOrder(Without(a, 0), Without(b, k), f);
    }
  }

  lemma {:induction false} CountFront(s: seq<real>, k: nat, f: real -> bool)
    requires k <= |s|
    ensures (forall i :: 0 <= i < k ==> f(s[i])) ==> Count(s, f) >= k
    ensures (forall i :: k <= i < |s| ==> !f(s[i])) ==> Count(s, f) <= k
  {
    if s != [] {
      CountFront(s[1..], if k == 0 then 0 else k - 1, f);
    }
  }

  /** At most half of the gaps lie above v, and more than half lie at or above it. */
  predicate Middle(gaps: seq<real>, v: real) {
    Count(gaps, Above(v)) <= |gaps| / 2 < Count(gaps, AtLeast(v))
  }

  lemma MiddleOfSorted(gaps: seq<real>, d: seq<real>, v: real)
    requires |gaps| >= 1 && |d| == |gaps| && SortOf(d, gaps) && Middle(gaps, v)
    ensures d[|d| / 2] == v
  {
    var k := |d| / 2;
    CountIgnoresOrder(d, gaps, Above(v));
    CountIgnoresOrder(d, gaps, AtLeast(v));
    if d[k] > v {
      forall i | 0 <= i < k + 1 ensures Above(v)(d[i]) { assert i < k ==> d[i] >= d[k]; }
      CountFront(d, k + 1, Above(v));
    } else if d[k] < v {
      forall i | k <= i < |d| ensures !AtLeast(v)(d[i]) { assert i > k ==> d[k] >= d[i]; }
      CountFront(d, k, AtLeast(v));
    }
  }

  /** Apart from the one at m, no gap is zero and none is limit times smaller than v. */
  predicate CloseTo(gaps: seq<real>, m: nat, v: real, limit: real) {
    forall j :: 0 <= j < |gaps| && j != m ==> gaps[j] >= 0.0000000000000001 && v < Prod(limit, gaps[j])
  }

  lemma CloseToIff(gaps: seq<real>, m: nat, v: real, limit: real, second: nat)
    requires second < |gaps| && second != m && gaps[second] <= v
    requires forall j :: 0 <= j < |gaps| && j != m ==> gaps[j] >= gaps[second]
    ensures CloseTo(gaps, m, v, limit) <==>
            gaps[second] >= 0.0000000000000001 && v < Prod(limit, gaps[second])
  {
    hide Prod;
    if gaps[second] >= 0.0000000000000001 && v < Prod(limit, gaps[second]) {
      forall j | 0 <= j < |gaps| && j != m ensures v < Prod(limit, gaps[j]) {
        BelowEach(v, gaps[second], gaps[j], limit);
      }
    }
  }

  /** For the Avia: leaving out one smallest gap, no other is zero, the middle gap is below
      limitMidMin times each of them, and the largest is below limitMaxMid times the middle one. */
  lemma EvenMeansAvia(gaps: seq<real>, m: nat, v: real, c: Config)
    requires |gaps| >= 3 && SmallestAt(gaps, m) && Middle(gaps, v) && c.avia
    ensures Even(gaps, c) <==>
            && CloseTo(gaps, m, v, c.limitMidMin)
            && forall i :: 0 <= i < |gaps| ==> gaps[i] < Prod(c.limitMaxMid, v)
  {
    hide Even, CloseTo, Prod, SmallestAt, Middle;
    var d := SomeOrder(gaps);
    EvenIff(gaps, d, c);
    SortedEnds(gaps, d, m);
    MiddleOfSorted(gaps, d, v);
    var largest: nat :| largest < |gaps| && gaps[largest] == d[0];
    var second: nat :| second < |gaps| && second != m && gaps[second] == d[|d| - 2];
    assert d[|d| - 2] <= v;
    if v > 0.0 { RatioBelow(d[0], v, c.limitMaxMid); }
    if d[|d| - 2] > 0.0 { RatioBelow(v, d[|d| - 2], c.limitMidMin); }
    CloseToIff(gaps, m, v, c.limitMidMin, second);
  }

  // ---------- A sorted order exists ----------

  function Insert(x: real, d: seq<real>): (r: seq<real>)
    requires Descending(d)
    ensures Descending(r) && multiset(r) == multiset(d) + multiset{x}
    decreases |d|
  {
    if d == [] then [x]
    else if x >= d[0] then [x] + d
    else
      var r := Insert(x, d[1..]);
      InsertBehind(d, x, r);
      [d[0]] + r
  }

  lemma InsertBehind(d: seq<real>, x: real, r: seq<real>)
    requires Descending(d) && d != [] && x < d[0]
    requires Descending(r) && multiset(r) == multiset(d[1..]) + multiset{x}
    ensures Descending([d[0]] + r) && multiset([d[0]] + r) == multiset(d) + multiset{x}
  {
    forall k | 0 <= k < |r| ensures d[0] >= r[k] {
      assert r[k] in multiset(r);
      if r[k] != x { assert r[k] in multiset(d[1..]); }
    }
    assert d == [d[0]] + d[1..];
  }

  function SomeOrder(gaps: seq<real>): (d: seq<real>)
    ensures SortOf(d, gaps)
  {
    if gaps == [] then []
    else
      var d := Insert(gaps[0], SomeOrder(gaps[1..]));
      assert gaps == [gaps[0]] + gaps[1..];
      d
  }
}
