/** The list of poses the door is opened through: every door angle, every phi, every omega. */
module DoorWaypoints {
  import opened Sensors
  import opened RigidMotions
  import opened RollPitchYaw
  import DoorMath

  /** The parameters read at start; `turn` gives the cosine and sine of an angle in degrees. */
  datatype Config = Config(r: real, l: real, h: real, thetaMax: real, thetaStep: real, phis: seq<real>,
                           omegas: seq<real>, hinge: Motion, turn: real -> Angle)

  function Goal(c: Config, theta: real, phi: real, omega: real): Motion {
    c.hinge.Mul(DoorMath.ComputeWorldTTarget(c.turn(theta), c.turn(phi), c.turn(omega), c.r, c.l, c.h))
  }

  function Reach(c: Config): real { c.thetaMax + 0.000000001 }

  function Theta(c: Config, a: nat): real { a as real * c.thetaStep }

  /** How many door angles are visited. */
  function Steps(c: Config): nat
    requires c.thetaStep > 0.0
  {
    if Reach(c) < 0.0 then 0
    else
      Positive(Reach(c), c.thetaStep);
      (Reach(c) / c.thetaStep).Floor + 1
  }

  lemma Positive(a: real, b: real)
    requires a >= 0.0 && b > 0.0
    ensures a / b >= 0.0
  {
  }

  /** The angles visited are exactly the multiples of the step within reach. */
  lemma StepsIff(c: Config, a: nat)
    requires c.thetaStep > 0.0
    ensures a < Steps(c) <==> Theta(c, a) <= Reach(c)
  {
    var (x, s) := (Reach(c), c.thetaStep);
    if x < 0.0 {
      NotNegative(a as real, s);
    } else {
      var q := x / s;
      Positive(x, s);
      Compare(a as real, q, s, x);
      assert a < q.Floor + 1 <==> a as real <= q;
    }
  }

  lemma NotNegative(a: real, s: real)
    requires a >= 0.0 && s > 0.0
    ensures a * s >= 0.0
  {
  }

  lemma Compare(a: real, q: real, s: real, x: real)
    requires s > 0.0 && q == x / s
    ensures a <= q <==> a * s <= x
  {
  }

  function ForOmegas(c: Config, theta: real, phi: real, n: nat): seq<Motion>
    requires n <= |c.omegas|
  {
    if n == 0 then [] else ForOmegas(c, theta, phi, n - 1) + [Goal(c, theta, phi, c.omegas[n - 1])]
  }

  function ForPhis(c: Config, theta: real, n: nat): seq<Motion>
    requires n <= |c.phis|
  {
    if n == 0 then [] else ForPhis(c, theta, n - 1) + ForOmegas(c, theta, c.phis[n - 1], |c.omegas|)
  }

  function ForThetas(c: Config, n: nat): seq<Motion> {
    if n == 0 then [] else ForThetas(c, n - 1) + ForPhis(c, Theta(c, n - 1), |c.phis|)
  }

  function Waypoints(c: Config): seq<Motion>
    requires c.thetaStep > 0.0
  {
    ForThetas(c, Steps(c))
  }

  lemma {:induction false} OmegaLength(c: Config, theta: real, phi: real, n: nat)
    requires n <= |c.omegas|
    ensures |ForOmegas(c, theta, phi, n)| == n
  {
    if n > 0 { OmegaLength(c, theta, phi, n - 1); }
  }

  lemma {:induction false} PhiLength(c: Config, theta: real, n: nat)
    requires n <= |c.phis|
    ensures |ForPhis(c, theta, n)| == n * |c.omegas|
  {
    if n > 0 {
      PhiLength(c, theta, n - 1);
      OmegaLength(c, theta, c.phis[n - 1], |c.omegas|);
      OneMore(n - 1, |c.omegas|);
    }
  }

  lemma {:induction false} ThetaLength(c: Config, n: nat)
    ensures |ForThetas(c, n)| == n * (|c.phis| * |c.omegas|)
  {
    hide ForPhis, Theta;
    if n > 0 {
      ThetaLength(c, n - 1);
      PhiLength(c, Theta(c, n - 1), |c.phis|);
      OneMore(n - 1, |c.phis| * |c.omegas|);
    }
  }

  lemma OneMore(n: nat, m: nat)
    ensures n * m + m == (n + 1) * m
  {
  }

  lemma {:induction false} OmegaAt(c: Config, theta: real, phi: real, n: nat, k: nat)
    requires k < n <= |c.omegas|
    ensures k < |ForOmegas(c, theta, phi, n)|
    ensures ForOmegas(c, theta, phi, n)[k] == Goal(c, theta, phi, c.omegas[k])
  {
    OmegaLength(c, theta, phi, n);
    OmegaLength(c, theta, phi, n - 1);
    if k < n - 1 { OmegaAt(c, theta, phi, n - 1, k); }
  }

  lemma Below(b: nat, n: nat, m: nat, k: nat)
    requires b < n && k < m
    ensures b * m + k < n * m
    ensures b == n - 1 ==> b * m + k == (n - 1) * m + k
    ensures b < n - 1 ==> b * m + k < (n - 1) * m
  {
    assert b * m + m == (b + 1) * m;
    Monotone(b + 1, n, m);
    if b < n - 1 { Monotone(b + 1, n - 1, m); }
  }

  lemma Monotone(a: nat, b: nat, m: nat)
    requires a <= b
    ensures a * m <= b * m
  {
  }

  lemma {:induction false} PhiAt(c: Config, theta: real, n: nat, b: nat, k: nat)
    requires b < n <= |c.phis| && k < |c.omegas|
    ensures b * |c.omegas| + k < |ForPhis(c, theta, n)|
    ensures ForPhis(c, theta, n)[b * |c.omegas| + k] == Goal(c, theta, c.phis[b], c.omegas[k])
  {
    hide Goal;
    var m := |c.omegas|;
    PhiLength(c, theta, n);
    PhiLength(c, theta, n - 1);
    Below(b, n, m, k);
    if b < n - 1 {
      PhiAt(c, theta, n - 1, b, k);
    } else {
      OmegaAt(c, theta, c.phis[b], m, k);
    }
  }

  lemma {:induction false} ThetaAt(c: Config, n: nat, a: nat, j: nat)
    requires a < n && j < |c.phis| * |c.omegas|
    ensures a * (|c.phis| * |c.omegas|) + j < |ForThetas(c, n)|
    ensures |ForPhis(c, Theta(c, a), |c.phis|)| == |c.phis| * |c.omegas|
    ensures ForThetas(c, n)[a * (|c.phis| * |c.omegas|) + j] == ForPhis(c, Theta(c, a), |c.phis|)[j]
  {
    hide ForPhis, Theta;
    ThetaLength(c, n);
    ThetaLength(c, n - 1);
    PhiLength(c, Theta(c, a), |c.phis|);
    Below(a, n, |c.phis| * |c.omegas|, j);
    if a < n - 1 { ThetaAt(c, n - 1, a, j); }
  }

  lemma FlatIndex(a: nat, b: nat, k: nat, p: nat, m: nat)
    ensures (a * p + b) * m + k == a * (p * m) + (b * m + k)
  {
  }

  /** The list holds steps x phis x omegas poses, and the pose of step a, phi b and omega k stands
      at index (a * |phis| + b) * |omegas| + k. */
  lemma WaypointAt(c: Config, a: nat, b: nat, k: nat)
    requires c.thetaStep > 0.0 && Theta(c, a) <= Reach(c) && b < |c.phis| && k < |c.omegas|
    ensures |Waypoints(c)| == Steps(c) * (|c.phis| * |c.omegas|)
    ensures (a * |c.phis| + b) * |c.omegas| + k < |Waypoints(c)|
    ensures Waypoints(c)[(a * |c.phis| + b) * |c.omegas| + k] == Goal(c, Theta(c, a), c.phis[b], c.omegas[k])
  {
    hide Steps, ForThetas, ForPhis, Goal, Theta, Reach;
    StepsIff(c, a);
    ThetaLength(c, Steps(c));
    PhiLength(c, Theta(c, a), |c.phis|);
    PhiAt(c, Theta(c, a), |c.phis|, b, k);
    ThetaAt(c, Steps(c), a, b * |c.omegas| + k);
    FlatIndex(a, b, k, |c.phis|, |c.omegas|);
  }

  /** The angles `turn` gives are angles. */
  ghost predicate Turns(c: Config) { forall degrees: real :: c.turn(degrees).OnCircle() }

  /** A pose carries the segment held at its own three angles, from the centre outwards, to the x axis
      of the hinge. */
  lemma GoalSendsSegment(c: Config, theta: real, phi: real, omega: real, d: real)
    requires Turns(c)
    ensures Goal(c, theta, phi, omega)
            .Apply(DoorMath.Along(c.turn(theta), c.turn(phi), c.turn(omega), c.r, c.l, c.h, d))
         == c.hinge.Apply(V3(d, 0.0, 0.0))
  {
    hide DoorMath.Along, DoorMath.ComputeWorldTTarget, DoorMath.ComputeC, Motion.Mul, Motion.Apply, Angle.OnCircle;
    var (t, p, w) := (c.turn(theta), c.turn(phi), c.turn(omega));
    DoorMath.SegmentGoesToAxis(t, p, w, c.r, c.l, c.h, d);
    ApplyProduct(c.hinge, DoorMath.ComputeWorldTTarget(t, p, w, c.r, c.l, c.h),
                 DoorMath.Along(t, p, w, c.r, c.l, c.h, d));
  }

  lemma WaypointIs(c: Config, a: nat, b: nat, k: nat, i: nat, theta: real)
    requires c.thetaStep > 0.0 && b < |c.phis| && k < |c.omegas|
    requires theta == Theta(c, a) && theta <= Reach(c)
    requires i == (a * |c.phis| + b) * |c.omegas| + k
    ensures i < |Waypoints(c)| && Waypoints(c)[i] == Goal(c, theta, c.phis[b], c.omegas[k])
  {
    hide Waypoints, Goal, Theta, Reach, Steps;
    WaypointAt(c, a, b, k);
  }

  /** The pose of step a, phi b and omega k carries the segment held at a steps of the door, the b-th
      phi and the k-th omega to the x axis of the hinge. */
  lemma WaypointSendsSegment(c: Config, a: nat, b: nat, k: nat, i: nat, theta: real, d: real)
    requires c.thetaStep > 0.0 && Turns(c) && b < |c.phis| && k < |c.omegas|
    requires theta == a as real * c.thetaStep && theta <= c.thetaMax + 0.000000001
    requires i == (a * |c.phis| + b) * |c.omegas| + k
    ensures i < |Waypoints(c)|
    ensures Waypoints(c)[i]
            .Apply(DoorMath.Along(c.turn(theta), c.turn(c.phis[b]), c.turn(c.omegas[k]), c.r, c.l, c.h, d))
         == c.hinge.Apply(V3(d, 0.0, 0.0))
  {
    hide Waypoints, Goal, DoorMath.Along, Motion.Apply, Turns, Steps;
    WaypointIs(c, a, b, k, i, theta);
    GoalSendsSegment(c, theta, c.phis[b], c.omegas[k], d);
  }

  /** The list is empty exactly when there is nothing to combine. */
  lemma EmptyIff(c: Config)
    requires c.thetaStep > 0.0
    ensures Waypoints(c) == [] <==> c.thetaMax < -0.000000001 || c.phis == [] || c.omegas == []
  {
    hide Steps, ForThetas, ForPhis, Goal, Theta;
    StepsIff(c, 0);
    assert Theta(c, 0) == 0.0 by { FirstTheta(c); }
    if Steps(c) > 0 && c.phis != [] && c.omegas != [] {
      WaypointAt(c, 0, 0, 0);
    } else {
      ThetaLength(c, Steps(c));
      ZeroFactor(Steps(c), |c.phis|, |c.omegas|);
    }
  }

  lemma FirstTheta(c: Config)
    ensures Theta(c, 0) == 0.0
  {
  }

  lemma ZeroFactor(a: nat, b: nat, m: nat)
    requires a == 0 || b == 0 || m == 0
    ensures a * (b * m) == 0
  {
  }

  lemma NextTheta(c: Config, a: nat)
    ensures Theta(c, a) + c.thetaStep == Theta(c, a + 1)
    ensures ForThetas(c, a + 1) == ForThetas(c, a) + ForPhis(c, Theta(c, a), |c.phis|)
  {
  }

  lemma NextOmega(c: Config, theta: real, phi: real, k: nat)
    requires k < |c.omegas|
    ensures ForOmegas(c, theta, phi, k + 1) == ForOmegas(c, theta, phi, k) + [Goal(c, theta, phi, c.omegas[k])]
  {
  }

  lemma NextPhi(c: Config, theta: real, b: nat)
    requires b < |c.phis|
    ensures ForPhis(c, theta, b + 1) == ForPhis(c, theta, b) + ForOmegas(c, theta, c.phis[b], |c.omegas|)
  {
  }

  lemma NothingYet(c: Config)
    ensures forall theta: real, phi: real :: ForOmegas(c, theta, phi, 0) == []
    ensures forall theta: real :: ForPhis(c, theta, 0) == []
    ensures ForThetas(c, 0) == []
  {
  }

  /** The three nested loops. */
  method Prepare(c: Config) returns (w: seq<Motion>)
    requires c.thetaStep > 0.0
    ensures w == Waypoints(c)
  {
    hide Goal, Steps, Theta, Reach, ForOmegas, ForPhis, ForThetas;
    w := [];
    var theta := 0.0;
    ghost var a: nat := 0;
    NothingYet(c);
    FirstTheta(c);
    StepsIff(c, 0);
    while theta <= Reach(c)
      invariant theta == Theta(c, a) && a <= Steps(c) && w == ForThetas(c, a)
      invariant a < Steps(c) <==> theta <= Reach(c)
      decreases Steps(c) - a
    {
      ghost var before := w;
      for b := 0 to |c.phis|
        invariant w == before + ForPhis(c, theta, b)
      {
        ghost var row := w;
        for k := 0 to |c.omegas|
          invariant w == row + ForOmegas(c, theta, c.phis[b], k)
        {
          NextOmega(c, theta, c.phis[b], k);
          w := w + [Goal(c, theta, c.phis[b], c.omegas[k])];
        }
        NextPhi(c, theta, b);
      }
      NextTheta(c, a);
      StepsIff(c, a + 1);
      theta := theta + c.thetaStep;
      a := a + 1;
    }
  }
}
