/** The door trajectory action: a behaviour tree node that plans an approach and then one pose after
    another, one step of its state machine at every tick. */
module DoorTrajectory {
  import opened Sensors
  import opened RigidMotions
  import DoorMath
  import opened DoorWaypoints

  datatype State = IDLE | APPROACH_HOME | PLAN_APPROACH | EXECUTE_APPROACH | PREPARE_WAYPOINTS
                 | PLANNING_WAYPOINT | EXECUTING_WAYPOINT | WAITING_COMPLETION | DONE | ERROR

  datatype Status = RUNNING | SUCCESS | FAILURE

  /** What the rest of the robot answers at one tick: whether the idle delay is over, whether the
      arm is at home or moves there, whether planning and moving to a pose succeeds. */
  datatype World = World(idleOver: bool, atHome: bool, homeOk: bool, poseOk: bool)

  /** One call of the planner. */
  datatype Attempt = Attempt(goal: Motion, ok: bool)

  /** What the shared planning scene holds of the door: nothing, or its frame and its panel at an angle. */
  datatype Scene = NoDoor | Door(theta: real)

  /** The node, the scene it shares with the rest of the robot, and the planner calls of this run. */
  datatype Node = Node(state: State, current: nat, waypoints: seq<Motion>, approach: Motion,
                       added: bool, connected: bool, scene: Scene, attempts: seq<Attempt>)

  function Start(n: Node): Node {
    n.(state := IDLE, current := 0, waypoints := [], added := false, connected := false, attempts := [])
  }

  function Halt(n: Node): Node {
    var m := if n.connected && n.added then n.(scene := NoDoor, added := false) else n;
    m.(state := IDLE)
  }

  function Approach(c: Config): Motion { Goal(c, 0.0, 0.0, 0.0) }

  /** The door objects are put in the scene once, then the panel is moved to angle zero. */
  function ShowDoor(n: Node): Node {
    var m := if n.added then n else n.(connected := true, scene := Door(0.0), added := true);
    if m.connected then m.(scene := Door(0.0)) else m
  }

  function TryPose(n: Node, goal: Motion, ok: bool, next: State): Node {
    n.(attempts := n.attempts + [Attempt(goal, ok)], state := if ok then next else ERROR)
  }

  function StatusOf(s: State): Status {
    if s == DONE then SUCCESS else if s == ERROR then FAILURE else RUNNING
  }

  function Tick(c: Config, n: Node, w: World): Node
    requires c.thetaStep > 0.0
  {
    match n.state
    case IDLE => if w.idleOver then n.(state := APPROACH_HOME) else n
    case APPROACH_HOME =>
      if w.atHome || w.homeOk then n.(approach := Approach(c), state := PLAN_APPROACH) else n.(state := ERROR)
    case PLAN_APPROACH => TryPose(ShowDoor(n), n.approach, w.poseOk, EXECUTE_APPROACH)
    case EXECUTE_APPROACH => n.(state := PREPARE_WAYPOINTS)
    case PREPARE_WAYPOINTS =>
      n.(waypoints := Waypoints(c), current := 0, state := if Waypoints(c) == [] then ERROR else PLANNING_WAYPOINT)
    case PLANNING_WAYPOINT =>
      if n.current >= |n.waypoints| then n.(state := DONE)
      else TryPose(n, n.waypoints[n.current], w.poseOk, EXECUTING_WAYPOINT)
    case EXECUTING_WAYPOINT => n.(state := WAITING_COMPLETION)
    case WAITING_COMPLETION =>
      n.(current := n.current + 1, state := if n.current + 1 >= |n.waypoints| then DONE else PLANNING_WAYPOINT)
    case DONE => n
    case ERROR => n
  }

  /** The node after one tick for each answer of the world. */
  function Ticks(c: Config, n: Node, ws: seq<World>): Node
    requires c.thetaStep > 0.0
  {
    if ws == [] then n else Tick(c, Ticks(c, n, ws[..|ws| - 1]), ws[|ws| - 1])
  }

  // ---------- What a run plans ----------

  function Goals(tries: seq<Attempt>): (g: seq<Motion>)
    ensures |g| == |tries|
  {
    seq(|tries|, i requires 0 <= i < |tries| => tries[i].goal)
  }

  /** The poses a full run plans, in order. */
  function Plan(c: Config): seq<Motion>
    requires c.thetaStep > 0.0
  {
    [Approach(c)] + Waypoints(c)
  }

  ghost predicate AllOk(tries: seq<Attempt>) {
    forall i :: 0 <= i < |tries| ==> tries[i].ok
  }

  /** The first k poses of the plan were asked for, in order, and reached. */
  ghost predicate Reached(c: Config, n: Node, k: nat)
    requires c.thetaStep > 0.0
  {
    k <= |Plan(c)| && Goals(n.attempts) == Plan(c)[..k] && AllOk(n.attempts)
  }

  /** A pose of the plan failed after those before it were reached. */
  ghost predicate Failed(c: Config, n: Node)
    requires c.thetaStep > 0.0
  {
    var k := |n.attempts|;
    && 0 < k <= |Plan(c)| && Goals(n.attempts) == Plan(c)[..k]
    && AllOk(n.attempts[..k - 1]) && !n.attempts[k - 1].ok
  }

  /** What holds of a node that was started, after any number of ticks. */
  ghost predicate Consistent(c: Config, n: Node)
    requires c.thetaStep > 0.0
  {
    match n.state
    case IDLE => Reached(c, n, 0)
    case APPROACH_HOME => Reached(c, n, 0)
    case PLAN_APPROACH => Reached(c, n, 0) && n.approach == Approach(c)
    case EXECUTE_APPROACH => Reached(c, n, 1)
    case PREPARE_WAYPOINTS => Reached(c, n, 1)
    case PLANNING_WAYPOINT =>
      n.waypoints == Waypoints(c) && n.current < |n.waypoints| && Reached(c, n, n.current + 1)
    case EXECUTING_WAYPOINT =>
      n.waypoints == Waypoints(c) && n.current < |n.waypoints| && Reached(c, n, n.current + 2)
    case WAITING_COMPLETION =>
      n.waypoints == Waypoints(c) && n.current < |n.waypoints| && Reached(c, n, n.current + 2)
    case DONE => Waypoints(c) != [] && Reached(c, n, |Plan(c)|)
    case ERROR => Failed(c, n) || Reached(c, n, 0) || (Waypoints(c) == [] && Reached(c, n, 1))
  }

  lemma TryReaches(c: Config, n: Node, k: nat, goal: Motion, ok: bool, next: State)
    requires c.thetaStep > 0.0 && Reached(c, n, k) && k < |Plan(c)| && goal == Plan(c)[k]
    ensures var m := TryPose(n, goal, ok, next);
            (ok ==> Reached(c, m, k + 1)) && (!ok ==> Failed(c, m))
  {
    hide Plan;
    var m := TryPose(n, goal, ok, next);
    assert Goals(m.attempts) == Goals(n.attempts) + [goal];
    assert Plan(c)[..k + 1] == Plan(c)[..k] + [Plan(c)[k]];
    assert m.attempts[..|m.attempts| - 1] == n.attempts;
  }

  lemma SameAttempts(c: Config, n: Node, m: Node, k: nat)
    requires c.thetaStep > 0.0 && m.attempts == n.attempts
    ensures (Reached(c, n, k) ==> Reached(c, m, k)) && (Failed(c, n) ==> Failed(c, m))
  {
  }

  /** Every tick keeps the node consistent. */
  lemma TickIsConsistent(c: Config, n: Node, w: World)
    requires c.thetaStep > 0.0 && Consistent(c, n)
    ensures Consistent(c, Tick(c, n, w))
  {
    hide Reached, Failed, Approach, Waypoints;
    var m := Tick(c, n, w);
    match n.state
    case PLAN_APPROACH =>
      SameAttempts(c, n, ShowDoor(n), 0);
      TryReaches(c, ShowDoor(n), 0, n.approach, w.poseOk, EXECUTE_APPROACH);
    case PLANNING_WAYPOINT =>
      TryReaches(c, n, n.current + 1, n.waypoints[n.current], w.poseOk, EXECUTING_WAYPOINT);
    case WAITING_COMPLETION =>
      SameAttempts(c, n, m, n.current + 2);
    case DONE =>
    case EXECUTE_APPROACH => SameAttempts(c, n, m, 1);
    case PREPARE_WAYPOINTS => SameAttempts(c, n, m, 1);
    case EXECUTING_WAYPOINT => SameAttempts(c, n, m, n.current + 2);
    case ERROR =>
    case IDLE => SameAttempts(c, n, m, 0);
    case APPROACH_HOME => SameAttempts(c, n, m, 0);
  }

  /** So it is consistent after a start and any ticks, whatever came before. */
  lemma {:induction false} RunIsConsistent(c: Config, n: Node, ws: seq<World>)
    requires c.thetaStep > 0.0
    ensures Consistent(c, Ticks(c, Start(n), ws))
  {
    if ws != [] {
      hide Tick, Consistent;
      RunIsConsistent(c, n, ws[..|ws| - 1]);
      TickIsConsistent(c, Ticks(c, Start(n), ws[..|ws| - 1]), ws[|ws| - 1]);
    }
  }

  /** At every point of every run the planner was asked for the first poses of the plan, each once
      and in order, and only the last of them can have failed. */
  lemma PlansInOrder(c: Config, n: Node, ws: seq<World>)
    requires c.thetaStep > 0.0
    ensures var tries := Ticks(c, Start(n), ws).attempts;
            && Goals(tries) <= Plan(c)
            && (tries != [] ==> AllOk(tries[..|tries| - 1]))
  {
    hide Ticks, Plan, Waypoints;
    RunIsConsistent(c, n, ws);
  }

  /** A run reports success only after every pose of the plan was asked for, in order, and reached. */
  lemma SuccessIsComplete(c: Config, n: Node, ws: seq<World>)
    requires c.thetaStep > 0.0 && StatusOf(Ticks(c, Start(n), ws).state) == SUCCESS
    ensures Goals(Ticks(c, Start(n), ws).attempts) == Plan(c) && AllOk(Ticks(c, Start(n), ws).attempts)
    ensures Waypoints(c) != []
  {
    hide Ticks, Plan, Waypoints;
    RunIsConsistent(c, n, ws);
    assert Plan(c)[..|Plan(c)|] == Plan(c);
  }

  /** The branch that finds no waypoint left when about to plan one is never taken. */
  lemma AlwaysAWaypointToPlan(c: Config, n: Node, ws: seq<World>)
    requires c.thetaStep > 0.0 && Ticks(c, Start(n), ws).state == PLANNING_WAYPOINT
    ensures Ticks(c, Start(n), ws).current < |Ticks(c, Start(n), ws).waypoints|
  {
  }

  /** Once a run has ended, it stays as it is. */
  lemma {:induction false} EndIsFinal(c: Config, n: Node, ws: seq<World>)
    requires c.thetaStep > 0.0 && StatusOf(n.state) != RUNNING
    ensures Ticks(c, n, ws) == n
  {
    if ws != [] { EndIsFinal(c, n, ws[..|ws| - 1]); }
  }

  // ---------- How a run starts ----------

  lemma TickLeavesIdleIff(c: Config, n: Node, w: World)
    requires c.thetaStep > 0.0
    ensures Tick(c, n, w).state == IDLE <==> n.state == IDLE && !w.idleOver
  {
  }

  /** A run does nothing until a tick finds the idle delay over. */
  lemma {:induction false} IdleWaitsIff(c: Config, n: Node, ws: seq<World>)
    requires c.thetaStep > 0.0
    ensures Ticks(c, Start(n), ws).state == IDLE <==> forall i :: 0 <= i < |ws| ==> !ws[i].idleOver
  {
    if ws != [] {
      hide Tick;
      var before := ws[..|ws| - 1];
      IdleWaitsIff(c, n, before);
      TickLeavesIdleIff(c, Ticks(c, Start(n), before), ws[|ws| - 1]);
      assert ws == before + [ws[|ws| - 1]];
    }
  }

  /** A node whose idle delay is over. */
  ghost predicate Begun(c: Config, n: Node)
    requires c.thetaStep > 0.0
  {
    Consistent(c, n) && n.state == APPROACH_HOME
  }

  /** The arm is away from home and does not get there. */
  predicate Stuck(w: World) { !w.atHome && !w.homeOk }

  lemma {:induction false} PastHome(c: Config, n: Node, ws: seq<World>)
    requires c.thetaStep > 0.0 && n.state == APPROACH_HOME && n.attempts == [] && ws != [] && !Stuck(ws[0])
    ensures var m := Ticks(c, n, ws); m.state == PLAN_APPROACH || m.attempts != []
  {
    hide Waypoints, Approach;
    var before := ws[..|ws| - 1];
    if before == [] {
      assert Ticks(c, n, before) == n;
    } else {
      PastHome(c, n, before);
    }
  }

  /** Once the idle delay is over, the run ends in failure without a pose planned exactly when the
      arm is not at home and the move there fails. */
  lemma HomeFailsIff(c: Config, n: Node, ws: seq<World>)
    requires c.thetaStep > 0.0 && Begun(c, n) && ws != []
    ensures var m := Ticks(c, n, ws);
            StatusOf(m.state) == FAILURE && m.attempts == [] <==> !ws[0].atHome && !ws[0].homeOk
  {
    hide Waypoints, Approach, Ticks;
    if Stuck(ws[0]) {
      StuckEnds(c, n, ws);
    } else {
      PastHome(c, n, ws);
    }
  }

  lemma {:induction false} StuckEnds(c: Config, n: Node, ws: seq<World>)
    requires c.thetaStep > 0.0 && n.state == APPROACH_HOME && ws != [] && Stuck(ws[0])
    ensures Ticks(c, n, ws) == n.(state := ERROR)
  {
    hide Waypoints, Approach;
    var before := ws[..|ws| - 1];
    if before == [] {
      assert Ticks(c, n, before) == n;
    } else {
      StuckEnds(c, n, before);
    }
  }

  /** The approach pose is that of the closed, untilted door: it carries the segment held there to the
      x axis of the hinge. */
  lemma ApproachSendsSegment(c: Config, d: real)
    requires Turns(c)
    ensures var zero := c.turn(0.0);
            Approach(c).Apply(DoorMath.Along(zero, zero, zero, c.r, c.l, c.h, d)) == c.hinge.Apply(V3(d, 0.0, 0.0))
  {
    hide Goal, DoorMath.Along, Motion.Apply;
    GoalSendsSegment(c, 0.0, 0.0, 0.0, d);
  }

  // ---------- How long a run takes ----------

  /** Ticks left once the idle delay is over, if nothing fails. */
  function Left(c: Config, n: Node): int
    requires c.thetaStep > 0.0
  {
    var count := |Waypoints(c)|;
    match n.state
    case IDLE => 3 * count + 5
    case APPROACH_HOME => 3 * count + 4
    case PLAN_APPROACH => 3 * count + 3
    case EXECUTE_APPROACH => 3 * count + 2
    case PREPARE_WAYPOINTS => 3 * count + 1
    case PLANNING_WAYPOINT => 3 * (count - n.current)
    case EXECUTING_WAYPOINT => 3 * (count - n.current) - 1
    case WAITING_COMPLETION => 3 * (count - n.current) - 2
    case DONE => 0
    case ERROR => 0
  }

  predicate Good(w: World) { w.idleOver && w.homeOk && w.poseOk }

  /** A running node uses up exactly one of its remaining ticks, or fails. */
  lemma TickCounts(c: Config, n: Node, w: World)
    requires c.thetaStep > 0.0 && Consistent(c, n) && StatusOf(n.state) == RUNNING && (n.state == IDLE ==> w.idleOver)
    ensures var m := Tick(c, n, w);
            && Left(c, n) > 0
            && (m.state == ERROR || Left(c, m) == Left(c, n) - 1)
            && (Good(w) && Waypoints(c) != [] ==> m.state != ERROR)
  {
    hide Reached, Failed, Approach, Waypoints;
  }

  /** However the world answers, a run has ended 3 N + 4 ticks after the idle delay, N being the
      number of waypoints; before that it is over only by failing. */
  lemma {:induction false} RunEnds(c: Config, n: Node, ws: seq<World>)
    requires c.thetaStep > 0.0 && Begun(c, n)
    ensures var m := Ticks(c, n, ws);
            && Consistent(c, m)
            && (m.state == ERROR || (m.state != IDLE && Left(c, m) == OrZero(3 * |Waypoints(c)| + 4 - |ws|)))
    ensures |ws| >= 3 * |Waypoints(c)| + 4 ==> StatusOf(Ticks(c, n, ws).state) != RUNNING
  {
    if ws != [] {
      var before := Ticks(c, n, ws[..|ws| - 1]);
      hide Consistent, Left;
      RunEnds(c, n, ws[..|ws| - 1]);
      NextTick(c, before, ws[|ws| - 1]);
    }
    LeftIsZeroIff(c, Ticks(c, n, ws));
  }

  function OrZero(a: int): nat { if a > 0 then a else 0 }

  lemma NextTick(c: Config, n: Node, w: World)
    requires c.thetaStep > 0.0 && Consistent(c, n) && n.state != IDLE
    ensures var m := Tick(c, n, w);
            && Consistent(c, m) && m.state != IDLE
            && (m.state == ERROR || Left(c, m) == OrZero(Left(c, n) - 1))
            && (n.state != ERROR && Good(w) && Waypoints(c) != [] ==> m.state != ERROR)
  {
    hide Consistent;
    TickIsConsistent(c, n, w);
    if StatusOf(n.state) == RUNNING { TickCounts(c, n, w); }
  }

  lemma LeftIsZeroIff(c: Config, n: Node)
    requires c.thetaStep > 0.0 && Consistent(c, n)
    ensures Left(c, n) >= 0 && (Left(c, n) == 0 <==> StatusOf(n.state) != RUNNING)
  {
  }

  /** If nothing fails and there is a waypoint, success comes with tick 3 N + 4 and not before. */
  lemma {:induction false} GoodRunTakes(c: Config, n: Node, ws: seq<World>)
    requires c.thetaStep > 0.0 && Begun(c, n) && Waypoints(c) != []
    requires forall i :: 0 <= i < |ws| ==> Good(ws[i])
    ensures StatusOf(Ticks(c, n, ws).state) == if |ws| < 3 * |Waypoints(c)| + 4 then RUNNING else SUCCESS
  {
    NeverFails(c, n, ws);
    RunEnds(c, n, ws);
    hide Consistent, Left, Ticks;
    LeftIsZeroIff(c, Ticks(c, n, ws));
  }

  lemma {:induction false} NeverFails(c: Config, n: Node, ws: seq<World>)
    requires c.thetaStep > 0.0 && Begun(c, n) && Waypoints(c) != []
    requires forall i :: 0 <= i < |ws| ==> Good(ws[i])
    ensures Ticks(c, n, ws).state != ERROR && Ticks(c, n, ws).state != IDLE && Consistent(c, Ticks(c, n, ws))
  {
    if ws != [] {
      hide Consistent, Left;
      NeverFails(c, n, ws[..|ws| - 1]);
      NextTick(c, Ticks(c, n, ws[..|ws| - 1]), ws[|ws| - 1]);
    }
  }

  // ---------- The door in the planning scene ----------

  /** After a start and any ticks: the run owns a door in the scene once it has planned, and before
      that the scene is as the run found it. */
  lemma {:induction false} SceneOfRun(c: Config, n: Node, ws: seq<World>)
    requires c.thetaStep > 0.0
    ensures var m := Ticks(c, Start(n), ws);
            && m.connected == m.added == (m.attempts != [])
            && m.scene == (if m.added then Door(0.0) else n.scene)
  {
    if ws != [] {
      hide Tick;
      SceneOfRun(c, n, ws[..|ws| - 1]);
      RunIsConsistent(c, n, ws[..|ws| - 1]);
      TickScene(c, Ticks(c, Start(n), ws[..|ws| - 1]), ws[|ws| - 1], n.scene);
    }
  }

  lemma TickScene(c: Config, n: Node, w: World, was: Scene)
    requires c.thetaStep > 0.0 && n.connected == n.added == (n.attempts != [])
    requires n.scene == (if n.added then Door(0.0) else was)
    requires n.state == PLANNING_WAYPOINT ==> n.added
    ensures var m := Tick(c, n, w);
            m.connected == m.added == (m.attempts != []) && m.scene == (if m.added then Door(0.0) else was)
  {
  }

  /** Halting a run leaves no door behind exactly when the run had asked the planner for a pose, or
      found no door. */
  lemma HaltCleansIff(c: Config, n: Node, ws: seq<World>)
    requires c.thetaStep > 0.0
    ensures Halt(Ticks(c, Start(n), ws)).scene == NoDoor <==> Ticks(c, Start(n), ws).attempts != [] || n.scene == NoDoor
  {
    hide Ticks;
    SceneOfRun(c, n, ws);
  }

  /** A run that finds the door of an earlier one and is halted at once leaves it there. */
  lemma HaltExample(c: Config)
    requires c.thetaStep > 0.0
    ensures var n := Node(DONE, 0, [], NO_MOTION, true, true, Door(0.0), []);
            Halt(Ticks(c, Start(n), [])).scene == Door(0.0)
  {
    HaltCleansIff(c, Node(DONE, 0, [], NO_MOTION, true, true, Door(0.0), []), []);
  }

  /** A run that succeeds leaves the door, closed, in the scene, and the next start does not remove it. */
  lemma SuccessLeavesDoor(c: Config, n: Node, ws: seq<World>)
    requires c.thetaStep > 0.0 && StatusOf(Ticks(c, Start(n), ws).state) == SUCCESS
    ensures Ticks(c, Start(n), ws).scene == Start(Ticks(c, Start(n), ws)).scene == Door(0.0)
  {
    hide Ticks;
    SceneOfRun(c, n, ws);
    RunIsConsistent(c, n, ws);
  }

  class DoorTrajectoryAction {
    var config: Config
    var state: State
    var current: nat
    var waypoints: seq<Motion>
    var approach: Motion
    var added: bool
    var connected: bool
    var scene: Scene
    ghost var attempts: seq<Attempt>

    ghost function View(): Node
      reads this
    {
      Node(state, current, waypoints, approach, added, connected, scene, attempts)
    }

    constructor (c: Config, scene: Scene)
      ensures config == c && View() == Node(IDLE, 0, [], NO_MOTION, false, false, scene, [])
    {
      config := c;
      state, current, waypoints, approach := IDLE, 0, [], NO_MOTION;
      added, connected := false, false;
      this.scene, attempts := scene, [];
    }

    /** Without a ROS node nothing is read and nothing is reset. */
    method OnStart(found: bool, ports: Config) returns (s: Status)
      modifies this
      ensures s == if found then RUNNING else FAILURE
      ensures config == if found then ports else old(config)
      ensures View() == if found then Start(old(View())) else old(View())
    {
      if !found { return FAILURE; }
      config := ports;
      state := IDLE;
      current := 0;
      waypoints := [];
      added := false;
      connected := false;
      attempts := [];
      return RUNNING;
    }

    method SetupDoorCollisionObjects()
      modifies this`added, this`connected, this`scene
      ensures added && connected == (old(connected) || !old(added))
      ensures scene == if old(added) then old(scene) else Door(0.0)
    {
      if added { return; }
      connected := true;
      scene := Door(0.0);
      added := true;
    }

    method UpdateDoorPose(theta: real)
      modifies this`scene
      ensures scene == if connected then Door(theta) else old(scene)
    {
      if connected { scene := Door(theta); }
    }

    method PlanAndExecuteToPose(goal: Motion, w: World) returns (ok: bool)
      modifies this`attempts
      ensures ok == w.poseOk && attempts == old(attempts) + [Attempt(goal, ok)]
    {
      ok := w.poseOk;
      attempts := attempts + [Attempt(goal, ok)];
    }

    /** One tick of the state machine, with the status it reports. */
    method OnRunning(w: World) returns (s: Status)
      requires config.thetaStep > 0.0
      modifies this
      ensures config == old(config) && View() == Tick(config, old(View()), w) && s == StatusOf(state)
    {
      hide Waypoints, Goal;
      match state {
        case IDLE =>
          if w.idleOver { state := APPROACH_HOME; }
          return RUNNING;
        case APPROACH_HOME =>
          if w.atHome || w.homeOk {
            approach := Goal(config, 0.0, 0.0, 0.0);
            state := PLAN_APPROACH;
            return RUNNING;
          }
          state := ERROR;
          return FAILURE;
        case PLAN_APPROACH =>
          s := RunApproach(w);
        case EXECUTE_APPROACH =>
          state := PREPARE_WAYPOINTS;
          return RUNNING;
        case PREPARE_WAYPOINTS =>
          current := 0;
          waypoints := Prepare(config);
          if |waypoints| == 0 {
            state := ERROR;
            return FAILURE;
          }
          state := PLANNING_WAYPOINT;
          return RUNNING;
        case PLANNING_WAYPOINT =>
          s := RunWaypoint(w);
        case EXECUTING_WAYPOINT =>
          state := WAITING_COMPLETION;
          return RUNNING;
        case WAITING_COMPLETION =>
          current := current + 1;
          if current >= |waypoints| {
            state := DONE;
            return SUCCESS;
          }
          state := PLANNING_WAYPOINT;
          return RUNNING;
        case DONE => return SUCCESS;
        case ERROR => return FAILURE;
      }
    }

    method RunApproach(w: World) returns (s: Status)
      requires state == PLAN_APPROACH
      modifies this
      ensures config == old(config)
      ensures View() == TryPose(ShowDoor(old(View())), old(approach), w.poseOk, EXECUTE_APPROACH)
      ensures s == StatusOf(state)
    {
      SetupDoorCollisionObjects();
      UpdateDoorPose(0.0);
      var ok := PlanAndExecuteToPose(approach, w);
      if ok {
        state := EXECUTE_APPROACH;
        return RUNNING;
      }
      state := ERROR;
      return FAILURE;
    }

    method RunWaypoint(w: World) returns (s: Status)
      requires state == PLANNING_WAYPOINT
      modifies this
      ensures config == old(config)
      ensures View() == if old(current) >= |old(waypoints)| then old(View()).(state := DONE)
                        else TryPose(old(View()), old(waypoints)[old(current)], w.poseOk, EXECUTING_WAYPOINT)
      ensures s == StatusOf(state)
    {
      if current >= |waypoints| {
        state := DONE;
        return SUCCESS;
      }
      var ok := PlanAndExecuteToPose(waypoints[current], w);
      if ok {
        state := EXECUTING_WAYPOINT;
        return RUNNING;
      }
      state := ERROR;
      return FAILURE;
    }

    /** Removes the door from the scene if this run put it there. */
    method OnHalted()
      modifies this
      ensures config == old(config) && View() == Halt(old(View()))
    {
      if connected && added {
        scene := NoDoor;
        added := false;
      }
      state := IDLE;
    }
  }
}
