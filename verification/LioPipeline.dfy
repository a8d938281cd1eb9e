/** The processing loop that joins scan pairing with the inertial clock, and the conservation of
    time over whole runs of it. */
module LioPipeline {
  import opened Sensors
  import opened LidarImuSync
  import P = ImuProcess

  /** One undistorted scan: where the filter stood, where the scan ends, the steps in between. */
  datatype Undistorted = Undistorted(from: real, end: real, steps: seq<real>)

  datatype System = System(tr: Trace, first: bool, clock: P.Clock, done: seq<Undistorted>)

  /** What the loop does with a group: the very first is dropped, the rest go to the clock. The
      result is the flag, the clock and the prediction steps. */
  function Handle(first: bool, clock: P.Clock, g: Group): (bool, P.Clock, seq<real>) {
    if first then (false, clock, []) else (false, P.Process(clock, g).0, P.Process(clock, g).1)
  }

  function Consume(s: System, g: Group): System {
    var r := Handle(s.first, s.clock, g);
    s.(first := r.0, clock := r.1,
       done := if s.first || s.clock.needInit || g.imu == [] then s.done
               else s.done + [Undistorted(s.clock.lastEnd, g.endTime, r.2)])
  }

  function SystemStep(s: System, e: Event): (r: System)
    requires Covered(s.tr.s)
    ensures r.tr == Step(s.tr, e)
  {
    var tr := Step(s.tr, e);
    if |tr.groups| > |s.tr.groups| then Consume(s.(tr := tr), tr.groups[|tr.groups| - 1])
    else s.(tr := tr)
  }

  /** The clock starts with no scan seen; its last scan end and sample are arbitrary. */
  function SystemRun(start: P.Clock, events: seq<Event>): (s: System)
    ensures s.tr == Run(events)
  {
    if events == [] then System(Run([]), true, start, [])
    else SystemStep(SystemRun(start, events[..|events| - 1]), events[|events| - 1])
  }

  // ---------- What the clock has seen ----------

  /** The clock after these groups. */
  function ClockAfter(start: P.Clock, groups: seq<Group>): P.Clock {
    if groups == [] then start
    else P.Process(ClockAfter(start, groups[..|groups| - 1]), groups[|groups| - 1]).0
  }

  lemma StepAddsAGroup(tr: Trace, e: Event)
    requires Covered(tr.s)
    ensures var gs := Step(tr, e).groups;
            gs == tr.groups || (|gs| == |tr.groups| + 1 && gs[..|tr.groups|] == tr.groups)
  {
    hide Sync;
  }

  /** In every run the clock has processed every group handed out but the first, once and in order. */
  lemma {:induction false} ClockSeesAllButFirst(start: P.Clock, events: seq<Event>)
    ensures var s, gs := SystemRun(start, events), Run(events).groups;
            && (s.first <==> gs == [])
            && s.clock == ClockAfter(start, if gs == [] then [] else gs[1..])
  {
    if events != [] {
      hide P.Process, Step;
      var before := events[..|events| - 1];
      ClockSeesAllButFirst(start, before);
      StepAddsAGroup(Run(before), events[|events| - 1]);
      var old', gs := Run(before).groups, Run(events).groups;
      if gs != old' && old' != [] {
        assert gs[1..][..|gs| - 2] == old'[1..];
      }
    }
  }

  lemma {:induction false} InitialisingIff(start: P.Clock, groups: seq<Group>)
    requires start.needInit && start.count == 1
    ensures var c := ClockAfter(start, groups);
            && (c.needInit <==> |ImuOf(groups)| < 10)
            && (c.needInit ==> c.count == 1 + |ImuOf(groups)|)
  {
    if groups != [] {
      hide P.PredictSteps;
      InitialisingIff(start, groups[..|groups| - 1]);
    }
  }

  /** In every run the start-up phase is over exactly when the groups after the first have brought
      ten samples or more. */
  lemma StartUpEndsIff(start: P.Clock, events: seq<Event>)
    requires start.needInit && start.count == 1
    ensures var gs := Run(events).groups;
            !SystemRun(start, events).clock.needInit <==> gs != [] && |ImuOf(gs[1..])| >= 10
  {
    var gs := Run(events).groups;
    ClockSeesAllButFirst(start, events);
    InitialisingIff(start, if gs == [] then [] else gs[1..]);
  }

  // ---------- What a run keeps ----------

  /** t is no later than the end of some group handed out, hence than every waiting sample. */
  ghost predicate Behind(tr: Trace, t: real) {
    exists k :: 0 <= k < |tr.groups| && t <= tr.groups[k].endTime
  }

  /** Consecutive undistorted scans share their boundary, all steps are nonnegative, and the steps
      of each scan but the first run exactly from the previous end to its own. */
  ghost predicate TimeConserved(done: seq<Undistorted>) {
    && (forall k :: 0 <= k < |done| ==> P.Nonnegative(done[k].steps))
    && (forall k :: 1 <= k < |done| ==>
          && done[k].from == done[k - 1].end
          && P.Total(done[k].steps) == done[k].end - done[k - 1].end)
  }

  ghost predicate Keeps(s: System) {
    && TimeConserved(s.done)
    && (!s.clock.needInit ==> Behind(s.tr, s.clock.lastImu.stamp))
    && (s.done != [] ==>
          && !s.clock.needInit
          && s.clock.lastEnd == s.done[|s.done| - 1].end
          && s.clock.lastImu.stamp <= s.clock.lastEnd
          && Behind(s.tr, s.clock.lastEnd))
  }

  lemma BehindBuffer(tr: Trace, t: real, imu: seq<Imu>)
    requires Behind(tr, t) && GroupsClosed(tr.groups, imu)
    ensures AllAtLeast(imu, t)
  {
  }

  lemma BehindGrows(tr: Trace, tr': Trace, t: real)
    requires Behind(tr, t) && |tr.groups| <= |tr'.groups| && tr.groups == tr'.groups[..|tr.groups|]
    ensures Behind(tr', t)
  {
  }

  /** What the pairing promises about the group it has just handed out. */
  lemma NewGroup(tr: Trace)
    requires Covered(tr.s) && Delivered(tr) && Delivered(Step(tr, SyncCall)) && Sync(tr.s).1
    ensures var g := Sync(tr.s).0.meas;
            && Ordered(g.imu) && AllAtMost(g.imu, g.endTime)
            && g.imu <= tr.s.imu
  {
    hide Delivered, Ordered, AllAtMost, AllAtLeast, ImuOf, ScansOf, Zip, TakeScan;
    var tr' := Step(tr, SyncCall);
    var g := Sync(tr.s).0.meas;
    LastGroupClosed(tr', g);
    SyncTakesPrefix(tr.s);
    PrefixOrdered(tr, g.imu);
  }

  lemma LastGroupClosed(tr: Trace, g: Group)
    requires Delivered(tr) && tr.groups != [] && tr.groups[|tr.groups| - 1] == g
    ensures AllAtMost(g.imu, g.endTime)
  {
  }

  lemma SyncTakesPrefix(s: State)
    requires Covered(s) && Sync(s).1
    ensures Sync(s).0.meas.imu + Sync(s).0.imu == s.imu
  {
  }

  lemma PrefixOrdered(tr: Trace, a: seq<Imu>)
    requires Delivered(tr) && a <= tr.s.imu
    ensures Ordered(a)
  {
  }

  lemma PrefixAtLeast(a: seq<Imu>, b: seq<Imu>, t: real)
    requires a <= b && AllAtLeast(b, t)
    ensures AllAtLeast(a, t)
  {
  }

  lemma ConsumeKeeps(s: System, g: Group)
    requires Keeps(s) && Covered(s.tr.s)
    requires Ordered(g.imu) && AllAtMost(g.imu, g.endTime)
    requires forall t :: Behind(s.tr, t) ==> AllAtLeast(g.imu, t)
    ensures var tr' := s.tr.(groups := s.tr.groups + [g]);
            Keeps(Consume(s.(tr := tr'), g))
  {
    var tr' := s.tr.(groups := s.tr.groups + [g]);
    var s' := Consume(s.(tr := tr'), g);
    assert tr'.groups[|s.tr.groups|] == g;
    assert Behind(tr', g.endTime);
    if !s.first && g.imu != [] {
      assert g.imu[|g.imu| - 1].stamp <= g.endTime;
      if !s.clock.needInit {
        UndistortedScan(s, g);
      }
    }
    if !s.clock.needInit { BehindGrows(s.tr, tr', s.clock.lastImu.stamp); }
    if s.done != [] { BehindGrows(s.tr, tr', s.clock.lastEnd); }
  }

  lemma UndistortedScan(s: System, g: Group)
    requires Keeps(s) && !s.clock.needInit && g.imu != []
    requires Ordered(g.imu) && AllAtMost(g.imu, g.endTime)
    requires forall t :: Behind(s.tr, t) ==> AllAtLeast(g.imu, t)
    ensures var c := s.clock;
            TimeConserved(s.done + [Undistorted(c.lastEnd, g.endTime,
                                                P.PredictSteps(c.lastImu, g.imu, c.lastEnd, g.endTime))])
  {
    hide P.PredictSteps, Ordered, AllAtMost, P.StartTime;
    var c := s.clock;
    var u := Undistorted(c.lastEnd, g.endTime, P.PredictSteps(c.lastImu, g.imu, c.lastEnd, g.endTime));
    assert AllAtLeast(g.imu, c.lastImu.stamp);
    P.PrependOrdered(c.lastImu, g.imu);
    LastAtMost(g.imu, g.endTime);
    P.PredictStepsTotal(c.lastImu, g.imu, c.lastEnd, g.endTime);
    if s.done != [] {
      P.ScanTimeConserved(c.lastImu, g.imu, c.lastEnd, g.endTime);
    }
    var done' := s.done + [u];
    forall k | 0 <= k < |done'| ensures P.Nonnegative(done'[k].steps) {
      if k < |s.done| { assert done'[k] == s.done[k]; }
    }
  }

  lemma LastAtMost(imu: seq<Imu>, t: real)
    requires imu != [] && AllAtMost(imu, t)
    ensures imu[|imu| - 1].stamp <= t
  {
  }

  lemma StepKeeps(s: System, e: Event)
    requires Covered(s.tr.s) && Delivered(s.tr) && Delivered(Step(s.tr, e)) && Keeps(s)
    ensures Keeps(SystemStep(s, e))
  {
    hide Delivered, Ordered, AllAtMost, AllAtLeast, TimeConserved, Consume;
    var tr' := Step(s.tr, e);
    if e.SyncCall? && Sync(s.tr.s).1 {
      var g := Sync(s.tr.s).0.meas;
      NewGroup(s.tr);
      forall t | Behind(s.tr, t) ensures AllAtLeast(g.imu, t) {
        assert GroupsClosed(s.tr.groups, s.tr.s.imu) by { DeliveredCloses(s.tr); }
        BehindBuffer(s.tr, t, s.tr.s.imu);
        PrefixAtLeast(g.imu, s.tr.s.imu, t);
      }
      ConsumeKeeps(s, g);
      SameGroups(s, tr', g);
    } else {
      assert tr'.groups == s.tr.groups;
    }
  }

  lemma DeliveredCloses(tr: Trace)
    requires Delivered(tr)
    ensures GroupsClosed(tr.groups, tr.s.imu)
  {
  }

  /** Only the groups of the trace matter to what is kept. */
  lemma SameGroups(s: System, tr': Trace, g: Group)
    requires tr'.groups == s.tr.groups + [g]
    requires Keeps(Consume(s.(tr := s.tr.(groups := s.tr.groups + [g])), g))
    ensures Keeps(Consume(s.(tr := tr'), g))
  {
    hide TimeConserved, P.Process;
    var a, b := Consume(s.(tr := s.tr.(groups := s.tr.groups + [g])), g), Consume(s.(tr := tr'), g);
    assert a.tr.groups == b.tr.groups && a.clock == b.clock && a.done == b.done;
    if !a.clock.needInit { BehindGrows(a.tr, b.tr, a.clock.lastImu.stamp); }
    if a.done != [] { BehindGrows(a.tr, b.tr, a.clock.lastEnd); }
  }

  /** Over every run whose stamps do not go back, whatever the clock's memory held at the start:
      every prediction step of an undistorted scan is nonnegative, and from the second undistorted
      scan on the steps sum to exactly this scan's end minus the previous one's. */
  lemma {:induction false} RunConservesTime(start: P.Clock, events: seq<Event>)
    requires start.needInit && ForwardRun(events)
    ensures Keeps(SystemRun(start, events))
    ensures TimeConserved(SystemRun(start, events).done)
  {
    if events != [] {
      var before := events[..|events| - 1];
      RunConservesTime(start, before);
      ForwardRunDelivers(before);
      ForwardRunDelivers(events);
      StepKeeps(SystemRun(start, before), events[|events| - 1]);
    }
  }

  function StepsOf(done: seq<Undistorted>): seq<real> {
    if done == [] then [] else done[0].steps + StepsOf(done[1..])
  }

  /** So the filter's whole time between two undistorted scans is the difference of their ends. */
  lemma {:induction false} TimeTelescopes(done: seq<Undistorted>)
    requires done != [] && TimeConserved(done)
    ensures P.Total(StepsOf(done[1..])) == done[|done| - 1].end - done[0].end
    decreases |done|
  {
    var rest := done[1..];
    if rest != [] {
      assert TimeConserved(rest) by {
        forall k | 1 <= k < |rest|
          ensures rest[k].from == rest[k - 1].end
               && P.Total(rest[k].steps) == rest[k].end - rest[k - 1].end
        {
          assert done[k + 1].from == done[k].end;
        }
      }
      TimeTelescopes(rest);
      P.TotalConcat(rest[0].steps, StepsOf(rest[1..]));
    }
  }

  /** The processing loop's objects; one Spin is one pass of its body up to the inertial part. */
  class Loop {
    const node: LioNode
    const imu: P.ImuProcessor
    var firstScan: bool

    constructor (node: LioNode, imu: P.ImuProcessor)
      ensures this.node == node && this.imu == imu && firstScan
    {
      this.node, this.imu, firstScan := node, imu, true;
    }

    method Spin() returns (steps: seq<real>)
      requires node.Valid() && imu.Valid()
      modifies this, node, imu
      ensures node.Valid() && imu.Valid()
      ensures node.View() == Sync(old(node.View())).0
      ensures var r := if Sync(old(node.View())).1 then Handle(old(firstScan), old(imu.View()), node.measures)
                       else (old(firstScan), old(imu.View()), []);
              firstScan == r.0 && imu.View() == r.1 && steps == r.2
    {
      steps := [];
      var ready := node.SyncPackages();
      if ready {
        if firstScan {
          firstScan := false;
          return;
        }
        steps := imu.ProcessGroup(node.measures);
      }
    }
  }
}
