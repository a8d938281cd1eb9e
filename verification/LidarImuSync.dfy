/** Pairing LiDAR scans with inertial samples: the two callbacks, the synchronisation call,
    and what every run of the three delivers. */
module LidarImuSync {
  import opened Reals
  import opened Sensors

  // ---------- State ----------

  datatype State = State(
    lidar: seq<Scan>,
    times: seq<real>,
    imu: seq<Imu>,
    pushed: bool,
    endTime: real,
    meanTime: real,
    scanNum: nat,
    lastLidar: real,
    lastImu: real,
    meas: Group)

  const START := State([], [], [], false, 0.0, 0.0, 0, 0.0, -1.0, Group([], 0.0, 0.0, []))

  /** The time buffer covers the scan buffer: reading and popping its front is safe whenever
      there is a scan. */
  predicate Covered(s: State) { |s.lidar| <= |s.times| }

  // ---------- The callbacks ----------

  function OnLidar(s: State, scan: Scan, stamp: real): State {
    var kept := if stamp < s.lastLidar then [] else s.lidar;
    s.(lidar := kept + [scan], times := s.times + [stamp], lastLidar := stamp)
  }

  function OnImu(s: State, m: Imu): State {
    var kept := if m.stamp < s.lastImu then [] else s.imu;
    s.(imu := kept + [m], lastImu := m.stamp)
  }

  // ---------- Scan duration ----------

  function Duration(scan: Scan): real
    requires |scan| > 0
  {
    scan[|scan| - 1].curvature / 1000.0
  }

  /** Whether a scan's own last offset is trusted as its duration. */
  predicate Counts(scan: Scan, mean: real) {
    |scan| > 5 && Duration(scan) >= 0.5 * mean
  }

  function TakeScan(s: State): State
    requires Covered(s) && |s.lidar| > 0
  {
    var scan, beg := s.lidar[0], s.times[0];
    if Counts(scan, s.meanTime) then
      var n, d := s.scanNum + 1, Duration(scan);
      s.(scanNum := n, endTime := beg + d, meanTime := s.meanTime + (d - s.meanTime) / n as real,
         meas := s.meas.(lidar := scan, begTime := beg, endTime := beg + d), pushed := true)
    else
      var end := beg + s.meanTime;
      s.(endTime := end, meas := s.meas.(lidar := scan, begTime := beg, endTime := end), pushed := true)
  }

  // ---------- Collecting inertial samples ----------

  /** The collecting loop, entered with the stamp read last. */
  function Drain(seen: real, buffer: seq<Imu>, end: real): (r: (seq<Imu>, seq<Imu>))
    ensures r.0 + r.1 == buffer
    decreases |buffer|
  {
    if buffer == [] || seen >= end || buffer[0].stamp > end then ([], buffer)
    else
      var rest := Drain(buffer[0].stamp, buffer[1..], end);
      ([buffer[0]] + rest.0, rest.1)
  }

  /** What the loop takes from an ordered buffer: everything before the scan's end, at most one
      sample on it, and it leaves nothing earlier than the end behind. */
  lemma {:induction false} DrainSplits(seen: real, buffer: seq<Imu>, end: real)
    requires Ordered(buffer) && AllAtLeast(buffer, seen)
    ensures var r := Drain(seen, buffer, end);
            && AllAtMost(r.0, end) && AllAtLeast(r.1, end)
            && (forall i :: 0 <= i < |r.0| - 1 ==> r.0[i].stamp < end)
            && (seen >= end ==> r.0 == [])
    decreases |buffer|
  {
    if !(buffer == [] || seen >= end || buffer[0].stamp > end) {
      hide Ordered, AllAtLeast, AllAtMost;
      var rest := Drain(buffer[0].stamp, buffer[1..], end);
      TailOrdered(buffer);
      DrainSplits(buffer[0].stamp, buffer[1..], end);
      TakeOneMore(buffer[0], rest.0, end);
    } else if buffer != [] && seen < end {
      TailOrdered(buffer);
    }
  }

  /** A loop that starts before the end leaves a sample on the end behind only after taking one. */
  lemma {:induction false} SampleOnEnd(seen: real, buffer: seq<Imu>, end: real)
    requires Ordered(buffer) && seen < end
    ensures var r := Drain(seen, buffer, end);
            r.1 != [] && r.1[0].stamp == end ==> r.0 != [] && r.0[|r.0| - 1].stamp == end
    decreases |buffer|
  {
    if buffer != [] && buffer[0].stamp < end {
      hide Ordered, AllAtLeast;
      TailOrdered(buffer);
      SampleOnEnd(buffer[0].stamp, buffer[1..], end);
    }
  }

  /** The loop has moved `taken` out of the buffer and still has to do what leads to `goal`. */
  ghost predicate Collected(goal: (seq<Imu>, seq<Imu>), taken: seq<Imu>, seen: real, buffer: seq<Imu>, end: real) {
    var d := Drain(seen, buffer, end);
    taken + d.0 == goal.0 && d.1 == goal.1
  }

  lemma CollectStarts(seen: real, buffer: seq<Imu>, end: real)
    ensures Collected(Drain(seen, buffer, end), [], seen, buffer, end)
  {
    hide Drain;
  }

  lemma CollectStep(goal: (seq<Imu>, seq<Imu>), taken: seq<Imu>, seen: real, buffer: seq<Imu>, end: real)
    requires Collected(goal, taken, seen, buffer, end) && buffer != [] && seen < end
    ensures buffer[0].stamp > end ==> goal.0 == taken && goal.1 == buffer
    ensures buffer[0].stamp <= end ==> Collected(goal, taken + [buffer[0]], buffer[0].stamp, buffer[1..], end)
  {
    if buffer[0].stamp <= end {
      var rest := Drain(buffer[0].stamp, buffer[1..], end);
      assert taken + ([buffer[0]] + rest.0) == (taken + [buffer[0]]) + rest.0;
    }
  }

  lemma CollectEnds(goal: (seq<Imu>, seq<Imu>), taken: seq<Imu>, seen: real, buffer: seq<Imu>, end: real)
    requires Collected(goal, taken, seen, buffer, end) && (buffer == [] || seen >= end)
    ensures goal.0 == taken && goal.1 == buffer
  {
  }

  lemma TailOrdered(buffer: seq<Imu>)
    requires Ordered(buffer) && buffer != []
    ensures Ordered(buffer[1..]) && AllAtLeast(buffer[1..], buffer[0].stamp)
    ensures AllAtLeast(buffer, buffer[0].stamp)
  {
  }

  lemma TakeOneMore(m: Imu, taken: seq<Imu>, end: real)
    requires m.stamp <= end && AllAtMost(taken, end)
    requires forall i :: 0 <= i < |taken| - 1 ==> taken[i].stamp < end
    requires m.stamp >= end ==> taken == []
    ensures AllAtMost([m] + taken, end)
    ensures forall i :: 0 <= i < |taken| ==> ([m] + taken)[i].stamp < end
  {
  }

  // ---------- The synchronisation call ----------

  function Sync(s: State): (r: (State, bool))
    requires Covered(s)
    ensures Covered(r.0)
    ensures r.1 ==> s.lidar != [] && r.0.lidar == s.lidar[1..] && r.0.times == s.times[1..]
    ensures !r.1 ==> r.0.lidar == s.lidar && r.0.times == s.times && r.0.imu == s.imu
  {
    if s.lidar == [] || s.imu == [] then (s, false)
    else
      var t := if s.pushed then s else TakeScan(s);
      if t.lastImu < t.endTime then (t, false)
      else
        var d := Drain(t.imu[0].stamp, t.imu, t.endTime);
        (t.(imu := d.1, lidar := t.lidar[1..], times := t.times[1..], pushed := false,
            meas := t.meas.(imu := d.0)), true)
  }

  // ---------- Runs ----------

  datatype Event = LidarMsg(scan: Scan, stamp: real) | ImuMsg(m: Imu) | SyncCall

  /** A run so far: the node's state, what was received, what was handed out, and how many
      scans a backwards scan stamp threw away. */
  datatype Trace = Trace(
    s: State,
    gotScans: seq<(Scan, real)>,
    gotImu: seq<Imu>,
    groups: seq<Group>,
    cleared: nat)

  function Step(tr: Trace, e: Event): Trace
    requires Covered(tr.s)
  {
    match e
    case LidarMsg(scan, stamp) =>
      tr.(s := OnLidar(tr.s, scan, stamp), gotScans := tr.gotScans + [(scan, stamp)],
          cleared := tr.cleared + if stamp < tr.s.lastLidar then |tr.s.lidar| else 0)
    case ImuMsg(m) => tr.(s := OnImu(tr.s, m), gotImu := tr.gotImu + [m])
    case SyncCall =>
      var r := Sync(tr.s);
      tr.(s := r.0, groups := if r.1 then tr.groups + [r.0.meas] else tr.groups)
  }

  function Run(events: seq<Event>): (tr: Trace)
    ensures Covered(tr.s)
  {
    if events == [] then Trace(START, [], [], [], 0)
    else Step(Run(events[..|events| - 1]), events[|events| - 1])
  }

  lemma StepDrifts(tr: Trace, e: Event)
    requires |tr.s.times| == |tr.s.lidar| + tr.cleared
    ensures var tr' := Step(tr, e);
            && |tr'.s.times| == |tr'.s.lidar| + tr'.cleared
            && tr'.cleared == tr.cleared + if Clears(tr, e) then |tr.s.lidar| else 0
  {
    hide Drain, TakeScan;
  }

  /** In every run, stamps going back or not, the time buffer is ahead of the scan buffer by
      exactly the scans thrown away. */
  lemma {:induction false} BuffersDriftByCleared(events: seq<Event>)
    ensures |Run(events).s.times| == |Run(events).s.lidar| + Run(events).cleared
  {
    hide Step;
    if events != [] {
      BuffersDriftByCleared(events[..|events| - 1]);
      StepDrifts(Run(events[..|events| - 1]), events[|events| - 1]);
    }
  }

  /** A scan stamp goes back while scans are waiting. */
  predicate Clears(tr: Trace, e: Event) {
    e.LidarMsg? && e.stamp < tr.s.lastLidar && tr.s.lidar != []
  }

  predicate ClearsAt(events: seq<Event>, k: nat)
    requires k < |events|
  {
    Clears(Run(events[..k]), events[k])
  }

  /** The two buffers have the same length if and only if no scan stamp ever went back while scans
      were waiting. */
  lemma {:induction false} BuffersAlignedIff(events: seq<Event>)
    ensures |Run(events).s.times| == |Run(events).s.lidar| <==>
            forall k :: 0 <= k < |events| ==> !ClearsAt(events, k)
  {
    hide Step, Clears;
    BuffersDriftByCleared(events);
    if events != [] {
      var before, n := events[..|events| - 1], |events| - 1;
      BuffersDriftByCleared(before);
      BuffersAlignedIff(before);
      StepDrifts(Run(before), events[n]);
      if Clears(Run(before), events[n]) { ClearingDropsScans(Run(before), events[n]); }
      assert ClearsAt(events, n) == Clears(Run(before), events[n]);
      forall k | 0 <= k < n ensures ClearsAt(events, k) == ClearsAt(before, k) {
        assert before[..k] == events[..k];
      }
    }
  }

  lemma ClearingDropsScans(tr: Trace, e: Event)
    requires Clears(tr, e)
    ensures |tr.s.lidar| > 0
  {
  }

  /** The gap between the buffers never closes again, whatever follows. */
  lemma {:induction false} DriftIsForGood(events: seq<Event>, more: seq<Event>)
    ensures var now, later := Run(events).s, Run(events + more).s;
            |later.times| - |later.lidar| >= |now.times| - |now.lidar|
    decreases |more|
  {
    hide Step, Clears;
    BuffersDriftByCleared(events);
    BuffersDriftByCleared(events + more);
    if more == [] {
      assert events + more == events;
    } else {
      var all, n := events + more, |more| - 1;
      assert all[..|all| - 1] == events + more[..n];
      DriftIsForGood(events, more[..n]);
      BuffersDriftByCleared(events + more[..n]);
      StepDrifts(Run(events + more[..n]), all[|all| - 1]);
    }
  }

  /** Two scans, the second with an earlier stamp: the second waits under the stamp of the first. */
  lemma DriftExample(first: Scan, second: Scan)
    ensures var s := Run([LidarMsg(first, 1.0), LidarMsg(second, 0.5)]).s;
            s.lidar == [second] && s.times == [1.0, 0.5]
  {
    var events := [LidarMsg(first, 1.0), LidarMsg(second, 0.5)];
    assert events[..1] == [LidarMsg(first, 1.0)];
    assert events[..1][..0] == [];
    var once := Run(events[..1]).s;
    assert once.lidar == [first] && once.times == [1.0] && once.lastLidar == 1.0;
    assert Run(events) == Step(Run(events[..1]), events[1]);
  }

  /** No stamp goes back. */
  predicate Forward(tr: Trace, e: Event) {
    && (e.LidarMsg? ==> e.stamp >= tr.s.lastLidar)
    && (e.ImuMsg? ==> e.m.stamp >= tr.s.lastImu)
  }

  predicate ForwardRun(events: seq<Event>) {
    events == [] ||
    var before := events[..|events| - 1];
    ForwardRun(before) && Forward(Run(before), events[|events| - 1])
  }

  // ---------- What has been handed out ----------

  function ImuOf(groups: seq<Group>): seq<Imu> {
    if groups == [] then [] else ImuOf(groups[..|groups| - 1]) + groups[|groups| - 1].imu
  }

  function ScansOf(groups: seq<Group>): (r: seq<(Scan, real)>)
    ensures |r| == |groups|
    ensures forall i :: 0 <= i < |groups| ==> r[i] == (groups[i].lidar, groups[i].begTime)
  {
    seq(|groups|, i requires 0 <= i < |groups| => (groups[i].lidar, groups[i].begTime))
  }

  function Zip(scans: seq<Scan>, times: seq<real>): (r: seq<(Scan, real)>)
    requires |scans| <= |times|
    ensures |r| == |scans|
  {
    seq(|scans|, i requires 0 <= i < |scans| => (scans[i], times[i]))
  }

  ghost predicate GroupsClosed(groups: seq<Group>, buffer: seq<Imu>) {
    forall k :: 0 <= k < |groups| ==>
      AllAtMost(groups[k].imu, groups[k].endTime) && AllAtLeast(buffer, groups[k].endTime)
  }

  /** Everything a forward run keeps. */
  ghost predicate Delivered(tr: Trace) {
    && |tr.s.lidar| == |tr.s.times|
    && ImuOf(tr.groups) + tr.s.imu == tr.gotImu
    && ScansOf(tr.groups) + Zip(tr.s.lidar, tr.s.times) == tr.gotScans
    && Ordered(tr.s.imu) && AllAtMost(tr.s.imu, tr.s.lastImu)
    && GroupsClosed(tr.groups, tr.s.imu)
    && (forall k :: 0 <= k < |tr.groups| ==> tr.groups[k].endTime <= tr.s.lastImu)
    && (tr.s.pushed ==>
          && |tr.s.lidar| > 0
          && tr.s.meas.lidar == tr.s.lidar[0] && tr.s.meas.begTime == tr.s.times[0]
          && tr.s.meas.endTime == tr.s.endTime)
  }

  lemma ImuStepDelivers(tr: Trace, m: Imu)
    requires Covered(tr.s) && Delivered(tr) && m.stamp >= tr.s.lastImu
    ensures Delivered(Step(tr, ImuMsg(m)))
  {
    var tr' := Step(tr, ImuMsg(m));
    assert ImuOf(tr.groups) + (tr.s.imu + [m]) == (ImuOf(tr.groups) + tr.s.imu) + [m];
    forall k | 0 <= k < |tr'.groups|
      ensures AllAtMost(tr'.groups[k].imu, tr'.groups[k].endTime)
           && AllAtLeast(tr'.s.imu, tr'.groups[k].endTime) { }
  }

  lemma LidarStepDelivers(tr: Trace, scan: Scan, stamp: real)
    requires Covered(tr.s) && Delivered(tr) && stamp >= tr.s.lastLidar
    ensures Delivered(Step(tr, LidarMsg(scan, stamp)))
  {
  }

  lemma TakeScanDelivers(tr: Trace)
    requires Covered(tr.s) && Delivered(tr) && tr.s.lidar != []
    ensures Delivered(tr.(s := TakeScan(tr.s)))
  {
  }

  lemma SyncStepDelivers(tr: Trace)
    requires Covered(tr.s) && Delivered(tr)
    ensures Delivered(Step(tr, SyncCall))
  {
    if tr.s.lidar != [] && tr.s.imu != [] {
      if !tr.s.pushed { TakeScanDelivers(tr); }
      ReadySyncDelivers(tr, tr.(s := if tr.s.pushed then tr.s else TakeScan(tr.s)));
    }
  }

  lemma ReadySyncDelivers(tr: Trace, mid: Trace)
    requires Covered(tr.s) && tr.s.lidar != [] && tr.s.imu != []
    requires mid == tr.(s := if tr.s.pushed then tr.s else TakeScan(tr.s))
    requires Delivered(mid) && mid.s.pushed && mid.s.imu == tr.s.imu
    ensures Delivered(Step(tr, SyncCall))
  {
    hide TakeScan, ImuOf, ScansOf, Zip, Drain;
    var s := mid.s;
    if s.lastImu >= s.endTime {
      var d := Drain(s.imu[0].stamp, s.imu, s.endTime);
      DrainSplits(s.imu[0].stamp, s.imu, s.endTime);
      EmitDelivers(mid, s.meas.(imu := d.0), d.1);
    }
  }

  /** Handing out one group moves its scan and samples from the buffers to the groups. */
  lemma EmitDelivers(tr: Trace, g: Group, rest: seq<Imu>)
    requires Delivered(tr) && |tr.s.lidar| > 0
    requires g.lidar == tr.s.lidar[0] && g.begTime == tr.s.times[0]
    requires g.imu + rest == tr.s.imu && AllAtMost(g.imu, g.endTime) && AllAtLeast(rest, g.endTime)
    ensures var groups := tr.groups + [g];
            && ImuOf(groups) + rest == tr.gotImu
            && ScansOf(groups) + Zip(tr.s.lidar[1..], tr.s.times[1..]) == tr.gotScans
            && Ordered(rest) && AllAtMost(rest, tr.s.lastImu) && GroupsClosed(groups, rest)
  {
    hide ImuOf, ScansOf, Zip, Ordered, AllAtMost, AllAtLeast, GroupsClosed;
    EmitImu(tr.groups, g, rest, tr.s.imu);
    EmitScans(tr.groups, g, tr.s.lidar, tr.s.times);
    EmitOrder(g.imu, rest, tr.s.imu, tr.s.lastImu);
    EmitClosed(tr.groups, g, rest, tr.s.imu);
  }

  lemma EmitImu(groups: seq<Group>, g: Group, rest: seq<Imu>, imu: seq<Imu>)
    requires g.imu + rest == imu
    ensures ImuOf(groups + [g]) + rest == ImuOf(groups) + imu
  {
    assert (groups + [g])[..|groups|] == groups;
    assert ImuOf(groups) + (g.imu + rest) == (ImuOf(groups) + g.imu) + rest;
  }

  lemma EmitScans(groups: seq<Group>, g: Group, lidar: seq<Scan>, times: seq<real>)
    requires 0 < |lidar| <= |times| && g.lidar == lidar[0] && g.begTime == times[0]
    ensures ScansOf(groups + [g]) + Zip(lidar[1..], times[1..]) == ScansOf(groups) + Zip(lidar, times)
  {
    assert Zip(lidar, times) == [(g.lidar, g.begTime)] + Zip(lidar[1..], times[1..]);
    assert ScansOf(groups + [g]) == ScansOf(groups) + [(g.lidar, g.begTime)];
  }

  lemma EmitOrder(taken: seq<Imu>, rest: seq<Imu>, imu: seq<Imu>, last: real)
    requires taken + rest == imu && Ordered(imu) && AllAtMost(imu, last)
    ensures Ordered(rest) && AllAtMost(rest, last)
  {
    RestIsSuffix(taken, rest, imu);
  }

  lemma EmitClosed(groups: seq<Group>, g: Group, rest: seq<Imu>, imu: seq<Imu>)
    requires g.imu + rest == imu && GroupsClosed(groups, imu)
    requires AllAtMost(g.imu, g.endTime) && AllAtLeast(rest, g.endTime)
    ensures GroupsClosed(groups + [g], rest)
  {
    RestIsSuffix(g.imu, rest, imu);
    forall k | 0 <= k < |groups|
      ensures AllAtMost(groups[k].imu, groups[k].endTime) && AllAtLeast(rest, groups[k].endTime)
    {
      assert AllAtLeast(imu, groups[k].endTime);
    }
  }

  lemma RestIsSuffix(a: seq<Imu>, b: seq<Imu>, s: seq<Imu>)
    requires a + b == s
    ensures forall i :: 0 <= i < |b| ==> b[i] == s[|a| + i]
  {
  }

  /** In every run whose stamps do not go back, the groups handed out followed by the buffer are
      exactly the samples received, in order and without loss or repetition; likewise the scans.
      Every sample of a group is no later than the group's end, and every sample still waiting is
      no earlier than the end of any group. */
  lemma {:induction false} ForwardRunDelivers(events: seq<Event>)
    requires ForwardRun(events)
    ensures Delivered(Run(events))
  {
    if events != [] {
      var before, e := events[..|events| - 1], events[|events| - 1];
      ForwardRunDelivers(before);
      match e
      case LidarMsg(scan, stamp) => LidarStepDelivers(Run(before), scan, stamp);
      case ImuMsg(m) => ImuStepDelivers(Run(before), m);
      case SyncCall => SyncStepDelivers(Run(before));
    }
  }

  // ---------- The mean scan time ----------

  /** The durations that count among scans taken in this order: those of scans with more than
      five points lasting at least half the mean of the durations counted before. */
  function Counted(scans: seq<(Scan, real)>): seq<real> {
    if scans == [] then []
    else
      var before, last := Counted(scans[..|scans| - 1]), scans[|scans| - 1].0;
      if Counts(last, Mean(before)) then before + [Duration(last)] else before
  }

  /** The scan at place k ends its own duration after its start if that counts, and otherwise
      the mean of the durations counted before it. */
  function EndOf(scans: seq<(Scan, real)>, k: nat): real
    requires k < |scans|
  {
    var mean := Mean(Counted(scans[..k]));
    scans[k].1 + if Counts(scans[k].0, mean) then Duration(scans[k].0) else mean
  }

  /** Scans whose duration has been looked at: those handed out, and the one being waited for. */
  function Taken(tr: Trace): seq<(Scan, real)>
    requires Covered(tr.s)
  {
    ScansOf(tr.groups) +
    if tr.s.pushed && tr.s.lidar != [] then [(tr.s.lidar[0], tr.s.times[0])] else []
  }

  ghost predicate MeanExact(tr: Trace) {
    && Covered(tr.s)
    && tr.s.scanNum == |Counted(Taken(tr))|
    && tr.s.meanTime == Mean(Counted(Taken(tr)))
    && (forall k :: 0 <= k < |tr.groups| ==> tr.groups[k].endTime == EndOf(Taken(tr), k))
    && (tr.s.pushed ==> |tr.s.lidar| > 0 && tr.s.endTime == EndOf(Taken(tr), |tr.groups|))
  }

  lemma MeanOfOneMore(xs: seq<real>, x: real)
    ensures Mean(xs + [x]) == Mean(xs) + (x - Mean(xs)) / (|xs| + 1) as real
  {
  }

  lemma TakeScanKeepsMean(tr: Trace)
    requires Covered(tr.s) && MeanExact(tr) && !tr.s.pushed && |tr.s.lidar| > 0
    ensures MeanExact(tr.(s := TakeScan(tr.s)))
  {
    var scan := (tr.s.lidar[0], tr.s.times[0]);
    var tr', old', new' := tr.(s := TakeScan(tr.s)), Taken(tr), Taken(tr.(s := TakeScan(tr.s)));
    assert new' == old' + [scan] && new'[..|old'|] == old';
    TakeScanMean(tr.s, old', scan);
    forall k | 0 <= k < |tr.groups| ensures tr.groups[k].endTime == EndOf(new', k) {
      assert new'[..k] == old'[..k];
    }
  }

  /** Looking at one more scan updates count, mean and end as the reference says. */
  lemma TakeScanMean(s: State, before: seq<(Scan, real)>, scan: (Scan, real))
    requires Covered(s) && |s.lidar| > 0 && scan == (s.lidar[0], s.times[0])
    requires s.scanNum == |Counted(before)| && s.meanTime == Mean(Counted(before))
    ensures var s', after := TakeScan(s), before + [scan];
            && s'.scanNum == |Counted(after)| && s'.meanTime == Mean(Counted(after))
            && s'.endTime == EndOf(after, |before|)
  {
    hide Mean, Sum;
    assert (before + [scan])[..|before|] == before;
    if Counts(scan.0, s.meanTime) {
      MeanOfOneMore(Counted(before), Duration(scan.0));
    }
  }

  lemma SyncKeepsMean(tr: Trace)
    requires Covered(tr.s) && MeanExact(tr)
    requires tr.s.pushed ==>
      |tr.s.lidar| > 0 && tr.s.meas.lidar == tr.s.lidar[0] && tr.s.meas.begTime == tr.s.times[0]
      && tr.s.meas.endTime == tr.s.endTime
    ensures MeanExact(Step(tr, SyncCall))
  {
    hide Counted, Mean, EndOf, Drain, Sum;
    if tr.s.lidar != [] && tr.s.imu != [] {
      if !tr.s.pushed { TakeScanKeepsMean(tr); }
      ReadySyncKeepsMean(tr, tr.(s := if tr.s.pushed then tr.s else TakeScan(tr.s)));
    }
  }

  lemma ReadySyncKeepsMean(tr: Trace, mid: Trace)
    requires Covered(tr.s) && tr.s.lidar != [] && tr.s.imu != []
    requires mid == tr.(s := if tr.s.pushed then tr.s else TakeScan(tr.s))
    requires MeanExact(mid) && mid.s.pushed && mid.s.lidar == tr.s.lidar && mid.s.times == tr.s.times
    requires mid.s.meas.lidar == mid.s.lidar[0] && mid.s.meas.begTime == mid.s.times[0]
    requires mid.s.meas.endTime == mid.s.endTime
    ensures MeanExact(Step(tr, SyncCall))
  {
    hide TakeScan, Counted, Mean, Drain, EndOf;
    var after := Step(tr, SyncCall);
    if mid.s.lastImu >= mid.s.endTime {
      assert Taken(after) == Taken(mid);
    } else {
      assert after == mid;
    }
  }

  lemma CallbackKeepsMean(tr: Trace, e: Event)
    requires Covered(tr.s) && MeanExact(tr) && Forward(tr, e) && !e.SyncCall?
    ensures MeanExact(Step(tr, e))
  {
    assert Taken(Step(tr, e)) == Taken(tr);
  }

  /** However often the synchronisation call has to wait, the mean scan time is the exact mean of
      the counted scan durations, each counted once, and every group ends where that mean says. */
  lemma {:induction false} ForwardRunKeepsMean(events: seq<Event>)
    requires ForwardRun(events)
    ensures MeanExact(Run(events))
  {
    if events != [] {
      var before, e := events[..|events| - 1], events[|events| - 1];
      ForwardRunKeepsMean(before);
      ForwardRunDelivers(before);
      if e.SyncCall? { SyncKeepsMean(Run(before)); } else { CallbackKeepsMean(Run(before), e); }
    }
  }

  /** The end of a scan, in its own milliseconds: the offset of its last point when there are more
      than five and that offset is at least half the mean so far, and the mean otherwise. */
  lemma EndIsLastPoint(scans: seq<(Scan, real)>, k: nat)
    requires k < |scans|
    ensures var (scan, beg) := scans[k];
            var mean := Mean(Counted(scans[..k]));
            1000.0 * (EndOf(scans, k) - beg) ==
            if |scan| >= 6 && 2.0 * scan[|scan| - 1].curvature >= 1000.0 * mean then scan[|scan| - 1].curvature
            else 1000.0 * mean
  {
    hide Counted, Mean;
  }

  /** Which offsets the mean is taken of, one scan at a time. */
  lemma MeanIsOfLastPoints(scans: seq<(Scan, real)>, scan: (Scan, real))
    ensures var before, after := Counted(scans), Counted(scans + [scan]);
            if |scan.0| >= 6 && 2.0 * scan.0[|scan.0| - 1].curvature >= 1000.0 * Mean(before) then
              && |after| == |before| + 1 && after[..|before|] == before
              && 1000.0 * after[|before|] == scan.0[|scan.0| - 1].curvature
            else
              after == before
  {
    hide Mean;
    assert (scans + [scan])[..|scans|] == scans;
  }

  // ---------- When a group is handed out ----------

  /** One call on any state: a group is handed out exactly when a scan and a sample wait and the
      newest sample has reached the scan's end, which is fixed first if it is not yet. */
  lemma SyncEmitsIff(s: State)
    requires Covered(s)
    ensures Sync(s).1 <==>
            && s.lidar != [] && s.imu != []
            && s.lastImu >= if s.pushed then s.endTime else TakeScan(s).endTime
  {
    hide Drain, Counts, Duration;
  }

  /** The stamps kept are those of the newest scan and sample, or the start values. */
  ghost predicate StampsKept(tr: Trace) {
    && tr.s.lastLidar == (if tr.gotScans == [] then 0.0 else tr.gotScans[|tr.gotScans| - 1].1)
    && tr.s.lastImu == (if tr.gotImu == [] then -1.0 else tr.gotImu[|tr.gotImu| - 1].stamp)
  }

  lemma StepKeepsStamps(tr: Trace, e: Event)
    requires Covered(tr.s) && StampsKept(tr)
    ensures StampsKept(Step(tr, e))
  {
    hide Drain, Counts, Duration;
  }

  /** In every run, going back or not, the newest arrival is what the next is compared with. */
  lemma {:induction false} StampsAreNewest(events: seq<Event>)
    ensures StampsKept(Run(events))
  {
    hide Step, StampsKept;
    if events != [] {
      StampsAreNewest(events[..|events| - 1]);
      StepKeepsStamps(Run(events[..|events| - 1]), events[|events| - 1]);
    } else {
      StartStamps();
    }
  }

  lemma StartStamps()
    ensures StampsKept(Run([]))
  {
  }

  lemma NextEnd(tr: Trace)
    requires Covered(tr.s) && MeanExact(tr) && Delivered(tr) && tr.s.lidar != []
    ensures |tr.groups| < |tr.gotScans|
    ensures (if tr.s.pushed then tr.s.endTime else TakeScan(tr.s).endTime) == EndOf(tr.gotScans, |tr.groups|)
  {
    hide Counts, Duration, Counted, Mean, ImuOf, Ordered, AllAtMost, GroupsClosed, TakeScan;
    var n, end := |tr.groups|, if tr.s.pushed then tr.s.endTime else TakeScan(tr.s).endTime;
    var mid := if tr.s.pushed then tr else tr.(s := TakeScan(tr.s));
    if !tr.s.pushed { TakeScanKeepsMean(tr); TakenScanWaits(tr.s); }
    assert Zip(tr.s.lidar, tr.s.times)[0] == (tr.s.lidar[0], tr.s.times[0]);
    assert Taken(mid)[..n] == tr.gotScans[..n] && Taken(mid)[n] == tr.gotScans[n];
    assert end == EndOf(Taken(mid), n);
  }

  lemma TakenScanWaits(s: State)
    requires Covered(s) && s.lidar != []
    ensures var t := TakeScan(s); t.pushed && t.lidar == s.lidar && t.times == s.times
  {
  }

  /** In every run whose stamps do not go back, a call hands out the next scan received exactly
      when that scan and a sample not yet handed out have been received and the newest sample
      has reached the scan's end; in every other case nothing is handed out. */
  lemma ForwardRunEmitsIff(events: seq<Event>)
    requires ForwardRun(events)
    ensures var tr, after := Run(events), Run(events + [SyncCall]);
            var n := |tr.groups|;
            if && n < |tr.gotScans| && |ImuOf(tr.groups)| < |tr.gotImu|
               && tr.gotImu[|tr.gotImu| - 1].stamp >= EndOf(tr.gotScans, n)
            then
              && |after.groups| == n + 1 && after.groups[..n] == tr.groups
              && (after.groups[n].lidar, after.groups[n].begTime) == tr.gotScans[n]
              && after.groups[n].endTime == EndOf(tr.gotScans, n)
            else
              after.groups == tr.groups
  {
    hide Counts, Duration, Drain, EndOf, Delivered, MeanExact, TakeScan, Sync, ForwardRun;
    var tr, all := Run(events), events + [SyncCall];
    assert all[..|all| - 1] == events;
    assert ForwardRun(all) by { ForwardCall(events); }
    ForwardRunDelivers(events); ForwardRunKeepsMean(events);
    ForwardRunDelivers(all); ForwardRunKeepsMean(all);
    StampsAreNewest(events);
    SyncEmitsIff(tr.s);
    StillWaiting(tr);
    if tr.s.lidar != [] { NextEnd(tr); }
    if Sync(tr.s).1 { HandedOut(tr, Run(all)); }
  }

  lemma ForwardCall(events: seq<Event>)
    requires ForwardRun(events)
    ensures ForwardRun(events + [SyncCall])
  {
    assert (events + [SyncCall])[..|events|] == events;
  }

  lemma StillWaiting(tr: Trace)
    requires Delivered(tr)
    ensures tr.s.lidar != [] <==> |tr.groups| < |tr.gotScans|
    ensures tr.s.imu != [] <==> |ImuOf(tr.groups)| < |tr.gotImu|
  {
  }

  lemma HandedOut(tr: Trace, after: Trace)
    requires Covered(tr.s) && Sync(tr.s).1 && after == Step(tr, SyncCall)
    requires Delivered(after) && MeanExact(after) && |tr.groups| < |tr.gotScans|
    ensures var n := |tr.groups|;
            && |after.groups| == n + 1 && after.groups[..n] == tr.groups
            && (after.groups[n].lidar, after.groups[n].begTime) == tr.gotScans[n]
            && after.groups[n].endTime == EndOf(tr.gotScans, n)
  {
    hide Counts, Duration, Drain, TakeScan, Counted, Mean, ImuOf, Ordered, AllAtMost, GroupsClosed, Sync;
    var n := |tr.groups|;
    assert ScansOf(after.groups)[n] == after.gotScans[n] == tr.gotScans[n];
    assert Taken(after)[..n] == tr.gotScans[..n] && Taken(after)[n] == tr.gotScans[n];
    assert after.groups[n].endTime == EndOf(Taken(after), n);
  }

  // ---------- The sample buffer in every run ----------

  ghost predicate BufferOrdered(s: State) { Ordered(s.imu) && AllAtMost(s.imu, s.lastImu) }

  lemma StepKeepsOrder(s: State, e: Event, tr: Trace)
    requires Covered(s) && BufferOrdered(s) && tr.s == s
    ensures BufferOrdered(Step(tr, e).s)
  {
    hide Drain, Counts, Duration;
    if e.SyncCall? && Sync(s).1 {
      var t := if s.pushed then s else TakeScan(s);
      var d := Drain(t.imu[0].stamp, t.imu, t.endTime);
      EmitOrder(d.0, d.1, s.imu, s.lastImu);
    }
  }

  /** Whatever stamps arrive, going back or not, the waiting samples are in order and none is
      newer than the newest received. */
  lemma {:induction false} BufferIsAlwaysOrdered(events: seq<Event>)
    ensures BufferOrdered(Run(events).s)
  {
    hide Step;
    if events != [] {
      var before := events[..|events| - 1];
      BufferIsAlwaysOrdered(before);
      StepKeepsOrder(Run(before).s, events[|events| - 1], Run(before));
    }
  }

  // ---------- The node ----------

  class LioNode {
    var lidarBuffer: seq<Scan>
    var timeBuffer: seq<real>
    var imuBuffer: seq<Imu>
    var lidarPushed: bool
    var lidarEndTime: real
    var lidarMeanScantime: real
    var scanNum: nat
    var lastTimestampLidar: real
    var lastTimestampImu: real
    var measures: Group

    function View(): State
      reads this
    {
      State(lidarBuffer, timeBuffer, imuBuffer, lidarPushed, lidarEndTime, lidarMeanScantime,
            scanNum, lastTimestampLidar, lastTimestampImu, measures)
    }

    ghost predicate Valid()
      reads this
    {
      Covered(View())
    }

    constructor ()
      ensures Valid() && View() == START
    {
      lidarBuffer, timeBuffer, imuBuffer := [], [], [];
      lidarPushed, lidarEndTime, lidarMeanScantime, scanNum := false, 0.0, 0.0, 0;
      lastTimestampLidar, lastTimestampImu := 0.0, -1.0;
      measures := Group([], 0.0, 0.0, []);
    }

    method LidarCallback(scan: Scan, stamp: real)
      requires Valid()
      modifies this
      ensures Valid() && View() == OnLidar(old(View()), scan, stamp)
    {
      if stamp < lastTimestampLidar {
        lidarBuffer := [];
      }
      lidarBuffer := lidarBuffer + [scan];
      timeBuffer := timeBuffer + [stamp];
      lastTimestampLidar := stamp;
    }

    method ImuCallback(m: Imu)
      requires Valid()
      modifies this
      ensures Valid() && View() == OnImu(old(View()), m)
    {
      if m.stamp < lastTimestampImu {
        imuBuffer := [];
      }
      lastTimestampImu := m.stamp;
      imuBuffer := imuBuffer + [m];
    }

    /** The front scan becomes the one being waited for, and its end is fixed. */
    method PushScan()
      requires Valid() && lidarBuffer != []
      modifies this
      ensures View() == TakeScan(old(View()))
    {
      measures := measures.(lidar := lidarBuffer[0], begTime := timeBuffer[0]);
      if |measures.lidar| <= 5 {
        lidarEndTime := measures.begTime + lidarMeanScantime;
      } else if Duration(measures.lidar) < 0.5 * lidarMeanScantime {
        lidarEndTime := measures.begTime + lidarMeanScantime;
      } else {
        scanNum := scanNum + 1;
        lidarEndTime := measures.begTime + Duration(measures.lidar);
        lidarMeanScantime :=
          lidarMeanScantime + (Duration(measures.lidar) - lidarMeanScantime) / scanNum as real;
      }
      measures := measures.(endTime := lidarEndTime);
      lidarPushed := true;
    }

    /** The collecting loop. */
    method CollectImu()
      requires imuBuffer != []
      modifies this`imuBuffer, this`measures
      ensures var d := Drain(old(imuBuffer)[0].stamp, old(imuBuffer), lidarEndTime);
              imuBuffer == d.1 && measures == old(measures).(imu := d.0)
    {
      hide Drain, Collected;
      ghost var goal := Drain(imuBuffer[0].stamp, imuBuffer, lidarEndTime);
      var imuTime := imuBuffer[0].stamp;
      measures := measures.(imu := []);
      CollectStarts(imuTime, imuBuffer, lidarEndTime);
      while |imuBuffer| > 0 && imuTime < lidarEndTime
        invariant measures == old(measures).(imu := measures.imu)
        invariant Collected(goal, measures.imu, imuTime, imuBuffer, lidarEndTime)
        decreases |imuBuffer|
      {
        CollectStep(goal, measures.imu, imuTime, imuBuffer, lidarEndTime);
        imuTime := imuBuffer[0].stamp;
        if imuTime > lidarEndTime { return; }
        measures := measures.(imu := measures.imu + [imuBuffer[0]]);
        imuBuffer := imuBuffer[1..];
      }
      CollectEnds(goal, measures.imu, imuTime, imuBuffer, lidarEndTime);
    }

    /** Pairs the front scan with its samples, or waits. */
    method SyncPackages() returns (ready: bool)
      requires Valid()
      modifies this
      ensures Valid() && View() == Sync(old(View())).0 && ready == Sync(old(View())).1
    {
      hide Drain, Duration;
      if |lidarBuffer| == 0 || |imuBuffer| == 0 {
        return false;
      }
      if !lidarPushed {
        PushScan();
      }
      if lastTimestampImu < lidarEndTime {
        return false;
      }
      CollectImu();
      lidarBuffer := lidarBuffer[1..];
      timeBuffer := timeBuffer[1..];
      lidarPushed := false;
      ready := true;
    }
  }
}
