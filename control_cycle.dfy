/**
 * The behaviour of `JointControlModule` as functions on values: one call of
 * `advanceReferenceSignals`, one call of `updateModule` (the Idle/Active
 * cycle), the load / move / poll / switch tail of `configure`, and the
 * periodic loop that calls `updateModule` until it returns `false`.
 *
 * Every collaborator (the robot helper, the force/torque feedback, the YARP
 * network) is reduced to the answers it gives, passed in as parameters, and
 * to the calls the module makes on it, returned as a list of `Call`s so that
 * ordering can be stated.
 */
module ControlCycle {
  import opened DatasetLoader
  import opened PlaybackBuffer

  /** The number of joints in every dataset line (`readStateFromFile(..., 23)`). */
  const JointCount: nat := 23
  /** Both vertical forces must be strictly above this for playback to start. */
  const ForceThreshold: real := 100.0
  /** The duration passed to the initial smooth move (`setPositionReferences(..., 5.0)`). */
  const InitialMoveDuration: real := 5.0

  /**
   * The outcome of a member: `Success` and `Failure` are its `true` and
   * `false`; `Undefined` stands where the C++ code reads the front or back
   * of an empty deque; `Blocked` is the motion-done poll loop still waiting
   * once the supplied answers are used up.
   */
  datatype Status = Success | Failure | Undefined | Blocked

  /** A request the module makes of a collaborator. */
  datatype Call =
    | GetFeedbacks
    | ConnectEstimatorRpc
    | ConnectCenterOfMassToLogger
    | StartFloatingBaseFilter
    | SetPositionReferences(frame: Frame, duration: real)
    | CheckMotionDone
    | SwitchToPositionDirect
    | SetDirectPositionReferences(frame: Frame)

  /** The collaborators' answers during one `updateModule` call. */
  datatype CycleReplies = CycleReplies(
    feedbackOk: bool,       // getFeedbacks(100)
    leftForceZ: real,       // vertical component of the left wrench
    rightForceZ: real,      // vertical component of the right wrench
    estimatorExists: bool,  // Network::exists("/base-estimator/rpc")
    rpcConnected: bool,     // connect to the estimator's RPC port
    loggerConnected: bool,  // connect the centre-of-mass stream to the logger
    commandSent: bool)      // setDirectPositionReferences(front)

  /** `m_qDesired` and `m_running`. */
  datatype ModuleState = ModuleState(qDesired: seq<Frame>, running: bool)

  datatype AdvanceResult = AdvanceResult(q: seq<Frame>, status: Status)

  datatype Step = Step(state: ModuleState, status: Status, calls: seq<Call>)

  /** The readiness gate: both feet press strictly harder than the threshold. */
  predicate ContactDetected(leftForceZ: real, rightForceZ: real) {
    leftForceZ > ForceThreshold && rightForceZ > ForceThreshold
  }

  /**
   * `advanceReferenceSignals` on the buffer `q`. An empty buffer is refused
   * and left as it is. With one frame, `pop_front` empties the deque and
   * the following `back()` is undefined.
   */
  function Advance(q: seq<Frame>): (r: AdvanceResult)
    ensures r.status == Success <==> |q| >= 2
    ensures q == [] ==> r == AdvanceResult([], Failure)
    ensures |q| == 1 ==> r.status == Undefined
    ensures r.status == Success ==>
              |r.q| == |q| && r.q[|q| - 1] == q[|q| - 1] && r.q[..|q| - 1] == q[1..]
  {
    if q == [] then AdvanceResult(q, Failure)
    else if |q| == 1 then AdvanceResult([], Undefined)
    else AdvanceResult(Advanced(q), Success)
  }

  /**
   * One `updateModule` call. Idle: read the feedback (a failed read is not
   * an error), test the gate, run the optional estimator handshake, and
   * become Active; no frame is sent in that cycle. Active: send the front
   * frame, and advance only if the send succeeded.
   */
  function Cycle(s: ModuleState, rep: CycleReplies): (r: Step)
    ensures r.status != Blocked
    // Active is never left.
    ensures s.running ==> r.state.running
    // Idle never touches the buffer, never streams a frame, is always defined.
    ensures !s.running ==>
              r.state.qDesired == s.qDesired && r.status != Undefined
              && forall i :: 0 <= i < |r.calls| ==> !r.calls[i].SetDirectPositionReferences?
    ensures !s.running && !rep.feedbackOk ==> r == Step(s, Success, [GetFeedbacks])
    // Idle -> Active exactly when the feedback was read, both forces pass the
    // gate and, if the estimator exists, both connections were made.
    ensures !s.running ==>
              (r.state.running <==>
                 rep.feedbackOk && ContactDetected(rep.leftForceZ, rep.rightForceZ)
                 && (rep.estimatorExists ==> rep.rpcConnected && rep.loggerConnected))
    ensures !s.running && r.state.running ==> r.status == Success
    // A failed connection to an existing estimator is the only Idle failure.
    ensures !s.running ==>
              (r.status == Failure <==>
                 rep.feedbackOk && ContactDetected(rep.leftForceZ, rep.rightForceZ)
                 && rep.estimatorExists && !(rep.rpcConnected && rep.loggerConnected))
    // The start command goes out exactly on a transition with the estimator present.
    ensures (StartFloatingBaseFilter in r.calls) <==>
              !s.running && r.state.running && rep.estimatorExists
    ensures !s.running && !rep.estimatorExists ==> r.calls == [GetFeedbacks]
    // Idle always reads the feedback first; a failed read or a closed gate
    // asks nothing more.
    ensures !s.running ==> r.calls != [] && r.calls[0] == GetFeedbacks
    ensures !s.running && !(rep.feedbackOk && ContactDetected(rep.leftForceZ, rep.rightForceZ)) ==>
              r.calls == [GetFeedbacks]
    // The handshake: the RPC connection, then the logger connection, then the
    // start command; it stops at the first connection that fails.
    ensures StartFloatingBaseFilter in r.calls ==>
              r.calls == [GetFeedbacks, ConnectEstimatorRpc, ConnectCenterOfMassToLogger, StartFloatingBaseFilter]
    ensures !s.running && r.status == Failure ==>
              r.calls == (if rep.rpcConnected then [GetFeedbacks, ConnectEstimatorRpc, ConnectCenterOfMassToLogger]
                          else [GetFeedbacks, ConnectEstimatorRpc])
    // Active: the front frame is sent, once, and nothing else is asked.
    ensures s.running && s.qDesired != [] ==>
              r.calls == [SetDirectPositionReferences(s.qDesired[0])]
    ensures s.running && s.qDesired == [] ==> r == Step(s, Undefined, [])
    // A failed send is fatal and does not advance.
    ensures s.running && !rep.commandSent ==> r.state == s && r.status != Success
    ensures s.running && s.qDesired != [] && !rep.commandSent ==> r.status == Failure
    // A successful send advances exactly once; advance's own result is ignored
    // unless it was undefined.
    ensures s.running && s.qDesired != [] && rep.commandSent ==>
              r.state.qDesired == Advance(s.qDesired).q
              && (r.status == Success <==> |s.qDesired| >= 2)
    // On a one-frame buffer that advance takes back() of an emptied deque.
    ensures s.running && |s.qDesired| == 1 && rep.commandSent ==> r.status == Undefined
  {
    if !s.running then
      if !rep.feedbackOk then Step(s, Success, [GetFeedbacks])
      else if !ContactDetected(rep.leftForceZ, rep.rightForceZ) then Step(s, Success, [GetFeedbacks])
      else if !rep.estimatorExists then Step(s.(running := true), Success, [GetFeedbacks])
      else if !rep.rpcConnected then Step(s, Failure, [GetFeedbacks, ConnectEstimatorRpc])
      else if !rep.loggerConnected then
        Step(s, Failure, [GetFeedbacks, ConnectEstimatorRpc, ConnectCenterOfMassToLogger])
      else
        Step(s.(running := true), Success,
             [GetFeedbacks, ConnectEstimatorRpc, ConnectCenterOfMassToLogger, StartFloatingBaseFilter])
    else if s.qDesired == [] then Step(s, Undefined, [])
    else
      var sent := [SetDirectPositionReferences(s.qDesired[0])];
      if !rep.commandSent then Step(s, Failure, sent)
      else
        var a := Advance(s.qDesired);
        Step(s.(qDesired := a.q), if a.status == Undefined then Undefined else Success, sent)
  }

  /**
   * What the periodic loop produces from a starting state and the replies
   * of successive cycles: it stops at the first cycle that does not
   * succeed. `last` is that cycle's status, or `Success` if none failed.
   */
  datatype Trace = Trace(final: ModuleState, calls: seq<Call>, last: Status)

  function Run(s: ModuleState, rs: seq<CycleReplies>): (t: Trace)
    ensures s.running ==> t.final.running
    ensures t.last != Blocked
    decreases |rs|
  {
    if rs == [] then Trace(s, [], Success)
    else
      var step := Cycle(s, rs[0]);
      if step.status != Success then Trace(step.state, step.calls, step.status)
      else
        var t := Run(step.state, rs[1..]);
        Trace(t.final, step.calls + t.calls, t.last)
  }

  /** However many cycles run, the estimator is started at most once, and never from Active. */
  lemma {:induction false} StartCommandAtMostOnce(s: ModuleState, rs: seq<CycleReplies>)
    ensures multiset(Run(s, rs).calls)[StartFloatingBaseFilter] <= if s.running then 0 else 1
    decreases |rs|
  {
    if rs != [] {
      var step := Cycle(s, rs[0]);
      if step.status == Success {
        StartCommandAtMostOnce(step.state, rs[1..]);
        assert Run(s, rs).calls == step.calls + Run(step.state, rs[1..]).calls;
        if StartFloatingBaseFilter in step.calls {
          assert multiset(step.calls)[StartFloatingBaseFilter] == 1;
        } else {
          assert multiset(step.calls)[StartFloatingBaseFilter] == 0;
        }
      } else {
        assert StartFloatingBaseFilter !in step.calls;
      }
    }
  }

  /**
   * With at least two frames in the buffer no cycle ever reaches undefined
   * behaviour: Idle cycles keep the buffer and Active cycles preserve its
   * length.
   */
  lemma {:induction false} TwoFramesNeverUndefined(s: ModuleState, rs: seq<CycleReplies>)
    requires |s.qDesired| >= 2
    ensures Run(s, rs).last != Undefined
    decreases |rs|
  {
    if rs != [] {
      var step := Cycle(s, rs[0]);
      if step.status == Success {
        TwoFramesNeverUndefined(step.state, rs[1..]);
      }
    }
  }

  /** An Active cycle on two or more frames whose send succeeds, exactly. */
  lemma ActiveCycleAdvances(s: ModuleState, rep: CycleReplies)
    requires s.running && |s.qDesired| >= 2 && rep.commandSent
    ensures Cycle(s, rep) ==
              Step(ModuleState(Advanced(s.qDesired), true), Success,
                   [SetDirectPositionReferences(s.qDesired[0])])
  {
  }

  /** One more loop iteration after a successful cycle. */
  lemma RunUnfold(s: ModuleState, rs: seq<CycleReplies>)
    requires rs != [] && Cycle(s, rs[0]).status == Success
    ensures Run(s, rs) ==
              var step := Cycle(s, rs[0]);
              var t := Run(step.state, rs[1..]);
              Trace(t.final, step.calls + t.calls, t.last)
  {
  }

  /**
   * Active playback of `n >= 2` frames with every send succeeding: cycle `i`
   * sends original frame `min(i, n-1)`, nothing else is asked of the robot,
   * the loop never stops, and the buffer ends advanced once per cycle.
   */
  lemma {:induction false} ActivePlaybackHoldsLastFrame(s: ModuleState, rs: seq<CycleReplies>)
    requires s.running && |s.qDesired| >= 2
    requires forall i :: 0 <= i < |rs| ==> rs[i].commandSent
    ensures Run(s, rs).last == Success
    ensures Run(s, rs).final == ModuleState(AdvancedTimes(s.qDesired, |rs|), true)
    ensures |Run(s, rs).calls| == |rs|
    ensures forall i :: 0 <= i < |rs| ==>
              Run(s, rs).calls[i] == SetDirectPositionReferences(s.qDesired[Min(i, |s.qDesired| - 1)])
    decreases |rs|
  {
    if rs != [] {
      var q := s.qDesired;
      var n := |q|;
      var next := ModuleState(Advanced(q), true);
      ActiveCycleAdvances(s, rs[0]);
      RunUnfold(s, rs);
      ActivePlaybackHoldsLastFrame(next, rs[1..]);
      StreamedFramesShift(q, Run(next, rs[1..]).calls);
    }
  }

  /**
   * If the cycles after the first stream the advanced buffer's frames
   * clamped at its last index, then the whole run streams the original
   * frames clamped at the last index.
   */
  lemma StreamedFramesShift(q: seq<Frame>, rest: seq<Call>)
    requires |q| >= 2
    requires forall i :: 0 <= i < |rest| ==>
               rest[i] == SetDirectPositionReferences(Advanced(q)[Min(i, |q| - 1)])
    ensures forall i :: 0 <= i < |rest| + 1 ==>
              ([SetDirectPositionReferences(q[0])] + rest)[i] == SetDirectPositionReferences(q[Min(i, |q| - 1)])
  {
  }

  /**
   * A send that fails in Active cycle `k` (all earlier sends succeeding)
   * ends the loop with `Failure` at that cycle, after exactly `k` advances:
   * the failed cycle itself does not advance.
   */
  lemma {:induction false} FailedSendStopsPlayback(s: ModuleState, rs: seq<CycleReplies>, k: nat)
    requires s.running && |s.qDesired| >= 2
    requires k < |rs| && !rs[k].commandSent
    requires forall i :: 0 <= i < k ==> rs[i].commandSent
    ensures Run(s, rs).last == Failure
    ensures Run(s, rs).final == ModuleState(AdvancedTimes(s.qDesired, k), true)
    ensures |Run(s, rs).calls| == k + 1
    ensures Run(s, rs).calls[k] == SetDirectPositionReferences(AdvancedTimes(s.qDesired, k)[0])
    decreases k
  {
    if k > 0 {
      ActiveCycleAdvances(s, rs[0]);
      RunUnfold(s, rs);
      FailedSendStopsPlayback(ModuleState(Advanced(s.qDesired), true), rs[1..], k - 1);
    }
  }

  /**
   * Gate readings false, false, true, true, false over five cycles, with the
   * feedback always read and the estimator present and reachable: the
   * handshake runs once, in the third cycle, which sends no frame; the
   * fourth and fifth cycles stream the first two frames.
   */
  lemma OneShotTransitionScenario(f0: Frame, f1: Frame, f2: Frame)
    ensures
      var low := CycleReplies(true, 50.0, 150.0, true, true, true, true);
      var high := CycleReplies(true, 150.0, 150.0, true, true, true, true);
      var t := Run(ModuleState([f0, f1, f2], false), [low, low, high, high, low]);
      t.last == Success && t.final.running
      && t.calls == [GetFeedbacks, GetFeedbacks,
                     GetFeedbacks, ConnectEstimatorRpc, ConnectCenterOfMassToLogger, StartFloatingBaseFilter,
                     SetDirectPositionReferences(f0), SetDirectPositionReferences(f1)]
  {
    var low := CycleReplies(true, 50.0, 150.0, true, true, true, true);
    var high := CycleReplies(true, 150.0, 150.0, true, true, true, true);
    var q := [f0, f1, f2];
    var idle := ModuleState(q, false);
    var active := ModuleState(q, true);
    var handshake := [GetFeedbacks, ConnectEstimatorRpc, ConnectCenterOfMassToLogger, StartFloatingBaseFilter];
    // Cycles four and five: Active playback of the first two frames.
    var tail := [high, low];
    ActivePlaybackHoldsLastFrame(active, tail);
    var streamed := Run(active, tail).calls;
    assert streamed == [SetDirectPositionReferences(f0), SetDirectPositionReferences(f1)];
    // Cycle three: the transition, with the handshake.
    assert Cycle(idle, high) == Step(active, Success, handshake);
    RunUnfold(idle, [high] + tail);
    assert ([high] + tail)[1..] == tail;
    // Cycles one and two: contact not yet detected.
    assert Cycle(idle, low) == Step(idle, Success, [GetFeedbacks]);
    RunUnfold(idle, [low, high] + tail);
    assert ([low, high] + tail)[1..] == [high] + tail;
    RunUnfold(idle, [low, low, high] + tail);
    assert ([low, low, high] + tail)[1..] == [low, high] + tail;
    assert [low, low, high] + tail == [low, low, high, high, low];
  }

  /** One answer of `checkMotionDone`: the query failed, or it succeeded saying not yet / done. */
  datatype MotionCheck = CheckError | NotDone | Done

  /**
   * The index of the first answer that ends the `while (!motionDone)` loop,
   * or `|polls|` when every supplied answer is "not yet".
   */
  function FirstAnswer(polls: seq<MotionCheck>): (k: nat)
    ensures k <= |polls|
    ensures forall j :: 0 <= j < k ==> polls[j] == NotDone
    ensures k < |polls| ==> polls[k] != NotDone
  {
    if polls == [] then 0
    else if polls[0] != NotDone then 0
    else 1 + FirstAnswer(polls[1..])
  }

  /** `m_qDesired` after the setup tail, its result, and the robot calls made. */
  datatype SetupResult = SetupResult(qDesired: seq<Frame>, status: Status, calls: seq<Call>)

  /**
   * The tail of `configure`: clear the buffer, load the dataset, move
   * smoothly to its first frame, poll until the motion is done, switch to
   * position-direct control. `moveOk` and `switchOk` are the robot's
   * answers to the move and the mode switch, `polls` its answers to
   * successive motion-done queries.
   */
  function Setup(file: TextFile, moveOk: bool, polls: seq<MotionCheck>, switchOk: bool): (r: SetupResult)
    // A failed load leaves the buffer empty and commands nothing.
    ensures !Load(file, JointCount).ok ==> r == SetupResult([], Failure, [])
    // An empty dataset reaches front() on an empty deque.
    ensures r.status == Undefined <==> Load(file, JointCount) == Loaded(true, [])
    ensures r.status == Undefined ==> r.calls == []
    // Whenever the robot is commanded at all, the first command is the
    // smooth move to the first frame of the loaded dataset.
    ensures r.calls != [] ==>
              Load(file, JointCount).ok && r.qDesired == file.lines && r.qDesired != []
              && r.calls[0] == SetPositionReferences(r.qDesired[0], InitialMoveDuration)
    // A failed smooth move ends setup: no motion-done query, no mode switch.
    ensures !moveOk ==> |r.calls| <= 1
    ensures SwitchToPositionDirect in r.calls ==> moveOk
    ensures Load(file, JointCount).ok && Load(file, JointCount).data != [] && !moveOk ==>
              r.status == Failure
              && r.calls == [SetPositionReferences(Load(file, JointCount).data[0], InitialMoveDuration)]
    // The mode switch comes only after a query has answered done, as the
    // very last call, with every earlier query answering not yet.
    ensures SwitchToPositionDirect in r.calls ==>
              exists k :: 0 <= k < |polls| && polls[k] == Done
                          && (forall j :: 0 <= j < k ==> polls[j] == NotDone)
                          && r.calls == [SetPositionReferences(r.qDesired[0], InitialMoveDuration)]
                                        + Repeat(CheckMotionDone, k + 1) + [SwitchToPositionDirect]
    // Setup succeeds exactly when every step does.
    ensures r.status == Success <==>
              Load(file, JointCount).ok && Load(file, JointCount).data != [] && moveOk
              && (exists k :: 0 <= k < |polls| && polls[k] == Done
                              && forall j :: 0 <= j < k ==> polls[j] == NotDone)
              && switchOk
    ensures r.status == Success ==>
              r.qDesired == file.lines && SwitchToPositionDirect in r.calls
              && forall i :: 0 <= i < |r.qDesired| ==> |r.qDesired[i]| == JointCount
    // Still polling: every supplied answer was "not yet" and no switch happened.
    ensures r.status == Blocked ==>
              moveOk && (forall j :: 0 <= j < |polls| ==> polls[j] == NotDone)
              && SwitchToPositionDirect !in r.calls    // After a good move, the queries asked and what follows them, for each
    // way the poll loop can end: a done answer always issues the switch
    // (which may then fail), a failed query ends setup, and a wait that has
    // used up its answers has asked once per answer.
    ensures Load(file, JointCount).ok && Load(file, JointCount).data != [] && moveOk ==>
              var move := [SetPositionReferences(Load(file, JointCount).data[0], InitialMoveDuration)];
              var k := FirstAnswer(polls);
              r.qDesired == Load(file, JointCount).data
              && (k < |polls| && polls[k] == Done ==>
                    r.status == (if switchOk then Success else Failure)
                    && r.calls == move + Repeat(CheckMotionDone, k + 1) + [SwitchToPositionDirect])
              && (k < |polls| && polls[k] == CheckError ==>
                    r.status == Failure && r.calls == move + Repeat(CheckMotionDone, k + 1))
              && (k == |polls| ==>
                    r.status == Blocked && r.calls == move + Repeat(CheckMotionDone, k))
  {
    var loaded := Load(file, JointCount);
    if !loaded.ok then SetupResult([], Failure, [])
    else if loaded.data == [] then SetupResult([], Undefined, [])
    else
      var q := loaded.data;
      var move := [SetPositionReferences(q[0], InitialMoveDuration)];
      if !moveOk then SetupResult(q, Failure, move)
      else
        var k := FirstAnswer(polls);
        if k == |polls| then
          SetupResult(q, Blocked, move + Repeat(CheckMotionDone, k))
        else if polls[k] == CheckError then
          SetupResult(q, Failure, move + Repeat(CheckMotionDone, k + 1))
        else
          SetupResult(q, if switchOk then Success else Failure,
                      move + Repeat(CheckMotionDone, k + 1) + [SwitchToPositionDirect])
  }

  /**
   * A session whose setup succeeded on a dataset of at least two lines never
   * reaches undefined behaviour in the periodic loop, whatever the replies.
   */
  lemma SessionWithTwoFramesIsDefined(file: TextFile, moveOk: bool, polls: seq<MotionCheck>,
                                      switchOk: bool, running: bool, rs: seq<CycleReplies>)
    requires Setup(file, moveOk, polls, switchOk).status == Success
    requires |file.lines| >= 2
    ensures Run(ModuleState(Setup(file, moveOk, polls, switchOk).qDesired, running), rs).last != Undefined
  {
    TwoFramesNeverUndefined(ModuleState(Setup(file, moveOk, polls, switchOk).qDesired, running), rs);
  }

  /**
   * A one-line dataset passes setup, but the first Active cycle whose send
   * succeeds reaches `back()` on the emptied deque.
   */
  lemma OneFrameDatasetIsUndefined(f: Frame, polls: seq<MotionCheck>, rep: CycleReplies)
    requires |f| == JointCount && polls == [Done] && rep.commandSent
    ensures Setup(Lines([f]), true, polls, true).status == Success
    ensures Cycle(ModuleState(Setup(Lines([f]), true, polls, true).qDesired, true), rep).status == Undefined
  {
  }
}
