/**
 * `JointControlModule` as a class: the playback buffer `m_qDesired` and the
 * flag `m_running` are fields that its methods update in place, as the
 * source does. Each method is proved against the function of
 * `ControlCycle` that states what it does; the ghost field `calls` records
 * the commands and queries the module issues, in order, apart from
 * `Network::exists`, the port `open` and the wrench reads.
 */
module JointControl {
  import opened DatasetLoader
  import opened PlaybackBuffer
  import opened ControlCycle

  class JointControlModule {
    /** `m_qDesired`: the frames still to play, front first. */
    var qDesired: seq<Frame>
    /** `m_running`: false while waiting for contact (Idle), true once playing (Active). */
    var running: bool
    /** The commands and queries issued so far (see the module comment for what is not recorded). */
    ghost var calls: seq<Call>

    /** A module before `configure`: no frames, Idle, nothing asked yet. */
    constructor ()
      ensures qDesired == [] && !running && calls == []
    {
      qDesired := [];
      running := false;
      calls := [];
    }

    /** `advanceReferenceSignals`: `pop_front`, then `push_back(back())`. */
    method AdvanceReferenceSignals() returns (r: Status)
      modifies this`qDesired
      ensures AdvanceResult(qDesired, r) == Advance(old(qDesired))
    {
      if qDesired == [] {
        return Failure;
      }
      qDesired := qDesired[1..];
      if qDesired == [] {
        // back() of an empty deque
        return Undefined;
      }
      qDesired := qDesired + [qDesired[|qDesired| - 1]];
      return Success;
    }

    /**
     * `updateModule`: one cycle of the periodic loop. The five-second
     * countdown before playback starts is a delay only and is not modelled.
     */
    method UpdateModule(rep: CycleReplies) returns (r: Status)
      modifies this
      ensures var step := Cycle(ModuleState(old(qDesired), old(running)), rep);
              qDesired == step.state.qDesired && running == step.state.running
              && r == step.status && calls == old(calls) + step.calls
    {
      if !running {
        calls := calls + [GetFeedbacks];
        if !rep.feedbackOk {
          return Success;
        }
        if ContactDetected(rep.leftForceZ, rep.rightForceZ) {
          if rep.estimatorExists {
            calls := calls + [ConnectEstimatorRpc];
            if !rep.rpcConnected {
              return Failure;
            }
            calls := calls + [ConnectCenterOfMassToLogger];
            if !rep.loggerConnected {
              return Failure;
            }
            // The reply to the start command is not inspected.
            calls := calls + [StartFloatingBaseFilter];
          }
          running := true;
        }
        return Success;
      }
      if qDesired == [] {
        // front() of an empty deque
        return Undefined;
      }
      calls := calls + [SetDirectPositionReferences(qDesired[0])];
      if !rep.commandSent {
        return Failure;
      }
      // The result of the advance is ignored, except where it is undefined.
      var advanced := AdvanceReferenceSignals();
      if advanced == Undefined {
        return Undefined;
      }
      return Success;
    }

    /**
     * The `while (!motionDone)` loop of `configure`: query the robot until an
     * answer says done or the query fails. The loop has no bound; here it
     * runs over the supplied answers and reports `Blocked` when they run out.
     */
    method WaitForMotionDone(polls: seq<MotionCheck>) returns (r: Status)
      modifies this`calls
      ensures var k := FirstAnswer(polls);
              && r == (if k == |polls| then Blocked else if polls[k] == Done then Success else Failure)
              && calls == old(calls) + Repeat(CheckMotionDone, if k == |polls| then k else k + 1)
    {
      var motionDone := false;
      var i := 0;
      while !motionDone
        invariant i <= |polls|
        invariant !motionDone ==> forall j :: 0 <= j < i ==> polls[j] == NotDone
        invariant motionDone ==>
                    1 <= i && polls[i - 1] == Done && forall j :: 0 <= j < i - 1 ==> polls[j] == NotDone
        invariant calls == old(calls) + Repeat(CheckMotionDone, i)
        decreases |polls| - i
      {
        if i == |polls| {
          // No answer left: the source would still be polling.
          return Blocked;
        }
        assert Repeat(CheckMotionDone, i) + [CheckMotionDone] == Repeat(CheckMotionDone, i + 1);
        calls := calls + [CheckMotionDone];
        var answer := polls[i];
        i := i + 1;
        match answer
        case CheckError =>
          assert FirstAnswer(polls) == i - 1;
          return Failure;
        case NotDone =>
        case Done =>
          motionDone := true;
      }
      assert FirstAnswer(polls) == i - 1;
      return Success;
    }

    /**
     * The tail of `configure`: clear, load, move to the first frame, poll
     * until the motion is done, switch to position-direct control. The
     * two-second settling delay after the switch is not modelled.
     */
    method Configure(file: TextFile, moveOk: bool, polls: seq<MotionCheck>, switchOk: bool)
      returns (r: Status)
      modifies this
      ensures var setup := Setup(file, moveOk, polls, switchOk);
              qDesired == setup.qDesired && r == setup.status
              && calls == old(calls) + setup.calls && running == old(running)
    {
      qDesired := [];
      var ok, data := ReadStateFromFile(file, JointCount);
      if !ok {
        return Failure;
      }
      qDesired := data;
      if qDesired == [] {
        // front() of an empty deque
        return Undefined;
      }
      calls := calls + [SetPositionReferences(qDesired[0], InitialMoveDuration)];
      if !moveOk {
        return Failure;
      }
      var polled := WaitForMotionDone(polls);
      if polled != Success {
        return polled;
      }
      calls := calls + [SwitchToPositionDirect];
      if !switchOk {
        return Failure;
      }
      return Success;
    }
  }
}
