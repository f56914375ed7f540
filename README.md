# Joint trajectory playback controller — a Dafny model

`JointControlModule` replays a recorded joint-angle trajectory on a humanoid
robot. At setup it loads the dataset (one frame of 23 joint positions per
line), moves the robot smoothly to the first frame, waits until that motion
is done and switches the joints to position-direct control. Each control
cycle then either waits, while Idle, for both feet to press harder than
100 N, starting the base estimator on the way when that service exists, or,
while Active, streams the front frame of the playback buffer and advances
the buffer.

The model has four modules:

- `DatasetLoader` (`dataset_loader.dfy`): `readStateFromFile` as a method
  with the source's two nested loops and its reused fixed-size buffer
  (an `array`), proved equal to the function `Load`.
- `PlaybackBuffer` (`playback_buffer.dfy`): the buffer rotation
  `pop_front` + `push_back(back())` on sequences, and lemmas about repeated
  advances. The last frame is held forever and playback never restarts.
- `ControlCycle` (`control_cycle.dfy`): the Idle/Active cycle of
  `updateModule`, `advanceReferenceSignals` and the tail of `configure`, as
  functions on values. It also has `Run`, the periodic loop that calls the
  cycle until it returns `false`, and lemmas about whole runs.
- `JointControl` (`joint_control.dfy`): the class `JointControlModule` with
  the fields `qDesired` (`m_qDesired`) and `running` (`m_running`), and the
  methods `AdvanceReferenceSignals`, `UpdateModule` and `Configure`. These
  methods update the fields in place and are proved against the functions
  of `ControlCycle`. A ghost field `calls` records the commands and queries
  the module issues, in order, apart from `Network::exists`, the port `open`
  and the wrench reads.

Collaborators become parameters: the robot helper, the force/torque
feedback and the YARP network. Their answers come in as booleans, the two
vertical forces as `real`s, and the answers to the motion-done query as a
sequence of `MotionCheck`s. The requests the module makes are returned as
`Call` values, which is how ordering is stated, for example that the mode
switch comes after the motion is done.

The C++ code has undefined behaviour in four places. One is the write past
the end of the loader's buffer on a line with too many tokens (line 67),
described under "## Left out". In the other three it takes `front()` or
`back()` of an empty `std::deque`:

- `configure` on an empty dataset (line 165);
- `advanceReferenceSignals` on a one-frame buffer (line 95);
- an Active cycle on an empty buffer (line 262).

The model records each of these three as the outcome `Status.Undefined` and stops
at that point. `TwoFramesNeverUndefined` and `SessionWithTwoFramesIsDefined`
show that a dataset of at least two lines never reaches any of them.

Behaviour of the code that is easy to miss:

- The loader is not all-or-nothing. On a malformed line it returns `false`
  together with the frames of the earlier lines. `configure` ignores that
  data and leaves `m_qDesired` empty.
- A blank line has zero tokens. It fails the load; it is not skipped.
- An advance appends a copy of the frame that is last after `pop_front`,
  which is the old last frame. It does not append the new front.
- The motion-done poll loop has no bound.
- The result of `advanceReferenceSignals` is ignored in the Active cycle.

## Model

| member | source | states |
|---|---|---|
| `DatasetLoader.FirstMalformed` | cpp/jointControlModule/src/jointControl.cpp:59-75 | the index of the first line whose token count differs from `num_fields`; every earlier line has exactly `num_fields` tokens |
| `DatasetLoader.Load` | cpp/jointControlModule/src/jointControl.cpp:34-81 | a file that cannot be opened gives `false` and no frames; otherwise `true` exactly when every line has `num_fields` tokens, and then one frame per line in file order; on a malformed line `false` with exactly the frames of the lines before it; every returned frame has `num_fields` entries |
| `DatasetLoader.ReadStateFromFile` | cpp/jointControlModule/src/jointControl.cpp:34-81 | the nested token loop filling the reused buffer returns exactly what `Load` states |
| `DatasetLoader.BlankLineFails` | cpp/jointControlModule/src/jointControl.cpp:61-75 | a blank line makes the load fail, and no frame of it or of a later line is returned |
| `DatasetLoader.WellFormed` | cpp/jointControlModule/src/jointControl.cpp:70 | a line is accepted exactly when its token count equals `num_fields` |
| `PlaybackBuffer.Advanced` | cpp/jointControlModule/src/jointControl.cpp:94-95 | one advance keeps the length, shifts every frame one place to the front and keeps the last frame |
| `PlaybackBuffer.AdvancedTimesShape` | cpp/jointControlModule/src/jointControl.cpp:94-95 | after `k` advances of `n >= 2` frames the buffer is the original frames from `min(k, n-1)` on, followed by `min(k, n-1)` copies of the last frame |
| `PlaybackBuffer.FrontAfterAdvances` | cpp/jointControlModule/src/jointControl.cpp:94-95 | after `k` advances the current frame is original frame `min(k, n-1)`, which is hold-last-frame and not restart; the last frame never changes |
| `PlaybackBuffer.HoldsLastFrame` | cpp/jointControlModule/src/jointControl.cpp:94-95 | after `n-1` or more advances the buffer holds only copies of the final frame, and further advances leave it unchanged |
| `PlaybackBuffer.ThreeFrameScenario` | cpp/jointControlModule/src/jointControl.cpp:94-95 | with three frames, the fronts before six successive advances are frames 0, 1, 2, 2, 2, 2 |
| `ControlCycle.ContactDetected` | cpp/jointControlModule/src/jointControl.cpp:223 | the readiness gate: both vertical forces strictly above 100 |
| `ControlCycle.Advance` | cpp/jointControlModule/src/jointControl.cpp:85-98 | succeeds exactly on a buffer of two or more frames, keeping its length and last frame and dropping its front; an empty buffer gives `false` and stays unchanged; a one-frame buffer is undefined |
| `ControlCycle.Cycle` | cpp/jointControlModule/src/jointControl.cpp:214-270 | Active is never left; Idle never touches the buffer or sends a frame; a failed feedback read changes nothing and succeeds; Idle becomes Active exactly when both forces are strictly above 100 and, if the estimator exists, both connections succeed; a failed connection is the only Idle failure; the start command is sent exactly on such a transition with the estimator present, and a missing estimator skips the handshake; Idle reads the feedback first and asks nothing more on a failed read or a closed gate; the handshake connects the RPC port, then the logger, then sends the start command, and stops at the first connection that fails; Active sends the front frame once; a failed send fails and does not advance; a successful send advances once, and on a one-frame buffer that advance is undefined |
| `ControlCycle.Run` | cpp/jointControlModule/src/jointControl.cpp:259-269 | the loop of cycles, stopping at the first cycle that does not return `true`, never goes from Active back to Idle |
| `ControlCycle.StartCommandAtMostOnce` | cpp/jointControlModule/src/jointControl.cpp:218-259 | in any run the start command reaches the estimator at most once, and never after playback has started |
| `ControlCycle.TwoFramesNeverUndefined` | cpp/jointControlModule/src/jointControl.cpp:262-268 | with a buffer of at least two frames no cycle of any run reaches undefined behaviour |
| `ControlCycle.ActivePlaybackHoldsLastFrame` | cpp/jointControlModule/src/jointControl.cpp:262-269 | in Active playback with every send succeeding, cycle `i` sends original frame `min(i, n-1)` and nothing else, the run never stops, and the buffer is advanced once per cycle |
| `ControlCycle.FailedSendStopsPlayback` | cpp/jointControlModule/src/jointControl.cpp:262-266 | a failed send in cycle `k` stops the run with failure at that cycle, after `k` advances and not `k + 1` |
| `ControlCycle.OneShotTransitionScenario` | cpp/jointControlModule/src/jointControl.cpp:218-269 | with gate readings false, false, true, true, false, the handshake runs once, in the first cycle that reads true, which sends no frame; the next two cycles stream frames 0 and 1 |
| `ControlCycle.FirstAnswer` | cpp/jointControlModule/src/jointControl.cpp:171-179 | the index of the motion-done answer that ends the poll loop; every earlier answer said "not done yet" |
| `ControlCycle.Setup` | cpp/jointControlModule/src/jointControl.cpp:155-193 | a failed load leaves the buffer empty and commands nothing; an empty dataset is undefined; the first command is always the smooth move to the first loaded frame; a failed move ends setup with failure after that one command, with no motion-done query and no mode switch; the mode switch is the last call and comes only after a query answered done; setup succeeds exactly when load, move, polling and switch all succeed, and then the buffer holds the whole dataset; a loop that has used up its answers has not switched; after a good move, a done answer always issues the switch after one query per answer consumed, even when the switch then fails, a failed query ends setup with failure right after that query, and a wait that runs out of answers has queried once per answer |
| `ControlCycle.SessionWithTwoFramesIsDefined` | cpp/jointControlModule/src/jointControl.cpp:155-193 | after a successful setup on a dataset of two or more lines, no run of the periodic loop reaches undefined behaviour |
| `ControlCycle.OneFrameDatasetIsUndefined` | cpp/jointControlModule/src/jointControl.cpp:94-95 | a one-line dataset passes setup, but the first Active cycle with a successful send reaches `back()` on an empty deque |
| `JointControl.JointControlModule.AdvanceReferenceSignals` | cpp/jointControlModule/src/jointControl.cpp:85-98 | the in-place `pop_front` / `push_back(back())` leaves `m_qDesired` and returns what `Advance` states |
| `JointControl.JointControlModule.UpdateModule` | cpp/jointControlModule/src/jointControl.cpp:214-270 | the in-place cycle leaves `m_qDesired` and `m_running`, returns, and asks the collaborators for exactly what `Cycle` states |
| `JointControl.JointControlModule.WaitForMotionDone` | cpp/jointControlModule/src/jointControl.cpp:171-179 | the poll loop stops at the first answer that is not "not done yet": success on done, failure on a failed query, and it asks the robot once per answer consumed |
| `JointControl.JointControlModule.Configure` | cpp/jointControlModule/src/jointControl.cpp:155-193 | the in-place setup tail leaves `m_qDesired`, returns, and asks the robot for exactly what `Setup` states; `m_running` is not changed |

## Left out

- DatasetLoader.ReadStateFromFile: a line with more than `num_fields` tokens makes the source write past the end of its buffer (line 67) before the count check rejects the line. The model counts the extra tokens without writing them and returns `false`, as the count check does; the memory corruption itself is not modelled.
- Opening the file, reading it line by line, splitting on whitespace and `std::stod` (with its exceptions) are input handling. A file is given as `Unopenable` or as its lines of already converted tokens.
- The first part of `configure` is configuration handling around libraries that are not part of this model: reading the `GENERAL`, `ROBOT_CONTROL`, `FT_SENSORS` and `PID` groups, the module name and the dataset type, and configuring the robot helper (lines 111-150). So is `getAbsDirPath`. The model starts at line 155.
- `getPeriod` and `close` are left out. They read the sampling period and restore the PIDs through the robot helper.
- The robot helper's calls, the force/torque feedback and the YARP network calls (`Network::exists`, `connect`, `RpcClient::open` and `write`, port names) are replaced by the answers they give. Opening the client port and the text of the estimator's reply are not modelled, because the source checks neither.
- The mutex, the two-second sleeps and the five-second countdown are left out. They are concurrency and timing only.
- JointControl.JointControlModule.WaitForMotionDone: the `while (!motionDone)` loop has no bound. The model runs it over a finite sequence of answers and returns `Blocked` when the answers run out.
- The initial value of `m_running` is set in `jointControl.hpp`, which is not part of this model. The constructor takes it as `false` (Idle).
- `Run` stands for YARP's module loop, which calls `updateModule` once per period until it returns `false`. That loop belongs to YARP, not to this source file.
- Logging is left out.
