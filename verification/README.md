# HORST, the MOVE-II satellite manager

HORST keeps the satellite safe. It collects facts and requests from D-Bus, runs a logic table on
every one of them, and starts scripts for the actions the table lists. Performing an action can
feed new events into the table before the list of the outer event is finished. Beside that HORST
runs shell commands for a ground client over S3TP, with a length and type in front of every message.

This project models both cores and proves what they leave behind.

**The rule engine.**

| file | content |
|---|---|
| `States.dfy` | class `State`, the events that update it, the logic table, and its documented rows as exact conditions |
| `Cascade.dfy` | one event as a recursive function on values (`OnEvent`, `RunActions`, `Perform`, `Finish`), its termination and its nesting |
| `Endless.dfy` | the cascade from any state, enforce flag up or down, with limited room on the stack, and exactly when it has no bottom |
| `Satellites.dfy` | class `Satellite` with the reentrant methods, each proved equal to the function of the same name |
| `FlatStep.dfy` | the closed form: the whole nested cascade is a flat state change and a flat list of starts |
| `Runs.dfy` | runs: any interleaving of D-Bus messages, script exits and killed scripts, and the invariant of all of them |
| `Reports.dfy`, `Starting.dfy` | the whole state as a history of what was reported, and exactly which scripts each step starts |
| `Guarantees.dfy`, `Demands.dfy`, `Answers.dfy`, `Pointing.dfy` | what holds over every run |

**The S3TP session.**

| file | content |
|---|---|
| `Framing.dfy` | the wire format, a reference parser for whole streams, and their inverses |
| `RemoteExec.dfy` | the ground client: its encoder, its draining decoder, the round trip under any fragmentation |
| `Processes.dfy`, `Links.dfy`, `S3tp.dfy` | the child process and the server, callbacks as functions and as methods that keep the session invariant |
| `Sessions.dfy` | runs: any interleaving of callbacks, and their invariant |
| `Effects.dfy` | an exact account of each callback by what it finds |
| `SessionGuarantees.dfy` | what holds over every run: liveness, isolation, soft-close, output fidelity |
| `Stranded.dfy` | commands ended by SIGTERM, whose sessions go on without them |
| `Throttling.dfy` | back-pressure, and exactly when it fails |
| `Progress.dfy` | recovery without a channel, and when output is polled again |
| `ExitCodes.dfy`, `OutputHistory.dfy` | the exit text read back, and everything a session shows its client |
| `ReceiverGuarantees.dfy`, `InputFidelity.dfy` | frame alignment, what the process gets of the frames, and where the receiver falls short |

`dafny verify dfyconfig.toml` checks everything.

## Assumptions

- `enforced_safemode` starts false. The constructor in `src/state/state.cpp` leaves it unset; its
  description in `src/state/state.h` gives the intent. `NoBottomIff` says for which events
  the cascade would have no bottom otherwise.
- Spawning a script or a command succeeds, so completion is asynchronous.
- The S3TP channel takes a buffer as a whole, reports that it is full, or fails. Which of the three,
  whether a reconnect succeeds, and what the uninitialised `type` in `onDataReceived` holds are
  parameters.
- A run of the server ends where the source would use a null channel: a process that the server
  kills on reconnect dies of SIGTERM, and the channel does not fail while `send` runs. The methods of
  `S3TPServer` have no such limit: they return that the channel was null, exactly as `ExitSafeIff` and
  `SendSafeIff` say.
- The exit callback of libuv, which closes the pipes, and the later close callback, which reports the
  exit, are one step. A chunk that arrives between the two is the next command in the model; in
  `src/process.cpp` it is input that is dropped.
- `uint32_t` is little-endian on both ends and `size_t` has 64 bits, so `expected` plus the header
  size does not wrap.
- Action ids are unbounded; the source counts them in 64 bits.

## Where the code differs from its documentation

- `doc/operation_manual.md` gives a 64-bit length and an "ack" string. The code sends a 32-bit
  length, a type byte, and a STARTED frame.
- `doc/system_design.md` queues scripts until the whole table was processed. In the code an action
  is performed at once, and the state it changes is seen by nested tables but not by the outer list.
- Its rows for low battery and for ALARM are independent. In the code ALARM hides low battery.
- Its row for a safemode request needs safemode off. In the code the request also enters again.
- It enters safemode when the script exits with 0. The code does so before the script starts, and
  takes it back when the script fails.

## Properties that do not hold, and when they do

- The ADCS is not always cared for: a trigger script that fails or is killed is not retried
  (`FailedTriggerIdles`). `IdlesIffLastTriggerFails` says exactly when the satellite falls idle,
  `EventRestoresPointing` that the next event of any kind repairs it.
- The server does not always see the type of a frame. `TypeHeardIff`: it does exactly if the header
  came with the bytes that complete the frame, or the input is closed anyway. Where that holds all
  along a run, the process gets what the client sent (`ClientToServer`). `EndOfInputLost` gives bytes
  for which it does not, `EndOfInputLostRun` a run that gets there.
- The end-of-input frame of the ground client is refused, since it has length zero
  (`EmptyFrameEndsSession`): it ends the session and kills the process. `RefusedEndsSession`: a
  session ends by what is received exactly if a header of length zero comes to the front.
- The server handles one frame per callback, so a second one in the same chunk waits for more bytes
  (`SecondFrameWaits`). `BacklogIff`: nothing waits exactly if at most one frame was there.
- Output is not always held back while earlier output waits. `BackPressure`: a callback brings this
  about exactly if it starts a command on a full channel. `HeldBackIff` says the same of whole runs,
  `OverfedRun` gives such runs.
- The server can use a channel that is null. `ExitSafeIff`: the exit callback does so exactly if the
  command was not ended by SIGTERM and the channel is gone or fails. `SendSafeIff`: `send` does so
  exactly if the channel fails and is not there again at once. `NullChannelRun` gives runs that get
  there.
- A session whose command has ended is not always closed. `ReportedIff`: the end is reported exactly
  if the signal is not SIGTERM. `DeadIffKilledSince`: a run ends with a dead command exactly if one was
  ended by SIGTERM and its session has lasted since. `DeadStaysSilent`: until then nothing is queued, all
  input is dropped and no soft-close comes. `DeadRun` gives such runs.
- A trigger script is not always started once: at the end of LEOP two tables list it
  (`LeopStartsTwice`). `StartsExactly` says how often each script is started in every step.
- A shell command that is ended by SIGTERM is never answered, and its action stays in the map
  (`ActionsAccounted`, `RequestsAnsweredOnce`).

## Model

| member | source | states |
|---|---|---|
| States.TableRows | src/state/state.cpp:28-115 | The table lists an action if and only if its documented row applies to the current and the target state |
| States.TableOrder | src/state/state.cpp:28-115 | The queued shell commands come first, in order, then at most one action for each place of the table, in the order of the places |
| States.State.TransformTo | src/state/state.cpp:28-115 | The imperative table returns exactly the specified list and changes nothing but LEOP, and that only to a value other than DONE |
| States.State.ApplyRequests | src/state/state.cpp:37-53 | The manualmode and safemode requests of the target, in order |
| States.State.ApplyLogic | src/state/state.cpp:79-112 | With both modes off: emergency, measuring and ADCS rules of the state LEOP was already moved in |
| States.State.ComputerActions | src/state/computer.cpp:11-31 | One shell action per queued command, in order |
| States.State.constructor | src/state/state.cpp:18-21 | The initial values, with the enforce flag down |
| States.State.Copy | src/state/state.cpp:23-25 | A fresh object with equal value |
| States.Event.UpdateFact | src/event/adcs_req_signal.cpp:14-20 | Each fact changes its own fields and no other; the two ADCS facts reset each other's field |
| States.Event.UpdateRequest | src/event/safemode_req.cpp:14-17 | Each request changes its own fields and no other; a safemode request also raises the enforce flag |
| Cascade.NestingBound | src/satellite.cpp:117-164 | From any state and for any event, on_event is never more than three deep |
| Cascade.NestingAttained | src/action/leave_safemode.cpp:22-24 | Three is attained by leaving safemode in an emergency |
| Endless.DepthIsNesting | src/satellite.cpp:117-164 | With the flag down the cascade with limited room counts exactly the nesting, up to the room, and ends in the same state if there is enough |
| Endless.NoBottomIff | src/state/state.cpp:46-53 | For any state and any event, fact or request, the cascade nests deeper than any number if and only if the enforce flag is up and the event makes HORST enter safemode; otherwise it is at most three deep |
| Satellites.Satellite.constructor | src/satellite.cpp:13-25 | The world HORST starts in, from its arguments |
| Satellites.Satellite.OnEvent | src/satellite.cpp:117-164 | The reentrant method refines the cascade function, terminates, and never meets an id that is in use |
| Satellites.Satellite.Decide | src/satellite.cpp:121-136 | Facts go to the current state, requests to a copy; the table of both, and nothing else |
| Satellites.Satellite.RunActions | src/satellite.cpp:138-163 | The loop performs the given list in order, stale or not, and leaves the world the cascade function gives |
| Satellites.Satellite.AddAction | src/satellite.cpp:82-85 | The action is stored under the next id, which was free |
| Satellites.Satellite.RemoveAction | src/satellite.cpp:107-114 | The id leaves the map, nothing else changes |
| Satellites.Satellite.Perform | src/action/enter_safemode.cpp:23-42 | Each kind of action raises its facts first and spawns its script afterwards |
| Satellites.Satellite.Exited | src/action/shell_command.cpp:56-71 | The request is answered, then the callback runs, then the action leaves the map |
| Satellites.Satellite.Terminated | src/process.cpp:38-55 | A script ended by SIGTERM leaves no child and runs nothing; its action stays in the map |
| Satellites.Satellite.Callback | src/action/leave_manualmode.cpp:28-39 | What each kind of action injects when its script is done |
| FlatStep.FactStep | src/satellite.cpp:121-163 | Any fact: update, settle a pending emergency, start what the table lists |
| FlatStep.CascadeRefinesFlat | src/satellite.cpp:117-164 | From any state and for any event the whole nested cascade equals the flat step with the flat list of starts under consecutive ids |
| Runs.StepIsFlat | src/action/shell_command.cpp:56-71 | Every top-level step, script exits and killed scripts included, has the same closed form |
| Runs.RunInvariant | src/satellite.cpp:97-164 | In every run the state is settled, the enforce flag is down, no shell command is queued, and the bookkeeping is exact |
| Reports.StateIsReported | src/event/eps_signal.cpp:14-16 | In every run each field of the state is what the D-Bus messages and the completed scripts of the run say: level, temperature and LEOP reported last, modes asked for last, pointing reached or asked for, safemode by its reason |
| Reports.ModeFields | src/action/enter_safemode.cpp:23-42 | What each step does to safemode and maneuvermode, by what is reported after it |
| Starting.StartsExactly | src/state/state.cpp:28-115 | A step starts each kind of action exactly as often as its message, its completion, or the state it leads to asks for |
| Starting.StartedOnDemand | src/satellite.cpp:138-163 | The same for what every step of every run adds to the scripts started |
| Starting.LeopStartsTwice | src/action/finish_leop.cpp:22-25 | A run in which the end of LEOP starts a trigger script twice |
| Guarantees.EmergencySafety | src/state/state.cpp:77-84 | In every run HORST is in safemode, in manualmode, or the temperature reported last is no ALARM and the battery level reported last is at the threshold or above |
| Guarantees.SafemodeLeftOnPurpose | src/action/leave_safemode.cpp:22-29 | Safemode ends if and only if a request asks for it or an entry script failed, and manualmode is on or there is no emergency |
| Guarantees.LeaveManualmodeRearms | src/action/leave_manualmode.cpp:25-40 | When leaving manualmode completes in safemode, safemode is on again for the most urgent reason, maneuvermode is off, nothing else changed |
| Guarantees.ActionsAccounted | src/satellite.cpp:82-114 | The map holds exactly the running and the killed actions; started is running plus killed plus finished; each id finishes once; replies follow completions |
| Guarantees.IdsNeverReused | src/satellite.cpp:82-85 | A longer run only appends to what was started and finished, and only adds to what was killed |
| Guarantees.FanOut | src/satellite.cpp:138-163 | One event or completion starts at most three actions, nested tables included |
| Guarantees.FanOutAttained | src/action/leave_manualmode.cpp:25-28 | Three is attained by a run: start in manualmode, an ALARM, then leave manualmode |
| Demands.StepCounts | src/state/state.cpp:86-92 | A step starts a measurement exactly under the documented conditions, and a shell command exactly by its request |
| Demands.MeasuringOnDemand | src/event/payload_req.cpp:14-16 | Over any run the measurements started are exactly the granted payload requests |
| Demands.ShellRunsOnce | src/event/req_shell_command.cpp:22-32 | Over any run a shell command was started exactly as often as it was requested |
| Answers.RequestsAnsweredOnce | src/action/shell_command.cpp:56-71 | Over any run the answers given, the commands running and the commands killed add up to the requests |
| Pointing.EventRestoresPointing | src/state/state.cpp:95-111 | Whatever happened before, after any event the ADCS is cared for |
| Pointing.IdlesIffLastTriggerFails | src/action/trigger_detumbling.cpp:21-32 | The ADCS falls idle in a step if and only if the last trigger script running fails or is ended by SIGTERM |
| Pointing.AdcsNeverIdles | src/action/trigger_sunpointing.cpp:22-33 | In runs in which no trigger script fails or is killed the ADCS is cared for from the first message on |
| Pointing.FailedTriggerIdles | src/action/trigger_detumbling.cpp:27-29 | The runs of one battery report and one failing or killed script end idle; the killed one stays in the map |
| Framing.LengthRoundTrip | src/server/s3tp.cpp:247-251 | The length read back from the front of a buffer is the length written |
| Framing.EncodeLayout | src/server/s3tp.cpp:247-254 | Four bytes of length, least significant first, the type, the payload |
| Framing.WireExamples | src/server/s3tp_proto.h:13-20 | The bytes of one frame of each type, and of one with 65536 bytes of payload |
| Framing.RefusedIff | src/server/s3tp.cpp:184-188 | The server refuses exactly a length of four zero bytes, the client exactly a header of five |
| Framing.ParseEncoded | src/server/s3tp.cpp:247-254 | Parsing encoded frames gives the frames, whatever follows |
| Framing.EncodeParsed | test/s3tp/remoteexec.cpp:49-88 | Encoding the parsed frames gives back the stream, and every parsed frame is acceptable |
| Framing.ParseContinues | test/s3tp/remoteexec.cpp:41-47 | Parsing in two pieces continues from the rest of the first |
| RemoteExec.WriteData | test/s3tp/remoteexec.cpp:103-112 | The buffer sent is the encoded frame, with the line cut to a 32-bit length |
| RemoteExec.RemoteexecCallback.HandleBuffer | test/s3tp/remoteexec.cpp:49-88 | Takes one frame off the buffer exactly if a whole acceptable one is in front; crashes exactly on an empty frame without type |
| RemoteExec.RemoteexecCallback.OnDataReceived | test/s3tp/remoteexec.cpp:41-47 | The draining loop does to the client what the reference parse of its buffer says |
| RemoteExec.ChunkingIrrelevant | test/s3tp/remoteexec.cpp:41-88 | Any two ways of cutting a stream lead to the same client |
| RemoteExec.FramingRoundTrip | test/s3tp/remoteexec.cpp:41-88 | All frames that can be sent arrive in order for every chunking, with an empty buffer |
| RemoteExec.FramingPrefix | test/s3tp/remoteexec.cpp:41-88 | A part of the bytes gives a prefix of the frames and no crash |
| Processes.Process.ExitCallback | src/process.cpp:38-71 | The pipes close once; the exit is reported unless the signal is SIGTERM |
| Processes.Process.Input | src/process.cpp:154-179 | Data is written in order while the input is open, and dropped afterwards |
| Processes.Process.CloseInput | src/process.cpp:181-190 | The input is closed, and closing twice is harmless |
| S3tp.S3TPServer.Reconnect | src/server/s3tp.cpp:55-135 | Live channels stay; a process is killed and waited for; otherwise buffers are cleared and a channel or a retry follows |
| S3tp.S3TPServer.OnTimer | src/server/s3tp.cpp:71-118 | The wait for the kill drops the process, and both timers reconnect |
| S3tp.S3TPServer.OnDataReceived | src/server/s3tp.cpp:165-236 | Header, length check, delivery and consumption of at most one frame |
| S3tp.S3TPServer.Deliver | src/server/s3tp.cpp:193-231 | Input or end of input for a running process, otherwise a new command, its STARTED frame and its output |
| S3tp.S3TPServer.Send | src/server/s3tp.cpp:238-260 | The frame is queued behind the output buffer unless it is empty without type or there is no channel; a channel that fails and is gone is used nevertheless |
| S3tp.S3TPServer.SendBuf | src/server/s3tp.cpp:262-288 | All or nothing is accepted; a full channel stops the output; a failed one is closed and reconnected; the last bytes of an ended command soft-close |
| S3tp.S3TPServer.OnOutput | src/process.cpp:112-117 | Output of either pipe is sent with its type |
| S3tp.S3TPServer.OnExit | src/server/s3tp.cpp:204-221 | The exit code is sent, the process dropped, then the rest is sent or the channel soft-closed; says where a null channel is used |
| S3tp.S3TPServer.OnBufferEmpty | src/server/s3tp.cpp:303-308 | Output starts again and the buffer is tried again |
| S3tp.S3TPServer.OnBufferFull | src/server/s3tp.cpp:297-301 | Output stops |
| S3tp.S3TPServer.Close | src/server/s3tp.cpp:290-295 | The channel is dropped and a reconnect tried |
| S3tp.S3TPServer.OnDisconnected | src/server/s3tp.cpp:150-155 | The same when the library reports a disconnect, and the session invariant is kept |
| Links.ExitSafeIff | src/server/s3tp.cpp:204-221 | The exit callback uses a null channel if and only if the command was not ended by SIGTERM and the channel is gone or fails; otherwise it does what OnExit says |
| Links.SendSafeIff | src/server/s3tp.cpp:238-260 | Sending uses a null channel if and only if the channel fails with a process there, or cannot be opened again |
| SessionGuarantees.NullChannelRun | src/server/s3tp.cpp:65-82 | Runs in which that happens: after any command the client disconnects and the command exits by itself, or the channel fails while sending |
| ExitCodes.ExitTextReads | src/server/s3tp.cpp:207-210 | The text is "[exit] ", an optional minus sign, decimal digits without a leading zero, and a newline, and reads back as the exit code |
| ExitCodes.ExitTextInjective | src/server/s3tp.cpp:207-210 | Different exit codes give different texts |
| Effects.LiveEffect | src/server/s3tp.cpp:165-308 | For every callback on a live channel: whether the session ends and what follows, the frames queued, whether all is sent, whether the process is there and polled |
| Effects.IdleEffect | src/server/s3tp.cpp:71-118 | Without a channel only the timer acts: it begins a new session, or leaves a retry pending |
| Sessions.OnDataCases | src/server/s3tp.cpp:165-236 | The three outcomes of a chunk, by what is then at the front of the buffer |
| Sessions.RunInvariant | src/server/s3tp.cpp:55-308 | In every run: liveness, alignment, fidelity, grammar, soft-close and back-pressure invariants |
| SessionGuarantees.NeverStalls | src/server/s3tp.cpp:55-144 | After start exactly one of a live channel and a pending timer is there |
| Progress.Recovery | src/server/s3tp.cpp:71-118 | Whenever there is no channel, the next timer begins a fresh session if the reconnect succeeds, otherwise only a retry is left |
| Progress.RecoversAtTimer | src/server/s3tp.cpp:71-118 | A run without a channel has one again with the first timer whose reconnect succeeds, and not before |
| Progress.UnpolledIffSince | src/server/s3tp.cpp:262-308 | Output of a live session is not polled if and only if a callback met a full channel and since then the channel was not empty again and neither command nor session ended |
| Progress.PolledIffSince | src/server/s3tp.cpp:222-225 | It is polled if and only if the command started or the channel was empty again and since then no callback met a full channel or ended command or session |
| Progress.OutputResumes | src/server/s3tp.cpp:303-308 | Once the channel is empty and takes the buffer, all queued frames are sent, and the process is polled or the session soft-closed |
| SessionGuarantees.SessionsIsolated | src/server/s3tp.cpp:84-91 | Within a session traffic only grows; a new session starts with empty buffers, no header and no process |
| SessionGuarantees.SoftCloseExactlyAtEnd | src/server/s3tp.cpp:212-220 | A callback soft-closes the session if and only if it makes the process gone and the output accepted, and then all queued frames were accepted |
| Stranded.ReportedIff | src/process.cpp:46-55 | The end of a command is reported to the client if and only if the signal is not SIGTERM; otherwise the session keeps a dead command |
| Stranded.DeadStep | src/process.cpp:38-71 | A command dies unreported in exactly one kind of callback, and stays dead exactly until the session ends |
| Stranded.DeadIffKilledSince | src/process.cpp:46-55 | A run ends with a dead command if and only if one was ended by SIGTERM and no later callback ended the session |
| Stranded.DeadStaysSilent | src/server/s3tp.cpp:192-221 | However the run goes on, within that session no frame is queued, no input reaches the process, and no soft-close comes |
| Stranded.DeadRun | src/process.cpp:46-55 | Any command ended by SIGTERM is such a run; STARTED is all the client sees |
| Throttling.OverfedStep | src/server/s3tp.cpp:262-308 | A callback from any state of the invariant leads to polling with output waiting if and only if it starts a command on a full channel, or finds it so and touches no output |
| Throttling.BackPressure | src/server/s3tp.cpp:268-273 | The same for every step of every run; nothing is queued behind the start meanwhile |
| Throttling.OverfedIffFullSince | src/server/s3tp.cpp:222-225 | A run ends with polling while output waits if and only if some callback started a command on a full channel and no later one touched the output |
| Throttling.HeldBackIff | src/server/s3tp.cpp:222-225 | Output is held back during a whole run if and only if no command of it starts on a full channel |
| Throttling.OverfedRun | src/server/s3tp.cpp:222-225 | Any first command on a full channel is such a run |
| SessionGuarantees.OutputFidelity | src/server/s3tp.cpp:238-288 | Accepted bytes and output buffer are the queued frames, which follow STARTED (STDOUT or STDERR)* ENDOFFILE |
| SessionGuarantees.ServerToClient | src/server/s3tp.cpp:238-288 | In every run the client has a prefix of the queued frames, and all of them once everything arrived |
| OutputHistory.QueueIsEmitted | src/server/s3tp.cpp:204-260 | In every run the frames queued in a session are one for each start, each output and each reported end, in order |
| OutputHistory.ChildToScreen | test/s3tp/remoteexec.cpp:74-82 | The client prints a prefix of what the commands wrote, and at the end all of it; it has got every exit code, and runs on exactly if there is none |
| OutputHistory.ClientLearnsExit | test/s3tp/remoteexec.cpp:78-80 | A client that read a finished session reads the exit code of its command in the last frame |
| SessionGuarantees.ClientStops | test/s3tp/remoteexec.cpp:78-80 | A client that read a session to its end, whose command was reported to have ended, stops; the session was soft-closed |
| ReceiverGuarantees.ReceivesReferenceParse | src/server/s3tp.cpp:165-236 | Frames consumed and frames in the buffer are the reference parse of the bytes received, for any chunking |
| ReceiverGuarantees.OneFramePerCallback | src/server/s3tp.cpp:179-235 | One frame is consumed if and only if a whole one with a payload is in front; a frame of length zero ends the session |
| ReceiverGuarantees.BacklogIff | src/server/s3tp.cpp:192-235 | After a callback all whole frames but the first are left in the buffer, so none waits if and only if there was at most one |
| ReceiverGuarantees.SecondFrameWaits | src/server/s3tp.cpp:192-235 | Of two frames in one chunk the second stays in the buffer |
| ReceiverGuarantees.RefusedEndsSession | src/server/s3tp.cpp:184-188 | A session ends by what is received if and only if a header of length zero comes to the front; a process is killed and waited for, otherwise a new session or a retry follows |
| ReceiverGuarantees.EmptyFrameEndsSession | src/server/s3tp.cpp:184-188 | A whole frame at the front is handled if and only if it has a payload; otherwise the session ends and the process is killed |
| ReceiverGuarantees.FrameReachesProcess | src/server/s3tp.cpp:193-231 | The process after a frame: the payload is the command, input, or an end of input by the type in the local variable |
| ReceiverGuarantees.TypeHeardIff | src/server/s3tp.cpp:166-200 | A frame is handled by its own type for every stale value if and only if its header came in the same callback or the input is closed |
| ReceiverGuarantees.EndOfInputLost | src/server/s3tp.cpp:166-200 | Concrete bytes of an end of input that is written to the process as data |
| ReceiverGuarantees.EndOfInputLostRun | src/server/s3tp.cpp:166-200 | A run that gets there: any command, then these bytes |
| InputFidelity.ProcessHearsClient | src/server/s3tp.cpp:192-235 | In every run in which no frame type is lost, the command of a process is the frame that came when there was none, and its input is what all later frames say |
| InputFidelity.ClientToServer | src/server/s3tp.cpp:165-236 | The server has handled a prefix of the frames the client sent, empty ones included, for any chunking, and the command of the process is a payload of that prefix, and its input is the payloads of all later frames up to an end of input |

## Left out

- D-Bus and libuv plumbing, polling and the watchdog timer: foreign calls; the D-Bus handlers appear as the messages a run consists of.
- The objects of single actions and D-Bus messages are values: a child process per action is an id in the set of running scripts.
- Parsing of names into states, modes and levels: finite labels, and the hash it uses can collide.
- `ControlMessage::parse`, `DaemonControlReq` and the beacon bytes: easy members without state.
- Program arguments, logging, error classes and the shell scripts themselves: no hard property.
- A failing `uv_spawn`, a failing `malloc`, and the lifetime of objects destroyed while their callback runs.
- `compare_to_buf`: nothing calls it.
- What the S3TP library does after a soft-close, until it reports the disconnect: any callback may still come.
- Frames of one chunk that wait in the server for the next chunk: nothing is proved about how long, since the source has no such bound.
