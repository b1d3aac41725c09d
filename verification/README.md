# Nyra: verified models of the stateful core

Dafny models of the parts of Nyra whose correctness rests on state, order or arithmetic, with proofs of what these
parts are for. Each module models one component:

- `DependencyGraph`, `PlanExecution`, `PlanMeaning`, `PlanExecutor`: execution plans of the Skills service. The
  depth-first check of a plan, the round-based run, the recursive evaluator the run is proved equal to, and what a report
  says in terms of the answers given. Conditions, resolution and capability answers are oracles, one answer for each step;
  a raised exception ends the run.
- `RootMeanSquare`, `VoiceActivity`: the device's voice activity detector, on machine integers and a wrapping clock, and
  a description of its decisions by the history alone.
- `StreamRegistry`, `StreamProgress`, `AudioStreaming`: the registry of audio streams. A stretch of a coroutine between two awaits is one
  step, and every operation the sink is asked for is logged. A stream's lock is that of asyncio in Python 3.11 and later:
  waiting calls take it in turn, but a call that arrives when it is free and only cancelled ones wait takes it at once.
- `CaptureProtocol`, `CaptureDetection`, `CaptureOutcome`, `CaptureProgress`, `CaptureObjects`, `AudioRing`: one capture
  from microphone to router, device and ingress with the channels between them, including lost connections, timeouts and
  failing queues; when it stops listening, what it reports, and that it comes to its end if nothing fails. The device's
  object, with its circular buffer and queues, and the ingress' are proved to take
  the steps of the protocol.
- `Idempotency`, `MemoryScopes`, `OperationalMemory`, `OperationalHistory`, `SemanticMemory`, `SemanticHistory`,
  `MemoryService`: the memory service. A transaction is one step; creating and superseding look without a lock first, and
  any number of callers interleave. The two services share the table of idempotency keys. The histories say what the
  tables hold, in terms of the requests made and the replies given alone.
- `Jobs`, `JobScheduling`, `JobHistory`: persisted jobs and the scheduler, with crashes, restarts and cancellations at any
  point, and each job's row as the outcome of what happened to it.
- `SpeakerProfiles`, `Preprocessing`, `PreprocessingMeaning`: speaker profiles as an index over samples and files, and the
  PCM16 pipeline, with what it accepts and produces in numbers of the audio format.
- `EventBroker`: interaction events with bounded queues.
- `Wrappers`: types the others share.

Objects whose methods update fields are classes; each of their methods is proved against a function of the old state,
and the main results are lemmas about these functions and about runs of steps. Ghost fields record what cannot be seen
from the fields: calls made, audio offered and captured, events published.

Three results differ from what one would expect. A START refused by the ingress is answered by an error without a stream
id, which the device takes for an invalid frame (`CaptureProtocol.InvalidExactlyWhenStartRefused`). Superseding does
not look for duplicates, so "one active memory per content" holds exactly as long as replacements bring content that no
other active memory has (`SemanticHistory.ContentUniqueIff`). And a chunk cancelled while it waits for its stream's lock can
be passed by a later call, so that an end returns without it; an end that returns delivered everything exactly if that
did not happen (`StreamRegistry.EndDeliversEverything`, `StreamRegistry.OvertakenExactlyIfPassed`,
`StreamRegistry.CancelledChunkCanBeLost`).

`dafny verify dfyconfig.toml` checks the project.

## Model

| member | source | states |
|---|---|---|
| `DependencyGraph.DependencyCheck.Visit` | skills/execution.py:38-43 | one call of the three-colour search: it succeeds if and only if the node reaches no cycle, and then the finished nodes are still in dependency order and include it |
| `DependencyGraph.DependencyCheck.VisitAll` | skills/execution.py:37-44 | the depth-first search over a closed graph terminates, and accepts if and only if no node reaches itself; an accepted graph has all its nodes in an order that puts dependencies first |
| `DependencyGraph.TopologicalIsAcyclic` | skills/execution.py:37-44 | an order of all nodes with dependencies first rules out cycles |
| `DependencyGraph.RoundMakesProgress` | skills/execution.py:57-59 | while steps are left in an acyclic graph, the next round has a step in it |
| `DependencyGraph.UnfinishedHasLongChain` | skills/execution.py:57-84 | a step not finished after k rounds is the start of a chain of k + 1 dependencies |
| `DependencyGraph.FinishedHasShortChains` | skills/execution.py:57-84 | if k rounds finish everything, no dependency chain is longer than k |
| `PlanExecution.OutcomeEquation` | skills/execution.py:60-84 | on an acyclic plan the recursive evaluator gives each step the outcome that its own conditions, target and capability answer have once it is known whether its dependencies completed |
| `PlanExecution.AboveIsIrrelevant` | skills/execution.py:60-84 | the bookkeeping that makes the evaluator terminate never changes its result on an acyclic plan |
| `PlanExecution.StatusIndependentOfListOrder` | skills/execution.py:55-98 | reordering the list of steps neither changes whether the plan is accepted nor any step's outcome |
| `PlanExecution.SkippedIffTransitiveDependencyBlocks` | skills/execution.py:62-70 | a step is SKIPPED_DEPENDENCY if and only if some direct or transitive dependency failed, was SKIPPED_CONDITION, or raised |
| `PlanExecution.ConstructorCheckCoversExecutorCheck` | shared/protocol/execution.py:24-44 | the constructor's graph check and the executor's accept the same step lists; a plan that was built can only be rejected for not being VALIDATED |
| `PlanExecution.ValidateGraph` | shared/protocol/execution.py:24-44 | the constructor's check reports duplicate ids first, then the first self or unknown dependency in list order, then cycles, and nothing else |
| `PlanExecutor.ExecutionPlanExecutor.Validate` | skills/execution.py:28-44 | the executor rejects a plan exactly for: not VALIDATED, duplicate ids, a self or unknown dependency, a cycle; in that order of precedence |
| `PlanExecutor.ExecutionPlanExecutor.RunStep` | skills/execution.py:60-84 | one step run against its oracles: conditions in order until one fails, target resolution, capability call; the target is asked for only if it is not resolved, before the capability is called, and the capability executes the step only if all of that succeeds |
| `PlanExecutor.ExecutionPlanExecutor.SettleStep` | skills/execution.py:60-84 | settling one ready step keeps every recorded result equal to the recursive evaluator's |
| `PlanExecutor.ExecutionPlanExecutor.RunRound` | skills/execution.py:60-84 | one pass over the ready steps settles exactly these, each as the recursive evaluator says |
| `PlanExecutor.ExecutionPlanExecutor.NextRound` | skills/execution.py:57-84 | the ready list is never empty ("plan cannot make progress" is unreachable), the pending set shrinks, and after k rounds exactly the steps with chains of at most k are settled |
| `PlanExecutor.ExecutionPlanExecutor.RunRounds` | skills/execution.py:55-84 | when the loop ends after k rounds, all steps are settled, and a dependency chain of length k was met on the way |
| `PlanExecutor.ExecutionPlanExecutor.RunSteps` | skills/execution.py:55-84 | the round-based loop terminates with the recursive evaluator's result for every step, in as many rounds as the longest chain is long, or stops because some step raises |
| `PlanExecutor.ExecutionPlanExecutor.CreateAutomations` | skills/execution.py:85-95 | the behaviors are asked for in list order, each once; all of them, or up to and including the first whose creation raises; the flag says whether one was refused |
| `PlanExecutor.ExecutionPlanExecutor.ExecutePlan` | skills/execution.py:46-98 | the whole run: the reported statuses are the recursive evaluator's in list order, COMPLETED overall exactly if all steps completed and all behaviors succeeded; no step is executed twice, each only after all its dependencies completed; the number of rounds is the length of the longest dependency chain; automations only after all steps. A finished run's report means what it says (FinishMeans), and any other ends where some step raises (InterruptMeans) |
| `PlanMeaning.RunAloneMeans` | skills/execution.py:60-84 | the outcome of a step, given whether its dependencies completed: SKIPPED_CONDITION if and only if the first condition that does not hold fails; COMPLETED with x if and only if all hold, its resource is its own or the only candidate of a RESOLVED search, and the capability answers success with x; FAILED with e if and only if the search ends with a status e tells, or the capability answers no success with error, or else outcome, e; an exception if and only if one of these raises |
| `PlanMeaning.OutcomesAccount` | skills/execution.py:55-84 | every step of an acyclic plan has the outcome that the answers and the outcomes of its dependencies give it |
| `PlanMeaning.AccountsAgree` | skills/execution.py:55-84 | there is only one such assignment of outcomes |
| `PlanMeaning.ReportIsMeant` | skills/execution.py:55-98 | read alone, a report in plan order says of each step what the answers and the reports of its dependencies give it |
| `PlanMeaning.CallsAreMeant` | skills/execution.py:62-82 | the capability was called for a step if and only if its dependencies are reported COMPLETED, all conditions hold and a resource was found; the target was searched for if and only if the first two hold and none was given |
| `PlanExecutor.FinishIsMeant` | skills/execution.py:46-98 | a finished run is COMPLETED if and only if every step is reported COMPLETED and the creation of every behavior answered success; its report and its calls mean what they say |
| `PlanExecutor.CallsFollowTransitiveDependencies` | skills/execution.py:60-82 | a step's call to the capability comes after the calls of all its direct and transitive dependencies, and these completed |
| `PlanExecutor.NoRoundIsEmpty` | skills/execution.py:57-59 | an accepted plan always has a pending step whose dependencies are settled |
| `PlanExecutor.RoundsAreLongestChain` | skills/execution.py:57-84 | rounds that settle everything and are witnessed by a chain are as many as the longest chain is long |
| `PlanExecutor.OrderedReports` | skills/execution.py:96-98 | the results listed in plan order are the evaluator's outcomes; all are COMPLETED exactly if all outcomes are |
| `RootMeanSquare.LeadingBit` | esphome/components/nyra_audio_ingress/voice_activity_detector.h:79-83 | the first loop finds the largest power of four not above the mean, or 0 if the mean is 0, in the form the second loop needs |
| `RootMeanSquare.AdvanceDigit` | esphome/components/nyra_audio_ingress/voice_activity_detector.h:84-92 | one turn of the root loop, taken or not, keeps the encoding of the partial root, and root + bit stays below 2^64 |
| `RootMeanSquare.SquareRoot` | esphome/components/nyra_audio_ingress/voice_activity_detector.h:79-93 | the bit-by-bit loop returns r with r*r <= mean < (r+1)*(r+1) for every 64-bit mean, without overflow |
| `RootMeanSquare.SumOfSquares` | esphome/components/nyra_audio_ingress/voice_activity_detector.h:73-77 | the loop adds up exactly the squares, without overflow of 64 bits |
| `RootMeanSquare.CalculateRms` | esphome/components/nyra_audio_ingress/voice_activity_detector.h:70-94 | 0 for no buffer or no samples, else the r with r*r*count <= sum of squares < (r+1)*(r+1)*count, at most 32768, so the final cast loses nothing; for every buffer of up to 2^32 - 1 samples |
| `RootMeanSquare.RmsBetweenExtremes` | esphome/components/nyra_audio_ingress/voice_activity_detector.h:70-94 | the result lies between the least and the greatest magnitude of the samples |
| `RootMeanSquare.RmsUnique` | esphome/components/nyra_audio_ingress/voice_activity_detector.h:70-94 | only one number has the property the result is stated by |
| `VoiceActivity.VoiceActivityDetector.Reset` | esphome/components/nyra_audio_ingress/voice_activity_detector.h:29-35 | a reset puts every variable to the start of a new capture |
| `VoiceActivity.VoiceActivityDetector.Update` | esphome/components/nyra_audio_ingress/voice_activity_detector.h:37-67 | one update changes the variables and decides as the step function on the wrapping clock does, with the exact level of the frame |
| `VoiceActivity.WrappingStep` | esphome/components/nyra_audio_ingress/voice_activity_detector.h:37-67 | a step on the 32-bit clock decides as the same step on an unbounded clock, while less than 2^32 ms have passed |
| `VoiceActivity.WrappingRun` | esphome/components/nyra_audio_ingress/voice_activity_detector.h:37-67 | so do whole runs shorter than 2^32 ms |
| `VoiceActivity.RunExplained` | esphome/components/nyra_audio_ingress/voice_activity_detector.h:37-67 | on an unbounded clock every decision is the one the history of levels and times calls for |
| `VoiceActivity.DetectorDecidesByHistory` | esphome/components/nyra_audio_ingress/voice_activity_detector.h:37-67 | on the wrapping clock too: SPEAKING first comes exactly when an unbroken run of frames >= speech_rms spans speech_on_ms, COMPLETE exactly when since the start of speech trailing_silence_ms passed without a frame >= continuation_rms, the limits exactly when they are reached |
| `VoiceActivity.HistoryDecidesOnce` | esphome/components/nyra_audio_ingress/voice_activity_detector.h:37-67 | a history calls for one decision only |
| `VoiceActivity.PastBothLimitsEndsCapture` | esphome/components/nyra_audio_ingress/voice_activity_detector.h:38-66 | an update past both limits ends the capture |
| `AudioStreaming.AudioStreamRegistry.ForgetOldest` | shared/audio_streaming.py:224-225 | the loop leaves exactly the last closed_capacity ids, in order |
| `AudioStreaming.AudioStreamRegistry.Finish` | shared/audio_streaming.py:219-227 | leaves the active streams and is remembered as closed, unless another incarnation is active |
| `AudioStreaming.AudioStreamRegistry.AbortNow` | shared/audio_streaming.py:202-210 | finishes the incarnation and begins its one abort, or does nothing if it already left |
| `AudioStreaming.AudioStreamRegistry.Start` | shared/audio_streaming.py:151-164 | DUPLICATE, CLOSED, CAPACITY_EXCEEDED in that order, else a reserved stream whose start goes to the sink at once |
| `AudioStreaming.AudioStreamRegistry.Chunk` | shared/audio_streaming.py:166-174 | refuses an unknown or closed id, aborts on a limit, else charges the bytes and queues or begins the call |
| `AudioStreaming.AudioStreamRegistry.End` | shared/audio_streaming.py:176-180 | refuses an unknown or closed id, else queues or begins the end |
| `AudioStreaming.AudioStreamRegistry.TakeTurn` | shared/audio_streaming.py:182-188 | the first waiting call that is not cancelled gets a free lock, and is refused if and only if its incarnation has left |
| `AudioStreaming.AudioStreamRegistry.CancelWaiting` | shared/audio_streaming.py:182-191 | the task of a waiting call is cancelled; its place in the queue stays until it runs again |
| `AudioStreaming.AudioStreamRegistry.Returned` | shared/audio_streaming.py:176-191 | the sink operation that held the lock returns; an end finishes the stream |
| `AudioStreaming.AudioStreamRegistry.Failed` | shared/audio_streaming.py:182-191 | a call that fails or times out, or whose cancellation is delivered, holding the lock or waiting, aborts its incarnation |
| `AudioStreaming.AudioStreamRegistry.Expire` | shared/audio_streaming.py:193-234 | deadline, disconnect and shutdown abort the incarnation if it is still active |
| `StreamRegistry.StepKeepsInv` | shared/audio_streaming.py:151-234 | every step, at any interleaving, keeps: the sink calls of an incarnation form start, chunk*, optional end, then at most one abort; every admitted chunk is within max_chunk_bytes and their total within max_stream_bytes; calls begin in the order they were issued, except past cancelled ones; active and closed disjoint and bounded; closed is the last closed_capacity finished ids |
| `StreamRegistry.RunKeepsInv` | shared/audio_streaming.py:151-234 | so does every run from the empty registry |
| `StreamRegistry.StepExtendsLog` | shared/audio_streaming.py:182-210 | a step appends to an incarnation's sink log only while it is active; leaving appends exactly one abort, or nothing if an end returned |
| `StreamRegistry.LeftForGood` | shared/audio_streaming.py:182-227 | once an incarnation left, no run makes it active again or calls the sink for it |
| `StreamRegistry.FailureAborts` | shared/audio_streaming.py:182-191 | a failed call takes the incarnation out of the active streams and begins its abort in the same step |
| `StreamRegistry.EndDeliversEverything` | shared/audio_streaming.py:166-191 | when an end returns after any run, the sink received exactly the concatenation of the chunks admitted before it, in order and within the limits, but for overtaken ones; all earlier calls succeeded, and no chunk is missing, if and only if no call of the stream was ever admitted while the lock was free and only cancelled calls waited |
| `StreamRegistry.OvertakenExactlyIfPassed` | shared/audio_streaming.py:166-191 | over every run, calls of an incarnation have been overtaken if and only if at some step a chunk or end was admitted while the lock was free and all waiting calls, at least one, were cancelled |
| `StreamRegistry.OvertakesExactly` | shared/audio_streaming.py:182-188 | an arriving call passes waiting ones not passed before if and only if the lock is free and all that wait are cancelled |
| `StreamRegistry.OthersNotOvertaken` | shared/audio_streaming.py:166-234 | no other step, a refused chunk included, makes any call pass another |
| `StreamRegistry.CancelledChunkCanBeLost` | shared/audio_streaming.py:176-191 | a concrete run in which an end returns although the chunk before it, cancelled while it waited, never reached the sink |
| `StreamRegistry.RecentlyFinishedIsClosed` | shared/audio_streaming.py:219-225 | the ids of the last closed_capacity finished streams are closed |
| `StreamRegistry.RestartWaitsItsTurn` | shared/audio_streaming.py:151-164 | a finished id can be started again only after closed_capacity later streams finished |
| `StreamProgress.FreeLockIsTaken` | shared/audio_streaming.py:182-188 | in every reachable registry a free lock goes to the first waiting call of an active stream, unless it is cancelled: that call begins, and nothing else changes |
| `StreamProgress.ServingEnds` | shared/audio_streaming.py:182-191 | if nothing fails, turns and returns are bounded in number by what waits, and when none is possible all calls have succeeded, in order, or all up to the first end |
| `StreamProgress.WaitingCallsAreServed` | shared/audio_streaming.py:182-191 | after any run, a stream none of whose waiting calls is cancelled or passed can be served to the end, and however turns and returns go on, they end there |
| `StreamProgress.RepliesFollowHistory` | shared/audio_streaming.py:151-180 | over every run the replies to start, chunk and end follow from which streams are active, which were among the last closed_capacity to leave, and the bytes admitted: each reply if and only if its case holds |
| `StreamProgress.FailedCallIsGone` | shared/audio_streaming.py:182-191 | a call that fails keeps neither the lock nor a place in the queue; everybody else does, in order, and other streams do not notice |
| `StreamProgress.CancelledCallIsNoted` | shared/audio_streaming.py:182-191 | a waiting call can be cancelled if and only if it is not the first in the queue of a free lock; nothing else changes by that |
| `StreamProgress.LeftCallsAreRefused` | shared/audio_streaming.py:185-187 | the calls that still wait when their stream has left get their turns one after the other, are refused as closed, and the sink hears of none |
| `AudioRing.RingOfBytes.WriteWithoutReplacement` | esphome/components/nyra_audio_ingress/nyra_audio_ingress.cpp:394-402 | on a fixed array with wrap-around: the bytes go behind those there are if and only if they all fit, else nothing changes |
| `AudioRing.RingOfBytes.Take` | esphome/components/nyra_audio_ingress/nyra_audio_ingress.cpp:264-281 | the oldest n bytes come out in order, also across the end of the array, and the others stay |
| `CaptureObjects.NyraAudioIngress.StartStream` | esphome/components/nyra_audio_ingress/nyra_audio_ingress.cpp:63-107 | a new stream begins with everything left over from the last one cleared, also if that ended at any point; an overlapping or offline start only calls the failure callback; if CONNECT cannot be queued the stream ends at once |
| `CaptureObjects.NyraAudioIngress.OnMicrophoneData` | esphome/components/nyra_audio_ingress/nyra_audio_ingress.cpp:394-402 | audio goes into the circular buffer whole or not at all; what does not fit raises the overflow flag; the object's parts then make up the device the protocol steps to |
| `CaptureObjects.NyraAudioIngress.FinishStream` | esphome/components/nyra_audio_ingress/nyra_audio_ingress.cpp:480-488 | clearing the two queues and the circular buffer one after the other ends the stream as the protocol says, with the outcome on record |
| `CaptureObjects.NyraAudioIngress.HandleResponses` | esphome/components/nyra_audio_ingress/nyra_audio_ingress.cpp:125-128 | popping the queue and handling response by response, where handling one may empty the queue, equals the fold over the responses that were queued |
| `CaptureObjects.HandlingCommutes` | esphome/components/nyra_audio_ingress/nyra_audio_ingress.cpp:125-228 | a response is handled without regard to those queued behind it, which stay queued exactly if it does not end the stream |
| `CaptureObjects.NyraAudioIngress.SendOffered` | esphome/components/nyra_audio_ingress/nyra_audio_ingress.cpp:252-285 | up to 16 KiB leave the circular buffer, the detector may end an enrollment capture with them, and they are queued or the send flag is raised: the object takes the step of which `CaptureDetection.EndAskedExactly` and `CaptureOutcome.PassIsMeant` say what it does |
| `CaptureObjects.NyraAudioIngress.LoopOnce` | esphome/components/nyra_audio_ingress/nyra_audio_ingress.cpp:125-180 | one pass of the loop over queues, circular buffer and variables is the protocol's step of the device |
| `CaptureObjects.NyraAudioIngress.LoopAlways` | esphome/components/nyra_audio_ingress/nyra_audio_ingress.cpp:116-180 | likewise when idle, and when closing: once the transport has closed the stream ends with its one callback |
| `CaptureObjects.AudioIngressSession.ReceiveFrame` | homeassistant/custom_components/nyra/audio.py:364-416 | one frame at the ingress: START, chunk limits, END, and the answer sent |
| `CaptureObjects.AudioIngressSession.FlushNext` | homeassistant/custom_components/nyra/audio.py:442-447 | the flush hands the router one stored chunk after the other, then ends and reports the result |
| `CaptureProtocol.HandleResponse` | esphome/components/nyra_audio_ingress/nyra_audio_ingress.cpp:182-228 | after a response the device either streams on after an acknowledgement or is closing with an empty queue; it complains exactly about unexpected responses and errors that do not name its stream |
| `CaptureProtocol.StepKeepsInv` | esphome/components/nyra_audio_ingress/nyra_audio_ingress.cpp:116-298 | every step of device, transport and ingress, losses and timeouts included, keeps the joint invariant |
| `CaptureProtocol.RunKeepsInv` | esphome/components/nyra_audio_ingress/nyra_audio_ingress.cpp:63-298 | so does every run of one stream |
| `CaptureProtocol.StopAndWait` | esphome/components/nyra_audio_ingress/nyra_audio_ingress.cpp:164-180 | at most one chunk is unacknowledged, and neither the command queue nor the response queue can overflow |
| `CaptureProtocol.IngressHoldsPrefix` | homeassistant/custom_components/nyra/audio.py:380-398 | the stored chunks are always a beginning of what the buffer took, at most 1 MiB; without overflow the buffer took everything the microphone offered; undisturbed, what is missing is on its way or in the buffer |
| `CaptureProtocol.AcceptedMeansDelivered` | homeassistant/custom_components/nyra/audio.py:399-447 | when the device takes the capture as accepted, the router was given exactly the audio the microphone offered during the capture (all its frames but empty ones and those beyond 64 KiB, which are ignored), none of it lost to overflow, and the capture has stopped; at most one outcome is reported |
| `CaptureProtocol.RunKeepsHeard` | esphome/components/nyra_audio_ingress/nyra_audio_ingress.cpp:135-141 | after an overflow the device neither waits for a result nor accepts; without one nothing the microphone offered is missing |
| `CaptureProgress.SomebodyHelps` | esphome/components/nyra_audio_ingress/nyra_audio_ingress.cpp:116-298 | while a capture whose end is asked for is undisturbed, device, transport or ingress has something to do |
| `CaptureProgress.HelpingProceeds` | esphome/components/nyra_audio_ingress/nyra_audio_ingress.cpp:116-298 | each such step that does not fail leaves the capture undisturbed with less to do, or ends it |
| `CaptureProgress.FaultlessRunsEnd` | esphome/components/nyra_audio_ingress/nyra_audio_ingress.cpp:116-298 | in whatever order these steps are taken, their number is bounded; when none is left the device has taken over the verdict and the router has all the audio, or the capture was longer than 1 MiB and failed |
| `CaptureProgress.UndisturbedCaptureEnds` | homeassistant/custom_components/nyra/audio.py:364-447 | from every reachable state in which the end is asked for and nothing has failed, that end is reached, with everything the microphone offered delivered if it is at most 1 MiB; accepted exactly if the verdict is and the length allows it |
| `CaptureProtocol.FramesFitTheirReceiver` | homeassistant/custom_components/nyra/audio.py:364-402 | the ingress never receives a frame that does not fit its state; the device does only if its START was refused |
| `CaptureProtocol.InvalidExactlyWhenStartRefused` | esphome/components/nyra_audio_ingress/nyra_audio_ingress.cpp:182-228 | the device takes its next response for invalid if and only if that is an error and the ingress has not accepted the START |
| `CaptureProtocol.RefusedStartLooksInvalid` | homeassistant/custom_components/nyra/audio.py:414-416 | a concrete run in which that happens: a refused START is answered by an error without a stream id |
| `CaptureDetection.EndAskedExactly` | esphome/components/nyra_audio_ingress/nyra_audio_ingress.cpp:109-114 | over every run the end of the capture is asked for if and only if it was requested of a device that is not idle, or an enrolling device took a chunk of at least two bytes on which the detector ends the capture; until then a running device captures |
| `CaptureDetection.DecisionFollowsHistory` | esphome/components/nyra_audio_ingress/nyra_audio_ingress.cpp:271-278 | the detector ends the capture if and only if the history of levels and times calls for COMPLETE, NO_SPEECH_TIMEOUT or MAX_DURATION |
| `CaptureDetection.CaptureEndsByHistory` | esphome/components/nyra_audio_ingress/nyra_audio_ingress.cpp:271-278 | over every enrollment shorter than 2^32 ms: the end is asked for if and only if it was requested or the history of levels and times up to one of the chunks sent calls for it |
| `CaptureOutcome.PassIsMeant` | esphome/components/nyra_audio_ingress/nyra_audio_ingress.cpp:125-180 | a pass over a running stream: any response but the one acknowledgement awaited ends it, with the verdict if that is what came while one was awaited; so does a clock that has run out or a recorded failure; else START, the next chunk or END is queued if and only if its time has come |
| `CaptureOutcome.RunHears` | esphome/components/nyra_audio_ingress/nyra_audio_ingress.cpp:394-402 | microphone data is in the ring as a whole if it fits into its 65536 bytes, and else an overflow is on record |
| `CaptureOutcome.RunReceives` | homeassistant/custom_components/nyra/audio.py:364-416 | START, chunks of 1 to 262144 bytes up to 1048576 in all, and END are taken in their phases, with their answers; anything else is refused with an error that names the stream if and only if its START was accepted |
| `CaptureOutcome.NextFrameFits` | homeassistant/custom_components/nyra/audio.py:364-402 | over every run the next frame at the ingress is none that could not come from a device that keeps to the protocol in that phase |
| `CaptureOutcome.SurroundingsAreMeant` | esphome/components/nyra_audio_ingress/nyra_audio_ingress.cpp:116-180 | the transport runs commands in order, responses are delivered in order, and a failure, a closed or lost connection and a timeout are on record at the side they strike, with nothing else changed |
| `CaptureOutcome.RunFlushes` | homeassistant/custom_components/nyra/audio.py:442-447 | the flush hands on one chunk at a time, then reports the verdict of the router; without an answer it refuses |
| `CaptureOutcome.OutcomeFollowsHistory` | esphome/components/nyra_audio_ingress/nyra_audio_ingress.cpp:480-500 | over every run: an enrollment that is over reports once, accepted or rejected if and only if the device found that verdict while it waited for one, else failed; other streams report nothing |
| `CaptureOutcome.VerdictIsTheRouters` | homeassistant/custom_components/nyra/audio.py:442-447 | over every run: a verdict on its way to the device, or found by it, is what the router answered when it had been given every chunk that was stored |
| `Idempotency.RunRemembers` | memory/operational.py:77-108 | the remembered results are exactly the successful calls, one per key |
| `Idempotency.ReplayedExactlyRepeats` | memory/operational.py:77-88 | a call is answered from memory, with the earlier response, if and only if it repeats key and content of an earlier call that went through |
| `Idempotency.KeyConflictExactlyIfReused` | memory/operational.py:77-88 | a key conflict is reported if and only if the key went through earlier with another request |
| `Idempotency.RepeatsChangeNothing` | memory/operational.py:77-262 | a run ends in the same tables and memory as the run without its repeats, and the other replies are the same |
| `Idempotency.OnlyFreshChanges` | memory/operational.py:77-88 | a key reused with other content is a conflict; anything but a fresh success changes nothing; remembered results are never overwritten |
| `OperationalMemory.OperationalContextService.CreateIdempotent` | memory/operational.py:110-161 | one transaction, as the generic one with the creation applied; a fresh reply carries the new row, which the table has |
| `OperationalMemory.OperationalContextService.UpdateIdempotent` | memory/operational.py:177-234 | likewise for updates: a fresh reply carries the row the table has now, with the content, key and time of the call, its revision counted up and its creation time kept |
| `OperationalMemory.OperationalContextService.DeleteIdempotent` | memory/operational.py:240-262 | likewise for deletions |
| `OperationalMemory.RevisionCountsUpdates` | memory/operational.py:177-234 | over every run, a row's revision is 1 plus the updates of it that went through and were not replayed, since it was created |
| `OperationalHistory.RunFollowsHistory` | memory/operational.py:77-262 | over every run the table holds exactly the entries created and not deleted since, in the order of their creation, each with the content, key and time of its last creation or update that went through, and the time of its creation |
| `OperationalHistory.RepliesMean` | memory/operational.py:77-262 | over every run, what a call answers if it is neither a replay nor a conflict follows from the table before it; the reply carries the row as stored, every other row stays, and a deletion removes exactly the row with its id |
| `OperationalMemory.OperationalContextService.Resolve` | memory/operational.py:315-384 | the loop over the lookups computes values, applied entries, conflicts and outcome of all of them |
| `OperationalMemory.OperationalContextService.Pick` | memory/operational.py:348-352 | the entries of the first scope, in the order USER, FAMILY, SYSTEM, that has any |
| `OperationalMemory.ResolutionMeans` | memory/operational.py:315-384 | what the response holds for each lookup: nothing if no entry matches, the value of its highest non-empty scope from that scope's oldest entry if all agree, else one conflict that lists exactly the entries of that scope, oldest first; nothing for anything else; AMBIGUOUS if and only if some lookup conflicts |
| `OperationalMemory.AnswerIsRight` | memory/operational.py:322-378 | the same for the answer to one lookup |
| `OperationalMemory.ResolutionCounts` | memory/operational.py:322-384 | for distinct lookups: exactly one applied entry for each one with a value and exactly one conflict for each ambiguous one, both in the order of the lookups |
| `OperationalMemory.DeduplicateLookups` | shared/protocol/memory.py:207-219 | the validator keeps the first of equal lookups, so that what is resolved is distinct and covers the same lookups |
| `OperationalMemory.ResolutionSeesOnlyVisible` | memory/operational.py:325-346 | tables that agree on the enabled FAMILY, SYSTEM and own entries resolve alike |
| `OperationalMemory.LowerScopesIgnored` | memory/operational.py:348-352 | once a scope has an entry for a lookup, changing lower scopes does not change it |
| `OperationalMemory.LowerScopesNotRecorded` | memory/operational.py:315-384 | so the response too holds the same for that lookup |
| `SemanticMemory.ActiveDuplicate` | memory/semantic.py:138-150 | finds an active row with the key if and only if there is one |
| `SemanticMemory.ActiveDuplicateIsOldest` | memory/semantic.py:138-150 | the row found is the one created first, and the one of the lowest row id among those |
| `SemanticMemory.SemanticMemoryService.ConfirmDuplicate` | memory/semantic.py:170-210 | the locked commit after a duplicate was seen: refresh it, or fail on the lock if it is gone |
| `SemanticMemory.SemanticMemoryService.InsertNew` | memory/semantic.py:212-267 | the locked commit after none was seen: insert, or refuse a concurrent duplicate |
| `SemanticMemory.SemanticMemoryService.CreateIdempotent` | memory/semantic.py:155-267 | look and commit with nobody in between: one transaction that can only fail on a taken id, and else answers with a row of the table, active, confirmed now, of the scope, the owner and the normalized content asked for |
| `SemanticMemory.SemanticMemoryService.ConfirmMemory` | memory/semantic.py:269-304 | refreshes an active memory |
| `SemanticMemory.SemanticMemoryService.InsertReplacement` | memory/semantic.py:346-411 | the locked commit of a replacement: new active row, old one SUPERSEDED, linked both ways |
| `SemanticMemory.SemanticMemoryService.SupersedeMemory` | memory/semantic.py:306-411 | look and commit together, with the errors of the look |
| `SemanticMemory.SemanticMemoryService.DeleteIdempotent` | memory/semantic.py:418-465 | the row goes, a tombstone stays |
| `SemanticMemory.CreateLeavesActive` | memory/semantic.py:138-267 | a creation that goes through leaves an active row of its scope, owner and normalized content, reported as NEW exactly if there was none and as DUPLICATE exactly if it is the one there was |
| `SemanticMemory.ApplyKeepsInv` | memory/semantic.py:155-465 | every transaction keeps: the two links are inverse on live rows and injective, links lead to live rows or tombstones, SUPERSEDED if and only if superseded_by is set, live and tombstone ids disjoint, scope and owner the same across a link |
| `SemanticMemory.ApplyEvolves` | memory/semantic.py:155-465 | tombstones stay, live rows keep content, content key, creation time and predecessor, and a superseded row never becomes active again |
| `SemanticMemory.RunKeepsInv` | memory/semantic.py:155-465 | over every interleaving of looks, commits, confirmations and deletions the links stay sound, and what an unlocked look of a replacement found about scope and owner still holds at its commit |
| `SemanticMemory.RunIsItsTransactions` | memory/semantic.py:155-465 | an interleaved run leaves the tables of its transactions run one after the other |
| `SemanticMemory.RunWithoutItsRepeats` | memory/semantic.py:155-465 | repeats of requests that went through change nothing, however the callers interleave |
| `SemanticMemory.LinksAcyclic` | memory/semantic.py:357-395 | no chain of replacements comes back to where it started |
| `SemanticMemory.ChainKeepsOwner` | memory/semantic.py:327-331 | scope and owner are constant along a chain of any length |
| `SemanticMemory.SupersedeKeepsUniqueIff` | memory/semantic.py:357-395 | a replacement keeps active contents unique if and only if no other active memory has its content |
| `SemanticMemory.SupersedeCanDuplicate` | memory/semantic.py:357-395 | a concrete replacement that leaves two active memories with the same content |
| `SemanticMemory.RunUniqueIff` | memory/semantic.py:138-411 | no two active memories share scope, owner and content throughout a run if and only if every replacement in it had content no other active memory had |
| `SemanticMemory.RunKeepsUnique` | memory/semantic.py:138-267 | in particular in every interleaving of creations, confirmations and deletions |
| `SemanticHistory.RunFollowsHistory` | memory/semantic.py:138-465 | over every interleaved run the live memories are those inserted and not deleted since, in that order, each with the content of its insertion, the times of its last confirmation and change, and the successor it was replaced by; the tombstones are those of the deletions |
| `SemanticHistory.StepIsMeant` | memory/semantic.py:155-435 | over every interleaved run, what each look, commit, confirmation and deletion does to the tables and to the callers; a look answers or goes on exactly as its branches say, and a commit runs what its look prepared with what it saw |
| `SemanticHistory.RepliesMean` | memory/semantic.py:155-465 | what the transaction of a step answers follows from the tables before it, and all rows it is not about stay |
| `SemanticHistory.DuplicateExactlyIfThereIsOne` | memory/semantic.py:138-267 | over every interleaving, a creation that goes through answers DUPLICATE if and only if some active memory has the scope, the owner and the normalized content asked for, and the memory it answers with has them |
| `SemanticHistory.UndisturbedCreation` | memory/semantic.py:155-267 | a creation with a fresh key committed right after its look goes through unless it is new and its id is taken |
| `SemanticHistory.ContentUniqueIff` | memory/semantic.py:64-66 | throughout an interleaved run no two active memories share scope, owner and normalized content if and only if every replacement in it brought content that no other active memory had |
| `MemoryService.ForeignKeyConflicts` | memory/operational.py:77-108 | a key that went through in one of the two memory services is refused by the other, and nothing changes |
| `MemoryService.ContextRunsAlone` | memory/operational.py:77-262 | with the table of keys shared and calls of both services mixed, the operational service ends with the table, remembered results and replies of its own calls run alone, those with a key conflict left out |
| `MemoryService.MemoriesRunAlone` | memory/semantic.py:155-465 | likewise the semantic service |
| `MemoryService.RepeatsChangeNeither` | memory/operational.py:77-108 | repeats change nothing in either service, and the other replies stay the same |
| `MemoryService.SharedRevisionsCount` | memory/operational.py:177-234 | with shared keys, too, a revision is 1 plus the updates that went through |
| `Jobs.JobStore.constructor` | skills/job_store.py:52-61 | opening the store leaves no job RUNNING |
| `Jobs.JobStore.CreateScheduled` | skills/job_store.py:128-152 | a new scheduled job; a taken id is refused |
| `Jobs.JobStore.ListDue` | skills/job_store.py:170-181 | exactly the due scheduled jobs, by execution time and then id |
| `Jobs.DueListUnique` | skills/job_store.py:174-178 | there is only one such list |
| `Jobs.JobStore.ClaimDue` | skills/job_store.py:183-206 | a job is claimed exactly if it is scheduled and due; nothing else changes |
| `Jobs.JobStore.SetTerminal` | skills/job_store.py:208-225 | refuses a status that is not terminal and an unknown id, else overwrites whatever the status was |
| `Jobs.JobStore.Cancel` | skills/job_store.py:227-239 | cancels only a scheduled job, and reports the job as it then is |
| `Jobs.JobStore.RecoverInterrupted` | skills/job_store.py:241-258 | exactly the RUNNING jobs become UNKNOWN_OUTCOME, an earlier error text kept; returns their number |
| `JobScheduling.StepKeepsInv` | skills/jobs.py:83-196 | every step, cancellations, crashes and boots included, keeps: no job called twice, early, or while scheduled or cancelled; a running job is the one the worker holds |
| `JobScheduling.EveryRunIsSafe` | skills/jobs.py:83-196 | over every run each job reaches the capability at most once, never before execute_at, never if cancelled; COMPLETED only if it did; after a boot nothing is RUNNING and every job that was called is settled |
| `JobScheduling.TerminalIsFinal` | skills/job_store.py:183-258 | from any reachable state, terminal jobs never change again, through crashes and restarts; times and payloads never change |
| `JobScheduling.TerminalIsNeverCalled` | skills/jobs.py:159-171 | once a job is terminal, no later call is made for it |
| `JobHistory.EveryJobHasItsLife` | skills/job_store.py:128-258 | over every run, with cancellations, crashes and restarts anywhere, each row is the outcome of what happened to its job: creation, claim, answer, rejection, cancellation, restart; with the status, times and error text that this gives |
| `JobHistory.OnlyCallableAreCalled` | skills/jobs.py:83-126 | over every run the capability is called only if there is one, for jobs whose payload names an action |
| `JobHistory.EveryPassComesToItsEnd` | skills/jobs.py:159-171 | an undisturbed pass takes a bounded number of steps, and at its end none of the jobs that were due when it began is |
| `JobScheduling.JobScheduler.ExecuteClaimed` | skills/jobs.py:83-157 | the job ends by the capability's answer, or fails without a call if there is no capability or the payload names no action |
| `JobScheduling.JobScheduler.RunDue` | skills/jobs.py:159-171 | an undisturbed pass ends exactly the due jobs, soonest first, reports them in that order, and calls the capability once for each callable one |
| `SpeakerProfiles.ProfileStore.RebuildProfile` | speaker-id/profiles.py:294-329 | no samples: no profile; differing dimensions: refused; else count and componentwise mean |
| `SpeakerProfiles.ProfileStore.AddSample` | speaker-id/profiles.py:102-163 | refuses an empty user, an empty embedding or another dimension than that of the user's samples, in that order and with nothing changed; else one row more, its file, and a profile counting one sample more whose mean moved by its share, everybody else's kept |
| `SpeakerProfiles.ProfileStore.DeleteSamples` | speaker-id/profiles.py:254-292 | removes exactly the chosen rows of the user and their files, and rebuilds the profile |
| `SpeakerProfiles.ProfileStore.DeleteProfile` | speaker-id/profiles.py:249-252 | leaves no sample and no profile of the user |
| `SpeakerProfiles.AddedKeepsInv` | speaker-id/profiles.py:129-151 | after an addition: a profile row if and only if there are samples, with their number and mean; one file per row |
| `SpeakerProfiles.AddedFailsExactly` | speaker-id/profiles.py:147-151 | an addition is refused for its dimension if and only if the user's samples have another one, and then rows, profiles and files are as before |
| `SpeakerProfiles.RemovedKeepsInv` | speaker-id/profiles.py:254-292 | deletions keep the same agreement of rows, profiles and files |
| `SpeakerProfiles.RemovedNeverFails` | speaker-id/profiles.py:277-287 | a deletion never finds differing dimensions, and returns the number of rows removed |
| `SpeakerProfiles.AddThenRemove` | speaker-id/profiles.py:102-292 | removing the sample just added restores rows, profiles and files |
| `SpeakerProfiles.ProfileGone` | speaker-id/profiles.py:249-292 | deleting a profile leaves exactly everybody else's rows, profiles and files |
| `SpeakerProfiles.CentroidTimesCount` | speaker-id/profiles.py:312-318 | the centroid times the count is the componentwise sum |
| `SpeakerProfiles.CentroidOfOne` | speaker-id/profiles.py:312-318 | the centroid of a single sample is that sample |
| `SpeakerProfiles.ProfilesFollowRows` | speaker-id/profiles.py:294-329 | the profiles follow from the rows, one by one: a further row gives its user the profile of itself, or counts one more and moves the mean by its share, and changes nobody else's |
| `SpeakerProfiles.AdditionIsMeant` | speaker-id/profiles.py:102-163 | each refusal with its exact condition, and what an addition changes |
| `SpeakerProfiles.RemovalIsMeant` | speaker-id/profiles.py:254-292 | exactly the chosen rows of the user and their files go; the other rows keep their order, their files their bytes, the other users their profiles; the user has a profile if and only if rows are left, with their number |
| `SpeakerProfiles.CentroidOneMore` | speaker-id/profiles.py:312-318 | one more sample moves the centroid by its share |
| `SpeakerProfiles.SumIgnoresOrder` | speaker-id/profiles.py:312-318 | the order of the samples does not matter |
| `Preprocessing.DecodeWav` | speaker-id/preprocessing.py:85-112 | the rejections in order, else the samples separated by channel |
| `Preprocessing.DecodeEncode` | speaker-id/preprocessing.py:223-235 | decoding what was encoded gives the samples back |
| `Preprocessing.EncodeDecode` | speaker-id/preprocessing.py:103-112 | encoding the decoded samples of mono frames gives the bytes back |
| `Preprocessing.EncodeWav` | speaker-id/preprocessing.py:223-235 | encoding fails if and only if a sample does not fit into 16 bits |
| `Preprocessing.MixedSampleIsMean` | speaker-id/preprocessing.py:121-122 | mixing gives the mean of two samples, short of it towards zero by at most a half, and between them |
| `Preprocessing.ToMonoWithin` | speaker-id/preprocessing.py:115-122 | mixing does not leave the range of the channels |
| `Preprocessing.Resample` | speaker-id/preprocessing.py:125-143 | the loop computes the linear interpolation, rounded half to even |
| `Preprocessing.ResampledWithin` | speaker-id/preprocessing.py:125-143 | resampled values lie within the range of the input |
| `Preprocessing.ResampledHits` | speaker-id/preprocessing.py:132-141 | where an output position is that of an input sample, the output is that sample |
| `Preprocessing.InterpolationFollowsLines` | speaker-id/preprocessing.py:132-141 | samples on a straight line are interpolated on that line, at index * source_rate / 16000; beyond the end the last sample is repeated |
| `Preprocessing.DurationKept` | speaker-id/preprocessing.py:131 | the output lasts as long as the input to within half a sample, and has at least one |
| `Preprocessing.SameRateAgrees` | speaker-id/preprocessing.py:126-127 | at the target rate the general formula gives length and samples of the shortcut |
| `Preprocessing.TrimCutsOnlyQuiet` | speaker-id/preprocessing.py:146-159 | no sample at or above the threshold is cut off |
| `Preprocessing.TrimKeepsFirst` | speaker-id/preprocessing.py:153-155 | if anything is active, exactly a margin of quiet is left before the first active sample, or all there is |
| `Preprocessing.TrimKeepsLast` | speaker-id/preprocessing.py:153-156 | exactly a margin of quiet is left after the last active sample, or all there is |
| `Preprocessing.TrimTwice` | speaker-id/preprocessing.py:146-159 | what is trimmed is not trimmed further |
| `Preprocessing.NormalizedPeak` | speaker-id/preprocessing.py:196-213 | a quiet recording gets exactly the smaller of 29490 and eight times its peak as its peak; a louder one keeps its own |
| `Preprocessing.NormalizedKeepsShape` | speaker-id/preprocessing.py:210-213 | the clamp is never reached; signs and order are kept |
| `Preprocessing.NormalizedPcm16` | speaker-id/preprocessing.py:196-213 | normalized samples fit into 16 bits |
| `Preprocessing.ResamplingPcm16` | speaker-id/preprocessing.py:52-54 | every WAV input gives 16-bit samples up to and after resampling |
| `Preprocessing.AcceptedAudio` | speaker-id/preprocessing.py:44-82 | what is accepted decodes to 16-bit mono audio: the trimmed input, normalized, filled up with silence to exactly a second if it is shorter; with the speech duration the mode demands |
| `PreprocessingMeaning.DecodingIsMeant` | speaker-id/preprocessing.py:85-112 | each rejection of the decoder if and only if its condition holds; else sample k of channel c is the signed little-endian value at byte 2 * (k * channels + c) |
| `PreprocessingMeaning.StereoDecodeEncode` | speaker-id/preprocessing.py:104-112 | decoding what was encoded in stereo gives both channels back |
| `PreprocessingMeaning.MixingIsMeant` | speaker-id/preprocessing.py:115-122 | one channel is passed on, of two the halves of the sums of simultaneous samples, towards zero; without samples NO_AUDIO |
| `PreprocessingMeaning.ResamplingIsMeant` | speaker-id/preprocessing.py:125-143 | the length scaled to the nearest whole number, from halfway to the even one, at least 1; each sample read off the line that joins the input at index * source_rate / 16000, rounded alike |
| `PreprocessingMeaning.TrimmingIsMeant` | speaker-id/preprocessing.py:146-159 | what is left reaches from 320 samples before the first one of magnitude 98 or more to 320 after the last, as far as there are that many; all of it if there is none |
| `PreprocessingMeaning.NormalizingIsMeant` | speaker-id/preprocessing.py:196-213 | a peak between 0 and 29490 becomes the smaller of 29490 and eight times itself, each sample multiplied by that factor and rounded to the nearest; anything else is left alone |
| `PreprocessingMeaning.LowExactlyIfFaint` | speaker-id/preprocessing.py:162-168 | the level is low if and only if 4000000 times the sum of squares is below 9 * 2^30 times the number of samples, or there are none |
| `PreprocessingMeaning.StagesAreMeant` | speaker-id/preprocessing.py:52-54 | what is trimmed is what was decoded, mixed and resampled |
| `PreprocessingMeaning.PreprocessingIsMeant` | speaker-id/preprocessing.py:56-82 | LOW_SIGNAL if and only if an enrollment is too faint; else TOO_SHORT if and only if there is no speech or less than 4000, 5600 or 2400 samples of it, by mode; else at least a second of audio that decodes to the normalized recording and silence |
| `PreprocessingMeaning.RefusedUndecoded` | speaker-id/preprocessing.py:52-54 | what does not decode or has no samples is refused with that reason |
| `Preprocessing.PreprocessAudio` | speaker-id/preprocessing.py:44-82 | the stages in order, with the rejections; the encoder never fails |
| `EventBroker.Subscription.PutNowait` | router/lifecycle/events.py:40-43 | the event is queued, or refused exactly if the queue is bounded and full |
| `EventBroker.InteractionEventBroker.Subscribe` | router/lifecycle/events.py:27-30 | a new subscription begins at the present |
| `EventBroker.InteractionEventBroker.Unsubscribe` | router/lifecycle/events.py:32-33 | ends a subscription and no other |
| `EventBroker.InteractionEventBroker.Publish` | router/lifecycle/events.py:35-45 | every subscription in force that wants the event gets it, or is dropped if its queue is full; one in force has seen or has queued exactly its events since it began, one that is not an initial part of them |
| `EventBroker.InteractionEventBroker.PublishState` | router/lifecycle/events.py:47-57 | likewise, and the states stay the latest of each source |
| `EventBroker.InteractionEventBroker.PublishOther` | router/lifecycle/events.py:59-63 | likewise for the other events |
| `EventBroker.InteractionEventBroker.TakeNext` | router/lifecycle/events.py:15-18 | taking an event from the queue loses and repeats nothing |
| `EventBroker.InteractionEventBroker.Snapshot` | router/lifecycle/events.py:65-69 | all states, or the last one published for a source |
| `EventBroker.StatesAreLatest` | router/lifecycle/events.py:47-56 | the table of states holds for each source the last state published for it, and none if none was |
| `EventBroker.OnlyWantedEvents` | router/lifecycle/events.py:35-63 | what a subscription is given are the events of the log of the categories it asked for |

## Left out

- HTTP, WebSocket, SQLite, FreeRTOS and Home Assistant plumbing: tables are maps or sequences, channels are sequences, a
  transaction is one step. Writes to the file system succeed.
- Embeddings, ECAPA, LiteLLM, pydantic, Unicode normalization, SHA-256 and UUIDs are not part of this model: hashes are
  injective, normalization is an arbitrary function, new ids are not among those used before where a contract asks for it.
- Validation of requests by their models (`AudioStreamStart.from_mapping`, WAV headers as the wave library reads them,
  scope and owner rules of commands) and tracing.
- Oracles answer once for each step or job; that an answer may depend on the time of the call is not modelled.
- Python's recursion limit, memory limits, and the number of parameters SQLite admits.
- Time is nondeterministic in the registry, the protocol, the memory service and the job system: a timeout may strike at any
  point.
- Connection ids of streams: disconnect and close are aborts that may strike any stream.
- The wrapped exceptions of an audio sink and the result of its end: only order, bytes and outcome.
- The ring buffer library of ESPHome and the audio source on top of it are not part of this model: one circular array takes a
  write whole or not at all, and what the source offers from it at a time is a parameter. One stream per run of the
  protocol, with the metadata check of START as a parameter.
- Searching and listing memories, embeddings of rows, counts of entries: easy members.
- The legacy columns and migrations of the speaker store, the timezone check of `created_at`, and other callers between
  the two halves of `delete_profile`.
- Peak, clipping ratio and signal-to-noise ratio of `_quality`, which decide nothing.
- Rounding of floating-point numbers: centroids, resampling, gain and durations are computed in reals; the comparison of the
  root mean square is made on squares.
- `stop_job`, which only refuses; reading and listing jobs; a scheduler that runs twice at the same time.
- `RouterPlanExecutor`, which ignores dependencies and conditions, request lifecycle, sessions, enrollment and wake-word
  sessions, provider fallback, admin pages, LED rendering and phrase catalogues.
- CaptureObjects.NyraAudioIngress.LoopOnce: what the loop reads from clocks, mutexes, the detector and the audio source comes as a parameter; the scalar member variables are kept in one record.
- AudioStreaming.AudioStreamRegistry.Start: leaves out the validation of the metadata and the timer of the deadline, which the step system lets strike at any point.
- AudioStreaming.AudioStreamRegistry.Finish: leaves out the cancellation of the deadline's timer.
- AudioStreaming.AudioStreamRegistry.Expire: leaves out which streams belong to a connection that is lost.
- CaptureProtocol.AcceptedMeansDelivered: assumes that the audio source always offers what is in the ring. The program has it offer whole 16-bit samples, so this takes microphone frames of even length; of an odd last byte the source might never say that it is there. CaptureProgress.UndisturbedCaptureEnds rests on the same.
- CaptureObjects.AudioIngressSession.ReceiveFrame: leaves out close frames and frames that are not the JSON of this stream, which end the stream like other misfits.
- Preprocessing.PreprocessAudio: leaves out the quality figures of the result, which decide nothing.
- JobScheduling.JobScheduler.RunDue: states an undisturbed pass; cancellations and crashes in the middle of a pass are steps of the system in the same module.
- SpeakerProfiles.ProfileStore.AddSample: requires a sample id that is new, which the program takes from a random UUID.
- SemanticMemory.RunKeepsInv: requires that no new memory is given the id of a deleted one, for the same reason.
