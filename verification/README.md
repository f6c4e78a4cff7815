# A Dafny model of the LIFX command engine

The command engine turns spoken or typed requests into plans for LIFX lights. This project
models the parts of it that are hard to get right by reading, and proves what they promise:

- the Go client's concurrent request/response protocol over one sidecar process
  (`ClientProtocol`, `ClientTheorems`, `ClientRestart`, `ClientShutdown`, `ClientObject`),
  composed with the sidecar's server (`Routing`);
- the supervisors of the two long-lived child processes: whisper-server
  (`WhisperProtocol`, `WhisperTheorems`, `WhisperReuse`, `WhisperObject`) and the model runtime,
  composed with its peer (`ModelStream`, and `ModelReader` for the race inside `readLine`);
- line framing and dispatch in the JSONL server (`LineFraming`, `ServerHandle`);
- the streaming replay probe and its WAV codec (`ReplayProbe`, `ReplaySchedule`, `ReplayOutcomes`,
  `Wav`, `WavLayout`);
- the rewrites of proposed plans: validation and power inference (`PlanRewrite`,
  `PlanValidation`), target selection, extraction and merging (`TargetSelection`,
  `ExtractPlan`, `MergeCommands`, `MergeMeaning`);
- label matching (`LabelMatching`), evaluation reports (`Scoring`, `Percentile`,
  `Evaluation`, `EvaluationCounts`), diagnostic buffers (`Diagnostics`), and sorting (`Sorting`).

Concurrent code is a transition system: a step is one critical section, one channel operation
or one event of the environment, theorems quantify over every sequence of enabled steps, and a
class with the original's fields does each critical section and is proved to do the step.
Sequential loops are methods proved equal to a specification function, and the theorems are
about that function. JSON, regular expressions, Unicode tables, the interpreter, the
transcriber and the model are parameters.

`dafny verify dfyconfig.toml` checks everything.

## Results worth knowing

Some expectations hold only under a condition. The model keeps the code as it is and proves
when they hold:

- A crash strands no caller unless `stopProcess` was used. A pending entry is owned by the
  process in the slot if and only if its process was not removed by `stopProcess`
  (`PendingOwnership`); `StopProcessCanStrand` is a run that ends with a stranded caller.
- A call of an open client gets a process if and only if there is one, or one can be spawned while
  RestartOnCrash is set or no id was issued yet (`CallsBeginExactly`); `RestartServesAgain` is a run
  in which one call is answered, its process fails, and the next call is answered by process 1.
- A transcriber's startup succeeds if and only if one of three attempts becomes ready and every
  earlier one failed to, with the caller's context still live (`StartSucceedsExactly`).
- A model's plan is accepted if and only if its header is in order, it is not both empty and
  confident, and every command sets something possible on devices of the snapshot
  (`PlanIsAcceptedExactly`).
- `merge_commands` gives every device the same final fields for all actions if and only if no
  command stands between two commands for one set of devices and is for an overlapping other
  set (`MergeIsSafeExactly`).
- WAV files round-trip if and only if the rate is in 1..2^32-1 and the payload is non-empty and
  shorter than 2^32 bytes (`Wav.RoundTrip`).
- Attempts of the replay probe keep their interval in every run if and only if the time scheduled
  after the first due chunk boundary fits an int64, no boundary follows it, or no attempt can be
  made (`AttemptsFitTheRecording`); `HugeIntervalIsIgnored` is a configuration that breaks it.
- The replay probe slices its window out of range in some run if and only if the window's byte
  count overflows to a negative number and a first attempt is due inside the recording
  (`SliceIsOutOfRangeExactly`); a window of a hundred hours at 16 kHz does
  (`HundredHourWindowPanics`).
- A device's selector stands for that device if and only if no later device with another serial
  takes it over (`SelectorIsItsOwnExactly`), which a label equal to the serial does
  (`SelectorCanBeTaken`).
- The evaluation report takes an error with an empty message for success (`PassedMeaning`,
  `ErrorsFailTheirCases`, and `EmptyErrorPasses` for a concrete trial).
- Ids of the client are distinct for the first 2^64 - 1 calls and repeat exactly every 2^64
  (`IdsAreUnique`, `IdsRepeatExactlyAfterWrap`).

## Model

| member | source | states |
|---|---|---|
| ClientProtocol.StepKeepsInv | client/client.go:104-320 | every step of every start, caller, reader and waiter, the environment, `stopProcess` and `Close` keeps the client's invariant |
| ClientProtocol.RunKeepsInv | client/client.go:158-320 | the invariant holds after every run, up to the first 2^64 - 1 ids |
| ClientProtocol.LiveIsDrainable | client/client.go:301-306 | in every reachable state each pending entry leads to its own call's empty channel |
| ClientTheorems.OneSendPerChannel | client/client.go:182-193 | each call's channel is sent to at most once; an id still pending has seen no send and no reader holds it; no two readers hold one channel |
| ClientTheorems.SendsNeverBlock | client/client.go:269-275 | a reader that took a channel can send at once, and the sends made while holding the lock always find room |
| ClientTheorems.ExactlyOneWakeUp | client/client.go:192-218 | a registered caller that still waits has exactly one wake-up: its entry, a reader able to send, or a message |
| ClientTheorems.PendingOwnership | client/client.go:188-192 | a pending entry belongs to the process in the slot if and only if its process was not removed by `stopProcess`, and its call is registered and has not returned |
| ClientTheorems.CrashStrandsNoCaller | client/client.go:282-306 | on runs without `stopProcess` every pending entry is the current process's and an empty slot means an empty map |
| ClientTheorems.StopProcessCanStrand | client/client.go:104-120 | a run of `Start` whose Health call times out while another caller waits: after its `stopProcess` and the exit of the process that caller is pending with an empty slot |
| ClientTheorems.FailureReachesEveryPendingCall | client/client.go:301-306 | when the current process fails or the client closes, every pending caller, stranded or not, gets exactly that failure and no other call changes |
| ClientTheorems.RemovedStaysOut | client/client.go:221-251 | a process that left the slot, by failing or by `stopProcess`, never comes back, whatever steps follow |
| ClientTheorems.StaleFailureIsLocal | client/client.go:282-298 | however much later the failure of such a process comes, it changes no call, no pending entry, no slot and no other process |
| ClientTheorems.RemovalTouchesOnlyItsCaller | client/client.go:308-312 | cancelling or cleaning up one call leaves every other call's record and entry alone |
| ClientTheorems.ClosedIsFinal | client/client.go:158-170 | a closed client has no process and no pending entry after any further steps and never launches again |
| ClientTheorems.CloseClosesDown | client/client.go:164-168 | in every reachable state `Close` can run and leaves the client closed down |
| ClientTheorems.ClosedLeavesNobodyWaiting | client/client.go:203-218 | in a closed client every caller that still waits has its message or a reader able to send it |
| ClientShutdown.EveryStepLowersRank | client/client.go:158-320 | in a closed client every step of a caller, every send of a reader and every step of a process's failure lowers a rank, and no step of anybody raises it |
| ClientShutdown.WindingIsBounded | client/client.go:158-320 | every run from a closed client has at most Rank such steps, in any order and mixed with anything else |
| ClientShutdown.SomeStepIsLeft | client/client.go:172-219 | while a call of a closed client has not returned some such step is enabled, without any context ending; an unwritten request can fail to be written |
| ClientShutdown.ClosedClientsComeToRest | client/client.go:158-219 | every run from a closed client takes at most three such steps per call and process, keeps earlier outcomes, and wherever it can take no more every call has returned, with one outcome and at most one send |
| ClientShutdown.RestIsReached | client/client.go:158-219 | such a state at rest is reached from every closed state, without cancellation |
| ClientTheorems.OutcomesAreFinal | client/client.go:203-218 | a call that returned keeps its one outcome, and a call never changes its process |
| ClientTheorems.HonestRunsStayHonest | internal/jsonl/server.go:67-70 | sidecars that only echo ids written to them keep the run honest |
| ClientTheorems.InOrderSidecarsAreHonest | internal/jsonl/server.go:50-74 | sidecars that answer their request lines in order with echoed ids are honest |
| Routing.SomeWireFits | client/client.go:177-181 | an encoding of ids in request lines exists that meets the assumptions: the client reads every id of the 64-bit space back |
| Routing.PrintsInOrder | internal/jsonl/server.go:46-137 | the next line a sidecar that serves its input prints is the handling of its next request, under its id |
| Routing.ServersAnswerInOrder | internal/jsonl/server.go:46-137 | sidecars that run the server on their input answer in order with echoed ids, in every run |
| Routing.ServedCallersGetTheirOwnAnswers | client/client.go:177-214 | over such sidecars an answered caller gets the server's handling of its own request by the process it registered on |
| Routing.ServedRunExists | client/client.go:172-214 | with every encoding that fits a run exists in which a request is written, served and answered |
| ClientTheorems.AnswersReachTheirOwnCaller | client/client.go:177-214 | an answered caller gets a message of its own id and, with honest or in-order sidecars, the handling of its own request by the process it registered on, across crashes, restarts and late readers |
| ClientTheorems.FailuresAreReal | client/client.go:183-299 | ErrClosed comes only from a closed client, a process failure only from a process that was failed, "stopped before request" only after the process left the slot, and a write error only after its process was failed |
| ClientTheorems.IdlessReplyResolvesNoOne | client/client.go:269-275 | an error reply without id, decoded as id 0, changes no call and no entry |
| ClientTheorems.WrittenAtMostOnce | client/client.go:195-197 | a request is written at most once, to the process its call registered on |
| ClientTheorems.IdsAreUnique | client/client.go:177-177 | in every run within the id space different calls have different ids, between 1 and the number issued |
| ClientTheorems.IdIsItsOrdinal | client/client.go:177-177 | the k-th allocation of any run, however long, issues id k modulo 2^64 |
| ClientTheorems.IdsRepeatExactlyAfterWrap | client/client.go:177-177 | two allocations get the same id if and only if a multiple of 2^64 lies between them, and id 0 comes exactly every 2^64 |
| ClientTheorems.NoRestartUnlessConfigured | client/client.go:230-232 | without RestartOnCrash nothing is launched after the first id was issued |
| ClientRestart.CallsBeginExactly | client/client.go:221-258 | in every reachable state a call, a Start and its Health call get a process if and only if the client is open and has one, or one can be spawned and no id was issued or RestartOnCrash is set |
| ClientRestart.CallJoinsItsProcess | client/client.go:227-229 | a call of a client with a process joins that process and launches nothing |
| ClientRestart.CallRestarts | client/client.go:230-257 | with an empty slot, and RestartOnCrash or no id issued, a call launches a new process, numbered after all earlier ones and running in the slot, and all else stays |
| ClientRestart.RegistersExactly | client/client.go:182-193 | a call with an id is rejected exactly if the client is closed, stale exactly if its process left the slot, and else pending under its id, which no other call holds |
| ClientRestart.ReplyIsDelivered | client/client.go:262-275 | a reply whose id is pending ends in the channel of that call and takes its entry away, without blocking, while all other calls and entries stay |
| ClientRestart.RestartServesAgain | client/client.go:172-298 | a run in which a call is answered, its process fails and leaves the slot, and the next call is answered by a second process |
| ClientRestart.StartMeansReady | client/client.go:104-120 | in every run a Start that returned without error had its Health call answered under its own id, and one that failed after its launch called `stopProcess` |
| ClientObject.Client.constructor | client/client.go:101-101 | a new client is in the initial protocol state |
| ClientObject.Client.EnsureProcess | client/client.go:221-258 | an open client returns its process if it has one, and else launches the next one exactly if spawning works and this is the first launch or RestartOnCrash is set; nothing else changes |
| ClientObject.Client.Register | client/client.go:183-193 | refuses a closed client or a changed process and otherwise enters the channel, as the protocol step does |
| ClientObject.Client.TakeChannel | client/client.go:269-272 | takes the channel of the message's id out of the map, as the protocol step does |
| ClientObject.Client.RemovePending | client/client.go:308-312 | deletes the entry, as the protocol step does |
| ClientObject.Client.FailProcess | client/client.go:286-298 | the locked part of a process failure is the protocol step |
| ClientObject.Client.FailPendingLocked | client/client.go:301-306 | the map becomes empty, each drained channel holds the failure, and no other channel changes |
| ClientObject.Client.Drain | client/client.go:301-306 | the loop over the map sends one failure per entry, in any order, and never on a full channel |
| ClientObject.Client.StopProcess | client/client.go:314-318 | empties the slot and leaves the pending map alone |
| ClientObject.Client.Close | client/client.go:158-168 | closes, empties the slot, drains the map and returns the process to stop, once |
| WhisperProtocol.StepKeepsInv | internal/speech/whispercpp/persistent.go:102-176 | every step of Start, Transcribe, Close and the environment keeps the supervisor's invariant |
| WhisperProtocol.RunKeepsInv | internal/speech/whispercpp/persistent.go:102-176 | the invariant holds after every run |
| WhisperTheorems.OneToken | internal/speech/whispercpp/persistent.go:118-123 | tokens in the channel plus calls past the acquire is exactly 1, so the deferred return never blocks and at most one inference runs |
| WhisperTheorems.MutualExclusion | internal/speech/whispercpp/persistent.go:125-137 | at most one caller is inside a critical section |
| WhisperTheorems.FreeSlotIsReady | internal/speech/whispercpp/persistent.go:163-170 | whenever the lock is free a process in the slot passed readiness and is the latest launched, and inferences use only ready processes |
| WhisperTheorems.LifetimeEndsWithClose | internal/speech/whispercpp/persistent.go:433-437 | the lifetime context ends exactly when the transcriber is closed, so never during a startup |
| WhisperTheorems.NothingRunsUnattended | internal/speech/whispercpp/persistent.go:150-176 | every launched process outside the slot has exited, was sent a kill signal, or the client is closed |
| WhisperTheorems.ClosedIsFinal | internal/speech/whispercpp/persistent.go:105-107 | after Close the slot stays empty and nothing is launched, whoever was queued or half-way |
| WhisperTheorems.LaunchIsCounted | internal/speech/whispercpp/persistent.go:153-163 | while a caller is in its startup, launches are counted by its attempt counter whatever other callers do |
| WhisperTheorems.AtMostThreeLaunches | internal/speech/whispercpp/persistent.go:153-174 | one startup launches at most three processes in every interleaving |
| WhisperTheorems.StartupLeavesNothingBehind | internal/speech/whispercpp/persistent.go:150-176 | in every interleaving a startup that fails leaves the slot empty and one that succeeds leaves its ready process there, and every other process ever launched has exited or was sent a kill signal |
| WhisperTheorems.StartRunOutcome | internal/speech/whispercpp/persistent.go:150-176 | success leaves the last launched process in the slot, ready; failure leaves it empty; every process given up on has exited or was sent a kill signal |
| WhisperTheorems.StartRunIsARun | internal/speech/whispercpp/persistent.go:150-176 | the sequential startup loop, exits before readiness included, is one of the transition system's runs, with the same slot and result |
| WhisperTheorems.DiscardHitsOnlyItsProcess | internal/speech/whispercpp/persistent.go:468-476 | a failed request removes only the process it used, never a newer one, and kills it if it still runs |
| WhisperReuse.CheckReusesExactly | internal/speech/whispercpp/persistent.go:102-137 | in every reachable state a caller with the lock fails if the transcriber is closed, ends with the process in the slot exactly if that has not exited, and else begins a startup in an empty slot |
| WhisperReuse.ReusedIsAlive | internal/speech/whispercpp/persistent.go:130-137 | a request that goes out without a startup goes to the process in the slot, which became ready and has not exited |
| WhisperReuse.RetriesExactly | internal/speech/whispercpp/persistent.go:153-175 | after an attempt that failed a caller tries again exactly if its context lives and it made fewer than three attempts; else it leaves with the slot empty |
| WhisperReuse.AttemptDecides | internal/speech/whispercpp/persistent.go:150-176 | an attempt that no other follows decides the startup: ready means success with its process, any other end failure, with the number of processes launched by then |
| WhisperReuse.StartSucceedsExactly | internal/speech/whispercpp/persistent.go:150-176 | a startup succeeds if and only if one of three attempts becomes ready and each earlier one launched a process that did not, with the context still live |
| WhisperReuse.CloseClosesDown | internal/speech/whispercpp/persistent.go:427-451 | the first Close ends the lifetime, empties the slot and waits for the process that was there; a later one returns at once |
| WhisperReuse.DiscardsExactly | internal/speech/whispercpp/persistent.go:468-473 | a caller whose request failed discards its process exactly if it is still in the slot |
| WhisperReuse.DiscardEmptiesTheSlot | internal/speech/whispercpp/persistent.go:474-476 | the slot is empty and that process alone was sent a kill signal, unless it had exited |
| WhisperReuse.FailedRequestDiscards | internal/speech/whispercpp/persistent.go:139-148 | after a transport failure with a live context the caller discards the process it used, if that is still in the slot, before it returns the token |
| WhisperReuse.OtherRequestsKeepTheProcess | internal/speech/whispercpp/persistent.go:139-148 | any other end of a request keeps the process and returns the token |
| WhisperReuse.ExitedIsReplaced | internal/speech/whispercpp/persistent.go:114-236 | a run in which a process that served a request exits and the next caller is served by a second one |
| WhisperObject.Transcriber.constructor | internal/speech/whispercpp/persistent.go:68-75 | a new transcriber is open with an empty slot |
| WhisperObject.Transcriber.RunningLocked | internal/speech/whispercpp/persistent.go:225-236 | true exactly if there is a process and it has not exited; a process that has exited is forgotten |
| WhisperObject.Transcriber.StopProcessLocked | internal/speech/whispercpp/persistent.go:453-466 | sends a kill signal to a process that has not exited |
| WhisperObject.Transcriber.StartLocked | internal/speech/whispercpp/persistent.go:150-176 | the startup loop has exactly the outcome of its specification |
| WhisperObject.Transcriber.Acquire | internal/speech/whispercpp/persistent.go:125-137 | a closed transcriber refuses; a process that has not exited is handed out as it is; otherwise one startup from an empty slot decides |
| WhisperObject.Transcriber.DiscardProcess | internal/speech/whispercpp/persistent.go:468-476 | acts only if the slot still holds the given process |
| WhisperObject.Transcriber.Close | internal/speech/whispercpp/persistent.go:427-437 | closes, cancels the lifetime and empties the slot, once |
| LineFraming.Reader.ReadSlice | internal/jsonl/server.go:156-156 | the buffered reader: a piece up to the newline, a full buffer, or the end |
| LineFraming.SliceMeaning | internal/jsonl/server.go:155-169 | what a slice says about the next line of the unread input |
| LineFraming.ReadLine | internal/jsonl/server.go:152-170 | for every input and buffer size: consumes exactly the next line, reports too large exactly above 1 MiB with the newline, otherwise returns it unchanged |
| LineFraming.ReadBoundedLine | internal/model/persistent_process.go:163-179 | the next terminated line within the limit, or an error exactly when it is too long or unterminated |
| LineFraming.Serve | internal/jsonl/server.go:46-75 | for every input, buffer size, stream ending and writer capacity: the responses of the plain lines in order, up to the first that cannot be written, and why it ended |
| LineFraming.OneResponsePerRequest | internal/jsonl/server.go:46-75 | well-formed lines get exactly one response each, in order |
| LineFraming.OversizedLineIsSkipped | internal/jsonl/server.go:152-170 | after one `request_too_large` the rest is served as if it came alone |
| LineFraming.InputIsServedLineByLine | internal/jsonl/server.go:46-75 | any input whatever, cut into its terminated lines and a rest, gets in order one error for each line above 1 MiB, nothing for each blank one and one handling for each other; the rest counts as a line when the input ends, and when reading fails only if it was too long already |
| ServerHandle.RepliesEchoRequests | internal/jsonl/server.go:77-137 | for well-formed request lines, reply i has the id of line i and that line's outcome |
| ServerHandle.IdlessRepliesAreErrors | internal/jsonl/server.go:46-137 | on arbitrary input a reply without id is one of three errors, and a reply with an id is the outcome of a line of the input that is a request of that id |
| ServerHandle.LineIsAnswered | internal/jsonl/server.go:77-89 | a line that is not blank and not too long gets one reply: without an id exactly if it does not decode or has no id or a null one, with the error for each, and else under its id |
| ServerHandle.RepliesSuitRequests | internal/jsonl/server.go:77-137 | for well-formed lines each result and each error code answers exactly the requests it belongs to, by name, version, parameters and outcome |
| ModelStream.Serve | runtimes/functiongemma/runner.py:338-357 | one ready line, then one reply line per request line |
| ModelStream.ReplyPosition | runtimes/functiongemma/runner.py:346-356 | line k + 1 answers request k, however many follow |
| ModelStream.EnsureKeepsStep | internal/model/persistent_process.go:84-125 | starting a runtime, or failing to, leaves the generator in step and the old logs untouched |
| ModelStream.ExchangeKeepsStep | internal/model/persistent_process.go:45-75 | one exchange, however it ends, leaves the generator in step |
| ModelStream.GenerateKeepsStep | internal/model/persistent_process.go:36-76 | after every call a live runtime was read exactly once per request plus its handshake, and a stopped one is never used again |
| ModelStream.AnswerIsLastLine | internal/model/persistent_process.go:49-75 | a returned answer is the non-empty result, and a runtime error the non-empty message, that the line after this call's own request carries under contract 1; that request is the last one written |
| ModelStream.ReplyIsReturned | internal/model/persistent_process.go:36-76 | a call that reaches a runtime and receives the reply to its request returns that body, or that message as an error, and keeps the runtime; an empty body or message stops it |
| ModelStream.OtherOutcomesStop | internal/model/persistent_process.go:49-74 | after a request was encoded, every failure but an error reported by the runtime stops the runtime |
| ModelStream.HandshakeCameFirst | internal/model/persistent_process.go:109-124 | in any history a runtime in use first said that it was ready under contract 1 |
| ModelStream.NextKeepsStep | internal/model/persistent_process.go:36-82 | a call or a close keeps the generator in step |
| ModelStream.RunsStayInStep | internal/model/persistent_process.go:36-161 | any history of calls, cancellations, failures, closes and restarts stays in step |
| ModelStream.LastReply | runtimes/functiongemma/runner.py:345-356 | the last line read from a runtime answers the last request written to it, also as seen from later |
| ModelStream.AnswersBelongToTheirRequests | internal/model/persistent_process.go:36-76 | composed with `serve`, after any history, a call that returns a body was sent exactly that body by the handler of its own request, and one that returns a runtime error exactly that message |
| ModelStream.AReplyIsDue | runtimes/functiongemma/runner.py:345-356 | in step with `serve`, the awaited line exists and is this request's reply |
| ModelStream.PersistentGenerator.constructor | internal/model/persistent_process.go:36-41 | a new generator has no runtime and is in step |
| ModelStream.PersistentGenerator.ReadLine | internal/model/persistent_process.go:127-147 | returns the line of its event or fails, with the effect of that event on the stream |
| ModelStream.PersistentGenerator.StopLocked | internal/model/persistent_process.go:149-161 | kills the runtime and clears the slot |
| ModelStream.PersistentGenerator.EnsureStarted | internal/model/persistent_process.go:84-125 | reuses a runtime or starts one and accepts only a ready line of contract 1 |
| ModelStream.PersistentGenerator.Generate | internal/model/persistent_process.go:36-76 | whenever the lock is free the stream is in step, and a call has the outcome and the effect on the stream that the theorems above are about |
| ModelReader.StepKeepsInv | internal/model/persistent_process.go:127-161 | every step of the caller, its reader goroutines and the runtimes keeps the race's invariant |
| ModelReader.NoReaderOutlivesItsCall | internal/model/persistent_process.go:132-146 | in every interleaving, whenever the caller is not inside `readLine`, so whenever the lock is free, every reader goroutine has ended and its channel is empty |
| ModelReader.AtMostOneReader | internal/model/persistent_process.go:132-146 | at most one reader goroutine is live at any time |
| ModelReader.NothingIsReadOutsideTheLock | internal/model/persistent_process.go:132-146 | while nobody takes the lock no line is consumed and none returned, whatever the runtimes print |
| ModelReader.LiveStreamIsInStep | internal/model/persistent_process.go:127-161 | whenever the lock is free a live runtime was not killed and every line consumed from it was returned, in order |
| ModelReader.JoinAdvances | internal/model/persistent_process.go:140-145 | while the caller joins, every step of goroutine and caller brings the end closer, and printing does not matter |
| ModelReader.JoinNeverSticks | internal/model/persistent_process.go:132-145 | such a step is always enabled: the send into the channel never blocks |
| ModelReader.JoinEnds | internal/model/persistent_process.go:140-145 | every run from a join takes at most three such steps inside it, and where none is left the caller has joined the goroutine |
| ModelReader.ReadLineIsOneEvent | internal/model/persistent_process.go:127-147 | however goroutine, select and kill race, a finished `readLine` returned the next line, broke, or was cancelled and killed the runtime, and only the first lets the call go on |
| Wav.GetPutU16 | internal/streamprobe/probe.go:345-350 | two little-endian bytes carry a number modulo 2^16 |
| Wav.GetPutU32 | internal/streamprobe/probe.go:342-352 | four little-endian bytes carry a number modulo 2^32 |
| Wav.WalkChunks | internal/streamprobe/probe.go:290-314 | the chunk loop, with the switch over names as a parameter, ends on every input and has the specified result |
| Wav.ReadPCM16WAV | internal/streamprobe/probe.go:280-319 | on every input reading stays in range and has the specified result |
| Wav.WritePCM16WAV | internal/streamprobe/probe.go:339-360 | writes header, format chunk and data chunk, without a pad byte |
| Wav.WalkIsMeaning | internal/streamprobe/probe.go:290-314 | walking the bytes of any list of well-formed padded chunks gives the meaning of the list |
| Wav.ReadIsMeaning | internal/streamprobe/probe.go:285-318 | reading a well-formed file depends only on its chunks, in order |
| Wav.WrittenIsChunks | internal/streamprobe/probe.go:339-360 | a written file is its two chunks, the last without its pad byte |
| Wav.UnknownChunkIsIgnored | internal/streamprobe/probe.go:298-313 | an unknown chunk anywhere changes nothing, whether or not the last chunk of either file has its pad byte |
| Wav.UnknownChunkInWrittenFile | internal/streamprobe/probe.go:298-360 | inserting an unknown chunk anywhere into a written file changes nothing, odd payloads included |
| Wav.FormatIsAbsorbed | internal/streamprobe/probe.go:299-306 | the written format chunk is read as one channel, 16 bits and the rate modulo 2^32 |
| Wav.ReadWritten | internal/streamprobe/probe.go:285-318 | what the reader makes of a written file whose payload fits its size field |
| Wav.ReadIsBounded | internal/streamprobe/probe.go:292-308 | audio that was read has a rate and a length between 1 and 2^32 - 1 |
| Wav.RoundTrip | internal/streamprobe/probe.go:280-360 | reading what was written gives the same audio exactly for rates 1..2^32-1 and non-empty payloads below 2^32 bytes, odd lengths included |
| WavLayout.WrittenLayout | internal/streamprobe/probe.go:339-360 | every octet of a written file by its offset: names, RIFF size, format, channels, rate, byte rate, block size, bits, data size and samples, little-endian |
| WavLayout.FormatIsReadByPosition | internal/streamprobe/probe.go:299-306 | any format chunk is refused exactly if it is shorter than 16 octets or not PCM, and else read by the offsets of its fields |
| ReplayProbe.WithDefaults | internal/streamprobe/probe.go:217-236 | every duration becomes positive, a configuration of positive durations is kept, and one without durations becomes 100 ms, 1 s, 1.5 s, 4 s and 15 s |
| ReplayProbe.DurationBytesIsExact | internal/streamprobe/probe.go:249-251 | the int64 byte count is exact if and only if the product fits |
| ReplayProbe.NanosAreExact | internal/streamprobe/probe.go:272-278 | the duration of a PCM length from a 32-bit chunk never overflows and grows with the length |
| ReplayProbe.Run | internal/streamprobe/probe.go:79-215 | reads the file, refuses what cannot be read, and otherwise has the outcome that the theorems on replays are about, for every file, configuration and environment |
| ReplayProbe.RoundStep | internal/streamprobe/probe.go:135-176 | one pass through the loop body: capture, poll, maybe launch |
| ReplayProbe.CollectKeeps | internal/streamprobe/probe.go:113-133 | collecting a result keeps the ledger, the numbering and the order of events and leaves nothing active |
| ReplayProbe.WindowIsAligned | internal/streamprobe/probe.go:156-160 | a partial window is the suffix of the captured audio of length min(windowBytes, captured), on a sample boundary |
| ReplayProbe.RoundKeepsLedger | internal/streamprobe/probe.go:135-176 | at every loop head the captured audio is exactly the prefix up to the offset, at most one attempt is active, and attempts = completed + cancelled + errors + active |
| ReplayProbe.LoopKeepsLedger | internal/streamprobe/probe.go:135-176 | the loop ends with the ledger balanced and all audio captured |
| ReplayProbe.ReportIsBalanced | internal/streamprobe/probe.go:108-191 | on success nothing is active, events are numbered 1..n with non-decreasing audio times, and every attempt had an aligned trailing window |
| ReplayProbe.FinalHearsEverything | internal/streamprobe/probe.go:196-202 | the file of the final transcription reads back as the complete recording |
| ReplayOutcomes.OutcomesAreReported | internal/streamprobe/probe.go:113-207 | a successful run reports how many attempts were cancelled, the messages of the failed ones and the texts and audio times of the completed ones, in the order of the attempts, and the final text |
| ReplayOutcomes.AttemptsStartWhenTheyCan | internal/streamprobe/probe.go:135-176 | each attempt starts in the first round that finds the one before it over and its scheduled time reached while audio remains, and none is missing at the end |
| ReplayOutcomes.RunRefusesExactly | internal/streamprobe/probe.go:88-106 | a recording is refused exactly for its format, a duration above the limit, or a chunk below one sample, in this order |
| ReplayOutcomes.SettingsAreConfigured | internal/streamprobe/probe.go:101-107 | chunk and window are the byte counts of their durations without a half sample, at two bytes for each sample, and the other durations are as configured |
| ReplaySchedule.FirstDueMeaning | internal/streamprobe/probe.go:135-155 | the first due boundary is the first positive multiple of the chunk size inside the recording whose time has reached PartialAfter |
| ReplaySchedule.FirstAttemptIsFixed | internal/streamprobe/probe.go:135-160 | whatever the environment does, the first attempt of a successful run hears the audio up to the first due boundary, and there is one if and only if that lies inside the recording |
| ReplaySchedule.SliceIsOutOfRangeExactly | internal/streamprobe/probe.go:101-159 | some run slices out of range if and only if the checks before the loop pass, the window's byte count is negative, and a first attempt is due inside the recording |
| ReplaySchedule.WindowsStayInRange | internal/streamprobe/probe.go:101-159 | no run does when the byte count is not negative, in particular when its product fits an int64 |
| ReplaySchedule.HundredHourWindowPanics | internal/streamprobe/probe.go:101-159 | a two-second recording at 16 kHz with a window of a hundred hours slices out of range |
| ReplaySchedule.RecordingsAreShort | internal/streamprobe/probe.go:272-278 | every readable recording lasts less than 2^62 ns |
| ReplaySchedule.IntervalIsKept | internal/streamprobe/probe.go:155-174 | consecutive attempts are an interval apart if and only if the scheduled time fits an int64 |
| ReplaySchedule.AttemptIsNotEarly | internal/streamprobe/probe.go:155-174 | attempt j starts no earlier than PartialAfter + j * PartialInterval when no scheduled time overflows |
| ReplaySchedule.AttemptsFitTheRecording | internal/streamprobe/probe.go:91-174 | every run keeps PartialAfter + (n-1) * PartialInterval <= duration <= MaxUtterance if and only if, from the inputs alone, the time scheduled after the first due boundary fits an int64, no boundary follows it, or no attempt can be made |
| ReplaySchedule.UsualIntervalsAreKept | internal/streamprobe/probe.go:91-174 | the bound holds for every interval up to 2^62 ns |
| ReplaySchedule.WrappedIntervalIsLost | internal/streamprobe/probe.go:155-174 | whenever the condition fails a run in which nothing goes wrong breaks the bound |
| ReplaySchedule.HugeIntervalIsIgnored | internal/streamprobe/probe.go:174-174 | a concrete recording and configuration for which the bound is broken |
| PlanRewrite.Partition | internal/interpreter/model.go:115-123 | splits targets by whether the snapshot shows them on, in order |
| PlanRewrite.InferModelPower | internal/interpreter/model.go:108-138 | the rewriting loop has exactly the result that the theorems on power inference are about |
| PlanRewrite.InferencePreservesMeaning | internal/interpreter/model.go:108-138 | for every serial the ordered list of actions after the rewrite is the list before, action by action adjusted for whether the device is known to be on |
| PlanRewrite.InferenceSwitchesOn | internal/interpreter/model.go:108-142 | for every serial the lists of actions before and after have one length and differ at most in power, which becomes on exactly where it was unset, hue, saturation, brightness or kelvin is set, and the snapshot does not show the device on |
| PlanRewrite.TargetsAreConserved | internal/interpreter/model.go:115-135 | no target occurrence is lost, duplicated or changed |
| PlanRewrite.InferenceIsIdempotent | internal/interpreter/model.go:108-138 | inferring twice is inferring once |
| PlanValidation.BuildIndex | internal/interpreter/model.go:67-70 | the index has the last device of each lower-cased serial |
| PlanValidation.TrustTargets | internal/interpreter/model.go:90-97 | every target becomes the trusted reference, or an unknown one is reported |
| PlanValidation.ValidateModelPlan | internal/interpreter/model.go:51-106 | returns the first objection; an accepted plan is the power-inferred trusted plan and asks for confirmation; the header never changes |
| PlanValidation.NoProblemMeansSound | internal/interpreter/model.go:71-98 | no objection is found if and only if there is none to any command |
| PlanValidation.AcceptedPlanIsSafe | internal/interpreter/model.go:71-99 | an accepted plan has only snapshot devices with trusted metadata and non-empty targets, and every action sets a field, with hue in 0..360, saturation and brightness in 0..100 and kelvin in 1500..9000, also after splitting |
| PlanValidation.AcceptedPlanKeepsMeaning | internal/interpreter/model.go:71-142 | from proposal to accepted plan every device gets the same actions in order, differing at most in power, which is switched on exactly as said for the inference |
| PlanValidation.PlanIsAcceptedExactly | internal/interpreter/model.go:51-99 | no objection is raised if and only if schema, confidence, level and summary are in order, an empty plan has confidence below 0.5, and every command has targets, all with serials of the snapshot in any case, and sets something possible |
| PlanValidation.AcceptableExactly | internal/interpreter/model.go:71-98 | the same for one command |
| PlanValidation.FirstObjection | internal/interpreter/model.go:71-98 | a plan is rejected for its first command that is not acceptable, and for the first check that this command fails |
| PlanValidation.LastDeviceCounts | internal/interpreter/model.go:67-70 | of several snapshot devices with one lower-cased serial the last one is in the index |
| Sorting.SortsAgree | internal/evaluation/evaluation.go:191-193 | sorted copies are equal if and only if the originals are equal as multisets |
| Sorting.DedupOrder | runtimes/functiongemma/runner.py:118-118 | `dict.fromkeys` lists elements in the order of their first occurrences |
| MergeCommands.MergeCommands | runtimes/functiongemma/runner.py:170-179 | the merging loops have exactly the specified result |
| MergeCommands.KeyIsTargetSet | runtimes/functiongemma/runner.py:173-176 | two commands have the same key if and only if they are for the same set of devices |
| MergeCommands.MergeGroups | runtimes/functiongemma/runner.py:170-179 | one command per target set, in the order of first occurrences, naming its devices as the first does and carrying the right-biased union of the group's actions |
| MergeMeaning.MergePreservesMeaning | runtimes/functiongemma/runner.py:170-179 | without a straddling overlap every device ends with the same fields |
| MergeMeaning.StraddleShows | runtimes/functiongemma/runner.py:170-179 | for every straddling overlap there are actions for which some device ends differently |
| MergeMeaning.MergeIsSafeExactly | runtimes/functiongemma/runner.py:170-179 | lists of target sets can be merged whatever non-empty actions they carry if and only if they have no straddling overlap |
| MergeMeaning.EqualOrDisjointIsSafe | runtimes/functiongemma/runner.py:170-179 | pairwise equal or disjoint target sets merge without changing any device |
| TargetSelection.ExplicitDeviceTargets | runtimes/functiongemma/runner.py:107-118 | the matching loop and the choice of the longest have exactly the specified result |
| TargetSelection.NamedIsMostSpecific | runtimes/functiongemma/runner.py:107-118 | a serial is named if and only if its device's label is mentioned and no mentioned label is longer, and none twice |
| TargetSelection.SelectorExactly | runtimes/functiongemma/runner.py:91-94 | a device is offered under its label, or its serial without one, followed by its serial exactly if two devices bear that label |
| TargetSelection.SharedLabelsAreToldApart | runtimes/functiongemma/runner.py:91-95 | two devices with one label and different serials have different selectors |
| TargetSelection.GroupSelectorExactly | runtimes/functiongemma/runner.py:96-103 | a serial is under a group or location selector if and only if a device with that serial is in that group or location |
| TargetSelection.CountLabels | runtimes/functiongemma/runner.py:81-85 | counts the devices that bear each label |
| TargetSelection.AddDevice | runtimes/functiongemma/runner.py:88-99 | enters one device under its own, its group's and its location's selector |
| TargetSelection.RemoveDuplicates | runtimes/functiongemma/runner.py:102-103 | every entry loses its duplicates, in any order of the keys |
| TargetSelection.SelectorInventory | runtimes/functiongemma/runner.py:80-104 | the three loops have exactly the specified result |
| TargetSelection.SelectorsOfGroups | runtimes/functiongemma/runner.py:96-103 | a group or location selector stands for its members, once each and in snapshot order |
| TargetSelection.SelectorOfDevice | runtimes/functiongemma/runner.py:92-95 | a device selector stands for the last device that claims it |
| TargetSelection.SelectorIsItsOwnExactly | runtimes/functiongemma/runner.py:92-95 | a device's selector stands for that device if and only if the last later device with the same selector, if any, has the same serial |
| TargetSelection.SelectorCanBeTaken | runtimes/functiongemma/runner.py:92-95 | a concrete snapshot in which a label equal to another device's serial takes its selector |
| TargetSelection.InventoryKnows | runtimes/functiongemma/runner.py:87-103 | no selector yields a serial outside the snapshot |
| ExtractPlan.GatherSerials | runtimes/functiongemma/runner.py:144-153 | named devices win over selectors and selectors over plain serials |
| ExtractPlan.ExtractPlan | runtimes/functiongemma/runner.py:127-167 | the loop over the calls has exactly the specified result |
| ExtractPlan.ProposalsAreWellFormed | runtimes/functiongemma/runner.py:155-166 | every proposed command has devices, none twice, and an action, and no two are for the same set |
| ExtractPlan.ProposesExactlyUsableCalls | runtimes/functiongemma/runner.py:155-167 | there are commands, and confidence 0.65, exactly if some call has both a device and an action; the reason given otherwise tells whether there was any call |
| ExtractPlan.ProposalsStayInSnapshot | runtimes/functiongemma/runner.py:144-153 | with selectors or named devices only devices of the snapshot are addressed |
| ExtractPlan.NamedDevicesGetOneCommand | runtimes/functiongemma/runner.py:152-166 | with explicit targets there is at most one command and it is for exactly them |
| ExtractPlan.NamedDevicesKeepTheirFields | runtimes/functiongemma/runner.py:152-166 | that one command leaves every device with the fields the calls in turn would give it |
| ExtractPlan.SerialsMeaning | runtimes/functiongemma/runner.py:143-152 | a call is for a serial if and only if the text names it, or the text names none and some selector of the call stands for it, or the call has no selectors and lists it |
| ExtractPlan.EveryCallContributes | runtimes/functiongemma/runner.py:143-166 | every call with an action is in the plan: a command for each of its devices sets all its fields |
| ExtractPlan.AddressesExactly | runtimes/functiongemma/runner.py:143-166 | the plan addresses a device if and only if some call with an action is for it |
| LabelMatching.SplitJoin | internal/interpreter/rule.go:55-59 | splitting joined words gives the words back |
| LabelMatching.NormalizeIsIdempotent | internal/interpreter/rule.go:55-59 | normalising twice is normalising once and keeps the words |
| LabelMatching.SameNormalForm | internal/interpreter/rule.go:40-45 | labels normalise alike if and only if they have the same words |
| LabelMatching.PaddedSearch | internal/interpreter/rule.go:46-48 | the padded-substring test is the test for a contiguous run of words |
| LabelMatching.AmbiguousTarget | internal/interpreter/rule.go:38-53 | true if and only if two different devices share non-empty label words that the text says contiguously, in whatever order the map is walked |
| LabelMatching.SpellingDoesNotMatter | internal/interpreter/rule.go:38-59 | case and punctuation of text and labels do not change the verdict |
| Scoring.CollectSerials | internal/evaluation/evaluation.go:209-217 | collects all lower-cased target serials in order |
| Scoring.MatchesAction | internal/evaluation/evaluation.go:218-246 | finds a command with the expected action, if any |
| Scoring.CheckTargets | internal/evaluation/evaluation.go:188-196 | compares sorted copies of the serials |
| Scoring.ScorePlan | internal/evaluation/evaluation.go:183-207 | lists the failed expectations in order |
| Scoring.TargetCheckComparesMultisets | internal/evaluation/evaluation.go:188-196 | the target check fails exactly when the serials differ as multisets |
| Scoring.SerialsOfOneMore | internal/evaluation/evaluation.go:209-217 | one more command adds exactly its targets' lower-cased serials, in order |
| Scoring.MatchingIsAgreeing | internal/evaluation/evaluation.go:226-264 | actions match exactly if power, kelvin and duration are equal and hue, saturation and brightness are both unset or at most 0.01 apart |
| Scoring.NoFailuresMeansMet | internal/evaluation/evaluation.go:183-207 | no failure if and only if every stated expectation is met |
| Percentile.CountOfMultiset | internal/evaluation/evaluation.go:177-177 | sorting does not change how many durations lie below a bound |
| Percentile.PercentileMeaning | internal/evaluation/evaluation.go:172-179 | the 95th percentile is the smallest recorded duration with at least 95% of all at or below it |
| Evaluation.Evaluate | internal/evaluation/evaluation.go:116-163 | one pass through the loop: the case result and all ten counters, by what the trial counts as |
| Evaluation.Run | internal/evaluation/evaluation.go:108-181 | the report counts the trials as specified |
| Evaluation.ReportBalances | internal/evaluation/evaluation.go:108-181 | passed + failed = total = cases; invalid plans + runtime errors = failing calls; fallback used <= eligible <= total |
| Evaluation.CountersMatchCases | internal/evaluation/evaluation.go:117-162 | the counters agree with the flags in the list of cases |
| Evaluation.PassedMeaning | internal/evaluation/evaluation.go:130-161 | a case passes exactly if the plan meets its expectations, or the call failed with an empty message |
| Evaluation.EmptyErrorPasses | internal/evaluation/evaluation.go:130-161 | a concrete failing call without a message is a runtime error and a passed case |
| Evaluation.ErrorsFailTheirCases | internal/evaluation/evaluation.go:131-156 | failing calls are failed cases if and only if every error has a message |
| Evaluation.TargetAccuracyMeaning | internal/evaluation/evaluation.go:143-167 | the accuracy is a fraction, and 1 exactly when every judged plan has the expected multiset of serials |
| EvaluationCounts.FallbacksAndErrorsAreCounted | internal/evaluation/evaluation.go:112-141 | eligible counts the hybrid trials whose rules were less confident than the threshold, 0.8 if unset; used those of them answered without the reason "model fallback unavailable"; invalid the errors that contain "invalid model output" and runtime errors the others |
| EvaluationCounts.AccuraciesAreShares | internal/evaluation/evaluation.go:143-171 | the accuracies are the shares of plans with the expected multiset of serials, and with a command for the expected action, among the plans judged by each, and missing exactly if none is |
| Diagnostics.TailForgets | internal/speech/whispercpp/persistent.go:494-497 | trimming earlier never changes what is kept later |
| Diagnostics.KeptIsTail | internal/speech/whispercpp/persistent.go:491-499 | after any writes exactly the last min(limit, total) bytes are held |
| Diagnostics.ChunkingDoesNotMatter | internal/speech/whispercpp/persistent.go:491-499 | how the bytes were cut into writes does not matter |
| Diagnostics.TailBuffer.constructor | internal/speech/whispercpp/persistent.go:489-489 | a new buffer is empty |
| Diagnostics.TailBuffer.Write | internal/speech/whispercpp/persistent.go:491-499 | afterwards the buffer holds the last min(limit, total) bytes written since creation |
| Diagnostics.TailBuffer.String | internal/speech/whispercpp/persistent.go:501-505 | returns exactly those bytes |
| Diagnostics.RollingBuffer.Write | internal/model/persistent_process.go:186-194 | afterwards the buffer holds the last min(65536, total) bytes since the last reset |
| Diagnostics.RollingBuffer.Reset | internal/model/persistent_process.go:196-196 | forgets everything written |

## Left out

- Operating-system processes, pipes, HTTP, multipart upload, temporary files and timers: they are environment steps or inputs (a process exits, a line arrives, a write fails, a context ends).
- Liveness under a scheduler: steps are shown to be enabled and runs to be bounded, not that an enabled step is taken.
- Lines of a sidecar that do not decode: the reader may end and the process fail at any time, for this or any other reason.
- The client's other guarantees after 2^64 - 1 calls, where the id counter wraps to 0.
- Routing of requests longer than 1 MiB: the server answers those with an error without id, which resolves no caller.
- That a process whose pipe is closed eventually delivers its end to the reader: a read may break at any time.
- JSON decoding and encoding, regular expressions, Unicode tables and lower-casing: parameters, with the few facts needed stated as requirements (a space is no word character, lower-casing is idempotent).
- Injectivity of `json.dumps` on lists of strings, which the merging key relies on: the key is the sorted list itself.
- A rejected plan's partly rewritten targets, which no caller reads.
- Messages of errors and failures; only their kind is modelled.
- The order of selectors offered to the model, and the tool schema built from it.
- `apply_action_policy` and the style profiles: any function from proposed to applied fields.
- Wall-clock metrics, `normalize` and the normalised match of the replay probe, average latency, and float rounding in the percentile's rank.
- The natural-language parser and packet types of the lifxlan and lifxprotocol libraries, and the adapter over them.
- Confidence scoring, the hybrid interpreter, configuration, model catalogue and installation, command-line programs, scripts, the one-shot process runners and their bounded writers.
