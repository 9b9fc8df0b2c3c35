# OBD session engine: a Dafny model of its core

The engine talks to a car through a serial adapter: it schedules parameter ids (pids), packs them into wire
commands, reads the adapter's text back into bytes per controller, and watches the health of the session. This
project models its six components and proves what they promise.

**Command processor** (`CommandProcessor.dfy`). One worker, many queuers, completion callbacks and an observer share a
queue and four indicators. `CommandSections` has the critical sections as a class; `CommandProtocol` runs them in
every interleaving, with the worker's program counter, and proves the idle verdict, the serial first-in-first-out
wire, the dispatch hold and the reads of `has_pending_work`. Three counterexample runs show why the scan reads as it
does and where a completion by command string goes wrong.

**Wire codec.** `Text.dfy`, `Addressing.dfy`, `IsoTp.dfy` and `IsoTpRoundTrip.dfy` take adapter lines to one
payload per controller (section 9.6 of ISO 15765-2:2016); `ChunkSplitter.dfy` slices multi-pid and multi-DID
replies (section 10.2 of ISO 14229-1:2013) by echo, and `SoloParse.dfy` says what is taken off in front of a lone
reply's data; `ElmWire.dfy` and `ElmText.dfy` are the text dialect around them, `StatusLines.dfy` its status lines;
`HeaderLookalikes.dfy` says exactly when 29-bit single frames survive data that looks like a header;
`LengthCache.dfy` learns lengths. `Acquisition.dfy`, `GroupingOptimal.dfy` and `PollPlugin.dfy` group due
picks into the fewest segments and build the wire, `PlainPids.dfy` lists the pids a chunk may carry, and
`Requests.dfy` is the vehicle's reading of a wire, which building it is proved to be undone by. `Exchange.dfy`
composes all of it, character by character, into one theorem about a whole exchange: controllers answer the
pids they read on the wire, and each member gets what was said for it.

**Scheduler.** `PidRegistry.dfy`, `Subscription.dfy` and `SubscriptionManager.dfy` are the registry and the
manager, as functions on the state and as classes proved against them; `RequestSyntax.dfy` says which commands the
manager accepts. `SchedulerRuns.dfy` holds the invariants over every run, `ZeroRunCount.dfy` what a run count of
zero does. `FairShare.dfy` is the tier clock alone; `ManagerFairness.dfy` and `SweepFairness.dfy` show that the
manager's runs are runs of that clock, carry the fairness results over and give the rates of the tiers in numbers.
`HostPause.dfy` is about who may resume a paused subscription, `Completions.dfy` about which pid a completion
counts for.

**Periodic acquisition.** `PeriodicStream.dfy` packs, refuses and decodes streamed signals (section 10.6 of
ISO 14229-1:2013) and reads its commands back. `StnPeriodic.dfy` packs adapter-side messages under a one-frame
reply budget, `StnRouting.dfy` routes frames to them, and `PeriodicReplies.dfy` measures the vehicle's replies
against the budget and follows one back to its members.

**Health tracker** (`SessionHealth.dfy`, `LadderChurn.dfy`) and **byte accumulator** (`Accumulator.dfy`,
`StreamText.dfy`).

`Wrappers.dfy`, `Sequences.dfy` and `Sums.dfy` hold the option, result, flattening and summation helpers.

## How the model reads

- A class holds the fields the program mutates and its methods are proved against a function on their value (or
  a relation, where hash-map order decides); properties are lemmas about those functions and relations.
- Hash-map iteration order, which of several equal ticks wins, and which of several holders a scan meets first are
  left open, so results hold for every choice.
- Clocks are naturals that never go back, locks are atomic steps, fresh identifiers and adapter replies are
  parameters.
- Text is ASCII. A pid in a multi-pick exchange is plain, upper-case hexadecimal without surrounding space:
  compound pids such as `010C0D` or `010C 1` cannot be read back from a joined wire.
- `Exchange.ExchangeExact` reads the lengths the admission saw; a length that changes between build and demux is
  the caller's error path (`Exchange.Resolve` returns it).

## Where the code and its comments differ

- `src/session_manager/callbacks.rs:400-407` calls a second `mark_command_completed` for the same command a safe
  no-op. It is one exactly when no successor with the same string is outstanding by then
  (`CommandProtocol.SecondCompletion`); otherwise it completes the successor
  (`CommandProtocol.StaleCompletionMisreports`). The idle verdict stays true exactly as long as no callback begins
  on idle indicators (`CommandProtocol.IdleVerdictLinearizes`).
- `src/response_parser.rs:237` slices past a first frame's length token. A first frame of one token, with another
  line from the same controller, is out of range there; the model returns the fault `TornFirstFrame`
  (`IsoTp.TornStops`).
- On 29-bit buses the token walk (`src/response_parser.rs:321-347`) takes any four tokens that look like a header
  for one. Data that looks like one loses its payload (`HeaderLookalikes.SinglesExact`, `HeaderLookalikes.LoneExact`).
- Sequence numbers of consecutive frames are not checked (`src/response_parser.rs:251-260`); the round trip lets
  them be anything, and nothing here claims that reordering is detected.
- A run count of zero is accepted when pids are added. Such a pid is never polled for its own subscription
  (`ZeroRunCount.ZeroCountWaits`) and leaves it only when some other completion names it, or the host removes it
  (`ZeroRunCount.ZeroCount`, `ZeroRunCount.ZeroCountCompletes`).
- `drop_refused` removes the first record of a pid. When the refused one is a later record of that pid the layout
  is right only under the condition of `PeriodicStream.RefusedDuplicate`; `PeriodicStream.RepeatedMisread` is an
  input on which it is not: pids are sorted before they are put in upper case (`src/session_manager/uds_stream.rs:341`).
- The reply of a completed command is searched for the first tokens that look like a positive response
  (`src/subscription.rs:928-969`), the header and the length byte included. Where those happen to spell one of the
  same mode, the completion counts for another pid: controller 41 of a 29-bit bus answering `010C` completes `0104`
  (`Completions.CountedForAnother`; exactly when in `Completions.CountsExact`). On an 11-bit bus no answer in one
  frame does (`Completions.CountsOn11`).
- A tick before a CONNECTED reset can be remembered in the baselines and the anomaly list, which the reset keeps
  (`SessionHealth.ResetTickSensitivity`).
- The CONNECTED reset (`src/session_health.rs:389-395`) says that window 1 starts there. It moves the start and
  discards the open window, but keeps the windows closed before, and the maintenance loop can close one before
  CONNECTED (`src/session_manager/callbacks.rs:1011-1017`). The summary's windows then do not cover the session it
  names (`SessionHealth.EarlyWindowUncovered`, exactly when in `SessionHealth.CoverExact`), and its total counts
  those windows but not the signals of the discarded one (`SessionHealth.SessionAccounted`,
  `SessionHealth.EarlySignalsLost`). The discarded window's fired marks go with it, so rate-degraded can be logged
  twice with no window closed in between (`SessionHealth.DegradedTwice`, exactly when in
  `SessionHealth.OncePerWindowExact`).

## Model

| member | source | states |
|---|---|---|
| CommandProtocol.IdleVerdictLinearizes | src/command_processor.rs:606-626 | exactly when a verdict can be trusted: in any run, under every interleaving of worker, queuers, callbacks, aborts and clears, every scan that reports idle finds the queue empty, nothing dispatching, nothing outstanding and no callback running at its last read if and only if no callback of the run begins while all four indicators are idle |
| CommandProtocol.DisciplinedVerdict | src/command_processor.rs:606-612 | the documented discipline, a guard taken while the command is outstanding, is enough for that |
| CommandProtocol.IdleVerdict | src/command_processor.rs:584-646 | one scan, whatever callbacks do: three of the four indicators hold at the last read, and no callback runs from the guard read on exactly when none begins there on idle indicators |
| CommandProtocol.RunInvariant | src/command_processor.rs:323-414 | in every reachable state flags, guards and outstanding command agree with where the worker is, and sent, in hand and queued tickets are in order and genuine |
| CommandProtocol.FifoWire | src/command_processor.rs:323-414 | commands reach the platform in acceptance order, once and unaltered; without clears, sent ++ in hand ++ queued is exactly what was accepted |
| CommandProtocol.OneAtATime | src/command_processor.rs:383-414 | a recorded command is never overwritten: between two recordings the earlier one was completed under its own string or abandoned |
| CommandProtocol.GuardsNeverUnderflow | src/command_processor.rs:461-470 | the guard count is the number of live callbacks, so ending one always finds a positive count |
| CommandProtocol.PendingWorkSeen | src/command_processor.rs:431-439 | the three reads of has_pending_work see any command that is in transit throughout them |
| CommandProtocol.HoldParks | src/command_processor.rs:331-335 | while the dispatch hold is on no ticket leaves the queue, whoever else acts, save one that a worker already past the check may take |
| CommandProtocol.HoldLasts | src/command_processor.rs:417-420 | a hold is on from its setting until it is released |
| CommandProtocol.StopParks | src/command_processor.rs:324 | after a stop at most one more ticket leaves the queue, and only with a worker already past the check |
| CommandProtocol.SendsFront | src/command_processor.rs:323-414 | a worker that is neither held nor stopped nor waiting sends the front of the queue |
| CommandProtocol.WorkerProgress | src/command_processor.rs:323-380 | left alone, a worker that is neither held nor stopped never rests while it could send: from any state, seven steps of its own, where it has as many to take, send the next ticket |
| CommandProtocol.ReversedScanMisreports | src/command_processor.rs:606-626 | a run in which reading the indicators in the opposite order reports idle with a command on its way out |
| CommandProtocol.ScanWithoutEpochMisreports | src/command_processor.rs:606-626 | a disciplined run in which the scan without the epoch comparison reports idle with a command queued |
| CommandProtocol.SecondCompletion | src/session_manager/callbacks.rs:400-407 | in any run, a second completion signal for a command string changes nothing if and only if the worker has not in between recorded a command with that string which is still outstanding |
| CommandProtocol.StaleCompletionMisreports | src/session_manager/callbacks.rs:400-407 | a run in which the second completion signal of one exchange completes a successor with the same command string, and the scan then reports idle while a callback runs |
| CommandSections.CommandProcessor.QueueCommand | src/command_processor.rs:265-287 | push and epoch bump in one critical section; refused exactly when the queue is full |
| CommandSections.CommandProcessor.PopForDispatch | src/command_processor.rs:340-350 | pop raises `dispatching` in the same section |
| CommandSections.CommandProcessor.MarkCommandCompleted | src/command_processor.rs:474-505 | clears the outstanding command exactly when the strings match |
| CommandSections.CommandProcessor.AbortOutstandingAndClear | src/command_processor.rs:534-555 | release the hold, empty the queue, abandon the outstanding command |
| CommandSections.CommandProcessor.ScanForIdle | src/command_processor.rs:606-626 | run alone, the scan is true exactly when all four indicators are idle |
| CommandSections.CommandProcessor.HasPendingWork | src/command_processor.rs:431-439 | run alone, the three reads are exact |
| Addressing.ReadResponseHeader | src/addressing.rs:112-152 | the header of a controller's response, followed by anything, is read back as that controller, on both bus kinds |
| Addressing.KeyInjective | src/addressing.rs:87-90 | controller keys identify controllers, so maps keyed by them lose nothing |
| IsoTp.AssembleIsoTp | src/response_parser.rs:163-284 | no result for fewer than two lines or no message; otherwise one entry per controller, each the framing of its own lines, in any order; a first frame without its length token is the fault |
| IsoTp.SplitControllers | src/response_parser.rs:321-347 | the token walk: a header closes the open payload, anything else joins it |
| IsoTp.StripPciByte | src/response_parser.rs:289-314 | drops a single-frame length token and bounds the payload by it, runs of more than seven excepted |
| IsoTp.FrameControllers | src/response_parser.rs:398-406 | assembled messages if there are any, else the token walk over all lines |
| IsoTp.TornStops | src/response_parser.rs:237-240 | the lines `7E8 10` and `7E8 21 00` end in the out-of-range slice, here the fault |
| IsoTpRoundTrip.FrameReply | src/response_parser.rs:163-314 | a single frame, or a first frame with consecutive frames, with any padding, frames to exactly its payload |
| IsoTpRoundTrip.FramingRoundTrip | src/response_parser.rs:398-406 | whatever controllers answer with 1 to 4095 bytes each, in any interleaving that keeps each controller's order, framing returns exactly those payloads; on 29-bit the all-single-frame case needs that no body reads as a header but at the very end of its padding |
| HeaderLookalikes.SinglesExact | src/response_parser.rs:321-347 | that condition is exact: for any number of 29-bit single frames whose accidental headers name controllers that sent nothing, framing returns exactly the payloads if and only if every such header takes the last four tokens of a line's padding |
| HeaderLookalikes.PayloadCut | src/response_parser.rs:321-347 | whatever controller it names, a first accidental header that starts among a payload's bytes cuts that payload, and framing does not return it |
| HeaderLookalikes.LoneExact | src/response_parser.rs:321-347 | one 29-bit single frame with any padding: the payload is returned if and only if the body reads as no header but at the padding's end, or it opens with its own controller's header and repeats the payload behind it |
| HeaderLookalikes.UnpaddedExact | src/response_parser.rs:321-347 | one 29-bit single frame without padding: the payload is returned if and only if no position of the body reads as a header |
| HeaderLookalikes.LookalikeSplits | src/response_parser.rs:321-347 | six bytes, four of them like a header, whose payload is lost |
| ChunkSplitter.SplitPayloadExact | src/response_parser.rs:598-672 | a payload splits into given blocks if and only if it is the reply byte, those distinct member blocks of learned length, then nothing or padding that starts with 00 |
| ChunkSplitter.SplitMultiExact | src/response_parser.rs:576-680 | over all payloads, a controller's repeated ones included: the split succeeds and holds, for each pid and controller, exactly the bytes after the pid's echo in the last of the controller's payloads that echoes it; unanswered members are absent |
| ChunkSplitter.SplitMultiFails | src/response_parser.rs:576-680 | one payload that is not laid out in member blocks fails the whole chunk |
| ChunkSplitter.SplitMultiPid | src/response_parser.rs:576-680 | the loop over payloads and bytes computes that split, errors included |
| Text.SplitJoin | src/link/elm.rs:221-228 | splitting at a separator undoes joining parts that do not hold it |
| ElmWire.TextPayloads | src/response_parser.rs:424-457 | nothing for a status token or noise, otherwise the frames of the kept lines as bytes |
| ElmWire.DecodeWire | src/link/elm.rs:248-262 | reply segment j is decoded for wire segment j, an unpiped wire as one segment |
| ElmText.ReplyTextLines | src/response_parser.rs:76-101 | from a well-formed reply with blank lines, echoes and a search announcement among its lines, exactly the frame lines come through, the status is data and no veto word is found |
| StatusLines.CodeExact | src/error.rs:122-143 | the adapter's sixteen error lines, and no other text, have a code: their own words joined by underscores |
| StatusLines.StatusExact | src/link/elm.rs:236-241 | any of them in place of a reply is decoded without failure to no payload and its own verdict, whatever the command |
| StatusLines.ErrorExact | src/link/mod.rs:601-608 | a bare error, a feedback error and a failed start of the bus are errors without a code of their own |
| StatusLines.FaultyExact | src/link/elm.rs:238 | a reply is marked faulty if and only if NO DATA or ERROR stands anywhere in its text, data or not |
| SoloParse.EchoExact | src/response_parser.rs:109-158 | what the parse takes off is what a positive response repeats: the mode alone for stored, pending and permanent codes, clearing and test results, otherwise the mode and the identifiers |
| SoloParse.ParsedExact | src/response_parser.rs:463-489 | every controller's last payload is handed over without that |
| SoloParse.AdapterUnparsed | src/response_parser.rs:104-107 | a reply to an adapter command is not parsed, in any letter case |
| LengthCaching.ObservedExact | src/length_cache.rs:99-113 | a length n is learned if and only if it is 1 to 255, the pid is a plain one, and the first payload that opens with its echo carries n bytes after it |
| LengthCaching.LengthCache.Seed | src/length_cache.rs:55-62 | a derived length fills a hole and never replaces a known one |
| LengthCaching.LengthCache.Record | src/length_cache.rs:65-72 | the last observation wins and no other pid changes |
| LengthCaching.LengthCache.Invalidate | src/length_cache.rs:76-80 | the pid has no length afterwards and no other pid changes |
| Exchange.ExchangeExact | src/link/elm.rs:189-262 | end to end: for any due plain pids, if every controller that answers a request of the wire does so, for the pids read in that request, with well-formed ISO-TP lines, a request nobody answers comes back as a status, and the adapter mirrors the pipes, then decoding succeeds, segment j answers request j, and every member of every segment is handed from every controller exactly the bytes it said, nothing where nobody answered; read back, the wire asks for exactly the due pids |
| Exchange.SegmentExact | src/link/elm.rs:236-241 | the same for one segment's text, chunk or solo, answered or not |
| Exchange.NoDataUnanswered | src/response_parser.rs:418-447 | NO DATA is such an unanswered text for every command |
| Exchange.WireAsks | src/link/elm.rs:184-219 | for plain pids, cutting the next command's wire at pipes and each request into its mode and its identifiers gives back the segments, and together exactly the due pids |
| Requests.AskedJoin | src/link/elm.rs:189-203 | reading a joined request gives back its members, in order |
| PlainPids.PlainMode01Exact | src/acquisition.rs:169-175 | a mode 01 pid may ride a chunk unless its number is 00, 01, 20, 40 or 60 |
| PlainPids.PlainMode22Exact | src/acquisition.rs:181-188 | a mode 22 identifier may unless its high byte is 00 or F2 |
| Exchange.ChunkExact | src/response_parser.rs:576-680 | a chunk member gets from a controller exactly the data said for it, and nothing if nothing was said |
| Exchange.SoloExact | src/response_parser.rs:463-489 | a lone member gets the payload without the echo its command implies |
| Exchange.AnswerPossible | src/response_parser.rs:424-457 | any answer of up to seven bytes has a one-line text that is a well-formed reply carrying it, so the assumptions of the exchange theorem can be met |
| Exchange.SoloLearns | src/length_cache.rs:99-113 | after a solo reply the recorded length is the number of data bytes, the length a later chunk reply is read with |
| Acquisition.GroupDue | src/acquisition.rs:273-296 | the loop over picks computes the first-fit grouping, chunks before solos |
| GroupingOptimal.GroupLegal | src/acquisition.rs:273-296 | segments hold exactly the picks; each is one chunk of one mode and target within its limit, or one pick alone |
| GroupingOptimal.GroupCost | src/acquisition.rs:273-296 | the number of segments is the sum over slots of picks divided by the limit, rounded up, solos counting one each |
| GroupingOptimal.GroupOptimal | src/acquisition.rs:273-296 | no legal segments of the same picks are fewer |
| GroupingOptimal.FitsExact | src/acquisition.rs:299-303 | admission is exact: a list fits if and only if some legal segments of it do |
| GroupingOptimal.PairExact | src/acquisition.rs:198-275 | two picks share a segment if and only if both have known lengths, neither is excluded, and both are plain mode 01 with chunks of two allowed, or both plain mode 22 for one controller likewise |
| GroupingOptimal.FitsMonotone | src/acquisition.rs:299-303 | admission ignores order and accepts every part of an accepted list |
| PollPlugins.PollPlugin.MaxPicks | src/acquisition.rs:365-369 | no admitted list is longer than the bound |
| PollPlugins.PollPlugin.SetChunkCapable | src/acquisition.rs:375-384 | losing the capability forgets exclusions, mode 22 state and caps |
| PollPlugins.PollPlugin.ClampChunk | src/acquisition.rs:390-399 | a limit above 1 is halved exactly, the ladder 6, 3, 1, and one clamp ends mode 22 pairing |
| PollPlugins.PollPlugin.SetChunkCap | src/acquisition.rs:401-404 | a cap only lowers limits, to the cap exactly, and a cap of 0 to 1 |
| PollPlugins.PollPlugin.ExcludeFromChunks | src/acquisition.rs:386-388 | the pid joins no chunk afterwards, whatever lengths are known |
| PollPlugins.PollPlugin.NoteMode22Outcome | src/acquisition.rs:414-423 | a refusal ends pairing; the result says whether the state changed |
| PollPlugins.PollPlugin.Next | src/acquisition.rs:435-478 | the next command is the grouped, sorted segments and their encoding, a lone pick passed through |
| PollPlugins.NextSegmentsExact | src/acquisition.rs:435-478 | the segments ask for exactly the due pids, each as often as it is due |
| PollPlugins.NextWire | src/acquisition.rs:435-478 | the wire is the encoding of the segments, the pass-through included; `Exchange.WireAsks` reads it back |
| PollPlugins.NextCarries | src/acquisition.rs:435-478 | the command carries its picks' shared target and the longest timeout any of them asks for, and chunk members are sorted |
| PollPlugins.SortCanonical | src/acquisition.rs:452-466 | the same members make the same segment whatever order they were picked in |
| SchedulerRuns.RunInvariant | src/subscription.rs:303-419 | after any operations, picks and completions: a pid is registered with a subscription exactly when held by it, no entry is empty, controllers only for held pids, every held pid has a tick and fewer runs than its limit |
| SchedulerRuns.StepKeeps | src/subscription.rs:303-1081 | each single operation keeps that invariant |
| SchedulerRuns.EligibleExact | src/subscription.rs:738-766 | a waiting pid is eligible for some active holder exactly when one has no limit or a positive one |
| ZeroRunCount.ZeroCount | src/subscription.rs:1049-1066 | a pid under a run count of zero is never eligible for its own subscription, and leaves it exactly at a completion that names it |
| ZeroRunCount.ZeroCountWaits | src/subscription.rs:738-766 | a run of create, add with count zero and start, after which the pid waits and no scan can find it |
| ZeroRunCount.ZeroCountCompletes | src/subscription.rs:1025-1081 | a run in which another subscription's poll of the pid completes the one with count zero |
| SchedulerRuns.CompletionAccounted | src/subscription.rs:1025-1066 | a completion takes exactly one run off every active subscription that holds the pid under a positive limit; the pid leaves at its last run and takes its counters with it |
| SchedulerRuns.ReportedOnce | src/subscription.rs:524-537 | in every run, a completion reports nothing unless an active run-once subscription holds no pid any more; the one it reports was empty or has lost exactly the completed pid, is registered for nothing, and alone changes state |
| SchedulerRuns.OneReportPerCall | src/subscription.rs:524-537 | each call reports one of several emptied subscriptions and leaves the rest |
| FairShare.ProportionalShare | src/subscription.rs:899-915 | from equal ticks, under any tie-breaking, polls weighted by divisor differ by at most one divisor and no pid leads the least tick by more than its own |
| FairShare.NoStarvation | src/subscription.rs:738-766 | a pid is among any picks that outnumber its rank, which every other pick lowers |
| FairShare.SeedKeepsSpread | src/subscription.rs:310-327 | seeding a pid at the floor keeps every pid within its divisor of every other |
| FairShare.FreshFirst | src/subscription.rs:310-327 | until the new pid is picked no other pid is picked twice |
| FairShare.SweepShare | src/subscription.rs:676-688 | with a divisor-1 pid and equal starts a pid of divisor d joins exactly ceil(N / d) of N sweeps |
| ManagerFairness.RunIsSerial | src/subscription.rs:669-674 | the manager's pick-and-complete runs are schedules of that clock, whatever replies say |
| ManagerFairness.ManagerShare | src/subscription.rs:669-674 | proportional share for the manager |
| ManagerFairness.ManagerNoStarvation | src/subscription.rs:669-674 | starvation freedom for the manager |
| ManagerFairness.LateAddKeepsSpread | src/subscription.rs:303-391 | a pid added mid-run starts as a most overdue one and the spread is kept |
| ManagerFairness.LateAddFirst | src/subscription.rs:303-391 | it is polled before any pid is polled twice |
| SweepFairness.ExchangeUniform | src/subscription.rs:689-734 | any exchange's picks are different pids of one target that fit the admission; with positive run limits all sit at the least eligible tick |
| SweepFairness.ExchangeTakesDue | src/subscription.rs:689-734 | with room for everything on its target an exchange takes exactly the pids at the least tick |
| SweepFairness.ManagerSweeps | src/subscription.rs:676-734 | N completed exchanges poll a pid of divisor d exactly ceil(N / d) times |
| SweepFairness.TierRates | src/subscription.rs:16-57 | in numbers: N exchanges poll a pid its holder lists as Fast N times, a Medium one ceil(N / 3) and a Slow one ceil(N / 10) times; a 22F4 pid without an entry follows the mode 01 pid it mirrors, any other is Medium |
| SweepFairness.DefaultRates | src/subscription.rs:61-76 | with the default tiers engine speed, vehicle speed, throttle, air flow and load are polled in all N exchanges, the nine slow pids such as coolant temperature in ceil(N / 10), any other four-digit pid in ceil(N / 3) |
| HostPause.HostPauseHolds | src/subscription.rs:421-485 | a subscription the host paused polls nothing, whatever is paused, resumed, edited or completed, until the host starts it or it is cancelled |
| HostPause.PauseResume | src/subscription.rs:462-485 | in any reachable state, resuming what a pause of everything paused restores that state |
| Completions.CountsExact | src/subscription.rs:928-1040 | when its controller's line comes first, on either bus and in one frame or several, a completion counts for the pid that was asked if and only if the header and the length bytes do not spell a response of the same mode to another pid |
| Completions.CountsOn11 | src/subscription.rs:928-1040 | on an 11-bit bus an answer in one frame, with any data and padding and anything after it, counts for the pid that was asked |
| Completions.CountedForAnother | src/subscription.rs:928-1040 | the reply of controller 41 on a 29-bit bus to `010C` counts for `0104` |
| Completions.CompoundCounts | src/subscription.rs:990-1011 | a request for several pids completes as itself, whatever its reply looks like |
| PidRegistry.GlobalPidRegistry.RegisterPidSubscription | src/pid_registry.rs:66-83 | the subscription joins the pid's holders, a given controller is set |
| PidRegistry.GlobalPidRegistry.UnregisterPidSubscription | src/pid_registry.rs:89-100 | it leaves; a pid nobody holds is forgotten with its controller |
| PidRegistry.GlobalPidRegistry.UnregisterSubscription | src/pid_registry.rs:105-122 | it leaves every pid it held |
| PidRegistry.GlobalPidRegistry.GetUniquePids | src/pid_registry.rs:127-147 | every held pid once, with its controller |
| SubscriptionManaging.SubscriptionManager.constructor | src/subscription.rs:219-233 | an empty manager meets the invariant |
| SubscriptionManaging.SubscriptionManager.CreateSubscription | src/subscription.rs:236-263 | refused at the limit, else a new empty paused subscription |
| SubscriptionManaging.SubscriptionManager.AddPidsToSubscription | src/subscription.rs:303-391 | errors change nothing; otherwise pids, run counts, registry and ticks at the floor, all as specified |
| RequestSyntax.ValidPidExact | src/subscription.rs:565-606 | a command is accepted if and only if it, or every part of it between pipes, is an adapter command, 1 to 13 hexadecimal bytes, or those with a blank and at most two digits |
| SubscriptionManaging.SubscriptionManager.RemovePidsFromSubscription | src/subscription.rs:394-419 | the pids leave the subscription and the registry |
| SubscriptionManaging.SubscriptionManager.StartSubscription | src/subscription.rs:422-442 | starts a paused one; a refusal still clears the host's pause mark |
| SubscriptionManaging.SubscriptionManager.PauseSubscription | src/subscription.rs:445-458 | pauses whatever is not cancelled, a completed one too |
| SubscriptionManaging.SubscriptionManager.PauseAllActive | src/subscription.rs:462-471 | pauses and names exactly the active ones |
| SubscriptionManaging.SubscriptionManager.Resume | src/subscription.rs:477-485 | resumes exactly the named paused ones the host did not pause |
| SubscriptionManaging.SubscriptionManager.CancelSubscription | src/subscription.rs:488-499 | removes it and all its registrations |
| SubscriptionManaging.SubscriptionManager.PeekNextEligible | src/subscription.rs:738-766 | finds an eligible pid no surely eligible pid is more overdue than, or nothing |
| SubscriptionManaging.SubscriptionManager.CommitPick | src/subscription.rs:899-915 | advances the tick by a holder's tier and marks the pid in flight |
| SubscriptionManaging.SubscriptionManager.GetNextCommand | src/subscription.rs:669-674 | peek, then commit |
| SubscriptionManaging.SubscriptionManager.GetNextCommands | src/subscription.rs:689-734 | picks in turn until the limit, nothing found, or one that is later, elsewhere or refused |
| SubscriptionManaging.SubscriptionManager.CommandCompleted | src/subscription.rs:975-1081 | accounts the run to every active holder of the pid the reply names, and reports at most one emptied subscription |
| PeriodicStream.BuildDefines | src/periodic_stream.rs:178-265 | fails exactly for mixed targets; otherwise the first-fit packing, and commands that, read back, append each record's whole source to its slot and start exactly the used slots, each once, at the profile's rate |
| PeriodicStream.PackConserves | src/periodic_stream.rs:178-265 | every signal is defined once or dropped once |
| PeriodicStream.PackOk | src/periodic_stream.rs:214-242 | slots never exceed seven bytes and are gap-free in define order; no record passed over a slot that had or later has room |
| PeriodicStream.PackOrder | src/periodic_stream.rs:229-241 | a slot's signals are its records in define order |
| PeriodicStream.DroppedFitsNowhere | src/periodic_stream.rs:224-228 | a signal dropped for room fits no slot at the end |
| PeriodicStream.UsedPrefix | src/periodic_stream.rs:244-256 | used slots are the first slots_used ones |
| PeriodicStream.CommandsRead | src/periodic_stream.rs:228-256 | reading the commands of any packing gives back its records and exactly its used slots |
| PeriodicStream.PairsFull | src/periodic_stream.rs:224-242 | two used slots hold at least eight bytes together |
| PeriodicStream.FirstFitBound | src/periodic_stream.rs:214-256 | slots_used is at most one more than a quarter of the bytes packed |
| PeriodicStream.UnpackTable.DropRefused | src/periodic_stream.rs:271-288 | removes the first record of the pid and closes the gap; an emptied slot goes; absent means no change |
| PeriodicStream.WithoutLaid | src/periodic_stream.rs:271-288 | the slot stays gap-free with the other records in order |
| PeriodicStream.RefusedDuplicate | src/periodic_stream.rs:271-288 | when the refused record is a later one of the same pid, the result is right exactly if all records from the first to it are alike |
| PeriodicStream.RepeatedMisread | src/periodic_stream.rs:271-288 | pids `010C`, `010D` and `010c`, sorted apart and upper-cased afterwards: refusing the third gives up the first, and the accepted bytes are decoded under the wrong pids |
| PeriodicStream.UnpackTable.Decode | src/periodic_stream.rs:317-342 | each signal wholly inside the frame, in order; nothing for other ids or slots |
| PeriodicStream.SlotFitsFrame | src/periodic_stream.rs:17-18 | after any packing, what a slot sends, its identifier byte included, fits one eight-byte frame |
| PeriodicStream.StreamRoundTrip | src/periodic_stream.rs:178-342 | after any packing and any refusals, a frame of the survivors' bytes in define order, with anything behind, decodes to every survivor's bytes |
| PeriodicStream.DecodeTorn | src/periodic_stream.rs:332-340 | a cut frame gives exactly the signals wholly inside it |
| StnPeriodic.BuildPeriodicSet | src/stn_periodic.rs:96-196 | messages and left-out pids are exactly the signals, each once; each message has one tier, mode and header and fits one reply frame under its cap; left out are only pids without a usable length |
| StnPeriodic.PackMembers | src/stn_periodic.rs:160-192 | the loop computes the greedy packing |
| StnPeriodic.GreedyKeeps | src/stn_periodic.rs:160-192 | members stay in order, each once; no message empty or over the cap |
| StnPeriodic.GreedyFits | src/stn_periodic.rs:160-192 | members that fit alone are packed so that every message fits |
| StnPeriodic.GreedyTight | src/stn_periodic.rs:160-192 | a member starts a message only because the one before had no room or was at the cap |
| PeriodicReplies.AnswerCost | src/stn_periodic.rs:198-203 | a full answer, every member once with its learned length, is one byte and the members' costs long, in either mode and any order |
| PeriodicReplies.MessageFits | src/stn_periodic.rs:160-192 | with single-frame replies the full answer to every message of a set is at most 7 bytes, one valid frame |
| PeriodicReplies.MessageCap | src/stn_periodic.rs:160-166 | a message of several members has at most as many as the limit of its mode |
| PeriodicReplies.MessageAsks | src/stn_periodic.rs:170-192 | read back, a message's data asks for exactly its members |
| PeriodicReplies.LeftOutExact | src/stn_periodic.rs:129-153 | a pid is left out if and only if its length is unknown or its own answer does not fit one frame |
| StnRouting.Install | src/link/stn_periodic_engine.rs:138-171 | decoders of the accepted messages in order, up to the first the adapter had no memory for |
| StnRouting.FullRecognized | src/link/stn_periodic_engine.rs:146-149 | a full adapter's refusal is recognized anywhere in the reply |
| StnRouting.HandleRecognized | src/link/stn_periodic_engine.rs:150-158 | a handle is accepted, a question mark is not |
| StnRouting.InstalledApart | src/link/stn_periodic_engine.rs:138-171 | messages that hold each pid once give decoders without common pids |
| StnRouting.ResponseIdMatches | src/addressing.rs:562-578 | the id listened on is the id the bus attributes to the asked controller, on 11-bit |
| StnRouting.ResponseIdMatches29 | src/addressing.rs:562-578 | on a 29-bit bus the id listened on is the header of the asked controller's frames |
| StnRouting.RouteFrame | src/link/stn_periodic_engine.rs:254-275 | the first decoder on the id that can read the frame |
| StnRouting.OtherRefuses | src/link/stn_periodic_engine.rs:254-275 | a nonempty reply to one message fails every other message's decoder |
| StnRouting.RouteExact | src/link/stn_periodic_engine.rs:254-275 | so it is read by its own decoder, whatever the order of decoders |
| StnRouting.RouteFrameExact | src/link/stn_periodic_engine.rs:254-275 | the same from the received line on: a single frame answering one installed message, framed on its bus, is split by that message's decoder |
| PeriodicReplies.PeriodicExact | src/link/stn_periodic_engine.rs:254-275 | the way back of a message: its full answer in one frame is split by its own decoder, and every member gets exactly the bytes sent for it |
| SessionHealth.TickInsensitive | src/session_health.rs:233-305 | adding or removing ticks anywhere in a run, CONNECTED resets included where no tick at one leaves a trace, changes neither windows nor anomalies nor summary nor events |
| SessionHealth.TickInsensitiveSince | src/session_health.rs:233-305 | after any run, so after any CONNECTED, ticks up to the next CONNECTED never matter |
| SessionHealth.ResetTickSensitivity | src/session_health.rs:389-392 | before a CONNECTED reset a tick goes unnoticed exactly when it completes no interval that leaves a trace |
| SessionHealth.TickBeforeResetShows | src/session_health.rs:389-392 | a concrete tick that does change what the session remembers |
| SessionHealth.SessionAccounted | src/session_health.rs:468-490 | any calls, resets and restarts included: the summary starts at the call that opened the session or its last CONNECTED; after the windows closed before that, its windows run from there to the end without gap or overlap, each with (end - start) / 5000 intervals; its total is the signals of the earlier windows and all delivered since |
| SessionHealth.CoverExact | src/session_health.rs:389-395 | the windows cover the session the summary names if and only if every window closed before the last CONNECTED is an instant at that moment |
| SessionHealth.EarlyWindowUncovered | src/session_health.rs:389-395 | a session with one window rolled before CONNECTED, whose windows do not cover it |
| SessionHealth.EarlySignalsLost | src/session_health.rs:389-395 | a session whose seven signals before CONNECTED are not in the total |
| SessionHealth.OncePerWindowExact | src/session_health.rs:263-300 | since the call that opened the session or its last CONNECTED, tier_silent and rate_degraded fire at most once per window; over the whole log if and only if they did before and CONNECTED did not discard a fired window whose successor fires before it closes |
| SessionHealth.DegradedTwice | src/session_health.rs:389-395 | a session that logs rate_degraded twice with no window closed in between |
| SessionHealth.SilenceReported | src/session_health.rs:280-300 | in any run, an engaged tier that delivers nothing for three intervals is reported by the tick that says so |
| LadderChurning.ChurnExact | src/session_health.rs:350-376 | after any calls, a call logs ladder churn if and only if it switches the tier and the third switch before it, since churn was last logged, the subscriptions edited or the session begun, is at most ten minutes old |
| SessionHealth.BaselinesApart | src/session_health.rs:74-85 | however many intervals pass, a tier is judged by its own intervals only, the two adapter-side tiers together |
| SessionHealth.HealthTracker.CompleteInterval | src/session_health.rs:238-302 | one completed interval: judged before it joins the baseline |
| SessionHealth.HealthTracker.RollIntervals | src/session_health.rs:233-305 | every interval the time has passed is completed |
| SessionHealth.HealthTracker.EnterTier | src/session_health.rs:337-379 | tier change: roll, close, open, churn bookkeeping; restart after a finish |
| SessionHealth.HealthTracker.DeliverSignals | src/session_health.rs:400-413 | signals count in the window and interval at their time; ignored after a finish |
| SessionHealth.HealthTracker.AdvanceClock | src/session_health.rs:418-423 | a tick only completes intervals |
| SessionHealth.HealthTracker.RollWindow | src/session_health.rs:439-453 | a window of sixty seconds is closed and reopened on its tier |
| SessionHealth.HealthTracker.FinishSession | src/session_health.rs:468-490 | the summary once, with the last window closed |
| Accumulator.ChunksAgree | src/accumulator.rs:79-127 | in line mode any chunking gives the lines of the whole stream, and the buffer is what follows the last terminator |
| Accumulator.PromptOnce | src/accumulator.rs:91-107 | a reply with one final prompt is exactly one event however it is cut |
| StreamText.LinesHeard | src/accumulator.rs:79-127 | line mode hears what is sent: lines ended by carriage returns or line feeds, cut anywhere, come out as their texts in order, without outer blanks, empty lines and bare prompts |
| StreamText.ReplyHeard | src/accumulator.rs:91-107 | prompt mode hears a text and the prompt sign behind it, cut anywhere, as one reply with the trimmed text, or a dropped prompt |
| Accumulator.ResponseAccumulator.FeedBytes | src/accumulator.rs:79-89 | one chunk in either mode |
| Accumulator.ResponseAccumulator.DrainLines | src/accumulator.rs:109-127 | cuts after the last terminator and decides piece by piece |
| Accumulator.ResponseAccumulator.DrainPrompt | src/accumulator.rs:91-107 | everything before the last prompt, the buffer emptied |
| Accumulator.ResponseAccumulator.SetMode | src/accumulator.rs:71-75 | a mode switch discards what was buffered |

## Left out

- Command processor: rate limiting and statistics are one step each; condition variables are steps that are
  enabled or not, and no claim is made that a stop always wakes the worker, since `running` is read before the
  queue lock is taken (`src/command_processor.rs:359-361`).
- Widths: the activity counter, ticks, run counts and times are unbounded naturals; their 64- and 32-bit
  wrap-around is not modelled.
- IsoTpRoundTrip.FramingRoundTrip: on 29-bit buses the all-single-frame case has the condition that the code needs
  (`HeaderLookalikes.SinglesExact`). `Exchange.ExchangeExact` inherits it.
- HeaderLookalikes.SinglesExact: exact where accidental headers name controllers that sent nothing. Where one names
  an answering controller, what follows it can repeat that controller's payload by chance; `HeaderLookalikes.LoneExact`
  is exact for that too with one line, and `HeaderLookalikes.PayloadCut` covers headers inside a payload with any
  number of lines.
- StnPeriodic.BuildPeriodicSet: the order of messages between (mode, header) buckets of one tier is left open, and
  the 8-bit overflow of `member_cost` for lengths near 255 is not modelled.
- StnRouting.RouteFrame: works on framed payloads, one frame at a time; coalescing of frames per id and the stricter
  refusal of tokens that are not hexadecimal before the splitter are not modelled.
- SessionHealth.HealthTracker.CompleteInterval: the comparison with half the baseline is done on integers instead of
  64-bit floats, and the detail texts of anomalies are not kept.
- SessionHealth.TickInsensitive: needs that no tick at a CONNECTED would leave a trace. Whether one goes unnoticed
  there is exactly `SessionHealth.ResetTickSensitivity`, for one tick and one reset.
- ManagerFairness.LateAddFirst: the schedule floor counts pids of paused subscriptions, so the late-add results are
  for states in which every holding subscription is active.
- ManagerFairness.ManagerShare: for continuous pids whose holders agree on the tier; with disagreeing holders the
  divisor is whichever the map yields first.
- SubscriptionManaging.SubscriptionManager.CommandCompleted: recorded responses, mismatch counters, timestamps and
  the audit log are not kept.
- PidRegistry.GlobalPidRegistry.GetUniquePids: the order by controller is left open; the response cache is not
  modelled.
- Accumulator.ResponseAccumulator.FeedBytes: the binary frame mode and `flush` are not modelled.
- PeriodicStream.BuildDefines: at most 256 slots, as the profile parser admits no more
  (`src/periodic_stream.rs:75`); profile parsing from JSON is not modelled, the profile's target, slot count and rate
  byte are parameters; `decode_periodic_line` is the same decode after tokenizing.
- LengthCaching.LengthCache.Record: persistence per vehicle is not modelled.
- LengthCaching.LengthCache.Seed: persistence per vehicle is not modelled.
- LengthCaching.LengthCache.Invalidate: persistence per vehicle is not modelled.
- StnRouting.Install: the engine's response id list, accepted count and fastest period are not modelled.
- Accumulator.ResponseAccumulator.SetMode: the binary frame parser's reset is not modelled.
- Controller selection, multi-frame timing, status tables for trouble codes and support bitmaps, the health and
  acquisition projections in floating point.
- The session manager's acquisition ladder, the DVI codec and handler, transports, loggers, the host interface and
  all JSON marshalling. Their callbacks are steps that may come at any moment.
