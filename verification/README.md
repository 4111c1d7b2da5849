# Agent Room, verified

A Dafny model of the parts of the Agent Room repository where state changes over whole runs, and proofs of what those
parts are for. `dafny verify dfyconfig.toml` checks everything.

* **Actor runtime** (`ActorMachine`, `ActorTheorems`, `ActorTask`, `ActorCap`, `ActorCell`, `ActorLiveness`): the actor task, its
  two-phase mailbox with permits, any number of senders, cancellation, panics and supervised restarts, as one step
  machine; the imperative loops are proved to follow it step for step. Theorems speak about every interleaving.
* **Live transcript pipeline** (`Tailer`, `Parser`, `AgentMachine`, `StateManager`, `Watcher`, `Sessions`, `Frontend`,
  `Pipeline`): incremental file reading, parsing, the per-agent state machine with its timers, the watcher around it,
  the start/stop protocol and the frontend's own state machine. `AgentInvariants`, `QuietPeriod`, `TimerSignals`,
  `Tracking`, `LogMirror`, `Simulation` and `IdleHints` hold the theorems over whole sessions, `TailerLines` and
  `ParserRoundTrip` read back what was written, and `Pipeline` joins them from the file to the screen.
* **Timer stores** (`TimerModel`, `HeapTimers`, `VecTimers`, `BTreeTimers`, `TimerComparison`, `TimerHistory`): three
  stores behind one interface, compared over every call sequence and with the history of calls.
* **Scenario compiler and interpreter** (`Scenario`, `ScenarioResolution`, `ScenarioOutcome`, `ScenarioRunner`).
* **Text and colour transformations** (`Scanner`, `Quoting`, `Colour`, `Sprites`, `ColourSliders`).
* **Sprite cache** (`SpriteKeys`, `SpriteCache`, `SpriteStore`).

Code that changes state is modelled by classes and loops that are proved equal to a specification function or step
machine; the theorems are lemmas about that specification. A lemma at a concrete input shows each failure below.

Where the code does not do what one would hope, the model keeps the code, and a lemma states exactly when it does:

* an idle report for an agent with a running tool (`IdleHints.BusyIdleLiveIff`): the flag is sampled once per batch;
* a watcher session that nobody can stop (`Sessions.OneLiveSessionIff`): two starts that overlap with no stop between
  their publications;
* an unbalanced or missed extraction (`Scanner.ResultBalancedIff`, `Scanner.FoundIff`): a closing brace before the
  first opening one;
* obligations never resolved (`ScenarioResolution.EveryRuntimeResolvesIff`): asked for after a cancellation;
* a wrong waker count (`TimerComparison.BTreeMatchesVecIffFair`): cancelling an expired timer, or the last clock value;
* a displayed tool list out of step with the active set (`Frontend.DisplayFollowsSetIff`): an id started twice in a turn;
* a stale wall sprite (`SpriteCache.CoherentIff`): loading walls does not clear the cache;
* a state cell that leaves `Stopped` or `Stopping` (`ActorCell.StoppedUntilStopCall`, `ActorCell.StoppingStaysIff`):
  `stop`, `abort` and the launch of an incarnation store unconditionally;
* a committed message that is never handled (`ActorCap.AllHandledIff`): committed after the drain's last look into the
  mailbox, for instance while `on_stop` runs, or before it but beyond what the cap lets the drain take.

The comment on `setWallSprites` promises that it is called once, and the comment on the drain phase that no committed
message is dropped. The second is proved for messages committed before the drain (`ActorTheorems.GracefulShutdown`);
for later ones it is false, with `ActorCap.CapLeavesBehind` and `ActorCap.StopLeavesBehind` as failing runs.

## Model

| member | source | states |
|---|---|---|
| `ActorTheorems.Reachable` | search-backend/asupersync/src/actor.rs:677-742 | in every interleaving of actor, senders, permits, cancellation, panics and restarts: queue plus permits never exceed capacity, what was committed is what was consumed, in hand or queued, the drain counter never hides a message, and the log is a legal chain of lifecycles |
| `ActorTheorems.ConsumptionIsPrefix` | search-backend/asupersync/src/actor.rs:985-1046 | across any number of panics and restarts each message is consumed by exactly one incarnation: the concatenated consumption is a prefix of the commit order, and the rest is exactly the message in hand and the queue |
| `ActorTheorems.DrainDeliversAll` | search-backend/asupersync/src/actor.rs:715-739 | although the drain is capped at capacity, everything committed before it began was consumed before `on_stop` of the returned incarnation, and the drain took at most `capacity` messages whatever senders did |
| `ActorTheorems.PanicFreeHandles` | search-backend/asupersync/src/actor.rs:677-742 | without panics there is one incarnation and consumed means handled to completion |
| `ActorTheorems.GracefulShutdown` | search-backend/asupersync/src/actor.rs:677-742 | without panics, every message committed before the drain phase is handled exactly once, in commit order, before the final `on_stop`; handled messages are a prefix of committed ones |
| `ActorTheorems.ReturnedLifecycle` | search-backend/asupersync/src/actor.rs:1008-1018 | a returned actor is the last incarnation: its log is `on_start`, handled messages, then `on_stop` exactly once and last; every earlier incarnation crashed without `on_stop` |
| `ActorTheorems.ShutdownIsBounded` | search-backend/asupersync/src/actor.rs:717-737 | once the message loop is over, on every run in which no handler panics, 2 * capacity + 6 steps of the actor task finish it even if senders keep filling the mailbox |
| `ActorCell.StoppedMeansDone` | search-backend/asupersync/src/actor.rs:950-954 | a state cell that reads `Stopped` means the last incarnation has ended: at most dropping the receiver is left |
| `ActorCell.StoppedUntilStopCall` | search-backend/asupersync/src/actor.rs:258-264 | `Stopped` is not terminal in the cell: once stored it reads `Stopped` exactly until someone calls `stop` or `abort` again, and nothing more is handled |
| `ActorCell.StoppingStaysIff` | search-backend/asupersync/src/actor.rs:680-680 | a cell that reads `Stopping` keeps reading it exactly as long as no incarnation is launched, which stores `Running`, and the end is not marked |
| `ActorCell.StoppingUntilEnd` | search-backend/asupersync/src/actor.rs:680-715 | once launched and as long as nothing panics, `Stopping` is left only for the end |
| `ActorCell.StopBeforeLaunch` | search-backend/asupersync/src/actor.rs:258-264 | a complete `stop` before the first launch is overwritten: the cell reads `Running` afterwards |
| `ActorCap.AllHandledIff` | search-backend/asupersync/src/actor.rs:717-739 | without panics, every message committed before the receiver is dropped has been handled exactly if none was committed after the drain's last look into the mailbox and at most `capacity` were unconsumed or arrived since the drain began |
| `ActorCap.LastPollExists` | search-backend/asupersync/src/actor.rs:726-732 | every drain that is over has had such a last look |
| `ActorCap.StopLeavesBehind` | search-backend/asupersync/src/actor.rs:735-739 | whatever the capacity, a message committed while `on_stop` runs is never handled, although the drain took nothing |
| `ActorCap.CapLeavesBehind` | search-backend/asupersync/src/actor.rs:722-732 | with capacity 1, a message committed while the drain handles its only message is never handled, because the cap is reached; and a stop call after the end makes the cell read `Stopping` again |
| `ActorTasks.ActorTask.RunSupervisedLoop` | search-backend/asupersync/src/actor.rs:989-1046 | the supervised loop, driven by any schedule, leaves exactly the world that the step machine reaches on that schedule |
| `ActorTasks.ActorTask.RunActorLoop` | search-backend/asupersync/src/actor.rs:677-742 | start, message loop, drain and stop, step for step as the machine, or the first panic that the supervisor must see |
| `ActorTasks.ActorTask.MessageLoop` | search-backend/asupersync/src/actor.rs:688-713 | the receive loop ends only by cancellation, disconnection or a panic |
| `ActorTasks.ActorTask.DrainLoop` | search-backend/asupersync/src/actor.rs:717-732 | the drain loop with its counter, as the machine's drain states |
| `ActorTasks.ActorTask.Recv` | search-backend/asupersync/src/channel/mpsc.rs:698-722 | receiving waits through other steps and yields a message, disconnection or cancellation as the machine does |
| `ActorTasks.ActorTask.CallUser` | search-backend/asupersync/src/actor.rs:683-685 | a call into user code either completes and is logged or panics and is left to the supervisor |
| `ActorTasks.ActorTask.DeliverResult` | search-backend/asupersync/src/actor.rs:940-956 | sending the result, storing `Stopped` and dropping the receiver, three steps with others acting in between, lead to the machine's final world |
| `ActorLiveness.StopsWhenAsked` | search-backend/asupersync/src/actor.rs:686-742 | from every reachable world in which the actor is cancelled or has no sender left, every panic-free continuation with 5 * capacity + 10 actor steps (2 * capacity + 9 if cancelled) has returned that same incarnation, whatever senders do meanwhile |
| `ActorLiveness.CancelledLoopTakesNothing` | search-backend/asupersync/src/channel/mpsc.rs:698-722 | once cancelled, and until a drain begins, nothing more is taken from the mailbox: at most the message already in hand is handled |
| `ActorLiveness.StopsOnlyWhenAsked` | search-backend/asupersync/src/actor.rs:688-713 | no drain begins and no incarnation returns unless the actor is cancelled, or the last sender is gone and every message has been received |
| `ActorLiveness.RestartsExactly` | search-backend/asupersync/src/actor.rs:1008-1037 | over every run the incarnation number is the number of panics answered by `Restart`, and the actor ends as failed exactly if one panic was answered by `Stop` or `Escalate`, which is then the last |
| `ActorLiveness.SendIff` | search-backend/asupersync/src/channel/mpsc.rs:219-240 | reserving and committing appends the message exactly if the receiver is there, a sender is, and a slot is free; otherwise nothing changes |
| `ActorLiveness.AbortUndoesReserve` | search-backend/asupersync/src/channel/mpsc.rs:574-611 | a permit given back leaves the channel as it was |
| `ActorLiveness.CommitAfterClose` | search-backend/asupersync/src/channel/mpsc.rs:535-562 | a permit used after the receiver is gone releases its slot and delivers nothing |
| `ActorLiveness.SendersCounted` | search-backend/asupersync/src/channel/mpsc.rs:442-473 | over every run in which senders are cloned and dropped by those who own one, the channel's count is one plus clones minus drops |
| `TimerComparison.HeapMatchesVec` | search-backend/asupersync/benches/timer_wheel.rs:598-695 | at every call of every sequence of insert, cancel and collect at arbitrary times, the heap store answers like the vector store: same id, same cancel result, same multiset of wakers, same length afterwards; and it fires each timer's own waker in strict (deadline, id) order despite lazily deleted entries |
| `TimerComparison.BTreeMatchesVecIffFair` | search-backend/asupersync/benches/timer_wheel.rs:539-595 | the ordered-map store answers every call like the vector store (wakers counted) if and only if no expired timer is cancelled and no collect with live timers happens at the last clock value, where `now + 1` wraps |
| `TimerComparison.FirstUnfairCallIsWrong` | search-backend/asupersync/benches/timer_wheel.rs:539-595 | the first such call is itself answered wrongly |
| `TimerComparison.CancelAfterExpiryDiffers` | search-backend/asupersync/benches/timer_wheel.rs:564-580 | insert, collect, cancel the same timer: the ordered map answers true, the vector false |
| `TimerComparison.LastClockValueDiffers` | search-backend/asupersync/benches/timer_wheel.rs:582-590 | one live timer collected at the last clock value: the vector wakes it, the ordered map wakes nobody |
| `TimerComparison.CollectVerdict` | search-backend/asupersync/benches/timer_wheel.rs:582-590 | a collect that wakes as many as are due, or nobody at the last clock value, counts right exactly when it is fair |
| `TimerComparison.RunsTrack` | search-backend/asupersync/benches/timer_wheel.rs:598-695 | after every call sequence the heap and the vector state represent the same live timers |
| `HeapStore.PopsAll` | search-backend/asupersync/benches/timer_wheel.rs:626-639 | the pop loop from any point on: what has fired and what will fire list exactly the due timers, in order |
| `TimerModel.SameWoken` | search-backend/asupersync/benches/timer_wheel.rs:626-690 | two enumerations of the same due timers hand out the same multiset of wakers |
| `TimerModel.ListLength` | search-backend/asupersync/benches/timer_wheel.rs:626-690 | a duplicate-free enumeration of the due timers has exactly as many entries as there are due timers |
| `HeapStore.HeapTimers.Insert` | search-backend/asupersync/benches/timer_wheel.rs:613-619 | adds exactly the new timer under the next id |
| `HeapStore.HeapTimers.Cancel` | search-backend/asupersync/benches/timer_wheel.rs:621-624 | succeeds exactly for a live timer and removes only it, although its queue entry stays |
| `HeapStore.HeapTimers.CollectExpired` | search-backend/asupersync/benches/timer_wheel.rs:626-639 | pops until the least deadline lies in the future: removes exactly the due timers, hands out each live one's waker once, in strict (deadline, id) order |
| `HeapStore.HeapTimers.Size` | search-backend/asupersync/benches/timer_wheel.rs:641-643 | the number of live timers, not of queue entries |
| `VecStore.VecTimers.Insert` | search-backend/asupersync/benches/timer_wheel.rs:660-665 | adds exactly the new timer under the next id |
| `VecStore.VecTimers.Cancel` | search-backend/asupersync/benches/timer_wheel.rs:667-675 | succeeds exactly for a live timer and removes only it |
| `VecStore.VecTimers.CollectExpired` | search-backend/asupersync/benches/timer_wheel.rs:677-690 | removes exactly the due timers and hands out each one's waker once |
| `VecStore.VecTimers.Size` | search-backend/asupersync/benches/timer_wheel.rs:692-694 | the number of live timers |
| `BTreeStore.BTreeTimers.Insert` | search-backend/asupersync/benches/timer_wheel.rs:556-562 | adds the waker to its deadline's bucket and keeps bucket sizes in step with the live timers |
| `BTreeStore.BTreeTimers.Cancel` | search-backend/asupersync/benches/timer_wheel.rs:564-580 | on a live timer removes one waker of its deadline and keeps the counts; the answer follows the id index, which still knows expired ids |
| `BTreeStore.BTreeTimers.CollectExpired` | search-backend/asupersync/benches/timer_wheel.rs:582-590 | below the last clock value hands out as many wakers as timers are due; at it, nothing |
| `BTreeStore.LenCountsExpired` | search-backend/asupersync/benches/timer_wheel.rs:592-594 | the length is that of the live timers plus the expired ones never cancelled |
| `BTreeStore.Drain` | search-backend/asupersync/benches/timer_wheel.rs:582-590 | concatenates the due buckets from the least deadline on |
| `BTreeStore.InOrderCounts` | search-backend/asupersync/benches/timer_wheel.rs:582-590 | that concatenation has as many wakers as there are timers in the buckets |
| `TimerHistory.LiveIffAlive` | search-backend/asupersync/benches/timer_wheel.rs:598-695 | the live timers after any calls, read off the history: number `id` is live with a deadline and waker exactly if the insert number `id` gave it these and no later call cancelled it or collected at its deadline or later |
| `TimerHistory.CallsFromHistory` | search-backend/asupersync/benches/timer_wheel.rs:613-675 | heap and vector number a timer by the inserts before it, and cancel successfully exactly if it is alive in the history |
| `TimerHistory.CollectFromHistory` | search-backend/asupersync/benches/timer_wheel.rs:626-690 | a collect of either store wakes exactly the timers that are alive in the history and due, each once by its own waker; the heap in (deadline, id) order |
| `TimerHistory.CancelTakesTheLast` | search-backend/asupersync/benches/timer_wheel.rs:564-590 | the ordered map fires by deadline, and cancelling the first of two timers with one deadline silences the second |
| `TranscriptParser.ParseLine` | src-tauri/src/transcript_parser.rs:92-232 | the parser's loops and branches produce the event sequence of the record, in block order, blocks without id skipped |
| `TranscriptParser.EventsScoped` | src-tauri/src/transcript_parser.rs:138-230 | sub-agent events, and only they, carry a parent |
| `TranscriptParser.HadToolsOnlyHidesTextIdle` | src-tauri/src/transcript_parser.rs:102-133 | the flag given to the parser can only hide a lone idle hint; every other event depends on the record alone |
| `ParserRoundTrip.AssistantRoundTrip` | src-tauri/src/transcript_parser.rs:102-134 | for all blocks of any kinds, with any other members around them: an assistant record parses to `Active` and the starts of its `tool_use` blocks in order, or, without such, to one idle hint exactly if it holds text and the turn had no tools |
| `ParserRoundTrip.UserRoundTrip` | src-tauri/src/transcript_parser.rs:136-157 | a user record parses to the ends named by `tool_use_id` of its `tool_result` blocks in order, or, without such, to `Active` |
| `ParserRoundTrip.PromptRoundTrip` | src-tauri/src/transcript_parser.rs:157-161 | a user record whose content is text parses to `Active` |
| `ParserRoundTrip.SystemRoundTrip` | src-tauri/src/transcript_parser.rs:163-167 | a system record ends the turn exactly if its subtype is `turn_duration` |
| `ParserRoundTrip.ProgressRoundTrip` | src-tauri/src/transcript_parser.rs:169-226 | a progress record parses to the starts or ends of the message it carries, under the tool named by `parentToolUseID`; shell and server progress, and records without a parent, to nothing |
| `ParserRoundTrip.OthersMeanNothing` | src-tauri/src/transcript_parser.rs:92-100 | records of any other type and undecodable lines parse to nothing |
| `AgentInvariants.SessionInvariant` | src-tauri/src/agent_state.rs:155-275 | after every session: active ids are the keys of active names, sub-agent tables agree per parent, the turn flag holds exactly while a top-level tool is active, a sent permission never coexists with a running permission timer, and the permission traffic is in step with the agent's flag |
| `AgentInvariants.ScanIsSilent` | src-tauri/src/file_watcher.rs:311-325 | the initial scan emits nothing at all, although receiving data emits without looking at the suppression flag |
| `AgentInvariants.PermissionsAlternate` | src-tauri/src/agent_state.rs:277-296 | in every session `permission` and `permission_clear` strictly alternate, starting with `permission` |
| `AgentInvariants.UnbrokenAlternates` | src-tauri/src/agent_state.rs:382-405 | a turnstile that never breaks means strict alternation read off the log |
| `AgentInvariants.ApplyConsistent` | src-tauri/src/agent_state.rs:153-316 | every event keeps the redundant tool tables consistent |
| `AgentInvariants.BatchKeeps` | src-tauri/src/file_watcher.rs:193-229 | a whole batch keeps every invariant, because it passes through the data-received step first |
| `AgentInvariants.TickKeeps` | src-tauri/src/agent_state.rs:319-379 | a timer tick keeps every invariant |
| `QuietPeriod.SignalAfterQuietPeriod` | src-tauri/src/agent_state.rs:319-379 | every `permission` comes at least 7000 ms and every `text_idle` at least 5000 ms after the event that started its timer, with no data for the agent since; `permission` only while a non-exempt tool is tracked |
| `QuietPeriod.LoggedAfterQuietPeriod` | src-tauri/src/agent_state.rs:319-379 | every `permission` and `text_idle` in the emitted log was put there by one timer tick, after its quiet period |
| `QuietPeriod.LogCountsSteps` | src-tauri/src/agent_state.rs:319-379 | the log holds exactly one such signal per signalling tick, after every prefix of a session |
| `QuietPeriod.SignalsHaveOwnStart` | src-tauri/src/agent_state.rs:186-189 | one timer start yields at most one signal |
| `QuietPeriod.TimerOrigin` | src-tauri/src/agent_state.rs:382-386 | a running timer was started by one step, with neither data nor its signal since |
| `TimerSignals.LiveSignalsIff` | src-tauri/src/agent_state.rs:319-379 | in every session whose last data came after the scan: a tick asks for permission exactly if that data last started a non-exempt tool at `t`, it comes at `t + 7000` or later, no tick since reached that, and a non-exempt tool is open, at top level or under a Task; it reports idleness exactly if no tool was open before, the data ends in a text-only line at `t`, it comes at `t + 5000` or later, and no tick since reached that |
| `TimerSignals.ScanSignalsIff` | src-tauri/src/file_watcher.rs:212-229 | the same when the last data came in the initial scan |
| `TimerSignals.NoDataNoSignal` | src-tauri/src/agent_state.rs:319-379 | without any data no tick ever signals |
| `TimerSignals.AwaitsIff` | src-tauri/src/agent_state.rs:326-345 | the tick's look into the tables answers whether the history leaves a tool open that is neither `Task` nor `AskUserQuestion`, under its latest name, at top level or under a parent |
| `TimerSignals.NamesFromHistory` | src-tauri/src/agent_state.rs:155-189 | the name table holds exactly the open top-level tools with the name each was last started under |
| `TimerSignals.SubNamesFromHistory` | src-tauri/src/agent_state.rs:155-240 | the sub-agent name table, likewise per parent |
| `TimerSignals.BatchPermission` | src-tauri/src/agent_state.rs:185-189 | after a read the permission timer runs from the time of its last non-exempt start not followed by a turn end, and not at all without one |
| `Tracking.TrackingIsTranscriptFold` | src-tauri/src/file_watcher.rs:212-229 | tool tracking after any session is the fold of the delivered events on a still clock |
| `Tracking.BatchingIsInvisible` | src-tauri/src/file_watcher.rs:212-217 | two sessions that deliver the same events track the same tools, however lines were batched and whenever timers ticked |
| `LogMirror.LogMirrorsTranscript` | src-tauri/src/agent_state.rs:153-316 | apart from the timers' signals, the log of every session is one announcement of the agent, if the scan found anything, and then one signal per event delivered since, in order: nothing lost, nothing added |
| `LogMirror.ReadSignals` | src-tauri/src/agent_state.rs:382-406 | the signals one read causes, in full: a pending permission request is withdrawn first, then its events are announced in order |
| `Simulation.FrontendSimulatesBackend` | src/hooks/useAgentEvents.ts:132-217 | for transcripts where each id starts once and finishes where it started: the frontend's set is exactly the tools started after the scan that the backend tracks at either level or that are sub-agent tools whose Task finished first |
| `Simulation.EmptyAfterTurnEnd` | src/hooks/useAgentEvents.ts:207-217 | right after a turn end both sides are empty |
| `Simulation.ShownIsFold` | src/hooks/useAgentEvents.ts:132-217 | what the frontend shows is a fold of the events delivered after the scan |
| `Simulation.ActiveIffOpen` | src-tauri/src/agent_state.rs:155-246 | a tool is active in the backend exactly if the history started it at top level and neither finished it nor ended the turn since |
| `Simulation.SubIffOpen` | src-tauri/src/agent_state.rs:203-246 | a sub-agent tool is tracked exactly if the history started it under that parent and neither it, nor its Task, nor the turn ended since |
| `Simulation.FrontIffShown` | src/hooks/useAgentEvents.ts:132-217 | an id is in the frontend's set exactly if it was started and not finished, at any level, since the last turn end |
| `IdleHints.BusyIdleLiveIff` | src-tauri/src/file_watcher.rs:212-229 | in every session whose last data came after the scan, the idle timer runs beside an active tool exactly if the last batch found no open tool, ends in an unreset text line and leaves a tool open, and no tick since came 5000 ms after that line |
| `IdleHints.BusyIdleScanIff` | src-tauri/src/file_watcher.rs:311-325 | the same when the last data came during the scan |
| `IdleHints.NoDataNeverIdle` | src-tauri/src/agent_state.rs:310-314 | without data it never does |
| `IdleHints.BusyIdleIff` | src-tauri/src/file_watcher.rs:212-229 | after one batch the idle timer runs beside an active tool exactly if no tool was active before it, it ends in an unreset text line and it leaves a tool open |
| `IdleHints.OneLineReadsNeverIdleBusy` | src-tauri/src/file_watcher.rs:212-229 | if every read delivers one line, a running idle timer means no top-level tool is active |
| `IdleHints.TwoLineReadIdlesBusyAgent` | src-tauri/src/transcript_parser.rs:102-133 | with two lines in one read an agent with a running tool is reported idle five seconds later |
| `StateManager.AgentStateManager.ProcessEvent` | src-tauri/src/agent_state.rs:153-316 | changes the view of its own agent as the machine does and leaves every other agent's view alone |
| `StateManager.AgentStateManager.ProcessEvents` | src-tauri/src/agent_state.rs:145-151 | the events of one line, in order |
| `StateManager.AgentStateManager.React` | src-tauri/src/agent_state.rs:153-316 | the new agent and the emitted signals of one event |
| `StateManager.AgentStateManager.AddTool` | src-tauri/src/agent_state.rs:155-184 | a start updates either the top-level or the parent's tables |
| `StateManager.AgentStateManager.RemoveTool` | src-tauri/src/agent_state.rs:203-233 | a finish updates the same tables; finishing a Task drops its sub-agent tables |
| `StateManager.AgentStateManager.OnDataReceived` | src-tauri/src/agent_state.rs:382-406 | cancels both timers and withdraws a sent permission even while suppressed; other agents untouched |
| `StateManager.AgentStateManager.TickTimers` | src-tauri/src/agent_state.rs:319-379 | the loop over all agents ticks each exactly once and emits each agent's signals |
| `StateManager.AgentStateManager.TickAgent` | src-tauri/src/agent_state.rs:323-373 | the two timer checks of one agent |
| `StateManager.AgentStateManager.Emit` | src-tauri/src/agent_state.rs:118-126 | emits all entries in order, or nothing while suppressed |
| `StateManager.AgentStateManager.EndScan` | src-tauri/src/agent_state.rs:129-142 | lifts suppression and announces every known agent exactly once |
| `Tailer.TailingIsSplitting` | src-tauri/src/file_watcher.rs:132-175 | for every file that only grows and every schedule of reads (late, failed, repeated): the concatenated lines are the trimmed non-empty lines of the consumed text up to its last newline, and the buffer is exactly the remainder |
| `Tailer.LinesAppend` | src-tauri/src/file_watcher.rs:165-172 | cutting the text anywhere and carrying the unfinished line over gives the same lines and the same rest |
| `Tailer.SplitJoin` | src-tauri/src/file_watcher.rs:167-172 | splitting at newlines loses nothing but the newlines |
| `Tailer.ReadNewLines` | src-tauri/src/file_watcher.rs:132-175 | one read returns the new complete lines and advances offset and buffer; any failure returns nothing and changes nothing |
| `TailerLines.WrittenLinesRead` | src-tauri/src/file_watcher.rs:132-175 | lines written one by one to a growing file: once some read has seen all of it, the reads have returned every finished line, trimmed and without blank ones, once and in order, and the unfinished one waits |
| `TailerLines.ReadsAsFarAsItCan` | src-tauri/src/file_watcher.rs:132-175 | whatever the schedule, the position is the length of the longest successful read |
| `TailerLines.TrimExact` | src-tauri/src/file_watcher.rs:132-175 | trimming takes white space, and all of it, off both ends and nothing else |
| `TailerLines.BlankDropped` | src-tauri/src/file_watcher.rs:132-175 | a line of nothing but white space is dropped, any other is kept, trimmed |
| `Watcher.WatcherState.ProcessFile` | src-tauri/src/file_watcher.rs:234-278 | one read of one file: position advanced, lines delivered to the agent named by the file, every agent's view still the one its own history gives |
| `Watcher.WatcherState.Accept` | src-tauri/src/file_watcher.rs:193-229 | delivering a batch appends it to the history and keeps every agent's view equal to the session machine's |
| `Watcher.WatcherState.EndScan` | src-tauri/src/file_watcher.rs:321-325 | ends the suppressed phase for every agent |
| `Watcher.WatcherState.Tick` | src-tauri/src/file_watcher.rs:389-401 | a timer tick is one step of every agent's session |
| `Watcher.WatcherState.Sound` | src-tauri/src/file_watcher.rs:298-325 | so every invariant and the alternation hold of the live watcher, for every agent |
| `Pipeline.EventsOfFile` | src-tauri/src/file_watcher.rs:132-229 | after every run of reads of any files and of timer ticks, an agent with one growing file has received exactly the events of the complete lines consumed so far, and the buffer is the rest |
| `Pipeline.TrackingOfFile` | src-tauri/src/file_watcher.rs:132-229 | the tools tracked for an agent are a fold over the consumed text of its file |
| `Pipeline.FileToScreen` | src/hooks/useAgentEvents.ts:132-217 | from file to screen: if the text uses each id once and finishes it where it started, the frontend shows exactly the tools that started after the scan and that the text leaves open or orphans by finishing their Task first |
| `Pipeline.Watch` | src-tauri/src/file_watcher.rs:283-401 | a watcher object run through any accesses and a frontend object fed with its log hold exactly those states |
| `Watcher.Deliver` | src-tauri/src/file_watcher.rs:205-229 | the flag is sampled once before the batch, data reception comes first, then each line in order |
| `Watcher.DigestFaithful` | src-tauri/src/transcript_parser.rs:92-232 | splitting a record's events into settled ones and an idle hint loses nothing |
| `Watcher.DigestWellFormed` | src-tauri/src/transcript_parser.rs:92-232 | parsed lines satisfy what the session theorems ask of lines |
| `Frontend.AgentEvents.Handle` | src/hooks/useAgentEvents.ts:112-287 | one event updates only its agent's tool set; numeric ids are never shared |
| `Frontend.AgentEvents.UpdateTools` | src/hooks/useAgentEvents.ts:132-217 | the set of one numeric id follows the signal, every other set stays |
| `Frontend.AgentEvents.HandleAll` | src/hooks/useAgentEvents.ts:112-287 | for every interleaved stream each agent's set is a function of its own signals |
| `Frontend.AgentEvents.NumericId` | src/hooks/useAgentEvents.ts:36-43 | a numeric id is kept once given and never shared, and giving one out changes no tool set |
| `Frontend.AgentEvents.ClearAll` | src/hooks/useAgentEvents.ts:45-50 | ids, counter and tool sets are back at their start |
| `Frontend.DisplayFollowsSetIff` | src/hooks/useAgentEvents.ts:132-217 | the displayed pending tools equal the active set throughout a stream exactly if no id is started again after finishing within its turn |
| `Frontend.RestartLeavesListBehind` | src/hooks/useAgentEvents.ts:132-217 | starting, finishing and starting one id again leaves it active but displayed as done |
| `Frontend.ListAndSetFromHistory` | src/hooks/useAgentEvents.ts:132-217 | which tools are listed and which are active, read off the history |
| `Frontend.WaitsIff` | src/hooks/useAgentEvents.ts:254-287 | a tool is displayed as waiting for permission exactly if a request came while it was pending, and since then neither was it withdrawn nor the turn ended |
| `Sessions.OneLiveSessionIff` | src-tauri/src/file_watcher.rs:283-305 | over every interleaving, at most one cancel flag is unset and it is the stored one, exactly as long as between any two publications of a flag there was a cancellation |
| `Sessions.CallsInTurn` | src-tauri/src/file_watcher.rs:283-305 | start and stop calls made one after the other, with the loops running in between at will, always satisfy that |
| `Sessions.StopSavesOverlap` | src-tauri/src/file_watcher.rs:283-305 | two overlapping starts with a stop between their publications leak nothing |
| `Sessions.OrphanStaysLive` | src-tauri/src/file_watcher.rs:30-35 | an unset flag that is not stored can never be set again |
| `Sessions.OverlapLeaksSession` | src-tauri/src/file_watcher.rs:287-305 | two overlapping starts leave a session running forever, whatever follows |
| `Sessions.WindsDown` | src-tauri/src/file_watcher.rs:370-401 | after a session's flag is set, the exact state of each loop after any number of its own steps |
| `Sessions.AtMostOneMoreBody` | src-tauri/src/file_watcher.rs:337-401 | after the flag is set a loop runs its body once more exactly if it was past its last check, and has exited after two steps of its own |
| `Sessions.LiveLoopRuns` | src-tauri/src/file_watcher.rs:370-401 | while its session is not cancelled a launched loop neither exits nor stalls: three of its own steps are one body, two for the callback, whatever else happens |
| `Sessions.BodiesSinceLaunch` | src-tauri/src/file_watcher.rs:370-401 | counted from its launch |
| `Sessions.CancelStore.StopWatching` | src-tauri/src/file_watcher.rs:30-35 | takes the stored flag and sets it, and no other |
| `Sessions.CancelStore.StartWatching` | src-tauri/src/file_watcher.rs:283-305 | cancels first, publishes a fresh flag only if the directory was found, keeps it published if the file watcher fails |
| `Scanner.ExtractFirstJsonObject` | src-tauri/src/commands.rs:145-191 | returns the text from the first unquoted opening brace to the first later place where the depth is back at zero, and nothing exactly if there is no such place |
| `Scanner.ResultBalancedIff` | src-tauri/src/commands.rs:172-187 | the result is the shortest balanced object from that brace exactly if no unquoted closing brace precedes the first opening one; otherwise it has more opening than closing braces |
| `Scanner.FoundIff` | src-tauri/src/commands.rs:145-191 | if no unquoted closing brace precedes the first opening one, something is returned exactly if a balanced object starts there, and then it is that object |
| `Scanner.StrayCloseHides` | src-tauri/src/commands.rs:180-187 | a stray closing brace in front can also make a balanced object go unnoticed |
| `Scanner.StrayCloseMisleads` | src-tauri/src/commands.rs:180-187 | a stray closing brace in front can make an unbalanced text the result |
| `Scanner.BalancedObjectFound` | src-tauri/src/commands.rs:145-191 | any balanced object after a prefix without unquoted braces and before any suffix is extracted exactly |
| `Scanner.JsonObjectFound` | src-tauri/src/commands.rs:145-191 | every JSON object of RFC 8259, with any white space and string escapes, is extracted whole after any text without quotes or braces and before any text |
| `Scanner.PrintNeutral` | src-tauri/src/commands.rs:151-188 | every JSON value is neutral for the scanner: it ends outside strings at the depth it started with and never dips below |
| `Scenario.CompiledEqualsDirect` | search-backend/asupersync/examples/demo_benchmark.rs:152-309 | for any random stream and task count, if the direct run meets no refusal and its two regions differ, interpreting the extracted elements issues exactly its operations, in order |
| `ScenarioResolution.ResolvedBeforeCancel` | search-backend/asupersync/examples/demo_benchmark.rs:270-309 | on every element list the commits and aborts are exactly those of the non-late obligations tracked at the first cancellation, in order, and precede every cancel request |
| `ScenarioResolution.AllResolvedIff` | search-backend/asupersync/examples/demo_benchmark.rs:211-309 | with a given runtime, all non-late obligations are resolved exactly if it grants none that an element asks for after a cancellation |
| `ScenarioResolution.EveryRuntimeResolvesIff` | search-backend/asupersync/examples/demo_benchmark.rs:211-309 | every runtime, whatever it refuses, sees all non-late obligations resolved exactly if the element list has none after a cancellation whose task and region earlier elements can create |
| `ScenarioResolution.LateRequestIsForgotten` | search-backend/asupersync/examples/demo_benchmark.rs:270-288 | region, task, cancellation, obligation: the obligation is never resolved |
| `ScenarioResolution.PartsResolveAll` | search-backend/asupersync/examples/demo_benchmark.rs:152-309 | every order-preserving part of every extracted scenario resolves all its non-late obligations, before any cancel request |
| `ScenarioResolution.EachResolvedOnce` | search-backend/asupersync/examples/demo_benchmark.rs:296-309 | with distinct obligation ids each is resolved exactly once, late ones never |
| `ScenarioResolution.CompiledShape` | search-backend/asupersync/examples/demo_benchmark.rs:190-204 | no obligation is created after the cancellation of an extracted scenario |
| `ScenarioOutcome.ResolvedAsAsked` | search-backend/asupersync/examples/demo_benchmark.rs:296-309 | with distinct ids, in every part of a compiled scenario: the k-th obligation carries the id the runtime answered to the element that asked for it, and is committed, or aborted, exactly if that element said so and was not late |
| `ScenarioOutcome.AskedIffGranted` | search-backend/asupersync/examples/demo_benchmark.rs:253-269 | the elements that got an obligation are exactly those whose task and region were there and that the runtime did not refuse |
| `ScenarioOutcome.CompiledForm` | search-backend/asupersync/examples/demo_benchmark.rs:152-205 | every compiled list read off the random stream: which draw decides each lane, each number of obligations, each commit (below 60 of 100), each lateness (0 of 10,000), each move of the clock (below 50 and 30 of 100), with every third task in the second region |
| `ScenarioOutcome.RunInFull` | search-backend/asupersync/examples/demo_benchmark.rs:211-294 | one element list of every kind, and the operations it issues written out |
| `ScenarioRunner.ExtractElements` | search-backend/asupersync/examples/demo_benchmark.rs:152-205 | the extracting loops push exactly the compiled list, drawing from the generator in the same order |
| `ScenarioRunner.CheckForLeak` | search-backend/asupersync/examples/demo_benchmark.rs:211-294 | the interpreter loop with its maps and flag issues the interpreted operations |
| `ScenarioRunner.ReplayScenario` | search-backend/asupersync/examples/demo_benchmark.rs:340-398 | the direct run issues the specified operations, drawing a lane only after a task and a lateness only after an obligation was created; gives up where a region cannot be created |
| `ScenarioRunner.ResolveObligations` | search-backend/asupersync/examples/demo_benchmark.rs:296-309 | commits or aborts each non-late obligation, in order |
| `ScenarioRunner.RunTask` | search-backend/asupersync/examples/demo_benchmark.rs:355-379 | one task of the direct run |
| `Quoting.LiteralRoundTrip` | src/services/resume.ts:39-41 | decoding the escaped AppleScript literal gives back the text, whatever follows |
| `Quoting.LaunchReadsWorkspace` | src/services/resume.ts:43-45 | by POSIX quoting rules the shell reads the words `cd`, `--` and the workspace, then `&&`, whatever the workspace contains, and goes on with the command as at the start of a line |
| `Quoting.ReadQuoted` | src/services/resume.ts:43-45 | a quoted value is one word with exactly that value |
| `Quoting.BuildAppleScript` | src/services/resume.ts:105-116 | no command gives no script; otherwise the typed literal decodes to the launch command and closes exactly before the last line |
| `Colour.ConversionRoundTrip` | src/office/colorize.ts:113-125 | over exact reals, converting to hue, saturation and lightness and back is the identity on all colours, and the converted values are in range |
| `Colour.ChannelsInRange` | src/office/colorize.ts:87-106 | for hue in [0, 360] and saturation and lightness in [0, 1] every channel is within range before clamping |
| `Colour.AgreesWithCss` | src/office/colorize.ts:87-106 | the conversion equals the algorithm of section 4.2.4 of CSS Color Module Level 3 |
| `Sprites.ZeroShiftIff` | src/office/colorize.ts:135-179 | adjusting with all sliders at zero leaves a sprite unchanged exactly if its pixels are transparent or upper-case |
| `Sprites.ZeroShiftPixel` | src/office/colorize.ts:142-174 | with all sliders at zero a pixel comes back in upper case |
| `Sprites.PixelRoundTrip` | src/office/colorize.ts:147-149 | reading the channels and printing them gives the pixel in upper case |
| `Sprites.TurnWraps` | src/office/colorize.ts:153-153 | the turned hue is on the wheel and differs from the sum by whole turns |
| `Sprites.HuePeriodic` | src/office/colorize.ts:152-153 | turning the hue slider by whole turns changes no pixel |
| `Sprites.AdjustedOk` | src/office/colorize.ts:135-179 | an adjusted pixel is well formed and upper-case and its clamp was idle, for all slider values |
| `Sprites.ColorizedOk` | src/office/colorize.ts:42-84 | the same for colouring over its slider ranges |
| `Sprites.GreyStays` | src/office/colorize.ts:54-78 | colouring without saturation, contrast and brightness leaves every grey pixel as it is, whatever the hue |
| `ColourSliders.InverseRoundTrip` | src/office/colorize.ts:87-129 | hue, saturation and lightness can be read back from the channels they give, for every colour that has them |
| `ColourSliders.SpreadAndMiddle` | src/office/colorize.ts:87-103 | lightness is the middle of the brightest and the darkest channel, saturation the share of the possible spread |
| `ColourSliders.SlidersAct` | src/office/colorize.ts:152-173 | each slider acts on its own coordinate: hue modulo whole turns, saturation by hundredths, lightness scaled about one half and raised by half-hundredths, the last two limited |
| `ColourSliders.AdjustedReadsBack` | src/office/colorize.ts:135-179 | an adjusted pixel, before rounding, is the colour with the shifted coordinates, which can be read back from its channels |
| `ColourSliders.SpreadFollowsSlider` | src/office/colorize.ts:156-156 | the spread of the channels never narrows as the saturation slider is raised, and grows by (1 - |2l - 1|) / 100 per unit while the slider is not at its stop |
| `ColourSliders.BrightnessLightens` | src/office/colorize.ts:158-171 | the lightness never falls as the brightness slider is raised |
| `ColourSliders.Desaturates` | src/office/colorize.ts:156-156 | saturation at -100 turns every pixel into the grey of its own lightness |
| `ColourSliders.SaturatesFully` | src/office/colorize.ts:156-156 | saturation at 100 leaves the darkest channel at 0 or the brightest at 1 |
| `ColourSliders.BrightnessEnds` | src/office/colorize.ts:165-171 | brightness at 200 makes every pixel white, at -200 black |
| `ColourSliders.ContrastFlattens` | src/office/colorize.ts:159-163 | contrast at -100 brings every lightness to one half |
| `ColourSliders.ThirdTurnRotates` | src/office/colorize.ts:153-153 | a hue turn of 120 passes red, green and blue on, exactly, on every pixel |
| `ColourSliders.PureColours` | src/office/colorize.ts:59-59 | colouring with all sliders at zero turns pure red, green and blue into `#4C4C4C`, `#969696` and `#1D1D1D` |
| `ColourSliders.LuminanceAdds` | src/office/colorize.ts:59-59 | the luminance of a pixel is the sum of those of its three channels alone |
| `ColourSliders.ColouredReadsBack` | src/office/colorize.ts:42-84 | the hue and saturation sliders and the shaded luminance can be read back from a coloured pixel before rounding |
| `ColourSliders.RoundsToNearest` | src/office/colorize.ts:101-103 | channels are rounded to the nearest level, halves up |
| `Sprites.AdjustSprite` | src/office/colorize.ts:135-179 | the nested loops keep the shape and replace every pixel by its adjusted one |
| `Sprites.ColorizeSprite` | src/office/colorize.ts:42-84 | the nested loops keep the shape and replace every pixel by its coloured one |
| `SpriteKeys.KeyInjective` | src/office/floorTiles.ts:63-63 | hyphen-joined decimal keys are injective, negative values included |
| `SpriteKeys.DecimalThenHyphen` | src/office/wallTiles.ts:83-83 | a decimal number in front of a hyphen can be read off uniquely although it may start with one |
| `SpriteKeys.KindsDiffer` | src/office/layout/layoutSerializer.ts:73-73 | floor, wall and furniture keys never collide |
| `SpriteCache.CacheCoherent` | src/office/colorize.ts:19-30 | in every run that loads walls at most once, whatever else is loaded and shown, each cached floor or wall sprite equals recomputing it from the current base sprites |
| `SpriteCache.CoherentIff` | src/office/wallTiles.ts:20-22 | after every run, whatever is loaded and shown and however often, the cache is right exactly if no wall first shown since the last floor load is one that the walls loaded last lack or recolour differently |
| `SpriteCache.CacheFromHistory` | src/office/colorize.ts:19-30 | which wall sprites are cached, and from which base sprites they were made, read off the history |
| `SpriteCache.FloorsAlwaysCoherent` | src/office/floorTiles.ts:26-29 | floor entries are right in every run |
| `SpriteCache.FloorFromHistory` | src/office/floorTiles.ts:33-74 | patterns count from 1 into the floors loaded last; without floors every pattern is a 32 by 32 grey tile, and any other pattern the error tile, whatever was cached in between |
| `SpriteCache.WallFromHistory` | src/office/wallTiles.ts:20-87 | with walls loaded once, the mask counts from 0 into them, and a mask beyond them shows nothing |
| `SpriteStore.ColourDrivesSliders` | src/office/colorize.ts:135-137 | the four numbers of a colour reach the sliders they are named after |
| `SpriteCache.SecondLoadIsStale` | src/office/wallTiles.ts:20-22 | a second load after a lookup shows the old wall whenever the two recolour differently |
| `SpriteStore.Office.GetColorizedSprite` | src/office/colorize.ts:19-25 | returns the cached sprite or computes and stores it |
| `SpriteStore.Office.GetColorizedFloorSprite` | src/office/floorTiles.ts:62-74 | keeps a coherent cache coherent and shows the recomputed sprite; an unknown pattern shows the error tile |
| `SpriteStore.Office.GetColorizedWallSprite` | src/office/wallTiles.ts:62-87 | the same for walls, with the neighbour mask and the anchor offset; nothing if walls are not loaded |
| `SpriteStore.Office.WallSpriteFor` | src/office/wallTiles.ts:78-87 | for a mask: the cached or recoloured sprite, anchored at the bottom of its 32-pixel tile, or nothing |
| `SpriteStore.Office.SetFloorSprites` | src/office/floorTiles.ts:26-29 | replaces the floors and clears the whole cache |
| `SpriteStore.Office.SetWallSprites` | src/office/wallTiles.ts:20-22 | replaces the walls and leaves the cache alone |
| `SpriteStore.WallMask` | src/office/wallTiles.ts:73-78 | each bit of the mask is one neighbour; out of bounds is no wall |

## Left out

- Memory ordering: atomic loads and stores are single steps seen by all threads in one order.
- Wakers and fairness in the channel: a blocked sender or receiver may step whenever its condition holds.
- `send_evict_oldest` and weak senders of the channel: the actor does not use them.
- The supervisor's restart policy and a factory that panics: decisions are arbitrary, the factory always succeeds.
- The cancellation mask of a context: cancellation is visible as soon as it is requested.
- `TimerWheel`, the scheduler, the laboratory runtime and tracing: only what their callers rely on; runtime ids come from an arbitrary function of the operation history.
- The heap's array layout: the priority queue is a set of (deadline, id) pairs read only at its least element.
- Overflow checks: where they are on, `now + 1` at the last clock value panics in the ordered map; the model wraps, as it does where they are off.
- Timer ids, agent numeric ids and offsets are unbounded; clock values in the timer stores are 64-bit.
- JSON decoding of transcript lines: an arbitrary function from text to an optional value.
- UTF-8: files are sequences of characters and reads end between characters; the lossy decoding of a character cut by a read is not modelled.
- A truncated or replaced transcript file: files only grow.
- One clock reading per line: the events of one line share it, where the source reads the clock per event.
- Tool status texts, agent types and the text of notifications: they do not influence any state modelled here.
- Directory search, file-system notifications and the parent-directory agent id: a read names its file.
- `is_waiting` and `last_activity` of an agent: written, but read nowhere.
- React state, characters, sounds and rendering in the frontend: only id map, tool sets and the activity list.
- Overflow of the scanner's 32-bit depth counter: depth is unbounded.
- `truncate_chars_head_tail` and `normalize_summary`: one-branch facts.
- The splitmix generator: draws are an arbitrary stream, which includes every seed.
- Trace recording, checksums and the minimiser's search: the model covers every order-preserving part it could try.
- Terminal control characters typed through the script, and shell expansions in the resume command: the command after `&&` is read by the same lexer, which stops at expansions.
- Float rounding: colours are exact reals.
- Pixels that are neither transparent nor `#` with six hexadecimal digits: excluded by the sprite format.
- Non-integer colour values in cache keys, and integers printed in exponent form.
- Furniture cache entries: kept apart from floor and wall entries by their prefix, not proved coherent among themselves.
- `getWallInstances` and `wallColorToHex`: drawing lists and a second copy of the conversion.
