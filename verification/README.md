# Verification of sessions, runs, routing, compaction, truncation, schemas and managers

A Dafny model of the concurrent and data-heavy parts of the repository, with proofs. Every
`.dfy` file is one module and is named after what it models; `dafny verify dfyconfig.toml`
checks all of it.

## How it is modelled

**Concurrent parts are state machines.** A `World` holds the shared fields together with every
goroutine's program counter; a `Step` is one critical section, one channel operation or one
choice of the environment (the agent, the decoder, the clock, a process exit). A run is any
sequence of enabled steps, and the main results hold for all of them. Beside each machine stands
the class itself: its methods change its fields as the program does, and each is proved to be the
machine's step, or the machine left alone until the method returns.

| part | machine and its theorems | the object |
|---|---|---|
| persistent session | `SessionMachine`, `SessionInvariant`, `SessionSafety`, `SessionStreams`, `SessionTurns`, `SessionRequests` | `PersistentSessions` |
| conductor | `ConductorMachine`, `ConductorSafety`, `ConductorDelivery`, `ConductorStream`, `ConductorFate` | `Conductors` |
| execution handle | `HandleMachine`, `HandleSafety` | `Handles` |
| one-shot execution | `ExecutionMachine` | `Executions` |
| session pool | `PoolMachine`, `PoolSafety` | `Pools` |
| quota refresh | `RefreshMachine`, `RefreshSafety` | the machine is the program |

**Sequential parts are methods with loops**, each proved against a specification whose own
properties are then proved: the run loop (`Engines`, `RunLoop`, `Harnesses`, `SessionLogs`,
`CacheBreakpoints`, `DurableConversation` over `Transcripts`), quota compaction (`Compaction`,
`DailyExtremes`, `QuotaCharts`, `QuotaHistory`, `DailyPasses`), truncation (`Bytes`, `Utf8`,
`Truncations`), schemas (`Schemas`, `SchemaFields`, `SchemaGens`, `SchemaValues`) and backups
(`Backups`).

Two conventions recur. What the outside world does to a run is given as a function from a counter
to what happens then (`moves`, `faults`, `gone`), so a theorem for all such functions is a theorem
for all behaviours. And what the proof needs to remember but the program does not (`log`, `sent`,
`asked`, `trace`) is kept as history in the model.

## Where the code does not do what is expected of it

Each of these is a theorem that gives the exact condition, with a concrete case where it fails
(*instance*).

- **A sent turn can be lost by the conductor** (`agentboot/conductor.go:200-210`). It is never given
  an outcome exactly when the first boundary pending at its Send was a `TurnStart` of the agent's
  own (`ConductorFate.LostExactlyWhenStartPending`; instance
  `ConductorDelivery.AgentTurnCanLoseASentTurn`). Once the session is over and its queue drained,
  every turn that was written and not lost has had its outcome
  (`ConductorFate.DrainedMeansAnswered`).
- **A turn can be given another turn's outcome.** The boundary it is given is its own exactly when
  nothing was pending and no completion was owed at the Send, or the session's end was what was
  pending (`ConductorFate.OwnExactlyWhen`; instance `ConductorFate.TurnIsGivenAnothers`).
- **A terminal event outside any turn can close the next one** with an empty result
  (`agentboot/persistent_session.go:262-282`). A result is its own turn's exactly when a turn was
  open as its terminal event was decoded (`SessionTurns.ResultIsItsTurnExactlyWhen`); if none was,
  it closes a turn all the same exactly when a Send was accepted before the completion
  (`SessionTurns.StrayResultStealsExactlyWhen`; instance
  `SessionTurns.ImpoliteAgentClosesTheNextTurn`).
- **An interrupt can be written in a later turn, or in none.** It is decided on under the lock
  exactly while a turn is open (`SessionTurns.InterruptIsDecidedExactlyWhen`), but written after the
  unlock (`agentboot/persistent_session.go:176-188`). It falls in the turn it was meant for exactly
  when that turn has not been finished in between
  (`SessionTurns.InterruptFallsInItsTurnExactlyWhen`; instance
  `SessionTurns.InterruptMayComeTooLate`).
- **Success can be reported as failure**: `Wait` consults the context when it is first called, so a
  run that ended well fails if its deadline passes before anyone waits
  (`agentboot/runner_execute.go:292-320`): `ExecutionMachine.SucceedsExactlyWhen`; instance
  `ExecutionMachine.LateWaitFails`.
- **`Wait` can outlast the process.** It waits for the feeder of the initial input before it cancels
  the context that would stop it (`agentboot/runner_execute.go:288-293`), so while the input stays
  open, the context lives and no write fails, it does not return
  (`ExecutionMachine.WaitIsHeldUpExactlyWhen`, `ExecutionMachine.OpenInputHoldsWaitUp`; instance
  `ExecutionMachine.WaitMayNotReturn`).
- **Compacting daily is not compacting once.** The keep rule absorbs (`Compaction.Absorbs`), but the
  retention cut moves with the clock and usually falls inside a day, whose extremes then differ. It
  is harmless exactly under `QuotaHistory.Aligned` (`QuotaHistory.HarmlessExactlyWhenAligned`;
  instance `QuotaHistory.UnalignedLoses`), and the refresher compacts at the first refresh of a day
  (`ai/quota/refresher.go:121-140`), so ordinarily it is not aligned. After any number of such
  passes only the day that the last one cuts can differ (`DailyPasses.OnlyTheLastCutCanDiffer`).
- **A failed checkpoint can leave the log unusable.** When appends fail whole, what is on disk can
  be replayed exactly when none of the run's checkpoints were written or both its first and its last
  were (`DurableConversation.ReplayableExactlyWhen`; instance
  `DurableConversation.LostCheckpointBreaksTheLog`). After a torn write the next message is read
  back exactly when it still decodes behind the fragment (`SessionLogs.AppendedLine`; instance
  `SessionLogs.TornWriteLosesTheNext`), and an intact log reopens exactly when every line is shorter
  than 16 MiB (`SessionLogs.IntactReopens`; instance `SessionLogs.LongMessageLocksTheLog`).
- **The end of a line longer than the byte cap cannot be read** by following the notice's offset
  (`Truncations.PagesShowItAll`; instance `Truncations.EndOfALongLineIsLost`).
- **`ErrFull` does not mean that everything is running**, as its comment says
  (`agentboot/pool/pool.go:27-31`): a key that is not live is refused exactly when the pool is full
  and no other session was Idle when it was looked at, so sessions that are closing or have ended
  fill the pool as well (`PoolSafety.RefusedExactlyWhenNoneIdle`; instance
  `PoolSafety.EndedSessionsFillThePool`). Reopening an ended key in a full pool evicts another
  session all the same (`PoolSafety.ReopeningShrinksAFullPool`).
- **The pool can close a session in the middle of a turn** (`agentboot/pool/pool.go:80-83` says
  never): it is Idle when closed exactly when it has done nothing since it was looked at, or the
  last thing it did left it Idle (`PoolSafety.ClosedIdleExactlyWhen`; instance
  `PoolSafety.VictimMayBeRunning`).
- **Restoring twice does not always undo**: exactly when it does is
  `Backups.TwoRestoresUndoExactlyWhen`; a clock that went back, or a second restore within the same
  second, prevents it (instance `Backups.SameSecondUndoesNothing`).
- **A struct's last field of a name takes its property**, whether its own or promoted, so an
  embedded struct declared after a field displaces it (`SchemaFields.TheLastFieldPrevails`). The
  comment at `swagger/schema.go:92-94` promises what `encoding/json` emits, where the shallowest
  field it can see wins and a tie goes to a tag or to nobody; the two agree exactly when the last
  field of each name is the one emitted, or is described like it
  (`SchemaFields.MatchesJsonExactlyWhen`). And a name is required twice exactly when two mandatory
  fields share it (`SchemaFields.RequiredExactly`; instance of both
  `SchemaFields.EmbeddedTakesOver`).
- **What is written for a type need not conform to its schema.** The schema of a type admits exactly
  the values that suit the type (`SchemaValues.SchemaAdmitsExactly`), but a nil slice, map or pointer
  is written as null, an unsigned number can exceed int64, and a mandatory field can be left out or
  displaced; what is written conforms exactly when none of that happens
  (`SchemaValues.WrittenSuitsExactlyWhen`; instance `SchemaValues.NilSliceIsRefused`).
- `streamTurn`'s comment speaks of reasoning as a fallback for text (`afk/engine.go:455-458`); the
  code never falls back (`afk/engine.go:522-546`): what is not text can stand anywhere without
  changing a turn's text (`Engines.OtherBlocksSayNothing`).

## Model

| member | source | states |
|---|---|---|
| SessionSafety.LifecycleOnlyAdvances | agentboot/persistent_session.go:218-233 | over every run, nothing leads back from Closing or Terminated |
| SessionSafety.SendsAreSeparated | agentboot/persistent_session.go:129-153 | between two accepted Sends the pump completes a turn, in every interleaving |
| SessionSafety.StreamIsLossless | agentboot/persistent_session.go:286-304 | no event is dropped or sent after the close; a closed stream is what the decoded events stand for and one Ended |
| SessionSafety.QueueIsFifo | agentboot/persistent_session.go:118 | what was read and what is queued is what was sent, in order |
| SessionSafety.ResultsAreBlocks | agentboot/persistent_session.go:262-282 | turn results are disjoint contiguous blocks of the decoder stream ending at their terminal events |
| SessionSafety.EveryEventIsAccountedFor | agentboot/persistent_session.go:310-364 | an event in no result was decoded outside any turn or belongs to the turn still open |
| SessionInvariant.StepKeepsInv | agentboot/persistent_session.go:129-408 | every critical section keeps the invariant the session theorems rest on |
| SessionStreams.StreamSays | agentboot/persistent_session.go:310-408 | in every run, whenever the pump's hands are empty and when the stream is closed: the messages shown are the decoded ones run together in order, the requests shown are those asked, each terminal event has completed a turn with its own error, each turn of the agent's own was announced, and a closed stream says once how it ended |
| SessionStreams.StartComesFirst | agentboot/persistent_session.go:310-335 | a turn of the agent's own is announced before anything of it is shown |
| SessionTurns.ResultIsItsTurnExactlyWhen | agentboot/persistent_session.go:262-282 | in every run a result is the events of its own turn exactly when a turn was open as its terminal event was decoded |
| SessionTurns.StrayResultStealsExactlyWhen | agentboot/persistent_session.go:262-282 | a result of no turn closes one all the same exactly when a Send was accepted before its completion |
| SessionTurns.ResultIsItsTurn | agentboot/persistent_session.go:310-364 | with an agent that only ends open turns every result is its own turn's |
| SessionTurns.ImpoliteAgentClosesTheNextTurn | agentboot/persistent_session.go:262-282 | a run in which a turn just sent is closed with an empty result |
| SessionTurns.InterruptIsDecidedExactlyWhen | agentboot/persistent_session.go:176-188 | an interrupt is decided on exactly while a turn is open that nobody has completed, in a session nobody has closed |
| SessionTurns.InterruptFallsInItsTurnExactlyWhen | agentboot/persistent_session.go:176-217 | written after the unlock, it falls in the turn it was decided for exactly when that turn was not finished in between, and otherwise in none or in a later one |
| SessionTurns.InterruptMayComeTooLate | agentboot/persistent_session.go:176-217 | a run in which it is decided on in the first turn and written when no turn is open |
| SessionSafety.ClosedIsOver | agentboot/persistent_session.go:218-233 | once a Close can return for the stream being closed, the session is terminated and nothing more happens |
| SessionRequests.ShownRequestIsAnswerable | agentboot/persistent_session.go:155-174 | with distinct ids an unanswered request that was shown is answered with its own input until termination |
| SessionRequests.RepliesAreUniqueAndFaithful | agentboot/persistent_session.go:155-174 | each request is answered at most once, with the input it came with |
| PersistentSessions.UndisturbedStream | agentboot/persistent_session.go:310-408 | the loop alone leaves the channel closed with every event rendered and one Ended |
| PersistentSessions.PersistentSession.constructor | agentboot/runner_open.go:102-115 | a session opens with its first turn in flight |
| PersistentSessions.PersistentSession.Send | agentboot/persistent_session.go:129-153 | accepts only an idle session, which it makes running with an empty turn, and leaves running when the write fails |
| PersistentSessions.PersistentSession.Respond | agentboot/persistent_session.go:155-174 | uses up a pending request and answers with its stored input, unless the reply cannot be encoded or written, or refuses |
| PersistentSessions.PersistentSession.BeginClose | agentboot/persistent_session.go:218-226 | closing is entered from any state but the last, and the process is being stopped |
| PersistentSessions.PersistentSession.AwaitClosed | agentboot/persistent_session.go:227-233 | Close succeeds only on a closed stream and gives up only on an ended context |
| PersistentSessions.PersistentSession.Shutdown | agentboot/persistent_session.go:239-257 | stopping the process is started at most once |
| PersistentSessions.PersistentSession.CompleteTurn | agentboot/persistent_session.go:262-282 | hands over the turn's events and goes idle unless closing |
| PersistentSessions.PersistentSession.HandleEvent | agentboot/persistent_session.go:310-364 | one loop iteration is the machine run until nothing is left to do, and shows what the event calls for: its messages, its request, its turn's end with its error, the start of a turn of the agent's own, and nothing else |
| PersistentSessions.PersistentSession.Terminate | agentboot/persistent_session.go:372-408 | terminates, emits Ended, closes the stream, then cancels the context |
| PersistentSessions.PersistentSession.PumpLoop | agentboot/persistent_session.go:310-364 | the whole loop is the machine's pump without interference, and shows what the decoded events say and then one end |
| ConductorSafety.AtMostOneOutcome | agentboot/conductor.go:242-256 | in every interleaving a turn is given at most one outcome and the reader's send never blocks |
| ConductorSafety.OnlyWhoAskedIsTold | agentboot/conductor.go:200-256 | in every run an outcome goes only to a RunTurn or Await that found the slot empty, never to a turn of the agent's own |
| ConductorSafety.OwnComesFirstStep | agentboot/conductor.go:157-229 | every step keeps a sent turn's own boundary the first one after its Send |
| ConductorDelivery.FreshExactlyWhenClean | agentboot/conductor.go:99-119 | the turn still holds the slot at the first boundary acted on, which was made after the Send exactly when none was pending |
| ConductorDelivery.CleanTurnGetsItsOwnBoundary | agentboot/conductor.go:157-229 | with nothing pending that boundary is the turn's own completion or the session's end |
| ConductorDelivery.AwaitGetsTheFirstTurn | agentboot/conductor.go:82-92 | an Await before any boundary was acted on is given the first turn's |
| ConductorDelivery.FirstBoundaryDecides | agentboot/conductor.go:200-229 | the first boundary decides for ever which outcome the turn gets, or that it gets none |
| ConductorFate.LostExactlyWhenStartPending | agentboot/conductor.go:200-229 | a sent turn never gets an outcome exactly when the first boundary pending at its Send was the start of a turn of the agent's |
| ConductorFate.OwnExactlyWhen | agentboot/conductor.go:157-229 | a turn is given its own boundary exactly when nothing was pending or owed at its Send, or the session's end was |
| ConductorFate.PoliteOwnExactlyWhen | agentboot/conductor.go:157-229 | with an agent that only ends open turns nothing is ever owed |
| ConductorFate.DrainedMeansAnswered | agentboot/conductor.go:157-229 | when the session is over and the queue drained, every written turn has had exactly one outcome unless a start of the agent's own lost it |
| ConductorFate.TurnIsGivenAnothers | agentboot/conductor.go:212-229 | a run in which a turn is given the result of the one before it |
| ConductorDelivery.AtRestIsReachable | agentboot/conductor.go:82-92 | awaiting the first turn and collecting its result leads to rest |
| ConductorDelivery.AgentTurnCanLoseASentTurn | agentboot/conductor.go:200-210 | from any state at rest an agent-started turn can make a sent turn lose its outcome |
| Conductors.Conductor.Await | agentboot/conductor.go:82-92 | takes the slot or refuses, as one move |
| Conductors.Conductor.RunTurn | agentboot/conductor.go:99-119 | registers before sending and unregisters when the send fails |
| Conductors.Conductor.Finish | agentboot/conductor.go:242-256 | empties the slot, then tells its turn |
| Conductors.Conductor.Handle | agentboot/conductor.go:157-229 | acts on one event as the machine does |
| Conductors.Conductor.Read | agentboot/conductor.go:157-229 | reading to the end of the queue is the machine's reader alone |
| Engines.ResultsAnswer | afk/engine.go:576-593 | tool results answer the calls of the message, same ids in the same order, and say nothing else |
| Engines.DispatchTools | afk/engine.go:576-629 | one result per call, in order, each with that call's own output, error or unknown name |
| Engines.ResultsReport | afk/engine.go:576-629 | each result holds its own call's output whether or not it failed, a failure without output its error, and an unknown tool its name |
| Engines.OneCallOneBlock | afk/engine.go:576-629 | another outcome of one call changes that call's result, if it can be told apart, and no other |
| Engines.Step | afk/engine.go:398-437 | a step adds the reply and, if it called tools, one user message with what each call came to, gives the text of the transcript, and reports a compaction |
| Engines.TextIsTheTranscripts | afk/engine.go:522-546 | a turn's text is the texts its transcript shows, run together |
| Engines.OtherBlocksSayNothing | afk/engine.go:522-546 | reasoning, tool calls and other blocks can be put in or taken out anywhere without changing it |
| RunLoop.EndFacts | afk/harness.go:182-259 | what stopped a run: cancellation, model failure, a final answer or the budget, and that every earlier step went on |
| RunLoop.RunIsReplayable | afk/harness.go:149-275 | however a run ends, a replayable history stays replayable |
| RunLoop.ConversationIsReplayable | afk/harness.go:149-275 | so over any number of runs |
| RunLoop.SteeringIsInTheTranscript | afk/harness.go:195-246 | what the user says after the prompt is the delivered steering, once each and in order, and an answered run ends with the model |
| Harnesses.ResultTells | afk/harness.go:195-275 | read back from the messages a run produced: its final text is that of the last reply with any, its steps are the replies, its compactions the replies that carry one, and a run cut short ends with the note |
| Harnesses.InjectSteering | afk/harness.go:113-132 | steering joins a trailing user turn or follows as a new one |
| Harnesses.AllKept | afk/harness.go:281-291 | when nothing fails the log gains every message |
| Harnesses.WholeFailures | afk/harness.go:281-291 | when appends fail whole the log gains the checkpoints that did not |
| Harnesses.Harness.Steer | afk/harness.go:72-83 | accepts a non-empty text only while a run is active |
| Harnesses.Harness.DrainSteering | afk/harness.go:86-92 | returns and empties the queue |
| Harnesses.Harness.SetRunning | afk/harness.go:97-104 | ending a run drops what is queued |
| Harnesses.Harness.Checkpoint | afk/harness.go:281-291 | appends what is pending, and carries on when that fails |
| Harnesses.Harness.CloseRun | afk/harness.go:264-275 | adds the note after a user turn and flushes |
| Harnesses.Harness.RunStep | afk/harness.go:189-222 | steering is merged before anything is recorded |
| Harnesses.Harness.Run | afk/harness.go:149-260 | the result, the log, the checkpoints and the steering of a whole run, for all moves and all write failures, and the result tells what its messages do |
| SessionLogs.AppendedLine | afk/session/session.go:144-169 | a line is read back exactly when it still decodes behind the fragment the file ends with |
| SessionLogs.AppendedLines | afk/session/session.go:144-169 | lines appended to a complete file are read back as written |
| SessionLogs.MessagesConcat | afk/session/session.go:101-109 | the messages of a log are those it had and those appended |
| SessionLogs.Session.Open | afk/session/session.go:60-98 | reads every readable line, or fails on one too long for the scanner |
| SessionLogs.Session.Messages | afk/session/session.go:101-109 | exactly the entries that carry a message, in order |
| SessionLogs.Session.Len | afk/session/session.go:114-122 | their number |
| SessionLogs.Session.Append | afk/session/session.go:128-169 | a failed write keeps what came before it, in file and memory alike, with at most a part of the line that failed, and an untorn log stays intact |
| SessionLogs.IntactReopens | afk/session/session.go:60-98 | an intact log reopens to its entries exactly when every line fits the scanner |
| SessionLogs.LongMessageLocksTheLog | afk/session/session.go:60-98 | once a message too long for the scanner is appended the log cannot be opened |
| SessionLogs.TornWriteLosesTheNext | afk/session/session.go:144-169 | after a torn write the next message is lost on reopening too |
| DurableConversation.ReplayableExactlyWhen | afk/harness.go:264-291 | with whole-append failures the log is replayable exactly when no checkpoint or both the first and the last were written |
| DurableConversation.LostCheckpointBreaksTheLog | afk/harness.go:281-291 | a run of two checkpoints whose log is unusable when either is lost |
| DurableConversation.PiecesShape | afk/harness.go:160-222 | what the checkpoints of a run are |
| DurableConversation.KeptIsSurviving | afk/harness.go:281-291 | such a log holds what survives of the checkpoints |
| DurableConversation.Converse | afk/harness.go:149-260 | over any number of recorded runs the log is the whole conversation, and reopening gives it back |
| CacheBreakpoints.RequestCarriesOne | afk/engine.go:330-361 | a request carries at most one breakpoint, on its last block, and otherwise says what the conversation says |
| CacheBreakpoints.RunStaysUncached | afk/engine.go:459-468 | over a whole run the conversation stays free of breakpoints in memory, and every request carries at most one |
| CacheBreakpoints.LogStaysUncached | afk/harness.go:281-291 | so does the log, whatever fails on the way |
| CacheBreakpoints.WithConversationCacheBreakpoint | afk/engine.go:330-361 | on shared objects: builds the marked copy and writes to nothing the caller can reach |
| HandleMachine.StepKeepsInv | agentboot/handle.go:126-178 | every step keeps each shown request registered or claimed, and each claim in one caller's hands, written, cut off by the close, or failed |
| HandleSafety.ShownIsUnknownOnlyOnceClaimed | agentboot/handle.go:162-178 | a consumer shown a request is told it is unknown only if an earlier call claimed that very request |
| HandleSafety.ClaimedOnce | agentboot/handle.go:162-178 | a request is claimed at most once |
| HandleSafety.ForwardedOnceWithItsInput | agentboot/runner_execute.go:130-143 | each request is forwarded at most once, with the input it was decoded with |
| HandleSafety.OpenStreamLosesNoReply | agentboot/handle.go:162-178 | while the stream is open an accepted reply is on its way or written, unless writing it failed |
| HandleSafety.AtRestEveryClaimIsSettled | agentboot/handle.go:162-178 | when all calls have returned a claimed request was answered, unless the close cut the reply off or writing it failed |
| HandleSafety.LostIsForgotten | agentboot/handle.go:126-149 | a request lost to cancellation leaves no registration |
| HandleSafety.LosingNeedsCancel | agentboot/handle.go:140-148 | nothing is lost while the context lives |
| HandleSafety.UndisturbedConsumerSeesAll | agentboot/handle.go:126-149 | until then the consumer is given every event, in order |
| HandleSafety.ShownOrLost | agentboot/handle.go:126-149 | in every run each event decoded is shown or lost in its turn, or still in the pump's hands, and only dropping loses any |
| HandleSafety.ForwardsWhatWasSaid | agentboot/handle.go:162-178 | what is written to a request is what some caller said to it |
| HandleSafety.RequestIsAnswered | agentboot/handle.go:126-178 | a run in which a request is shown and its answer written with its input |
| HandleSafety.CloseCutsAReplyOff | agentboot/handle.go:162-178 | a run in which a reply has taken its request and the close turns it away |
| HandleSafety.LostRequestIsUnknown | agentboot/handle.go:140-149 | a run in which a request is lost to cancellation and then unknown |
| Handles.RespondAloneIs | agentboot/handle.go:162-178 | an undisturbed reply consumes the request it answers, with its input, and touches no other |
| Handles.RunnerHandle.Stash | agentboot/runner_execute.go:200-223 | the input is stored before the request is registered |
| Handles.RunnerHandle.Emit | agentboot/handle.go:126-149 | registers, then sends or takes the registration back |
| Handles.RunnerHandle.Respond | agentboot/handle.go:162-178 | the outcome and new state of one undisturbed call |
| Handles.RunnerHandle.ResponseFn | agentboot/runner_execute.go:130-143 | takes the stored input out and writes the reply with it |
| Handles.RunnerHandle.CloseStream | agentboot/handle.go:153-158 | closes the stream |
| Handles.RunnerHandle.Cancel | agentboot/handle.go:182-184 | ends the context |
| ExecutionMachine.WaitersAgree | agentboot/runner_execute.go:288-347 | every Wait returns the same, with the whole stream, after the process is gone |
| ExecutionMachine.SucceedsExactlyWhen | agentboot/runner_execute.go:316-333 | Wait succeeds exactly when a terminal result was seen, none was an error, the context lived and decoding did not break; other formats also accept a clean exit |
| ExecutionMachine.StoreHearsOnce | agentboot/runner_execute.go:337-344 | the store hears one start and one end that agrees with every returned error |
| ExecutionMachine.ShownErrorMeansFailure | agentboot/runner_execute.go:277-285 | an error shown at the end of the stream means Wait fails, with that error unless a stronger one exists |
| ExecutionMachine.VerdictIsFinal | agentboot/runner_execute.go:288-347 | nothing a waiter learns changes afterwards |
| ExecutionMachine.LateWaitFails | agentboot/runner_execute.go:292-320 | a successful run fails when its deadline passes before the first Wait |
| ExecutionMachine.WaitIsHeldUpExactlyWhen | agentboot/runner_execute.go:288-347 | in every run a Wait under way cannot go on exactly while it has the stream, the exit, or an open initial input under a live context to wait for |
| ExecutionMachine.WaitDrawsNearer | agentboot/runner_execute.go:288-347 | every step of the program's own brings a Wait nearer to its return, and no other step takes it further away |
| ExecutionMachine.OpenInputHoldsWaitUp | agentboot/runner_execute.go:150-173 | while the input stays open, the context lives and no write fails, no Wait returns |
| ExecutionMachine.WaitMayNotReturn | agentboot/runner_execute.go:288-293 | a run that ended well, its process gone, in which Wait is held up |
| ExecutionMachine.FailsExactlyFor | agentboot/runner_execute.go:316-333 | a failing Wait reports the agent's last error, else the context's end, else the broken stream, else the exit, else the missing result |
| ExecutionMachine.ShowsErrorExactlyWhen | agentboot/runner_execute.go:240-285 | the stream ends with an error exactly when it could be delivered and decoding broke or the process failed before any turn had ended |
| Executions.OfferedShows | agentboot/runner_execute.go:177-223 | what is offered to the consumer is the agent's messages run together in order and its requests in order |
| Executions.OfferedInOrder | agentboot/runner_execute.go:177-223 | what later events are offered as comes after what earlier ones are |
| Executions.UndisturbedOutcome | agentboot/runner_execute.go:177-347 | the outcome, result and notices of an undisturbed execution, from what happened |
| Executions.AllSurvive | agentboot/handle.go:140-148 | with a live context everything offered gets through |
| Executions.Execution.Feed | agentboot/runner_execute.go:150-173 | the feeder ends with its input, with the context, or with a failed write |
| Executions.Execution.Observe | agentboot/runner_execute.go:181-237 | records an event and what it says about the outcome |
| Executions.Execution.Pump | agentboot/runner_execute.go:177-285 | the loop over any stream: the state reached, and what the consumer is given, which is the agent's messages and requests if nothing is lost, and in the end the error the machine shows |
| Executions.Execution.Wait | agentboot/runner_execute.go:288-347 | the first caller settles the outcome and tells the store; later ones repeat it |
| Compaction.Absorbs | ai/quota/history_compaction.go:57-112 | compacting a part first and the rest later keeps what compacting all at once keeps |
| Compaction.Idempotent | ai/quota/history_compaction.go:57-112 | compacting twice is compacting once |
| Compaction.DroppingTheRestChangesNothing | ai/quota/history_compaction.go:57-112 | dropping any records that are not kept leaves every verdict as it was |
| Compaction.ExtremesSurvive | ai/quota/history_compaction.go:18-20 | what is left shows the same lowest and highest values, first shown by the same records |
| QuotaCharts.NoNumberExactlyWhen | ai/quota/history_compaction.go:64-84 | a window shows no number exactly when it is missing, or has neither a known limit nor a reported rest |
| QuotaCharts.SameKeyExactlyWhen | ai/quota/history_compaction.go:85-86 | two numbers are compared exactly when provider, day, key, minutes, unit, currency and kind agree |
| QuotaCharts.KeptExactlyWhenWorthIt | ai/quota/history_compaction.go:57-112 | kept are exactly the first records to show the lowest and the highest number of a line of the chart, and the last of a day with nothing to draw |
| DailyExtremes.QuotaDailyExtremes | ai/quota/history_compaction.go:57-112 | the ids kept are exactly those of the records worth keeping for the chart |
| DailyExtremes.Collect | ai/quota/history_compaction.go:101-111 | both ends of every key, and the last record of each day without a number |
| QuotaHistory.VerdictIsLocal | ai/quota/history_compaction.go:61-100 | a record's verdict depends on its provider and day only |
| QuotaHistory.HarmlessExactlyWhenAligned | ai/quota/history_compaction.go:21-55 | an early compaction never changes the later one's outcome exactly when the later cut splits no day already compacted |
| QuotaHistory.UnalignedLoses | ai/quota/history_compaction.go:21-55 | three samples of which a pass too early loses one, for any two cuts that are not aligned |
| QuotaHistory.OnlyTheCutDayCanDiffer | ai/quota/history_compaction.go:21-55 | whatever the clock, only the day being cut can differ |
| QuotaHistory.LaterSamplesWait | ai/quota/history_compaction.go:21-55 | today's samples neither change nor are changed by a compaction |
| DailyPasses.OnlyTheLastCutCanDiffer | ai/quota/refresher.go:121-140 | after any number of passes with samples in between, every day but the one the last pass cuts is as a single pass at the end would leave it |
| DailyPasses.PassesAgreeOffTheCut | ai/quota/refresher.go:121-140 | the same record by record |
| QuotaHistory.GormStore.Save | ai/quota/store.go:381-397 | a sample gets a new id and its place by time; the latest goes to the end |
| QuotaHistory.LeftExactlyWhen | ai/quota/history_compaction.go:21-55 | in seconds: what is left is at most thirty days old, and of completed days only what their chart needs |
| QuotaHistory.GormStore.CompactHistory | ai/quota/history_compaction.go:21-55 | provider by provider, including the shortcut, leaves exactly what is neither expired nor redundant |
| QuotaHistory.AllOfThem | ai/quota/history_compaction.go:40-43 | the shortcut on counts is sound |
| Utf8.ValidExactlyWhenEncoded | afk/truncate.go:178-200 | a byte string is well-formed exactly when it is the encoding of some sequence of Unicode scalar values |
| Utf8.ValidAppend | afk/truncate.go:178-200 | well-formedness composes |
| Utf8.NearBoundary | afk/truncate.go:178-200 | every position is within three bytes of a character boundary on either side |
| Utf8.ValidJoin | afk/truncate.go:105-110 | splitting and joining at newlines keeps well-formedness, both ways |
| Truncations.Determined | afk/truncate.go:97-174 | the caps and the input leave only one possible result |
| Truncations.MostIsMost | afk/truncate.go:132-146 | no larger number of whole lines satisfies the caps |
| Truncations.SomethingIsDropped | afk/truncate.go:118-130 | a shortened text lacks at least one line |
| Truncations.ShortenedFits | afk/truncate.go:97-174 | the result satisfies both caps, counts truthfully, and is the input exactly when the caps held |
| Truncations.TruncatingAgainKeepsAll | afk/truncate.go:97-174 | truncating twice is truncating once |
| Truncations.ValidStaysValid | afk/truncate.go:93-96 | a well-formed text stays well-formed |
| Truncations.CutIsTight | afk/truncate.go:176-200 | cutting a well-formed line gives up at most three bytes |
| Truncations.PagesShowItAll | remote/control/smart_guide/tools_file.go:95-137 | following the notices shows the file byte for byte exactly when no line is longer than the byte cap |
| Truncations.EndOfALongLineIsLost | remote/control/smart_guide/tools_file.go:95-137 | a line of two bytes under a cap of one, whose pages do not give it back |
| Truncations.CutHead | afk/truncate.go:178-187 | the longest well-formed prefix within the cap |
| Truncations.CutTail | afk/truncate.go:191-200 | the longest well-formed suffix within the cap |
| Truncations.TakeLines | afk/truncate.go:132-146 | the most lines from the edge that fit |
| Truncations.Truncate | afk/truncate.go:97-174 | both caps from either end, in every case |
| Schemas.TypeGenIsGood | swagger/schema.go:182-226 | a schema refers only to collected structs, references have no siblings, required names are properties |
| Schemas.FieldsGenIsGood | swagger/schema.go:95-132 | so does every struct, embeddings included |
| Schemas.StructGenIsGood | swagger/schema.go:82-90 | so does every expanded definition |
| Schemas.ModelGenIsGood | swagger/schema.go:73-79 | and every registered model |
| SchemaGens.CyclicTypesFit | swagger/schema.go:45-68 | types that point to themselves, embed others and use every kind are among those all of this holds of |
| SchemaGens.EveryReferenceResolves | swagger/schema.go:45-68 | every reference in every definition names a definition, clashing names or not |
| SchemaGens.OrderDoesNotMatter | swagger/schema.go:45-68 | with unique struct names the definitions do not depend on iteration order |
| SchemaGens.EmittedExactly | swagger/schema.go:45-68 | the emitted names are the registered ones and the least set closed under mentioning |
| SchemaFields.FieldsAddLeaves | swagger/schema.go:95-132 | a struct's properties and required names are those of its fields, promoted ones in place, in order |
| SchemaFields.LeavesAreTheShown | swagger/schema.go:95-131 | these are the fields that are exported or embedded and not tagged away, and those of unnamed embedded structs one level down, each under its tag or its name, mandatory when binding says so or it is not omitempty |
| SchemaFields.TheLastFieldPrevails | swagger/schema.go:110-124 | a property describes the last field of its name, so a field keeps its property exactly when no later one, own or promoted, has its name |
| SchemaFields.MatchesJsonExactlyWhen | swagger/schema.go:92-132 | the properties are those encoding/json emits exactly when the last field of each name is the one it emits, or is described like it |
| SchemaFields.RequiredExactly | swagger/schema.go:126-131 | a name is required once for every mandatory field of that name, so twice exactly when two share it |
| SchemaFields.EmbeddedTakesOver | swagger/schema.go:110-131 | an embedded struct takes over the name of a field before it, which encoding/json emits, and the name is then required twice |
| SchemaValues.SchemaAdmitsExactly | swagger/schema.go:182-226 | the schema of a type admits exactly the JSON values that suit the type |
| SchemaValues.OtherKindsAreRefused | swagger/schema.go:182-226 | unless anything goes, a value of another kind is refused, null among them |
| SchemaValues.WrittenSuitsExactlyWhen | swagger/schema.go:92-131 | what encoding/json writes suits its type exactly when it is written in full |
| SchemaValues.NilSliceIsRefused | swagger/schema.go:204-205 | a nil slice is written as null, which its schema refuses |
| SchemaValues.DefinitionAdmitsExactly | swagger/schema.go:45-90 | every emitted definition admits exactly the values that suit its type, references followed |
| SchemaGens.CommasJoin | swagger/schema.go:146-152 | splitting an enum tag cuts at every comma and loses nothing else |
| SchemaGens.TagDetails | swagger/schema.go:141-175 | every tag says its part and an absent one nothing, but there is always a description |
| SchemaGens.SchemaGen.Collect | swagger/schema.go:238-246 | the first type of a name is kept |
| SchemaGens.SchemaGen.TypeSchema | swagger/schema.go:182-226 | the schema of a type, collecting what it mentions |
| SchemaGens.SchemaGen.AddStructFields | swagger/schema.go:95-132 | fields in order, promoted ones in place |
| SchemaGens.SchemaGen.FieldSchema | swagger/schema.go:137-177 | a reference stands alone; anything else gets its format, enum, description, example, default and rules from the tags |
| SchemaGens.SchemaGen.ModelSchema | swagger/schema.go:73-79 | a registered struct is expanded rather than referred to |
| SchemaGens.SchemaGen.BuildDefinitions | swagger/schema.go:45-68 | ends on cyclic graphs, with all that is reachable defined and nothing else |
| PoolSafety.NeverOverCapacity | agentboot/pool/pool.go:153-177 | a bounded pool never holds more than its bound |
| PoolSafety.EverySessionIsInOnePlace | agentboot/pool/pool.go:121-326 | every admission of a session is resident, being closed, closed or dropped, one of these, and closed at most once |
| PoolSafety.SeenIsTrue | agentboot/pool/pool.go:181-195 | a status a scan has read was the session's at some moment since the lock was taken |
| PoolSafety.VictimIsOldestIdle | agentboot/pool/pool.go:181-195 | in every run a victim was Idle when looked at, is not the opened key's, and was opened or last touched no later than any other entry that was Idle when looked at |
| PoolSafety.SweptExactlyWhen | agentboot/pool/pool.go:248-271 | in every run a sweep takes out exactly the sessions Idle when looked at and last opened or touched longer ago than the timeout when it asked for the time |
| PoolSafety.IdleSessionIsSwept | agentboot/pool/pool.go:248-271 | a run in which a session left Idle for longer than the timeout is swept and closed |
| PoolSafety.RefusedExactlyWhenNoneIdle | agentboot/pool/pool.go:153-177 | in every run a key that is not live is refused exactly when the pool is full and no other session was Idle when looked at |
| PoolSafety.EndedSessionsFillThePool | agentboot/pool/pool.go:27-31 | a run in which a key is refused although the only session there is has ended |
| PoolSafety.ReopeningShrinksAFullPool | agentboot/pool/pool.go:153-177 | reopening an ended key in a full pool evicts another session regardless |
| PoolSafety.ClosedIdleExactlyWhen | agentboot/pool/pool.go:160-177 | in every run a session that was evicted or swept is Idle when closed exactly when the last thing it did since it was looked at, if any, left it Idle |
| PoolSafety.VictimMayBeRunning | agentboot/pool/pool.go:80-83 | a run in which a session is closed in the middle of a turn |
| Pools.Pool.Acquire | agentboot/pool/pool.go:121-133 | the live session, forgetting an ended one |
| Pools.Pool.Touch | agentboot/pool/pool.go:139-145 | refreshes one entry's time |
| Pools.Pool.LruIdle | agentboot/pool/pool.go:181-195 | the least recently touched Idle entry but the key's, if there is one |
| Pools.Pool.Open | agentboot/pool/pool.go:153-177 | registers, refuses or evicts as the machine does, then closes the victim; every other entry is as it was |
| Pools.Pool.CloseAndRemove | agentboot/pool/pool.go:199-210 | removes, then closes, the key's session |
| Pools.Pool.Remove | agentboot/pool/pool.go:215-219 | removes without closing |
| Pools.Pool.SweepIdle | agentboot/pool/pool.go:248-271 | closes exactly the Idle entries untouched for the timeout |
| Pools.Pool.CloseAllWhere | agentboot/pool/pool.go:283-304 | closes exactly the matching ones and counts them |
| Pools.Pool.SweepLoop | agentboot/pool/pool.go:234-246 | told to stop, the sweep ends after the ticks it still takes, and every entry gone is a session closed once |
| Pools.Pool.Shutdown | agentboot/pool/pool.go:308-326 | whatever ticks the sweep still takes, its goroutine has ended, the pool is empty and each session that was in it has been closed once |
| RefreshSafety.EachIsFetchedAtMostOnce | ai/quota/manager.go:84-115 | in every schedule each provider is fetched at most once, in order, by five workers or by as many as there are providers |
| RefreshSafety.SendingNeverBlocks | ai/quota/manager.go:86-104 | a worker with a result always has room and never finds the channel closed |
| RefreshSafety.ReturnsWhatWasFetched | ai/quota/manager.go:116-125 | Refresh returns exactly the usages fetched, and all providers were tried unless it was cancelled |
| RefreshSafety.EveryFetchHasEnded | ai/quota/manager.go:84-126 | when Refresh returns, exactly one fetch has ended for every provider handed out, which are all of them unless it was cancelled |
| RefreshSafety.GoodAreFinishes | ai/quota/manager.go:92-102 | those usages are the successful fetches of the schedule |
| RefreshSafety.NeverStuck | ai/quota/manager.go:84-126 | until it returns some goroutine can go on |
| RefreshSafety.EveryScheduleEnds | ai/quota/manager.go:84-126 | every schedule ends, within six steps a provider and four more |
| Backups.RotationKeepsTheNewest | ai/agent/apply_support.go:161-179 | all that rotation keeps is newer than all it removes |
| Backups.RotationKeepsEnough | ai/agent/apply_support.go:161-179 | as many are kept as asked for, if there are that many |
| Backups.NewestOfAllRemain | ai/agent/apply_support.go:76-107 | after any saves on any clock exactly the newest of all stamps ever used remain |
| Backups.FreshSurvivesExactlyWhen | ai/agent/apply_support.go:76-107 | a fresh backup survives its own rotation exactly when fewer than that many are newer |
| Backups.OnlyTheNewestRemain | ai/agent/apply_support.go:76-107 | after any saves on an advancing clock exactly the newest few remain, with their contents |
| Backups.ChosenSurvives | ai/agent/apply_support.go:194-240 | the backup a restore chose survives the restore, whatever the clock |
| Backups.PreRestoreSurvivesExactlyWhen | ai/agent/apply_support.go:190-240 | when the backup a restore takes is still there afterwards |
| Backups.TwoRestoresUndoExactlyWhen | ai/agent/apply_support.go:190-240 | when two restores give the live file back, whatever becomes of either |
| Backups.SameSecondUndoesNothing | ai/agent/apply_support.go:190-240 | a second restore within the same second leaves what the first left |
| Backups.ConfigFile.ListBackups | ai/agent/apply_support.go:118-157 | all backups, newest first |
| Backups.ConfigFile.RotateBackups | ai/agent/apply_support.go:161-179 | removes all but the newest, save those that cannot be removed |
| Backups.ConfigFile.BackupFile | ai/agent/apply_support.go:76-107 | copies the live file under a new name or fails, then rotates |
| Backups.ConfigFile.RestoreLatestBackup | ai/agent/apply_support.go:194-240 | restores the newest backup after backing up what is live, or says why not |

## Left out

Environment, taken as steps or parameters:

- Processes, signals, grace periods, timers and contexts: their ends are steps the environment may take at any time.
- Channel capacity of the session and handle streams: a bound only removes interleavings of the unbounded queue.
- The encoder: whether a write succeeds is a parameter or a step's choice, and the order of bytes on the wire is not modelled.
- What a cancelled `RunTurn` does next: interrupting and closing are session steps any caller may take at any time.
- What the initial input says, and the feeder of a session that stays open: only that the feeder of a one-shot execution ends is modelled.
- StopTask and the contents of control frames: no shared state of the session depends on them.
- A failed process start, which only marks the session failed in the store.
- The model stream, the SDK types and JSON: a step is any assistant message, the log's codec any injective one without newlines.
- Go types that contain themselves without a struct in between, such as a named slice of itself: a type is a finite tree here, and `typeSchema` would not return on such a type.
- Named non-struct types, whose schema is that of their kind; tag values and validation rules are kept as they are written, not parsed.

Simplified data:

- SchemaFields.MatchesJsonExactlyWhen: takes tag names as they are cut at the comma, so the tag `-,`, which encoding/json reads as the name `-`, and names it refuses are not told apart.
- Engines.DispatchTools: what the backstop on a tool's output leaves of it is a parameter; Truncations.Truncate is that backstop, but for the text of its notice.
- SchemaValues.SchemaAdmitsExactly: takes what tags add to a schema as annotations, and of a string only whether it can be read as base64 or as a timestamp; the json option `string` is not modelled.
- Quota values are reals; times are local seconds, so days are equally long and daylight saving is not modelled.
- Keys built by joining strings with colons are taken as unambiguous, so two providers or windows never share one by accident.
- A record's provider usage is its list of windows; the columns it is decoded from are not modelled.
- Backup names stand for their timestamps; a copy that fails half-way, and directory errors, are not modelled.
- Handles.RunnerHandle.Respond: is proved for a call nobody interrupts; the interleaved call is HandleMachine's five steps.
- Executions.Execution.Pump: does not interleave with cancellation, which the parameter `gone` and ExecutionMachine cover.
- Pools.Pool.CloseAllWhere: closes one after another where the program closes concurrently; only the order of closes differs.
- PoolSafety.EverySessionIsInOnePlace: speaks of admissions, so a session the caller opens twice, again after its removal or under two keys, is placed, and may be closed, once for each.
- Pools.Pool.Shutdown: closes one after another, and the sweep's last ticks come before anything else happens; interleavings are PoolMachine's.
- PersistentSessions.PersistentSession.BeginClose: the process itself, its grace period and its kill are the environment's.
- Harnesses.Harness.Run: places concurrent Steer calls right before the next drain, which reads them first; token usage is left out.

Not modelled:

- `Usage.Add`, thinking and effort parameters, tool registration, `Summary`, provider inference and URL helpers.
- Notice texts, log lines and error messages; only the line a notice tells the reader to resume from is modelled.
- Settings merging, HTTP clients, OAuth, bots, frontend, and the SQL around the history rows.
