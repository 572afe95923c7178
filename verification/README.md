# Verification of the PicoClaw agent core

Dafny models of four parts of PicoClaw's agent, with proofs of what each of them is for. `dafny verify dfyconfig.toml`
checks everything.

**The conversation history.** One notion of validity runs through all of it (`Messages.WellFormed`): no system
message; an assistant message that calls tools follows a user or tool message and is answered at once by results whose
ids are non-empty, distinct and exactly the ids called; no result stands anywhere else. `Sanitize` repairs any stored
history, and `SanitizeLaws` and `SanitizeGroups` prove what that means. `Budget`, `RecentWindow` and `Compression` cut
histories, `Media` inserts images, `Shrink` rewrites results in place, `ToolLoop` produces the results, `ExactFacts`
carries literals across summaries, `FactSources` and `FactOrder` say which facts those are, `FactBlocks` what a
summary with two blocks states, and `FactRuns` how long a fact lives when a conversation is summarized again and
again.

**The session mailboxes.** `Mailbox` has the objects and the three locked operations; `MailboxRuns` is the protocol of
dispatcher, workers, turns, slots, `/stop`, cancellation and panics as a step relation; `MailboxLaws`,
`MailboxDispatch` and `MailboxStops` prove what holds in every run.

**Two shared structures.** `HookCalls` is the table of pending calls to a hook process, with callers, reader, exit and
cancellation interleaved at every locked section and every channel operation, `HookAnswers` says what callers are
told, and `HookTable` has its objects. `FileHistory`, `PromptCache`, `PromptLayout` and `PromptBuilder` are the cached
system prompt over files that may change at every look a build or a query takes.

**Two algorithms.** `Ogg` and `OggLaws` are the Opus packet decoder, proved to invert lacing (section 5 of RFC 3533)
and paging (section 6 of RFC 3533), less the two header packets (section 5 of RFC 7845). `Metrics` and `TokenF1` are
the benchmark's averages and its overlap score over exact reals.

Loops and updates in place are methods proved against specification functions or relations; the lemmas are about
those. What a specification function must give is also stated without it: by positions in the input (`FactOrder`), by
the conditions on one call (`ToolAnswers`), by the bytes of a file (`OggLaws`), by the files alone (`PromptLayout`),
by the actions of a run (`HookAnswers`, `MailboxDispatch`), by lists of scores (`MetricsMeans`) or by the store's
answers (`MediaLaws`).

## Where the code does less than its documentation

- Reuse of a completed tool result is documented to match on the provider's call id alone; the code matches on the id
  without surrounding space. Two distinct ids that differ in such space are confused
  (`ToolLoopLaws.PaddedIdIsAnsweredUnderTheOther`), and `ToolLoopLaws.OwnAnswersExactlyWhenUnambiguous` gives the exact
  condition on the ids.
- A sub-turn that reports while calls are still to come tears the group; a history with such a group loses the call and
  its results when it is sanitized (`ToolLoopLaws.GroupIsKeptExactlyWhenWhole`). Reports come through a channel that a
  turn has only if it is itself a sub-turn (`core/src/pkg/agent/subturn.go:410`); in a turn with the channel any group of
  several calls can be torn (`ToolLoopLaws.ReportTearsGroup`), in one without none is
  (`ToolLoopLaws.NoneWaitsNoneBetween`).
- The prompt cache documents that a file changed while the prompt is built triggers a rebuild. A file that is created
  after the baseline, read, and deleted before the next query does not (`PromptCache.PassingFileIsServed`);
  `PromptCache.ServedIsCurrentExactlyWhenSeen` gives the exact condition.
- A fact that the summary already states in its prose is not in the block, so the next summarization does not carry it
  (`ExactFacts.CarriedOnExactlyWhenDropped`); `FactRuns.FactLastsExactlyWhen` is the condition for any number of
  summarizations in a row.
- Trimming tries every turn-aligned suffix exactly when the history opens with a user message or has at most one
  (`Budget.EveryTurnTriedExactlyWhen`); behind other messages the first of several turns is not tried.
- A `/stop` that finds the placeholder of a turn about to begin leaves a stop pending for it, by name of the session
  only. A worker looks for one before its first message, and every turn looks when it starts, so the next of these looks
  takes it (`MailboxStops.LookHitsExactlyWhenArmed`), whichever message that belongs to. The message it was meant for is
  stopped if and only if the stop was left before that message's own look and the message gets as far as its look
  (`MailboxStops.StopHitsItsMessageExactlyWhen`). A stop left after the look (`MailboxStops.LateStopHitsTheNext`) or for
  a message that is handled as a command (`MailboxStops.StopForACommandHitsTheNext`) aborts the next message's turn
  instead, and a turn started from elsewhere can take it first (`MailboxStops.OtherTurnTakesTheStop`).
- A summary that holds a block already and gets another one states the second heading as a fact of its own
  (`FactBlocks.SecondBlockAddsItsHeading`).

Averages of token modes in stored results that lack a count of valid scores are weighted as if all scores had been
valid; `Metrics.CombiningIsExactWhenScored` gives the exact condition under which combining averages loses nothing.

## Model

| member | source | states |
|---|---|---|
| Messages.WellFormedIsScan | core/src/pkg/agent/context.go:1039-1217 | The placement rules of a history, message by message, agree with deciding it group by group from the left |
| Messages.ShapeDecidesWellFormed | core/src/pkg/agent/context.go:1115-1199 | Contents and media have no part in validity |
| Sanitize.FollowsToolCall | core/src/pkg/agent/context.go:1060-1071 | Whether the nearest kept message that is not a result calls tools |
| Sanitize.IsPlaceable | core/src/pkg/agent/context.go:1046-1102 | A message is kept exactly when the tail of what is kept so far admits it |
| Sanitize.KeepPlaceable | core/src/pkg/agent/context.go:1044-1103 | The first pass, as a function of the tail kept so far |
| Sanitize.ExpectIds | core/src/pkg/agent/context.go:1120-1128 | The non-empty call ids are expected, each unanswered, and an empty id spoils the group |
| Sanitize.CollectBlock | core/src/pkg/agent/context.go:1130-1165 | The run of results is scanned to its end; first answers to called ids are collected and marked |
| Sanitize.KeepGroup | core/src/pkg/agent/context.go:1119-1200 | A call goes with the first answers of its block if all ids are answered, and not at all otherwise |
| Sanitize.KeepComplete | core/src/pkg/agent/context.go:1115-1216 | The second pass, group by group |
| Sanitize.SanitizeHistoryForProvider | core/src/pkg/agent/context.go:1039-1217 | The loops compute the two passes the laws are about |
| SanitizeLaws.SanitizedIsWellFormed | core/src/pkg/agent/context.go:1039-1217 | Whatever the input, the output is well formed |
| SanitizeLaws.SanitizedIsSubsequence | core/src/pkg/agent/context.go:1044-1216 | Nothing is invented, changed or reordered |
| SanitizeLaws.SanitizedKeepsPlain | core/src/pkg/agent/context.go:1044-1216 | Every message that is neither system, tool nor a call stays, in order |
| SanitizeLaws.WellFormedIsFixed | core/src/pkg/agent/context.go:1039-1217 | A well-formed history is untouched |
| SanitizeLaws.SanitizingIsIdempotent | core/src/pkg/agent/context.go:1039-1217 | Sanitizing twice is sanitizing once |
| SanitizeLaws.SanitizingSplitsAtTurns | core/src/pkg/agent/context.go:1039-1217 | At any user message, sanitizing the whole is sanitizing both sides, whatever ids are reused across turns |
| SanitizeLaws.WellFormedSplitsAtTurns | core/src/pkg/agent/context_budget.go:13-28 | A turn boundary is a safe cut: a history is well formed exactly when both sides are |
| SanitizeGroups.GroupIsKeptExactlyWhenAnswered | core/src/pkg/agent/context.go:1075-1199 | A call with any results behind a well-formed history stays, with the first result for each of its ids and no other, if and only if it follows a user message or a result, no id is empty and each has a result |
| Budget.ParseTurnBoundaries | core/src/pkg/agent/context_budget.go:20-28 | The indices of the user messages, all of them, in order |
| Budget.FindSafeBoundary | core/src/pkg/agent/context_budget.go:44-85 | The last turn start up to the target that drops something, else the first beyond it; the ends and histories without turns |
| Budget.CutIsUniqueAndSafe | core/src/pkg/agent/context_budget.go:33-85 | That description determines the cut, and with any turn it is a safe boundary |
| Budget.IsOverContextBudget | core/src/pkg/agent/context_budget.go:102-117 | Over budget exactly when messages, tools and output exceed the window |
| Budget.RoomInWindow | core/src/pkg/agent/context_budget.go:102-117 | Tools and output come off the window, and each message takes its own size off what is left |
| Budget.NextHistoryTrimStart | core/src/pkg/agent/context_budget.go:152-169 | The next suffix tried, none in between |
| Budget.TrimHistoryToFitContextWindow | core/src/pkg/agent/context_budget.go:122-150 | The longest suffix tried whose prompt fits; the longest turn-aligned one for a history that opens with a user message or has at most one; failure only when none fits |
| Budget.EveryTurnTriedExactlyWhen | core/src/pkg/agent/context_budget.go:152-169 | Exactly the turn-aligned suffixes are tried, if and only if the history opens with a user message or has at most one |
| Budget.TriedIsTurnAligned | core/src/pkg/agent/context_budget.go:152-169 | Suffix by suffix, for such a history |
| Budget.FirstTurnSkipped | core/src/pkg/agent/context_budget.go:152-169 | For any other history, the start of the first turn is not tried |
| Budget.CutKeepsWellFormed | core/src/pkg/agent/context_budget.go:44-85 | A turn-aligned cut keeps a history well formed |
| Budget.CutThenSanitize | core/src/pkg/agent/context_budget.go:122-150 | Cutting at a turn and sanitizing gives the end of sanitizing everything |
| RecentWindow.CountConversationalMessages | core/src/pkg/agent/context_recent_window.go:79-87 | The number of user messages and answering assistant messages |
| RecentWindow.OnlyConversationCounts | core/src/pkg/agent/context_recent_window.go:61-87 | The count is the number of places that hold a user message or an answer that calls nothing; calls and results are free |
| RecentWindow.ProjectRecentHistory | core/src/pkg/agent/context_recent_window.go:100-126 | The largest run of whole turns within the limit, the last turn whole, or the history itself, and exactly when |
| RecentWindow.CutsAtOnePlace | core/src/pkg/agent/context_recent_window.go:100-126 | The cut is unique: later turns fit, earlier ones do not |
| RecentWindow.ProjectRecentContext | core/src/pkg/agent/context_recent_window.go:183-264 | When the history is held whole, when coverage is asked for, and the bound of twice the limit with its two exceptions |
| RecentWindow.WindowKeepsWellFormed | core/src/pkg/agent/context_recent_window.go:100-126 | The window of a well-formed history is well formed |
| Compression.Session.ForceCompression | core/src/pkg/agent/context_legacy.go:151-206 | Histories longer than two shrink to the later half of their turns; dropped and kept add up; the note joins the summary |
| Compression.KeepLaterTurns | core/src/pkg/agent/context_legacy.go:162-179 | Which messages are kept, with many turns, one, or none |
| Compression.CompressionShrinks | core/src/pkg/agent/context_legacy.go:151-206 | Strictly shorter, never empty, opening with a user message, n turns leaving half of them rounded up |
| Compression.CompressionIsUnique | core/src/pkg/agent/context_legacy.go:151-206 | What is kept is determined by the history |
| Compression.CompressionKeepsWellFormed | core/src/pkg/agent/context_legacy.go:151-206 | A well-formed history stays well formed, even without a user message |
| Compression.CompressionRunsEnd | core/src/pkg/agent/context_legacy.go:151-206 | Repeated compression ends within as many steps as there are messages |
| Compression.DecimalReadsBack | core/src/pkg/agent/context_legacy.go:184-195 | The number in the note reads back as the number of messages dropped |
| Compression.CompressionGoesOn | core/src/pkg/agent/context_legacy.go:151-206 | And stops only at two messages or fewer |
| Media.ResolveMessage | core/src/pkg/agent/agent_media.go:82-134 | One message resolved: kept references, tags in the content, images of current tool results set aside |
| Media.ResolveMediaRefs | core/src/pkg/agent/agent_media.go:60-144 | The loop's output, follow-up messages flushed at the end of each block |
| Media.ErasingFollowUps | core/src/pkg/agent/agent_media.go:60-144 | Without the follow-ups, the input's messages one for one and in order |
| Media.FollowUpsCloseBlocks | core/src/pkg/agent/agent_media.go:60-144 | A follow-up comes right after a result and is never followed by one |
| Media.EveryImageIsShown | core/src/pkg/agent/agent_media.go:60-144 | Each image of a current-turn result is shown exactly once and in order, and no other |
| Media.FollowUpsAreTimely | core/src/pkg/agent/agent_media.go:60-144 | A follow-up brings all images of the results before it |
| Media.ResolvingKeepsWellFormed | core/src/pkg/agent/agent_media.go:60-144 | A well-formed history stays well formed |
| Media.ResolvingKeepsPromptWellFormed | core/src/pkg/agent/agent_media.go:60-144 | So does a prompt behind its system message |
| MediaLaws.EachMessageIsResolved | core/src/pkg/agent/agent_media.go:82-134 | Each message comes out at its place with the references the store does not own, its text carrying the tags of those it found |
| MediaLaws.OnlyTheCurrentTurnIsShown | core/src/pkg/agent/agent_media.go:60-144 | What is shown is exactly the images of tool results from the start of the turn on, in order |
| MediaLaws.FollowUpCarriesImages | core/src/pkg/agent/prompt_turn.go:209-217 | A follow-up is a user message with the images and a text that says where they are from |
| MediaLaws.StartIsClamped | core/src/pkg/agent/agent_media.go:34-42 | A start outside the history is its nearer end |
| Shrink.FindLargest | core/src/pkg/agent/context_recovery.go:97-105 | The first of the longest results above the minimum, or none |
| Shrink.ShrinkToolResultsToFit | core/src/pkg/agent/context_recovery.go:94-117 | In place: a sequence of cuts of the largest result, none once the request fits; only contents of results change; failure only with every result at the minimum; the number of cuts is bounded |
| Shrink.CutBoundIsLog2 | core/src/pkg/agent/context_recovery.go:78-117 | A result's share of that bound is ceil(log2(length / 2048)) |
| Shrink.TargetIsHalf | core/src/pkg/agent/context_recovery.go:109-113 | The size asked for is the least from 2048 on that is at least half |
| Shrink.CutKeepsHalf | core/src/pkg/agent/context_recovery.go:94-117 | With a bounding function that keeps what it may, a cut leaves half of the largest result and at least 2048 bytes |
| Shrink.OnlyLongResultsAreTouched | core/src/pkg/agent/context_recovery.go:97-105 | Only tool results over 2048 bytes change, and when nothing more can be cut none is left over 2048 |
| Shrink.ShrinkingKeepsWellFormed | core/src/pkg/agent/context_recovery.go:94-117 | A well-formed history stays well formed |
| ToolLoop.TurnExecution.HandleCall | core/src/pkg/agent/pipeline_execute.go:126-700 | One call: abort, reuse, denial, hook response or execution, and what is recorded |
| ToolLoop.TurnExecution.HandleCalls | core/src/pkg/agent/pipeline_execute.go:126-810 | The loop over the calls, with what the turn has seen when it aborts |
| ToolLoop.TurnExecution.ExecuteTools | core/src/pkg/agent/pipeline_execute.go:126-844 | The turn's messages, pending steering and exit control afterwards |
| ToolLoopLaws.EveryCallIsAnswered | core/src/pkg/agent/pipeline_execute.go:126-844 | Without an abort, exactly one result per call in call order, for an id equal up to surrounding space |
| ToolAnswers.EachCallMeetsItsEnd | core/src/pkg/agent/pipeline_execute.go:126-700 | A call runs, is answered by a hook, reused, refused, aborted by a hook or aborted hard, each if and only if its conditions hold, and its answer holds the text, id and media of that end |
| ToolAnswers.RunGoesAsDue | core/src/pkg/agent/pipeline_execute.go:126-844 | Every run is a chain of such calls, each from what the turn carries by then, with reports in their places, up to an abort, or to a stop after which every later call gets the skip text, or to the last call; and what the turn has seen ends at the last reused answer |
| ToolAnswers.OnlyApprovedResultsAreRecorded | core/src/pkg/agent/turn_tool_results.go:43-73 | What a turn recorded stays, and what it gains is the result of a call that both profile checks, the hook and the approval let through |
| ToolLoopLaws.OwnAnswersExactlyWhenUnambiguous | core/src/pkg/agent/turn_tool_results.go:43-73 | Every run answers each call under its own id, if and only if no ids differ in surrounding space only |
| ToolLoopLaws.PaddedIdIsAnsweredUnderTheOther | core/src/pkg/agent/turn_tool_results.go:43-73 | Two distinct ids for which it does not |
| ToolLoopLaws.WholeExactlyWhenNoReportBetween | core/src/pkg/agent/pipeline_execute.go:416-431 | The results come in one piece if and only if no sub-turn reports after a call that ran or was answered by a hook while others are to come |
| ToolLoopLaws.NoneWaitsNoneBetween | core/src/pkg/agent/pipeline_execute.go:827-841 | In particular if no report waits before the last call, or the turn has no channel for reports |
| ToolLoopLaws.ReportTearsGroup | core/src/pkg/agent/pipeline_execute.go:827-841 | In a turn with a channel for reports, which only a sub-turn has, a run that tears any group of several calls |
| ToolLoopLaws.GroupIsKeptExactlyWhenWhole | core/src/pkg/agent/context.go:1115-1199 | Sanitizing keeps the whole group if no sub-turn reports while calls are to come, and otherwise drops all but the reports |
| ToolLoopLaws.WholeGroupIsWellFormed | core/src/pkg/agent/context.go:1115-1199 | A group in one piece is well formed behind any history a call may follow |
| ToolLoopLaws.TornGroupIsDropped | core/src/pkg/agent/context.go:1115-1199 | A torn one leaves its reports only |
| ExactFacts.ExtractExactFacts | core/src/pkg/agent/context_exact_facts.go:164-229 | The loops compute the specified extraction |
| ExactFacts.ExtractedAreLatest | core/src/pkg/agent/context_exact_facts.go:164-229 | An extracted fact is the last of its key and not covered by a labelled one; no key twice, no more than 24 |
| ExactFacts.LatestAreExtracted | core/src/pkg/agent/context_exact_facts.go:164-229 | The last fact of any key is extracted, covered, or the block is full |
| FactOrder.ExtractedAreInOrder | core/src/pkg/agent/context_exact_facts.go:164-229 | Facts come in the order of the first mention of their keys |
| FactOrder.FirstMentionedAreKept | core/src/pkg/agent/context_exact_facts.go:216-229 | A fact left out although it is the last of its key and not covered was mentioned first behind all 24 that are kept |
| FactOrder.CoveredExactlyByLabels | core/src/pkg/agent/context_exact_facts.go:204-222 | A bare value is dropped if and only if the last fact of some label has it |
| FactOrder.WhatSharesAKey | core/src/pkg/agent/context_exact_facts.go:120-129 | Labels are compared in lower case, bare facts by their value |
| FactSources.ExtractFromBatch | core/src/pkg/agent/context_exact_facts.go:164-203 | The loop over the batch, which skips what the user did not say and what carries a secret |
| FactSources.OnlyTheUserIsQuoted | core/src/pkg/agent/context_exact_facts.go:183-193 | Every fact was matched in a user message without a secret |
| ExactFacts.EnsureExactFacts | core/src/pkg/agent/context_exact_facts.go:280-307 | The summary, its newlines trimmed, with a block of the facts it lacks |
| ExactFacts.ParseExactFacts | core/src/pkg/agent/context_exact_facts.go:342-364 | The facts stated by the lines after the first heading |
| ExactFacts.BlockRoundTrip | core/src/pkg/agent/context_exact_facts.go:280-307 | Parsing what ensuring wrote gives exactly the facts the summary lacked, in order |
| FactOrder.BlockIsWrittenSo | core/src/pkg/agent/context_exact_facts.go:280-307 | The text of a block, letter by letter |
| FactOrder.SpacedLineIsRead | core/src/pkg/agent/context_exact_facts.go:342-364 | However a bulleted line is spaced, it states its label and value |
| FactBlocks.SecondBlockAddsItsHeading | core/src/pkg/agent/context_exact_facts.go:280-364 | For a summary that holds a block already: what it stated, the second heading as a fact, and the missing facts |
| ExactFacts.CarriedOnExactlyWhenDropped | core/src/pkg/agent/context_exact_facts.go:280-307 | A fact reaches the next block if and only if the prose lacked it |
| ExactFacts.EnsuredHoldsEveryValue | core/src/pkg/agent/context_exact_facts.go:280-307 | Every given value is in the output, despite the trimming |
| ExactFacts.CarryForwardExactFacts | core/src/pkg/agent/context_exact_facts.go:315-339 | The loops compute the specified merge |
| ExactFacts.CarriedExactly | core/src/pkg/agent/context_exact_facts.go:315-339 | Every recent fact stays; an earlier one that is not superseded is dropped exactly when it and the younger ones exceed the cap |
| ExactFacts.RestoreFacts | core/src/pkg/agent/context_legacy.go:284-292 | What summarizing stores |
| FactRuns.FactLastsExactlyWhen | core/src/pkg/agent/context_legacy.go:284-301 | After any number of summarizations a fact not stated again is in the block if and only if none supersedes it, states its value in the prose, or leaves it no room behind newer facts |
| ExactFacts.SavedSummaryKeepsFacts | core/src/pkg/agent/context_legacy.go:284-292 | The stored summary holds every recent value and every earlier one neither superseded nor pushed out |
| Mailbox.AgentLoop.ClaimSessionMailboxPosition | core/src/pkg/agent/agent_inbound_mailbox.go:33-75 | Claim, queue with position, steering replacement or control traffic, on the objects |
| MailboxDispatch.WhereAMessageGoes | core/src/pkg/agent/agent_inbound_mailbox.go:43-75 | Which messages are queued, which open a mailbox or take one over, and which are handled beside it, each if and only if; and the whole new state |
| MailboxDispatch.EveryRecordIsSorted | core/src/pkg/agent/agent_inbound_mailbox.go:43-75 | In every run a message that met a mailbox was queued if and only if it asks for its own answer and is no control traffic |
| Mailbox.AgentLoop.TakeNextSessionMessage | core/src/pkg/agent/agent_inbound_mailbox.go:77-96 | The oldest message, for the very mailbox object only; an empty one is given up |
| Mailbox.AgentLoop.ReleaseSessionMailbox | core/src/pkg/agent/agent_inbound_mailbox.go:98-104 | Only the very mailbox object is deleted |
| MailboxRuns.InvIsKept | core/src/pkg/agent/agent.go:210-351 | Ownership, slots, sole owners and each worker's share of the record are kept by every action, a turn's registration and its look for a stop included |
| MailboxLaws.EveryMessageStartsOnceInOrder | core/src/pkg/agent/agent.go:210-351 | Admitted is started, then in hand, then queued; what remains has a worker at work; panics included |
| MailboxLaws.TurnsDoNotOverlap | core/src/pkg/agent/agent.go:259-308 | One worker at a time works for a session fed by independent channels, stops and cancellations included |
| MailboxLaws.SlotsStayWithinCapacity | core/src/pkg/agent/agent.go:256-308 | Workers holding a slot never exceed the semaphore |
| MailboxLaws.WorkersStartOnlyTheirOwn | core/src/pkg/agent/agent_inbound_mailbox.go:84-87 | On any channel, a worker starts a prefix of what was assigned to it, never a successor's messages |
| MailboxLaws.OnlyOwnersTouchMailboxes | core/src/pkg/agent/agent_inbound_mailbox.go:43-104 | The only four ways a session's mailbox changes; a superseded worker takes or deletes nothing |
| MailboxLaws.AheadIsExact | core/src/pkg/agent/agent_inbound_mailbox.go:69-75 | The reported position is the current request plus those queued before, and in any continuation exactly those start first |
| MailboxDispatch.NoPlaceholderIsLeftBehind | core/src/pkg/agent/agent.go:259-294 | In every run, once all workers of a session are on their way out, no placeholder of theirs is left |
| MailboxDispatch.OnlyPlaceholdersAreCleared | core/src/pkg/agent/agent.go:270-294 | A worker cleaning up never clears the state of a registered turn |
| MailboxDispatch.StopDuringATurnLeavesNothing | core/src/pkg/agent/agent_stop.go:107-146 | In an independently fed session a stop that arrives while a turn is registered finds no placeholder and leaves nothing pending |
| MailboxStops.LookHitsExactlyWhenArmed | core/src/pkg/agent/agent_stop.go:148-163 | In every run, on any channel, a look finds a stop if and only if one was left after the session's previous look |
| MailboxStops.StopIsTakenByALook | core/src/pkg/agent/turn_coord.go:26-31 | A pending stop leaves only by a look of its session, which sends a worker to drain or aborts the turn that looked |
| MailboxStops.StopHitsItsMessageExactlyWhen | core/src/pkg/agent/agent_stop.go:38-46 | For a stop left while a worker has a message, in any continuation where only the session's mailbox takes stops: a worker that has not looked starts nothing more; otherwise that message's turn is stopped if and only if the stop came before its look and it gets to look |
| MailboxStops.LateStopHitsTheNext | core/src/pkg/agent/turn_coord.go:26-31 | A run in which the stop found a placeholder but was left after that turn's look: the turn runs on, the next one is aborted |
| MailboxStops.StopForACommandHitsTheNext | core/src/pkg/agent/agent_message.go:192-207 | A run in which the stop was left in time, for a message handled without a turn: the next message's turn is aborted |
| MailboxStops.OtherTurnTakesTheStop | core/src/pkg/agent/agent_message.go:285-306 | A run in which a turn from elsewhere takes the stop before the waiting worker looks, which then starts its message |
| MailboxLaws.PendingStopDiscards | core/src/pkg/agent/agent.go:314-330 | A run in which a pending stop discards a claimed and a queued message |
| HookTable.ProcessHook.Register | core/src/pkg/agent/hook_process.go:330-334 | A new id and an empty channel of its own enter the table |
| HookTable.ProcessHook.Answer | core/src/pkg/agent/hook_process.go:422-431 | A response goes to the call it names, if pending, and to no other |
| HookTable.ProcessHook.FailPending | core/src/pkg/agent/hook_process.go:455-474 | Every pending call is sent the exit error once and closed; the table is empty |
| HookTable.ProcessHook.RemovePending | core/src/pkg/agent/hook_process.go:476-484 | A pending call leaves and its channel is closed; others are untouched |
| HookCalls.ChannelsAreUsedOnce | core/src/pkg/agent/hook_process.go:406-484 | In every interleaving a channel is sent on at most once, closed at most once, never sent on after |
| HookCalls.NoSendBlocksAndNoCloseFails | core/src/pkg/agent/hook_process.go:422-474 | Every send finds an untouched channel, every close an open one |
| HookCalls.CallersLeaveWithTheirOwn | core/src/pkg/agent/hook_process.go:355-372 | A caller leaves with a response under its own id or the exit error, or gives up; none finds its channel closed while waiting |
| HookAnswers.CallersSeeWhatWasRead | core/src/pkg/agent/hook_process.go:406-474 | In every run a caller sees, word for word, the line the reader took for it while it was pending, or the reason the process exited with; and a line taken for it is all it sees |
| HookAnswers.OtherLinesChangeNothing | core/src/pkg/agent/hook_process.go:419-431 | A line changes nothing if and only if no pending call has its id |
| HookAnswers.ClosedAdmitsNone | core/src/pkg/agent/hook_process.go:325-328 | A closed hook admits no further call |
| HookCalls.NoCallerIsStranded | core/src/pkg/agent/hook_process.go:325-373 | A waiting caller's own reply is there or on its way; once the exit is dealt with and the reader is between lines it is there |
| HookCalls.ExitComesToItsEnd | core/src/pkg/agent/hook_process.go:455-474 | In every schedule the exit takes three steps per pending call and one to finish, can always take the next, and is done exactly after the last |
| HookCalls.ExitAnswersWhoeverIsPending | core/src/pkg/agent/hook_process.go:455-474 | In every schedule, once it is done, each caller that was pending when it took the lock and still waits has the exit's error |
| FileHistory.OldFilesAreUnchanged | core/src/pkg/agent/context.go:376-381 | With ever newer times, a file no newer than an earlier instant's newest has not changed since |
| PromptCache.ServedIsCurrentExactlyWhenSeen | core/src/pkg/agent/context.go:627-753 | A query that finds no change serves the prompt of the current files if and only if the baseline saw every file that was read |
| PromptCache.EachLookIsCurrent | core/src/pkg/agent/context.go:634-753 | When files change between the looks of one query: each path was, at an instant of the query, there exactly if the baseline saw it, with the content that was read |
| PromptCache.PassingFileIsServed | core/src/pkg/agent/context.go:661-687 | A history of files for which it does not |
| PromptCache.DescribedFilesAreUnchanged | core/src/pkg/agent/context.go:634-659 | A query on files the baseline describes finds no change, so the cache is of use |
| PromptLayout.RenderedIsPromptOf | core/src/pkg/agent/definition.go:78-131 | The prompt holds AGENT.md, SOUL.md, USER.md, the memory and every skill file that is there, AGENTS.md and IDENTITY.md only without AGENT.md, each with its content, and nothing else |
| PromptLayout.OlderLayoutIsIgnored | core/src/pkg/agent/context.go:755-799 | With AGENT.md there, no change to AGENTS.md or IDENTITY.md changes the prompt |
| PromptLayout.QueryFindsExactlyTheChanges | core/src/pkg/agent/context.go:634-753 | Once a cache describes the files, a query finds a change if and only if a file of the layout in force, a root or a skill file was written, created or deleted since |
| PromptBuilder.ContextBuilder.FileChangedSince | core/src/pkg/agent/context.go:669-687 | The four cases of one path, at the instant it is looked at |
| PromptBuilder.ContextBuilder.SkillFilesChangedSince | core/src/pkg/agent/context.go:698-753 | Whether, look by look, a skill file vanished, changed or appeared; a walk that fails counts as a change |
| PromptBuilder.ContextBuilder.SourceFilesChangedLocked | core/src/pkg/agent/context.go:634-659 | Whether any tracked path, root or skill file was found changed, files changing before every look |
| PromptBuilder.BuildCacheBaseline | core/src/pkg/agent/context.go:580-625 | Dated no later than what was written by its end, and a description of the files if they stood still |
| PromptBuilder.BuildSystemPrompt | core/src/pkg/agent/context.go:755-799 | Each file read at its own instant; the older layout only without AGENT.md |
| PromptBuilder.ContextBuilder.Rebuild | core/src/pkg/agent/context.go:376-394 | The baseline comes before every read |
| PromptBuilder.ContextBuilder.BuildSystemPromptWithCache | core/src/pkg/agent/context.go:357-395 | Served prompts passed a query look by look, and are current exactly when seen if the files stood still meanwhile; others were read during the call; a cache that is not stale is served |
| PromptBuilder.ContextBuilder.InvalidateCache | core/src/pkg/agent/context.go:533-543 | Nothing is served from before |
| Ogg.ReadTable | core/src/pkg/audio/ogg.go:17-31 | The page header and segment table, or why decoding ends |
| Ogg.ReadSegments | core/src/pkg/audio/ogg.go:33-55 | The segments of a page join and complete packets |
| Ogg.DecodeOggOpus | core/src/pkg/audio/ogg.go:11-57 | The nested loops compute the decoding of the data |
| OggLaws.LacingIsSound | core/src/pkg/audio/ogg.go:34-55 | A packet takes a segment per full 255 bytes and one more, multiples of 255 included |
| OggLaws.PagesAreFed | core/src/pkg/audio/ogg.go:15-56 | The result depends on the segments, not on how pages divide them |
| OggLaws.DecodingInvertsMuxing | core/src/pkg/audio/ogg.go:11-57 | Exactly the packets that are neither empty nor headers come back, in order, up to the first the caller rejects |
| OggLaws.OpusFileDecodesToAudio | core/src/pkg/audio/ogg.go:11-57 | A stream of a packet opening with OpusHead, one opening with OpusTags, and audio decodes to the audio alone |
| OggLaws.WhatEndsAStream | core/src/pkg/audio/ogg.go:16-37 | Behind complete pages: fewer than 27 bytes end the stream, a wrong capture pattern, a short table and short segments are errors |
| Metrics.AggregateMetrics | core/src/cmd/membench/eval.go:205-264 | The averages of all questions and of each category, failed judgements left out of F1 |
| MetricsMeans.AggregatesAreMeans | core/src/cmd/membench/eval.go:205-264 | Each F1 average is the mean of the scores that could be judged, each hit rate the mean over all questions, overall and for every category that occurs |
| Metrics.ComputeModeAgg | core/src/cmd/membench/eval.go:305-349 | The weighted combination of per-sample averages |
| MetricsMeans.CombinedAreWeightedMeans | core/src/cmd/membench/eval.go:305-349 | Each combined average is the mean of the stored ones weighted by what they stand for, for any stored results |
| Metrics.CombiningIsExactWhenScored | core/src/cmd/membench/eval.go:305-349 | Combining per-sample averages gives the averages of all questions if and only if every category of every sample has a valid score or the mode is an LLM mode |
| Metrics.NonNegativeScoresAreExact | core/src/cmd/membench/eval.go:205-349 | In particular for scores that are never negative |
| TokenF1.TokenOverlapF1 | core/src/cmd/membench/metrics.go:112-148 | Precision and recall from the counts combine to the share of the tokens that is shared |
| TokenF1.OverlapIsProper | core/src/cmd/membench/metrics.go:107-148 | In [0, 1], symmetric, 1 exactly for equal token multisets, 0 exactly when nothing is shared |

## Left out

- Model, provider, channel and tool calls, logging, tracing, events and timeouts: outcomes are arbitrary parameters or steps.
- Tool calls are represented by their ids; arguments and names do not matter to the history.
- Token estimators, the prompt builder and the output bound of a tool result are parameters: natural numbers, a function, a string no longer than asked for.
- Writing histories and summaries to the session store, and races between summarizing and new messages.
- Regular expressions and credential checks of fact extraction: what the patterns match in a text, whether it carries a secret, whether a fact is acceptable, and lower-casing are parameters.
- The order, headings and wording of the prompt's parts: a prompt is the content of each file that is in it.
- Characters are single bytes; the spaces trimmed are those up to U+00A0.
- Integers are unbounded, and hook call ids do not wrap around.
- Image files, MIME types and encoding: looking up a reference gives a tag and possibly an image.
- RecentWindow.ProjectRecentContext: no bound for a limit of 1, because the history budget is then 0 and the code leaves the history whole.
- ToolLoop.TurnExecution.ExecuteTools: argument rewriting by hooks, the text of denials and the saving of each result are not modelled.
- The list of messages visible to an aborted turn is modelled by how many of them it has seen.
- Mailbox.AgentLoop.ClaimSessionMailboxPosition: whether a channel answers each message on its own, and whether a message is control traffic, are given with the message.
- MailboxLaws.EveryMessageStartsOnceInOrder: promised only without pending stops, cancelled waits and steering messages, because the code discards or replaces mailboxes then.
- The active-turn table may also change arbitrarily at any time, which covers turns that end or are aborted.
- Steering queues and their continuations, system messages, direct calls: such turns appear only as looks for a pending stop, possible at any time.
- FactRuns.FactLastsExactlyWhen: promised for prose without a heading of its own and facts as extraction leaves them; `FactBlocks` says what is stated otherwise.
- Sending and deleting queue notices.
- Closing a hook and killing its process: only that later calls are refused. A write to the pipe may succeed or fail at any time until the exit is dealt with, and fails after that, because waiting for a process closes its pipe before it returns.
- PromptBuilder.ContextBuilder.BuildSystemPromptWithCache: parts that do not come from files, daily notes and the date are held fixed; a walk that fails while the baseline is taken is not modelled.
- The skill files below the roots are drawn from a fixed list of possible paths, and roots are entries whose times change like those of files.
- Ogg checksums, serial numbers and continuation flags, which the decoder ignores; the buffer a frame is handed over in is not shared with the caller here.
- TokenF1.TokenOverlapF1: cutting answers into tokens; floating-point rounding in all metrics.
- Storage, channels, configuration, the Python tools and the web parts of the repository.
