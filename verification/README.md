# Tele Cli: a verified model of its delivery and session core

Tele Cli connects Telegram chats to a Codex app server. This Dafny project models the parts of it
that have to keep promises over whole runs, and proves those promises for all inputs and all
interleavings. `dafny verify dfyconfig.toml` checks everything.

What is modelled, file by file:

- **Messages.** `Trim`, `PlainSplitter`, `Markup`, `HtmlSplitter`, `SplitterLimits`, `SplitterExcess`,
  `SplitterFilling`, `HtmlRepair`, `RepairLimits` and `Rendering`: cutting plain text and Telegram HTML
  into messages, repairing half-streamed HTML, and how the two fit together. HTML is a sequence of
  characters and tags; *what a reader sees* is each visible character and void tag together with the
  opening tags around it. Splitting keeps that reading, halts exactly on a stated condition, meets a
  tight bound, and ends a message only where the next piece does not fit.
- **The delivery queue.** `DeliveryTable` says what each transaction does to the table,
  `DeliveryManager` is the object that does it in place, and `QueueRuns` interleaves producers,
  claimants, the remote service, crashes and recoveries as steps. On top of these: `QueuePause` (rate
  limits), `QueueConservation` (nothing lost, revived or called too often), `QueueEndings` (which rows
  end as completed and which as failed), `QueueOrder` (rows of a key run in order), `QueueRegister`
  (the remote message of a key is a last-writer-wins register) and `QueueExamples` (a failing run,
  step by step).
- **Streamed answers and sessions.** `SessionRecords` and `SessionStore` (the stored sessions and
  their invariants), `Reassembly` (the merge functions and partial flushes), `Notifications`,
  `Routing` and `Draining` (what notifications do, as a specification and as the imperative look-ups
  and branches), `Answers` and `Deliveries` (what they make of a turn's answer, and what is delivered
  of it), `TurnLifecycle` and `AppServer` (sending, steering and interrupting turns, likewise),
  `ServerCalls` (what the server is called for, and the way from a message to its answer), `Refreshes`
  (what agents are told when a turn starts), `Recovery` (starting after a crash) and `Sleep` (the
  daily sleep and how its lessons reach the sessions).
- **Small cores.** `JsonRpc`, `RpcRuns` and `RpcAnswers` (requests, answers and notifications of one
  connection under every interleaving), `Utf8` (truncation of encoded text) and `UpdateWindow`
  (de-duplication of updates). `Options` and `Sets` hold what all share.

Code that changes state is a class or a loop proved against a specification function; the results
are then lemmas about the specification. Clocks, random ids, the network, the database engine and
the app server appear as inputs: a step or a `World` record names what they contribute.

Several promises turn out to hold only under a condition. There the project proves the exact
condition, as an if-and-only-if, and gives an input on which the promise fails:

- The HTML splitter comes to an end (`HaltsExactlyWhenRunsFit`); it does not where the open tags
  leave no room for a character (`LongLinkNeverHalts`, `ShortLimitNeverHalts`).
- Messages stay within the limit (`ExceedsExactly`, for every text on which it halts;
  `ExceedsByOpeningExactly` where each tag fits); one can be wider by a closing tag
  (`BoundIsReached`), and where the markup fits at all never by more (`MessagesBounded`).
- The repairer leaves good text alone (`LeavesAloneExactly`); a carriage return before a line feed
  is not kept (`CarriageReturnIsLost`), nor is a tag that has only begun (`UnfinishedTagIsDropped`).
- A delta is appended to the answer (`DeltaIsAppendedExactly`); one that repeats a part of it is not
  (`RepeatedDeltaIsLost`).
- A partial flush keeps the answer (`FlushKeepsAnswerExactly`); it can lose a repeated beginning
  (`RepeatedBeginningIsLost`) and an answer that waits a second time (`RedeliveredAnswerIsLost`).
- After the end of a turn its text rests (`EndSilencesExactly`); not so after some failures
  (`StrayOutputDisturbs`). An interrupt silences a session exactly when a turn was completed before
  (`InterruptSilencesExactly`, `LateOutputDisturbs`); recovery that drops a turn does not
  (`DroppedTurnIsNotSilenced`).
- No claim starts inside a pause (`PauseKeptExactly`, and always with one claimant at a time:
  `OneClaimantKeepsPause`); with two claimants a recovery can break it (`RecoveryBreaksPause`).
- Recovery keeps waiting text (`PendingSurvivesExactly`); that of a stale turn is dropped
  (`StaleTurnLosesText`).
- Missed lessons are told (`SendKeepsRecordExactly` for one send, `RefreshToldExactly` over runs); a
  failed `turn/start` loses them (`FailedStartLosesRefresh`).
- A new thread is given the session instructions (`InstructedExactly`); two sends after which it is
  not are `FailedFirstStartLosesInstructions` and `ReplacedThreadStartsBare`.
- Request ids are unique (`IdsApartExactly`); two interleaved allocations mix answers up
  (`SharedIdMixesAnswers`). The service itself makes all requests of a connection from its main
  thread, so this takes another user of the client class.
- An accepted update is remembered until as many others as the window holds are accepted
  (`HeldExactly` and `AcceptedAgainExactly`, over all runs); a clock that goes back lets one through
  again, at once (`OlderTimeIsForgotten`) or after a single other update (`EarlierTimeComesBack`).

The hypotheses of the main results are predicates that a caller can read: `DisciplinedRun` (one
claimant at a time, increasing creation times, one priority per key), `FaithfulRun` (no crash, the
producer's look-up and enqueue as one step, a remote service that answers consistently, and no other
key's rows touching the messages of the tracked keys), `AllCalm` (no recovery), `OneAtATime` (one
claimant at a time), `Atomic` (one allocation at a time), `Growing` (snapshots that extend each
other), `OrderlyTurn` (a turn's texts go on from each other, and flushes find the answer whole),
`TagsFit` (the markup for cutting and each tag fit a message), `Possible` and `AllowedRun` (callers
give fresh ids, and change neither slot nor attachment of a session).

## Model

| member | source | states |
|---|---|---|
| `PlainSplitter.SplitText` | src/runtime/service.py:286-309 | the loop halts for every text and limit (an absent limit is 4000); every message is non-empty, has no outer whitespace and fits the limit; the messages' visible characters in order are exactly the text's |
| `PlainSplitter.SplittingKeepsText` | src/runtime/service.py:292-309 | the same for the specification function, at every limit of at least 1: nothing visible is lost, duplicated or moved |
| `PlainSplitter.TakenChunk` | src/runtime/service.py:301-304 | the fallback for a blank chunk is never taken: the chunk before a cut in trimmed text always has visible characters |
| `PlainSplitter.MessagesAreCutBest` | src/runtime/service.py:292-309 | while the text does not fit, each message is exactly what lies before the best cut, and the next one begins behind it: no message ends before it must |
| `Trim.BreakPointIsLast` | src/runtime/service.py:294-300 | a cut is at the last paragraph break that fits, else at the last line break, else at the last space, else exactly at the room that is left |
| `Markup.FlattenTokenize` | src/runtime/service.py:332-333 | splitting into runs of characters and tags loses nothing |
| `Markup.ReadStrip` | src/runtime/service.py:346-350 | stripping changes nothing that a reader sees, no open element and no nesting |
| `HtmlSplitter.FlushCurrent` | src/runtime/service.py:344-353 | the flush, with the chunk it adds and the tags it reopens, against the specification that the meaning results are about |
| `HtmlSplitter.RegisterTag` | src/runtime/service.py:355-369 | the backwards scan over the open tags forgets exactly the innermost element of the closed name, and nothing when there is none |
| `HtmlSplitter.PlaceTag` | src/runtime/service.py:371-378 | one tag: flush first if it would not fit, then append and register |
| `HtmlSplitter.PlaceRun` | src/runtime/service.py:380-405 | the inner loop halts whenever closing and reopening leave room for a character, and computes what the meaning results are about |
| `HtmlSplitter.PlaceAll` | src/runtime/service.py:371-405 | the loop over the tokens |
| `HtmlSplitter.SplitHtml` | src/runtime/service.py:324-409 | the whole function: what a reader sees in the returned messages, each read alone and in order, is what it sees in the text |
| `HtmlSplitter.SplittingKeepsReading` | src/runtime/service.py:324-409 | for every text, nested or not: the same visible characters and void tags, in the same order, each inside the same opening tags as written |
| `HtmlSplitter.ChunksWellNested` | src/runtime/service.py:344-353 | every message of a well-nested text is well nested by itself, non-empty and without outer whitespace |
| `SplitterLimits.MessagesBounded` | src/runtime/service.py:371-405 | if the markup for cutting plus each tag fits the limit, every message is at most the limit plus the widest closing tag |
| `SplitterLimits.BoundIsReached` | src/runtime/service.py:373-377 | that bound is tight: a concrete input whose first message is the limit plus one closing tag wide, so the limit alone is not kept |
| `SplitterLimits.PlainMessagesWithinLimit` | src/runtime/service.py:380-405 | text without tags stays within the limit itself |
| `SplitterLimits.HaltsExactlyWhenRunsFit` | src/runtime/service.py:380-405 | the loops halt if and only if, at every run of characters, reopening and closing the open tags costs less than the limit |
| `SplitterLimits.FittingHalts` | src/runtime/service.py:371-405 | the step-by-step loops then end with exactly what the recursive specification computes |
| `SplitterLimits.LongLinkNeverHalts` | src/runtime/service.py:387-390 | inputs on which the loops never halt: a link and a word wider than the limit, whose opening tag and closer alone fill it |
| `SplitterLimits.ShortLimitNeverHalts` | src/runtime/service.py:387-390 | one of them, written out |
| `SplitterFilling.FittingTextIsOneMessage` | src/runtime/service.py:324-331 | a text that fits is one message |
| `SplitterFilling.FirstMessageTakesWhatFits` | src/runtime/service.py:371-405 | every leading token that fits, together with the closers of what is open before it, is shown by the first message |
| `SplitterFilling.MessageTakesWhatFits` | src/runtime/service.py:371-405 | the same from any state of the splitter on, so for every later message from its reopened tags on |
| `SplitterFilling.MessagesEndWhereTheyMust` | src/runtime/service.py:371-405 | a step of the loops ends at most one message, and only where what is built, the piece in hand and the closers exceed the limit; a run that fits in part is cut at the best cut |
| `SplitterExcess.ExceedsExactly` | src/runtime/service.py:371-409 | for every text on which the splitter halts, some message is wider than the limit if and only if, after some tag, the message under construction with its closing tags is |
| `SplitterExcess.ExceedsByOpeningExactly` | src/runtime/service.py:373-389 | where the markup for cutting and each tag fit the limit, that tag is one that is opened where it fits and its own closer does not |
| `SplitterExcess.OverfullComesOut` | src/runtime/service.py:373-389 | such a message always comes out too wide, whatever follows it |
| `Rendering.FinalMessagesReadInOrder` | src/runtime/service.py:599-607 | the reader sees the thinking, then the answer; prepending happens only when it fits, so it never makes a message wider than the limit |
| `Rendering.RepairingMessagesChangesNothing` | src/runtime/service.py:443-445 | repairing each message of well-nested text with allowed, non-void tags before sending changes nothing, for text without carriage returns whose tags both patterns, the splitter's and the repairer's, take for the same kind |
| `HtmlRepair.Repair` | src/runtime/telegram_html.py:61-98 | the whole repairer; its output contains only allowed tags, properly nested, with nothing left open, for every input |
| `HtmlRepair.RepairTag` | src/runtime/telegram_html.py:71-94 | one token: escape, drop, close through, or keep and push |
| `HtmlRepair.PopThrough` | src/runtime/telegram_html.py:85-89 | the popping loop closes everything down to the innermost element of the name, innermost first |
| `HtmlRepair.PopAll` | src/runtime/telegram_html.py:96-97 | the final loop closes everything that is open, innermost first |
| `HtmlRepair.RepairedIsClean` | src/runtime/telegram_html.py:61-98 | the output is clean for every input |
| `HtmlRepair.CleanMeansWellNested` | src/runtime/telegram_html.py:66-98 | clean means exactly: allowed tags only, canonical closers, and well nested when void elements are ignored |
| `HtmlRepair.FixedExactlyWhenClean` | src/runtime/telegram_html.py:66-98 | at token level the repairer changes nothing if and only if the input is clean, and so is idempotent |
| `HtmlRepair.RepairKeeps` | src/runtime/telegram_html.py:66-98 | all text and all allowed opening tags are kept in order; forbidden tags stay as escaped text |
| `HtmlRepair.RepairKeepsPlaces` | src/runtime/telegram_html.py:71-97 | each of them stays inside the elements in which it stands for a reader to whom a closing tag closes through to its element |
| `HtmlRepair.EscapeShowsText` | src/runtime/telegram_html.py:41-42 | escaped text reads as it was written and contains no bracket |
| `RepairLimits.LeavesAloneExactly` | src/runtime/telegram_html.py:61-98 | the whole function returns its input unchanged if and only if it is clean and stripped, has no carriage return before a line feed, in tags or outside, and no `<` is followed up to its end only by characters other than `>` and line feeds |
| `RepairLimits.CarriageReturnIsLost` | src/runtime/telegram_html.py:62 | a text that meets all but one of these: its carriage return is dropped |
| `RepairLimits.UnfinishedTagIsDropped` | src/runtime/telegram_html.py:62-66 | a tag that has begun and not ended is dropped with all it has so far: behind any text without outer blanks, the repaired text is that of the text alone |
| `RepairLimits.HalfTagIsDropped` | src/runtime/telegram_html.py:62-66 | of text without earlier tags exactly what comes before the begun tag is left, blanks included |
| `DeliveryManager.Manager.Enqueue` | src/storage/telegram_queue.py:99-162 | a queued row of the same non-empty key is replaced; the new row is available after the throttle and no earlier than the pause |
| `DeliveryManager.Manager.FindNext` | src/storage/telegram_queue.py:322-334 | the row found is ready and the first by priority and creation time; none is found only if none is ready |
| `DeliveryManager.Manager.PromotePending` | src/storage/telegram_queue.py:204-249 | every queued send of the key, and no other row, becomes an edit of the message with its text and parse mode kept |
| `DeliveryManager.Manager.AdvanceGlobalPause` | src/storage/telegram_queue.py:844-860 | the next backoff and the pause it sets |
| `DeliveryManager.Manager.RecordOutcome` | src/storage/telegram_queue.py:378-485 | the four outcomes of a call: done with promotion, nothing to change, rate limited with requeue and raised times, failed |
| `DeliveryManager.Manager.ProcessNext` | src/storage/telegram_queue.py:320-485 | claim, skip or call, and record, as one sequence; nothing happens exactly when no row is ready |
| `DeliveryManager.Manager.LatestMessageId` | src/storage/telegram_queue.py:664-683 | the message id of the most recently completed row of the key that has one |
| `DeliveryManager.Manager.FindDead` | src/storage/operations.py:50-64 | exactly the other claimants that are unknown, stopped, or whose process is gone |
| `DeliveryManager.Manager.Start` | src/storage/operations.py:35-80 | rows claimed by nobody, by unknown runs, by stopped runs and by runs whose process is gone are queued again, and no others |
| `QueueRuns.StepWellFormed` | src/storage/telegram_queue.py:320-485 | under every interleaving each claimed row has exactly one claimant, and stays as that claimant read it |
| `QueuePause.NoClaimInsidePause` | src/storage/telegram_queue.py:416-445 | in every run of enqueues, claims, calls and cancellations by any number of claimants, no row becomes available inside a pause and no claim starts in one |
| `QueuePause.PauseKeptExactly` | src/storage/operations.py:61-80 | over all runs with any number of claimants, crashes and recoveries, the pause is kept all along if and only if no recovery puts back a row that another claimant's rate limit has overtaken since its claim |
| `QueuePause.OneClaimantKeepsPause` | src/storage/telegram_queue.py:320-342 | so with one claimant at a time the pause is kept in every run, recoveries included |
| `QueueExamples.RecoveryBreaksPause` | src/storage/operations.py:72-80 | a concrete run with two claimants after which a claim can start inside the pause |
| `QueuePause.NextBackoffGrows` | src/storage/telegram_queue.py:844-853 | one rate limit never shrinks the backoff and respects the server's delay up to the maximum |
| `QueuePause.BackoffInRuns` | src/storage/telegram_queue.py:844-865 | after n rate limits without a success the backoff lies between min(2^n, 3600) and 3600 seconds and has not shrunk |
| `QueuePause.PauseEndsExactly` | src/storage/telegram_queue.py:844-870 | over all runs there is a pause if and only if a rate limit was recorded with no success since, and it ends the current backoff after the last one |
| `QueuePause.RowsWaitForPausesOnly` | src/storage/telegram_queue.py:416-445 | over all runs, recoveries included, a row waits for the throttle and the pauses so far, and for nothing else |
| `QueueEndings.JudgedExactly` | src/storage/telegram_queue.py:366-425 | a call succeeds if and only if nothing is left to do; otherwise the row waits if and only if the error says how long |
| `QueueEndings.EndedExactly` | src/storage/telegram_queue.py:378-485 | over all runs, crashes and recoveries included: a row has ended with the status and time of the first step that ends it, and not otherwise; a refused row is failed, and only a skipped row or one with a recorded success is completed |
| `QueueEndings.NamedRowsWereDelivered` | src/storage/telegram_queue.py:664-683 | in every run a completed row, so every row that a look-up by key may find, had a successful call or was skipped as stale |
| `QueueEndings.LookUpFindsLastEnded` | src/storage/telegram_queue.py:664-683 | the look-up finds a row that ended last among those of the key that name a message |
| `QueueEndings.AttemptsCountMisses` | src/storage/telegram_queue.py:406-460 | over all runs the attempts on record are exactly the calls recorded as rate limited or refused |
| `QueueEndings.RowsAskTheSame` | src/storage/telegram_queue.py:204-249 | over all runs a row keeps key, priority, age and content; only a send may become an edit of a message |
| `QueueConservation.EndedStaysEnded` | src/storage/telegram_queue.py:382-393 | a completed or failed row never changes again |
| `QueueConservation.HowRowsLeave` | src/storage/telegram_queue.py:131-137 | in every step a live row stays live unless its claimant ends it, or it is replaced or cancelled while queued; each happens exactly under its condition |
| `QueueConservation.NothingLostOrRevived` | src/storage/telegram_queue.py:320-485 | the same along whole runs with crashes and recoveries |
| `QueueConservation.CalledAtMostOncePerRecovery` | src/storage/operations.py:61-80 | in every run the successful calls of a row number at most one plus its recoveries |
| `QueueConservation.LiveRowsPerKey` | src/storage/telegram_queue.py:131-137 | a key has at most one live row more than the number of rows that may be claimed at a time |
| `QueueOrder.TakesOldest` | src/storage/telegram_queue.py:322-334 | a claim picks the oldest queued row of its key |
| `QueueOrder.SameKeyRowsRunInOrder` | src/storage/telegram_queue.py:322-334 | in every reachable state a claim picks the oldest of the rows of its key that are queued then |
| `QueueOrder.ClaimsFollowCreation` | src/storage/telegram_queue.py:320-342 | of two claims of one key in a run the earlier one never takes the younger row, whatever is enqueued, rate limited, promoted, recovered or cancelled in between |
| `QueueOrder.LastWriterWins` | src/storage/telegram_queue.py:131-162 | over all such runs, crashes included, once the row enqueued last has been delivered it is the last delivery of its key |
| `QueueRegister.OneSendPerKey` | src/storage/telegram_queue.py:461-485 | with the producer's look-up, at most one remote message is ever made for a key, and once it is recorded every live row of the key is an edit of it |
| `QueueRegister.RemoteShowsNewest` | src/storage/telegram_queue.py:204-249 | the queue refines a last-writer-wins register: once the newest row of a key is delivered, the key's only remote message shows exactly its text and parse mode |
| `QueueRegister.LookUpFindsHome` | src/runtime/service.py:446-449 | what the producer looks up is the key's only message |
| `Reassembly.CommonPrefixLength` | src/runtime/service.py:2889-2894 | the longest common prefix |
| `Reassembly.CommonSuffixLength` | src/runtime/service.py:2905-2910 | the longest common suffix |
| `Reassembly.LongestOverlap` | src/runtime/service.py:2897-2902 | the longest suffix of one text that is a prefix of the other |
| `Reassembly.AnyOrderLeavesLongest` | src/runtime/service.py:2913-2968 | with nothing flushed or delivered, prefixes of one text in any order, with repeats, through either merge function leave the longest one received |
| `Reassembly.GrowingSnapshotMerges` | src/runtime/service.py:2923-2928 | a snapshot that extends what is shown makes streamed plus pending equal to it, through either merge function |
| `Reassembly.GrowingSnapshotActions` | src/runtime/service.py:2923-2950 | for a snapshot that extends the answer both merge functions append exactly what it adds |
| `Reassembly.KnownTextAddsItsRest` | src/runtime/service.py:2913-2968 | both merge functions ignore what repeats or begins the answer, and of a text that goes on from it add the rest only |
| `Reassembly.UnrelatedTextMerges` | src/runtime/service.py:2913-2968 | an unrelated delta is appended; another unrelated text replaces a similar answer, or is joined to it with a long enough overlap shown once, the longest one |
| `Reassembly.SimilarExactly` | src/runtime/service.py:2956-2964 | two texts are similar if and only if some common beginning and end together make up four fifths of the shorter one and 48 characters |
| `Reassembly.DeltaIsAppendedExactly` | src/runtime/service.py:2913-2933 | a delta is appended whole if and only if it is unrelated to what is there |
| `Reassembly.RepeatedDeltaIsLost` | src/runtime/service.py:2921-2922 | two equal deltas of which one is lost |
| `Reassembly.FlushKeepsAnswerExactly` | src/runtime/service.py:2687-2698 | for every attached session, a successful partial flush keeps streamed plus pending if and only if nothing visible waits, or the answer has no outer blanks, is not what was delivered last, and is shown whole: nothing is streamed yet, or the phase is not commentary and the tail does not begin with the streamed text |
| `Reassembly.StreamingFlush` | src/runtime/service.py:2687-2698 | while what was delivered is what is streamed, the condition is that the answer has no outer blanks and the tail does not begin with the streamed text |
| `Reassembly.RepeatedBeginningIsLost` | src/runtime/service.py:2687-2698 | a concrete sequence of two snapshots and two flushes, from a session that has said nothing, that loses a repeated beginning |
| `Reassembly.RedeliveredAnswerIsLost` | src/runtime/service.py:2717-2742 | a second input: an answer that was delivered and then waits again is taken for shown, and nothing of it is left |
| `Reassembly.GrowingSnapshotsSurviveFlushes` | src/runtime/service.py:2782-2792 | for growing snapshots interleaved with partial flushes, streamed plus pending is always the latest snapshot |
| `Notifications.Heard` | src/runtime/service.py:4159-4193 | a text changes no turn, thread or seat of the session it reaches |
| `Notifications.Ended` | src/runtime/service.py:4296-4434 | after a turn's end nothing is active; the turn is remembered unless it failed with an error about its thread, in which case the thread goes too |
| `Notifications.EndFreesSession` | src/runtime/service.py:4326-4434 | after every end of a turn the session can take the next message, and of a failed answer nothing is left |
| `Notifications.BoundThreadIsFound` | src/runtime/service.py:4435-4445 | a session that a thread notification binds is found by that thread afterwards, and no other is |
| `Notifications.HandledKeeps` | src/runtime/service.py:4024-4446 | a notification never moves, attaches or refreshes a session, ends only the turn it names, and drops a thread only with the turn |
| `Notifications.QuietStaysQuiet` | src/runtime/service.py:2625-2668 | while no turn is active and the last one is remembered, or no output can be routed to the session, no notification of any kind changes its pending, streamed or delivered text |
| `Notifications.EndSilencesExactly` | src/runtime/service.py:4296-4339 | after the processed end of a turn some notification can still change the session's text if and only if the turn failed with an error about its thread and the session sits at its chat itself |
| `Notifications.StrayOutputDisturbs` | src/runtime/service.py:2662-2668 | the witness: output that names neither thread nor turn |
| `Notifications.TextRestsAfterEnd` | src/runtime/service.py:4061-4122 | for every other end: whatever is notified afterwards, the text stays as the end left it until the session's next turn |
| `Notifications.QuietUntilNextTurn` | src/runtime/service.py:4061-4122 | the same over every sequence of notifications and of turns registered for other sessions |
| `Notifications.EndDeliversAnswer` | src/runtime/service.py:4330-4434 | the end of a turn that did not fail delivers streamed plus pending, whole, or hands it to the background delivery, if it has no outer blanks, its tail does not begin with the streamed text, and the delivery is accepted |
| `Notifications.SnapshotsAreDelivered` | src/runtime/service.py:4296-4434 | from the first snapshot to the end of the turn: what growing snapshots, interleaved with partial flushes, finally deliver is the latest snapshot, whole, if the tail waiting then does not begin with the streamed text, the completion names no other text and the delivery is accepted |
| `Answers.TextReplaces` | src/runtime/service.py:4153-4194 | a completed agent message with something visible there, and the first text after commentary, leave exactly their text as the answer |
| `Answers.TextAfterCommentaryReplaces` | src/runtime/service.py:4153-4170 | so once commentary is shown the next text is the whole answer |
| `Answers.TurnHoldsAnswer` | src/runtime/service.py:4042-4194 | over every history of notifications for all sessions: while those for a session are orderly, its record holds the answer that they tell, by snapshots, increments, completed messages and flushes in between |
| `Answers.TurnDeliversAnswer` | src/runtime/service.py:4296-4434 | the end of such a turn delivers that answer: the completed message if there was one, else the latest snapshot with its increments and the completion text |
| `Answers.ShortTurnDelivers` | src/runtime/service.py:4153-4434 | for one, every turn of one delta and a completed message is orderly and delivers that message |
| `Deliveries.FlushClaimsOnlyAccepted` | src/runtime/service.py:2671-2800 | a partial flush claims as delivered only what was handed over, keeps the waiting text if and only if the delivery was refused, and drops it when there is nobody to deliver to |
| `Deliveries.FinalTextIsDelivered` | src/runtime/service.py:4376-4434 | whatever the record looks like when a turn ends well, its final text is delivered or on its way in the background |
| `Deliveries.EndLeavesNothing` | src/runtime/service.py:4376-4434 | delivery in the foreground leaves nothing waiting and nothing streamed |
| `Deliveries.UnreachableClaimsNothing` | src/runtime/service.py:2699-2716 | with nobody to deliver to, the end of a turn drops what waits and claims nothing new |
| `Deliveries.RefusedKeepsWaiting` | src/runtime/service.py:2741-2800 | a refused final delivery changes nothing |
| `Deliveries.BackgroundDeliversExactly` | src/runtime/service.py:4376-4434 | the final text goes to the background if and only if deliveries do, and it is new or stands in messages that must take their final form |
| `Deliveries.SimilarCompletionReplaces` | src/runtime/service.py:4310-4325 | a completion text similar to the answer replaces it |
| `Notifications.OtherTurnsOutputIgnored` | src/runtime/service.py:4119-4122 | while a turn is active, output that names another turn changes nothing at all |
| `Notifications.EachEndProcessedOnce` | src/runtime/service.py:4296-4306 | over every history each turn's end is processed at most once, however often it is notified |
| `Draining.FlushRecord` | src/runtime/service.py:2684-2870 | the record after a partial or final flush, with all early exits, field by field |
| `Draining.FlushBuffer` | src/runtime/service.py:2671-2873 | the flush on the stored sessions: only the flushed one changes, and the store keeps its invariants |
| `Draining.MergeCompletion` | src/runtime/service.py:4310-4325 | the completion text is merged only if it says something new |
| `Draining.SettleTurn` | src/runtime/service.py:4330-4434 | what is stored after the turn is closed: reset on failure, final delivery, or nothing to deliver |
| `Draining.EndTurn` | src/runtime/service.py:4296-4434 | the completion branch as a whole |
| `Draining.ShowThought` | src/runtime/service.py:2291-2368 | a shown thought changes the phase, the agent's time and the known messages, and nothing else |
| `Draining.HearText` | src/runtime/service.py:4153-4194 | an answer text: replacing after commentary or on completion, merged otherwise, stored only if something changes |
| `Routing.FindCurrent` | src/runtime/session_store.py:533-545 | the session at the chat itself; in a valid store there is at most one |
| `Routing.Resolve` | src/runtime/service.py:2635-2668 | by the thread alone if one is named; otherwise by the turn, and then the chat's own session without a thread, unless the turn is known as completed; none only if none of these applies |
| `Routing.Route` | src/runtime/service.py:4061-4445 | the session found is one that the notification addresses, in the sense of the results on runs |
| `Routing.EndFoundByEitherId` | src/runtime/service.py:4296-4308 | a turn's end is found by the plain turn id or else by the nested one, and ends that turn |
| `Routing.CompletedTurnFindsNoSession` | src/runtime/service.py:2635-2661 | output that names a completed turn does not find its session |
| `Routing.ThreadlessOutputFinds` | src/runtime/service.py:2650-2668 | output that names no thread finds a session only by its active turn, or at the chat when the session has no thread |
| `Routing.ArchivedIsLeftAlone` | src/runtime/service.py:2640-2648 | no notification changes an archived session |
| `Draining.HandleOne` | src/runtime/service.py:4061-4445 | one notification: it is routed, and exactly the session found changes, as specified |
| `Draining.Drain` | src/runtime/service.py:4042-4446 | the drain loop handles notifications in queue order, up to its maximum, and what it does is a history in the sense of the results on runs |
| `Draining.DrainedAtRest` | src/runtime/service.py:4042-4446 | so draining leaves the text of a session at rest alone, and ends each turn at most once |
| `SessionRecords.StabilizeKeeps` | src/runtime/session_store.py:90-99 | what is stored has a thread for its turn; a record whose turn has a thread is stored unchanged |
| `SessionRecords.StabilizeKeepsTurnExactly` | src/runtime/session_store.py:90-99 | a saved record keeps its turn if and only if the record or the stored one names a thread; without it the record is not left running, and nothing else changes |
| `SessionStore.Store.SaveSession` | src/runtime/session_store.py:386-393 | saving any record leaves every stored turn with a thread; one session per slot stays attached if and only if the caller does not attach a second one |
| `SessionStore.Store.GetOrCreate` | src/runtime/session_store.py:347-384 | the attached session of the slot, a writable one if there is any, otherwise a new one; nothing else changes |
| `SessionStore.Store.CreateNew` | src/runtime/session_store.py:405-438 | the slot's sessions are detached, prunable ones deleted, and the new one alone is attached |
| `SessionStore.Store.DetachSlot` | src/runtime/session_store.py:405-416 | every session of the slot is detached and nothing else changes |
| `SessionStore.Store.Prune` | src/runtime/session_store.py:579-617 | only detached sessions without turn, pending output and reference are removed, and all of these are |
| `SessionStore.Store.AppendPending` | src/runtime/session_store.py:560-565 | the text is appended and nothing else changes |
| `SessionStore.Store.ConsumePending` | src/runtime/session_store.py:567-572 | returns and clears the pending text and nothing else |
| `SessionStore.Store.MarkRecovering` | src/runtime/session_store.py:619-632 | exactly the sessions in a running turn are marked, and exactly those are returned |
| `SessionStore.SaveKeepsSlotsExactly` | src/runtime/session_store.py:386-393 | the if-and-only-if of SaveSession, over all tables and records |
| `SessionStore.CreateKeepsInvariants` | src/runtime/session_store.py:405-438 | creating a session keeps both invariants and leaves it alone in its slot |
| `SessionStore.InvariantsOverRuns` | src/runtime/session_store.py:297-617 | under every sequence of store operations each active turn has a thread and each slot at most one attached session |
| `SessionStore.RemovedExactly` | src/runtime/session_store.py:331-333 | an operation removes a session if and only if it creates or prunes, and the session has no turn, pending output or reference and is detached, if only by that operation |
| `SessionStore.MarkedExactly` | src/runtime/session_store.py:619-632 | marking touches the status only, exactly of sessions in a running turn |
| `AppServer.AppServerSession.StartOrSteerTurn` | src/runtime/app_server_runtime.py:166-387 | the whole function; it keeps the connection invariant from which the results on turns follow |
| `AppServer.AppServerSession.InterruptSession` | src/runtime/app_server_runtime.py:413-434 | interrupt for the session found; it keeps the connection invariant |
| `ServerCalls.SendCallsExactly` | src/runtime/app_server_runtime.py:166-367 | a send makes exactly the calls that the stored record asks for: one steer, or an interrupt of a stale turn, the calls for a thread and the start with its preface and message |
| `ServerCalls.SteeredReachesServer` | src/runtime/app_server_runtime.py:231-238 | a message for a running turn is one call, to the turn and thread on record, and changes nothing of the answer under way |
| `ServerCalls.MessagesReachServer` | src/runtime/app_server_runtime.py:147-387 | over all runs the messages that reach the server, to steer or to start, are exactly those of the sends that report so, each once and in order |
| `ServerCalls.ClosedTurnsAreInterrupted` | src/runtime/app_server_runtime.py:184-205 | a turn that the service closes is interrupted by a call in that step |
| `ServerCalls.StartedRunsAfresh` | src/runtime/app_server_runtime.py:335-367 | a started turn runs on the thread that was named, and its answer begins empty |
| `ServerCalls.StaleAnswerIsDropped` | src/runtime/app_server_runtime.py:195-205 | nothing of a stale turn's answer is left, whether or not the new turn can be started |
| `ServerCalls.StartedTurnIsAnswered` | src/runtime/service.py:4042-4446 | from message to answer: a send that starts a turn, any history of notifications that is orderly for it, and the end of the turn deliver the answer that the notifications told |
| `ServerCalls.AnsweringTurnIsNotStale` | src/runtime/app_server_runtime.py:52-64 | each text that adds to a growing answer keeps the turn from being taken for stale for half a minute |
| `ServerCalls.ThinkingTurnIsNotStale` | src/runtime/app_server_runtime.py:52-64 | and so does each thought shown |
| `TurnLifecycle.LastActivityIsLatest` | src/runtime/app_server_runtime.py:56-61 | the last activity is the latest of the three times on record |
| `TurnLifecycle.InterruptEndsTurn` | src/runtime/app_server_runtime.py:413-434 | an interrupt is one call for the active turn, leaves no turn and nothing waiting, and changes nothing else |
| `TurnLifecycle.InterruptSilencesExactly` | src/runtime/app_server_runtime.py:413-434 | after an interrupt some notification can still change the session's text if and only if no turn of the session was completed before |
| `TurnLifecycle.LateOutputDisturbs` | src/runtime/service.py:2625-2632 | the witness: late output of the interrupted turn |
| `TurnLifecycle.SendOk` | src/runtime/app_server_runtime.py:166-387 | a send keeps: every turn the server holds is the active turn of its session, every turn/start names a resumed thread, every clean session is current |
| `TurnLifecycle.OneOpenTurnPerSession` | src/runtime/app_server_runtime.py:166-434 | over all runs of sends, interrupts, notifications, store operations and sleeps on one connection the server never holds two open turns of one session, and every turn/start names a thread this connection started or resumed |
| `TurnLifecycle.ThreadlessTurnIsForgotten` | src/runtime/app_server_runtime.py:218-231 | the store's invariant is needed: for a turn without thread the same send opens a second turn beside it |
| `TurnLifecycle.SendTellsMissed` | src/runtime/app_server_runtime.py:126-145 | a turn started on an existing thread carries all lessons since the generation on record, or the full refresh |
| `TurnLifecycle.NoLessonIsMissed` | src/runtime/app_server_runtime.py:362-367 | after any run in which no send fails, the same from the generation that the agent really was told of last |
| `TurnLifecycle.FailedStartLosesRefresh` | src/runtime/app_server_runtime.py:141-145 | a failing input: if turn/start fails once the refresh is lost, and the next turn of the session starts without it |
| `Refreshes.SendFailsExactly` | src/runtime/app_server_runtime.py:166-367 | which sends fail, and which start a turn, read off the record and the server's answers before the call |
| `Refreshes.SendKeepsRecordExactly` | src/runtime/app_server_runtime.py:141-145 | a send keeps the generation on record equal to the one the agent was told of if and only if it does not fail while the session, on an existing thread, has a refresh to come |
| `Refreshes.RefreshToldExactly` | src/runtime/app_server_runtime.py:126-145 | after any run, failing sends included, a turn started on an existing thread tells all that was missed if and only if no failing send has lost a refresh since the agent was last told, or the full refresh is due anyway |
| `Refreshes.InstructedExactly` | src/runtime/app_server_runtime.py:134-140 | a started turn carries the session instructions if and only if the record had no thread and was still to be instructed when the message came |
| `Refreshes.FailedFirstStartLosesInstructions` | src/runtime/app_server_runtime.py:288-298 | so after a failed first turn/start the first turn on the saved thread starts without them |
| `Refreshes.ReplacedThreadStartsBare` | src/runtime/app_server_runtime.py:257-265 | and so does the first turn on a thread that replaces one that cannot be resumed |
| `Recovery.RecoverSession` | src/runtime/app_server_runtime.py:475-495 | one session: a turn that is not stale is kept, anything left of another is reset |
| `Recovery.RecoverInflightSessions` | src/runtime/app_server_runtime.py:468-497 | the loop over the store; the store's invariants hold afterwards |
| `Recovery.NoSendIsEverRefused` | src/runtime/app_server_runtime.py:169-170 | after a restart no send is refused in any run on the new connection, whatever state the earlier run left |
| `Recovery.PendingSurvivesExactly` | src/runtime/app_server_runtime.py:483-485 | waiting answer text survives recovery if and only if there is none, or the session is not in a turn, or its turn is kept |
| `Recovery.StaleTurnLosesText` | src/runtime/app_server_runtime.py:476-485 | one input where it does not: half a minute after the last activity a running turn and its text are dropped |
| `Recovery.RecoveredIsReady` | src/runtime/app_server_runtime.py:475-495 | a recovered session is in a turn that is not stale, or has nothing left of an interrupted answer; its place, thread and refresh state stay |
| `Recovery.DroppedTurnIsNotSilenced` | src/runtime/app_server_runtime.py:483-491 | late output still reaches a session whose turn was dropped, if it has a thread |
| `Recovery.MarkingChangesNoRecovery` | src/runtime/session_store.py:619-632 | marking running turns first makes no difference to recovery |
| `Recovery.WritableExactly` | src/runtime/app_server_runtime.py:169-170 | of the attached sessions that are not archived, those found for writing are exactly those that refuse no message |
| `Recovery.RestartStartsWell` | src/runtime/app_server_runtime.py:610 | recovering the stored sessions establishes the invariant that the results on turns start from, and keeps one attached session per slot |
| `Sleep.DeadlineIsLatest` | src/runtime/sleep.py:61-65 | the deadline is the last moment at the configured hour that is not in the future |
| `Sleep.AttemptsIncrease` | src/runtime/sleep.py:68-75 | for check times that never go back the automatically attempted deadlines strictly increase, explicit sleeps in between included |
| `Sleep.DeadlinesAreServed` | src/runtime/sleep.py:68-75 | after an automatic check that has work the latest deadline is served, and while it is no automatic check fires |
| `Sleep.SleepAddsLesson` | src/runtime/sleep.py:262-324 | an answered sleep adds the next generation's lesson and keeps all earlier ones; one without answer is an attempt only; detached sessions are not marked |
| `Sleep.SleepKeepsCurrent` | src/runtime/sleep.py:299-324 | a sleep keeps: every attached session that need not be refreshed has seen the current generation |
| `Sleep.Sleeper.RunSleep` | src/runtime/sleep.py:262-324 | the stored state and the marked sessions after a sleep, answered or not |
| `Sleep.MissedGenerationsAreTold` | src/runtime/sleep.py:234-259 | a session that missed generations is told exactly the missed lessons, or gets the full refresh |
| `Sleep.LessonsToldExactly` | src/runtime/sleep.py:234-259 | the lessons themselves are told if and only if there are one to three of them, within 6000 characters together |
| `Sleep.MissedLessonsComplete` | src/runtime/instructions.py:137-148 | the missed lessons are exactly the stored ones of the generations in between |
| `JsonRpc.JsonRpcClient.Dispatch` | src/runtime/jsonrpc.py:146-172 | requests and notifications are queued at the end; a response goes to the call registered under its id, if any |
| `JsonRpc.JsonRpcClient.PutResponse` | src/runtime/jsonrpc.py:172-173 | waits exactly while the queue is full |
| `JsonRpc.JsonRpcClient.GetNotificationNowait` | src/runtime/jsonrpc.py:91-95 | the oldest notification, if any |
| `JsonRpc.JsonRpcClient.GetRequestNowait` | src/runtime/jsonrpc.py:100-104 | the oldest server request, if any |
| `JsonRpc.CodexNotificationPump.Round` | src/runtime/service.py:4514-4538 | one round keeps pump and client queue together unchanged in order, never overfills, and moves on whenever there is room |
| `JsonRpc.CodexNotificationPump.GetNowait` | src/runtime/service.py:4507-4508 | the oldest notification the pump holds in its queue |
| `RpcRuns.NotificationsArriveInOrder` | src/runtime/service.py:4514-4538 | for every interleaving: sent equals handled, then pump queue, then the one in hand, then client queue, then wire, in order, and the pump queue is within 128 |
| `RpcRuns.RequestsArriveInOrder` | src/runtime/jsonrpc.py:146-160 | for every interleaving the server's requests wait for the service, all and in order |
| `RpcAnswers.CallsGetTheirOwnAnswer` | src/runtime/jsonrpc.py:62-86 | for every interleaving with atomic allocation a call gets only the answer to its own request, under its own id |
| `RpcAnswers.IdsAreNeverReused` | src/runtime/jsonrpc.py:139-142 | no two calls, finished ones included, have the same id |
| `RpcAnswers.AnswersGetThrough` | src/runtime/jsonrpc.py:170-173 | the answer to a call that still waits is never lost between server and call, and the reader never waits for a full queue |
| `RpcAnswers.LateAnswersAreDropped` | src/runtime/jsonrpc.py:76-86 | once a call is over its id is not registered, so that a late answer reaches no other call |
| `RpcAnswers.IdsApartExactly` | src/runtime/jsonrpc.py:139-142 | over all runs no two calls share an id if and only if no allocation is entered while another one is under way |
| `RpcAnswers.SharedIdMixesAnswers` | src/runtime/jsonrpc.py:139-142 | a concrete run: two interleaved allocations, and one call receives the answer to the other's request |
| `Utf8.TruncateUtf8Bytes` | src/storage/payloads.py:26-35 | the longest prefix of whole characters whose encoding fits the limit; the loop drops at most three bytes |
| `Utf8.FittingIsLongest` | src/storage/payloads.py:26-35 | one more character would not fit |
| `Utf8.PrefixDecodes` | src/storage/payloads.py:30-35 | a cut inside a character does not decode; a cut between characters decodes to the prefix |
| `Utf8.DecodeEncode` | src/storage/payloads.py:27-33 | decoding undoes encoding (sections 3 and 4 of RFC 3629) |
| `Utf8.EncodeDecode` | src/storage/payloads.py:33 | the decoder is strict: only encodings decode |
| `UpdateWindow.UpdateStore.MarkProcessed` | src/runtime/telegram_update_store.py:68-112 | accepted exactly when the id is not in the table; never more rows than the maximum; while accepted in row order, refused exactly for the last accepted ids |
| `UpdateWindow.TrimmedWithinLimit` | src/runtime/telegram_update_store.py:114-127 | trimming leaves at most the maximum, whatever the times |
| `UpdateWindow.HeldExactly` | src/runtime/telegram_update_store.py:114-127 | over all runs, whatever the times: an accepted update is in the table if and only if fewer than the maximum of all accepted updates are later in row order |
| `UpdateWindow.AcceptedAgainExactly` | src/runtime/telegram_update_store.py:68-112 | over all runs: an id that was accepted is accepted again if and only if at least the maximum of all accepted updates are later, in row order, than its last acceptance |
| `UpdateWindow.WindowIsNewest` | src/runtime/telegram_update_store.py:114-127 | over all runs in which acceptance order agrees with row order, the table is exactly the last N accepted updates |
| `UpdateWindow.AcceptedAgainOnlyAfter` | src/runtime/telegram_update_store.py:68-112 | then an id is accepted again only after at least N others were accepted in between |
| `UpdateWindow.OlderTimeIsForgotten` | src/runtime/telegram_update_store.py:119-123 | without that order the window forgets: a concrete update accepted twice in a row |
| `UpdateWindow.EarlierTimeComesBack` | src/runtime/telegram_update_store.py:119-123 | a second one: with room for two, an id that was remembered when accepted is accepted again after a single other update |

## Left out

- The regular expressions that find tags in a string: texts are given as characters and tags. Idempotence of the repairer is therefore a token-level result.
- HtmlRepair.RepairKeeps: allowed closing tags are not among what is kept, because the repairer rewrites and drops them by design; so are the closers of `tg-emoji` and `tg-time`.
- The Markdown renderer, legacy text normalisation, and the extraction of status, activity and thinking texts.
- Columns of a queue row that no decision reads (chat, topic, session, trace, error text), and the spilling of large payloads to artifacts.
- `_stale_row_reason`: whether a claimed row is stale is an input of the step, and `_wait_for_completion` is not modelled.
- QueueRegister.RemoteShowsNewest: rows skipped as stale or cancelled count as not delivered; pruning of old queue rows, a second claimant and crashes are excluded by hypothesis.
- QueuePause.NoClaimInsidePause: recovery is excluded here; what it does to the pause is `PauseKeptExactly`.
- Queue times are integers in microseconds and are compared as numbers, not as ISO strings.
- Which of several matching sessions a look-up returns: any of them is allowed, which covers the code's choice.
- The fields for thinking messages, except that showing one may change the phase and sets the agent's time, and which source key it has; which Telegram message ids a session holds, except whether there are any, which is an input after something was shown.
- The completion of a delivery that was left to the background, and the thread look-up for a turn that ends without text (its text is part of the notification).
- Pruning inside a flush and inside the delivery of hidden output is a store operation of its own.
- The bulk `save` of the store as an operation of its own: it writes records as they are, without `_stabilize_session`, and deletes unreferenced ones that it is not given. Marking, recovering, pruning and sleeping, which use it, are modelled with that effect.
- Reset after a failed request, topic-closed retries, and failing interrupt and steer calls: they drop a turn or move a session, which the results on turns exclude. A `turn/start` that fails is modelled.
- Thread ids are present or absent, never blank; a successful `turn/start` names a turn.
- Reassembly.GrowingSnapshotsSurviveFlushes: only successful flushes of attached sessions, and snapshots; deltas that are increments are part of `Answers.TurnHoldsAnswer`, as far as they are not taken for repetitions (`Reassembly.DeltaIsAppendedExactly`).
- Answers.TurnDeliversAnswer: orderly turns only; what other texts make of the answer is said merge by merge, and texts after a completed message that differ from it are not followed.
- The factor 0.8 of the similarity test is taken as four fifths exactly.
- Sleep: the local clock has a fixed offset and whole seconds; one lesson file per generation; the agent's work, memory files and the repository commit are not modelled.
- JSON-RPC: one connection that stays open; malformed lines, the bodies of requests, and answering server requests are not modelled; the server answers each request at most once.
- `mark_recovering_turns` has no caller in the repository; it is modelled as a store operation, and a restart recovers without it.
- Rendering.RepairingMessagesChangesNothing: tags that splitter and repairer take for different kinds, such as `<b / >`, are excluded by `ReadAlikeByBoth`; so are carriage returns, by `Proper`, because the repairer drops those before line feeds.
- Recovery.RecoverSession: thinking messages are an input that says whether there is one.
- Utf8.TruncateUtf8Bytes: texts consist of Unicode scalar values, so lone surrogates, on which encoding raises, do not occur.
- The artifact, chat, topic and preview columns of processed updates, and bulk loading and saving of update ids.
- Setup, pairing, terminal and demo interfaces, service registration, logging, traces and performance records.
