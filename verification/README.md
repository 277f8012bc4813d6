# Verified models of the chat adapters' recovery and delivery machinery

This project models, in Dafny 4.11, the parts of the Discord and Slack adapters that promise
crash-safe, bounded and order-respecting behaviour over arbitrary histories, and proves those
promises for every input, every run and every interleaving. `dafny verify dfyconfig.toml`
checks all of it.

Each component has a file with its data model and operations and a file of laws about them.

| files | component |
|---|---|
| `Collections` | JavaScript's `Set`, optional values and stable sorting |
| `DiscordScan`, `DiscordScanLaws`, `DiscordScanProgress` | one Discord recovery run: forward paging, held discard candidates |
| `DiscordStore`, `DiscordStoreLaws` | the Discord cursor store: watermarks and their parking lot, attempt ledger, dead letters |
| `DiscordRuns`, `DiscordRunsLaws` | passes, live traffic, an ordered save chain whose writes may fail, and crashes |
| `SlackTs` | timestamps as decimal strings |
| `SlackScan`, `SlackScanLaws` | one Slack pass: newest-first paging, reply walks, stale detection, delivery |
| `SlackThread` | one walk over one thread, oldest first |
| `SlackReplies` | the replies a pass and a thread walk fetch, and how far their pages take them |
| `SlackRuns`, `SlackRunsLaws` | passes that resume, arrivals in between, restarts from any stored position |
| `SlackChunker`, `SlackChunkerLaws` | cutting a message into chunks without losing code fences |
| `Presence`, `PresenceLaws`, `PresenceLosses`, `PresenceSettles` | the reaction reconcile loop of both adapters |
| `Limiter`, `LimiterLaws` | outbound pacing per channel |
| `LiveReply`, `LiveReplyLaws`, `LiveReplyTurns`, `LiveReplyFolds` | the parts of a turn folded into one message |
| `Scheduler`, `SchedulerLaws` | the Slack retry loop |
| `SendGate`, `SendGateLaws`, `SendCallers` | single-flight sends, the memory of acknowledged ids, and what each caller is told |
| `EditOutbox`, `EditOutboxLaws` | queued edits and their flush loop |

How the models are made:

- Code that updates variables in loops is a method with a loop, and code that updates fields is
  a class; each is proved equal to a pure function of its inputs or its old state. The laws are
  about those functions.
- Asynchronous code is a machine whose steps are the stretches between two awaits; anything may
  happen between two steps. The laws hold for every sequence of steps.
- The network, the gateway, clocks and random numbers are arbitrary: a port and a delivery
  callback are functions of the number of calls made so far, time never goes back, and jitter is
  any value in its range.
- Message ids are snowflakes and timestamps are microsecond counts, so both are `nat`; `SlackTs`
  proves that the string comparison decides that order.
- An honest port answers from one snapshot of the history: on Discord the oldest messages after
  the anchor, on Slack a run of the window from the page cursor on. Laws that need this say so.
  What arrives while a Slack pass goes on is on none of its channel pages, but its reply pages may
  be newer still.

What the proofs found where the code and its comments part ways. Each has a theorem for all inputs
that says exactly when the code does what it promises; the runs that fail are lemmas too:

- A resumed Slack scan that is cut short again before it fetched anything takes the branch that
  closes the gap: the watermark jumps to the end of the old slice over messages never fetched
  (`SlackRunsLaws.EmptySliceLosesAMessage`). `SlackRunsLaws.PassIsSafeIff` is the exact condition,
  and `SlackRunsLaws.EmptySliceIsBlankPages` states its first half by the pages the port answers.
- The other half: a message that arrives after the channel was read, and whose live delivery fails,
  is passed by the watermark when a thread reply read later in the same pass is newer
  (`SlackRunsLaws.AReplyOvertakesAnArrival`).
- Retention loses a live watermark when its id is also parked
  (`DiscordStoreLaws.ALiveWatermarkIsLost`, `DiscordStoreLaws.RetentionIsFaithfulIff`); reachable stores never have such an id
  (`DiscordRunsLaws.LiveAndParkedStayDisjoint`).
- Two live-reply writes of one turn can overlap, and an entry dropped from the table can take
  its turn's place back (`LiveReplyTurns.DroppedOpeningComesBack`). Neither happens as long as no
  part opens an entry for a turn with an earlier entry that still writes or has yet to open
  (`LiveReplyTurns.WritesOfATurnDoNotOverlap`), and every part that does leads to an overlap
  (`LiveReplyTurns.UnquietTurnsOverlap`).
- The live-reply table can hold one entry more than its bound
  (`LiveReplyTurns.TheBoundIsExceeded`), exactly after a part that opens an entry when the sweep
  left the table full (`LiveReplyTurns.BoundAfterStep`).
- Between a flush's last step and the moment it is forgotten nobody carries what is queued: an edit
  sent then (`EditOutboxLaws.AnEditIsStranded`) and the flush that a connect asks for then
  (`EditOutboxLaws.AConnectIsUnheard`) wait for the next one. At any other time, with the gateway
  connected, both leave a flush at work (`EditOutboxLaws.NewEditsAreCarriedUnlessLeaving`,
  `EditOutboxLaws.FlushesAreHeardUnlessLeaving`), which drains the outbox as long as the gateway
  stays connected and answers well (`EditOutboxLaws.FlushDrains`).
- A change of presence markers can be lost although the entry is wanted: when it comes during the
  eighth pass or the clean-up (`PresenceLosses.ALateChangeIsLost`), and when it comes while the
  message is being resolved, in any pass, and that fails
  (`PresenceLosses.AFailedResolveLosesAChange`). `PresenceLosses.ChangesAreLostIff` is the exact
  condition, for every answer in every pass.
- A status line that is to be set again, because a reply has cleared it, is not when that happens
  while the call that sets it is under way (`PresenceSettles.AReassertIsSwallowed`,
  `PresenceSettles.ReassertsAreSwallowedIff`).
- On Discord, presence markers come off only if the bot's id and the message's reactions are
  known (`PresenceLaws.NothingComesOffWithoutRemoval`).

## Model

| member | source | states |
|---|---|---|
| `DiscordScan.RecoverConversation` | packages/adapter-discord/src/recovery.ts:711-885 | For every port and every callback the paging loop returns the outcome and the trace of deliveries and discards of the recursive specification, error, truncation and uniform-failure exits included. |
| `DiscordScan.ReplayPage` | packages/adapter-discord/src/recovery.ts:797-861 | The loop over a page is a fold that stops at the first message that ends the run. |
| `DiscordScan.HandleMessage` | packages/adapter-discord/src/recovery.ts:798-860 | One message moves the durable cursor only while nothing is held, is held as a candidate, or on a fresh ack commits every held discard but its own. |
| `DiscordScan.CommitHeld` | packages/adapter-discord/src/recovery.ts:733-739 | Every held candidate is discarded once, in the order it was held. |
| `DiscordScanLaws.DiscardsNeedEvidence` | packages/adapter-discord/src/recovery.ts:728-860 | Whatever the port and the gateway answer: each discard follows a failure of that very message and a fresh ack of a later id, fires once per id, the counters equal what the trace shows, and a run discards at most `uniformLimit - 1` messages per fresh ack, so none without one. |
| `DiscordScanLaws.PagingIsUnobservable` | packages/adapter-discord/src/recovery.ts:740-884 | Against an honest port a run is one fold over the first `maxPages * pageLimit` messages of the ascending gap, and reports truncation exactly when the gap is at least that long. |
| `DiscordScanLaws.DeliversInOrder` | packages/adapter-discord/src/recovery.ts:740-884 | Against an honest port a run hands messages to the callback in strictly ascending order, so none twice. |
| `DiscordScanLaws.FailuresAreReported` | packages/adapter-discord/src/recovery.ts:740-884 | Whatever the port and the gateway answer, a run reports failure if and only if it holds candidates, a fetch failed, or its last event is an unavailable or failed delivery; and a failed fetch is never reported as mere truncation. |
| `DiscordScanProgress.RunsGoOn` | packages/adapter-discord/src/recovery.ts:740-884 | Against an honest port a run deals with the reachable gap from the front, passing blank messages and handing over all others, and with all of it unless its last answer was "unavailable" or at least `max(1, uniformLimit)` candidates have been delivered since the last fresh ack. |
| `DiscordScanProgress.OutcomeFollowsTheTrace` | packages/adapter-discord/src/recovery.ts:711-885 | Whatever the port and the gateway answer: `advancedTo` is the id of the last fresh ack, or the last one walked since with no candidate pending; the candidates held are those delivered since the last fresh ack, never more than the limit; and every candidate a fresh ack followed was discarded, or acked itself. |
| `DiscordScanLaws.RunsDrainTheGap` | packages/adapter-discord/src/recovery.ts:740-884 | With ack, duplicate and skip verdicts only, k runs leave exactly max(0, n - k * maxPages * pageLimit) messages of a gap of n. |
| `DiscordScanLaws.PagesAreSound` | packages/adapter-discord/src/recovery.ts:740-884 | The paging loop keeps the trace lawful, held candidates at or above the cursor in rising order, and the discard allowance. |
| `DiscordStore.SplitLive` | packages/adapter-discord/src/recovery.ts:399-402 | Live watermarks stay live or are parked with fresh, distinct orders above every earlier one. |
| `DiscordStore.MergeParked` | packages/adapter-discord/src/recovery.ts:403-408 | A parked watermark graduates only where no live one exists, and otherwise keeps its entry and its order. |
| `DiscordStore.Oldest` | packages/adapter-discord/src/recovery.ts:409-410 | Sorting by order and taking the first k yields k entries of the lowest orders. |
| `DiscordStore.RetainRecoveryCursors` | packages/adapter-discord/src/recovery.ts:390-412 | Every known watermark is live if recoverable and parked otherwise, and the parking lot keeps its `cap` newest. |
| `DiscordStore.AdvanceRecovered` | packages/adapter-discord/src/main.ts:1983-1994 | A watermark is written, with retention, only when it rises above the effective one. |
| `DiscordStore.FindLeaders` | packages/adapter-discord/src/recovery.ts:468-476 | One pass finds each conversation's lowest id and its most recently recorded one. |
| `DiscordStore.ActiveLedgerIds` | packages/adapter-discord/src/recovery.ts:467-480 | Protected are exactly the current entry and the two leaders of every conversation. |
| `DiscordStore.EvictOverflow` | packages/adapter-discord/src/recovery.ts:445-455 | Eviction is oldest first, spares every protected entry, and stops at the cap. |
| `DiscordStore.RecordAttempt` | packages/adapter-discord/src/recovery.ts:425-463 | One attempt is counted, terminal ones separately, and only unprotected entries make room for it. |
| `DiscordStore.ClearAttempt` | packages/adapter-discord/src/recovery.ts:483-488 | The entry is gone, every other entry is as it was, and nothing else changes. |
| `DiscordStoreLaws.RetentionIsWellParked` | packages/adapter-discord/src/recovery.ts:390-412 | After retention no id is both live and parked, and at most `cap` are parked, whatever the store held before. |
| `DiscordStoreLaws.RetentionKeepsWatermarks` | packages/adapter-discord/src/recovery.ts:381-412 | Retention keeps each effective watermark; it loses one only to `cap` parked entries, none of them older if it was parked itself, all of them parked in the same call if it was live. |
| `DiscordStoreLaws.RetentionIsFaithfulIff` | packages/adapter-discord/src/recovery.ts:403-408 | With room for all, retention keeps every effective watermark if and only if no unrecoverable id is live and parked under two different ones. |
| `DiscordStoreLaws.ALiveWatermarkIsLost` | packages/adapter-discord/src/recovery.ts:399-408 | A store with one id live at 5 and parked at 3, of which retention keeps 3. |
| `DiscordStoreLaws.RetentionIsIdempotent` | packages/adapter-discord/src/recovery.ts:390-412 | Retaining twice is retaining once. |
| `DiscordStoreLaws.ReAddingRestores` | packages/adapter-discord/src/recovery.ts:381-386 | A channel dropped from the configuration and added back resumes from its own watermark. |
| `DiscordStoreLaws.AdvanceIsMonotone` | packages/adapter-discord/src/main.ts:1983-1994 | Advancing a recoverable conversation only raises its watermark and disturbs no other one but by eviction from a full parking lot that keeps none older. |
| `DiscordStoreLaws.RecordSparesHeads` | packages/adapter-discord/src/recovery.ts:418-424 | The message just recorded and every head of line survive a record, and no surviving entry is changed. |
| `DiscordStoreLaws.RecordSparesNewest` | packages/adapter-discord/src/recovery.ts:414-481 | The newest entry of each conversation survives eviction. |
| `DiscordStoreLaws.RecordEvictsOldest` | packages/adapter-discord/src/recovery.ts:414-481 | Within the cap nothing is evicted; beyond it an entry goes only if every survivor is the recorded one, leads its conversation, or was first recorded no earlier. |
| `DiscordStoreLaws.ClearingPromotes` | packages/adapter-discord/src/recovery.ts:483-488 | After a clear the message that blocks a conversation is the lowest of the rest. |
| `DiscordStoreLaws.RecordCountsOnce` | packages/adapter-discord/src/recovery.ts:425-463 | A record raises no count but its own, by at most one, and touches nothing but the ledger. |
| `DiscordStoreLaws.LedgerNeverForgetsABlocker` | packages/adapter-discord/src/recovery.ts:418-488 | Over any run that keeps a message the lowest recorded id of its conversation, its attempts, terminal attempts and order are exact. |
| `DiscordStoreLaws.LedgerIsBounded` | packages/adapter-discord/src/recovery.ts:418-463 | After each record the ledger is within its cap, or holds at most the current entry and two per conversation. |
| `DiscordStoreLaws.DigestNeverForgets` | packages/adapter-discord/src/recovery.ts:490-518 | The log keeps the last `cap` letters that were not replays, and the digest their exact number, first and last per conversation. |
| `DiscordRunsLaws.StepKeeps` | packages/adapter-discord/src/main.ts:1771-1838 | Each step of the crash machine, from fetching a page to a lost write, keeps every snapshot in memory, in the save chain and on disk good. |
| `DiscordRunsLaws.NoCrashLosesAMessage` | packages/adapter-discord/src/main.ts:1771-2006 | In every durable state of every run, each message between where a watermark began and where it stands was acked, known or skipped, or was terminally refused at least three times and is dead-lettered in that very state: the stored digest counts it exactly, and the stored log holds it unless fifty later letters counted. |
| `DiscordRunsLaws.HeldStaysAboveTheCursor` | packages/adapter-discord/src/recovery.ts:728-739 | In every reachable state a held discard candidate lies strictly above the cursor and was terminally refused at least three times. |
| `DiscordRunsLaws.SettlingForgets` | packages/adapter-discord/src/main.ts:1780-1826 | After an ack the ledger in memory has no entry of the message nor of any candidate the ack proved discardable, after a duplicate none of the message; every other entry stays as it was. |
| `DiscordRunsLaws.ForgottenUntilItFails` | packages/adapter-discord/src/main.ts:1771-1838 | Over any part of a run a message without an entry gets none until an attempt of it fails again, or the adapter crashes. |
| `DiscordRunsLaws.EndingAdvances` | packages/adapter-discord/src/main.ts:1838 | The end of a run moves its watermark to the cursor, in memory and in the save it queues. |
| `DiscordRunsLaws.SavesLand` | packages/adapter-discord/src/main.ts:1943-2006 | When queued saves land one by one, what is on disk is the last that landed. |
| `DiscordRunsLaws.LiveAndParkedStayDisjoint` | packages/adapter-discord/src/recovery.ts:399-408 | No reachable store, in memory or on disk, has an id both live and parked. |
| `SlackTs.TsIsAfterIsValueOrder` | packages/adapter-slack/src/recovery.ts:335-343 | The comparison of two timestamp strings is the comparison of the two decimal numbers they denote, for any number of digits. |
| `SlackTs.TsIsAfterIsAStrictWeakOrder` | packages/adapter-slack/src/recovery.ts:335-343 | It is asymmetric and transitive, and so is incomparability, so sorting by it is well defined. |
| `SlackTs.TsIsAfterIsMicrosOrder` | packages/adapter-slack/src/recovery.ts:335-343 | For six decimals it is the order of microsecond counts. |
| `SlackScan.StaleBackfillIds` | packages/adapter-slack/src/recovery.ts:402-422 | The two scans and their table mark exactly the rows of others at least ten minutes old that have a later bot row in the same thread. |
| `SlackScan.TakePage` | packages/adapter-slack/src/recovery.ts:488-497 | A page adds the rows inside the window to the map and widens its ends. |
| `SlackScan.CollectPages` | packages/adapter-slack/src/recovery.ts:480-507 | The page loop equals its specification: it ends at the end, or is cut at the page bound, on a missing cursor or on a repeated one. |
| `SlackScan.CollectReplies` | packages/adapter-slack/src/recovery.ts:512-517 | Every root with replies on the channel's pages is walked, until one walk fails. |
| `SlackScan.DeliverOrdered` | packages/adapter-slack/src/recovery.ts:529-545 | Messages are delivered in timestamp order with their stale flag, the bot's own skipped, until the gateway is unavailable. |
| `SlackScan.RecoverConversation` | packages/adapter-slack/src/recovery.ts:444-546 | For every port and every callback the pass returns the outcome of the specification. |
| `SlackScan.OrderedIsStrict` | packages/adapter-slack/src/recovery.ts:527-529 | The sorted map holds each timestamp once, strictly ascending. |
| `SlackScanLaws.PassDeliversInOrder` | packages/adapter-slack/src/recovery.ts:444-546 | Messages are got past in strictly ascending order, each with an answer of the callback, each counter counts its own verdict, and `advancedTo` is the last of them, or absent when the scan was cut. |
| `SlackScanLaws.ChannelWalkIsExact` | packages/adapter-slack/src/recovery.ts:480-507 | Against an honest port a channel walk that no page stopped holds the newest messages of its window down to some point and nothing else, its ends are theirs, and that is all of the window unless the walk was cut. |
| `SlackScanLaws.PassReaches` | packages/adapter-slack/src/recovery.ts:444-546 | A pass that did not fail got past the newest m messages of its window, all of them unless cut, and its continuation names the oldest of them. |
| `SlackReplies.RepliesAreReached` | packages/adapter-slack/src/recovery.ts:512-517 | In a pass that did not fail, for every root among the newest m messages whose thread is not reported as cut short, every reply newer than the window start, other than the root, was got past. |
| `SlackReplies.PassUsesItsPages` | packages/adapter-slack/src/recovery.ts:480-517 | Over full pages the channel is reported as cut exactly when its window holds more than the page bound takes, and so is each thread of the roots reached. |
| `SlackReplies.HandsOverTrueRows` | packages/adapter-slack/src/recovery.ts:484-500 | Whatever a pass hands over is a message of its window as it is, or a reply filed under its thread and other than its root. |
| `SlackReplies.TellsWhatIsStale` | packages/adapter-slack/src/recovery.ts:525-531 | The callback is told that a message is stale exactly when it is at least ten minutes old and the bot spoke later in its thread. |
| `SlackThread.WalkPages` | packages/adapter-slack/src/recovery.ts:583-597 | The reply page loop equals its specification; a repeated cursor is followed again. |
| `SlackThread.RecoverThread` | packages/adapter-slack/src/recovery.ts:555-631 | For every port and every callback the walk returns the outcome of the specification, and reports how far it got even when cut short. |
| `SlackThread.ThreadWalkIsContiguous` | packages/adapter-slack/src/recovery.ts:548-631 | Whatever one walk reports as reached, even when it was cut or stopped by the gateway, it got past every reply above its cursor up to there; and past all of them when it neither failed nor was cut. |
| `SlackReplies.ThreadWalkReports` | packages/adapter-slack/src/recovery.ts:571-631 | Cut short or not, stopped or not, one walk reports as `advancedTo` the last message it got past, in strictly ascending order and each with an answer of the callback, and each counter counts its own verdict. |
| `SlackReplies.ThreadUsesItsPages` | packages/adapter-slack/src/recovery.ts:583-612 | Over full pages a walk reports truncation exactly when the thread holds more than the page bound takes, and unless the gateway stopped it got past every newer reply among those. |
| `SlackRunsLaws.PassIsSafeIff` | packages/adapter-slack/src/main.ts:1208-1233 | With any arrivals during the pass, it stores a position that loses nothing if and only if, when it is an empty resumed slice, everything below its resume point was finished already, and, when it closes a gap of one slice, every arrival older than the last message it got past is finished. |
| `SlackRunsLaws.CutSliceIsSafe` | packages/adapter-slack/src/main.ts:1211-1223 | A cut slice stores a continuation below which nothing is claimed and inside which everything is finished, including the boundary message it did not refetch. |
| `SlackRunsLaws.ClosedGapIsSafe` | packages/adapter-slack/src/main.ts:1224-1232 | A closing pass may store the end of the gap, or the last message delivered, even a thread reply, as watermark. |
| `SlackRunsLaws.NothingBelowTheWatermarkIsLost` | packages/adapter-slack/src/main.ts:1178-1234 | From any stored watermark, over every sequence of failed, cut and closing passes, arrivals before and during them, and restarts, without a lossy empty slice or overtaking reply, every top-level message at or below the watermark, and everything a continuation skips, was got past. |
| `SlackRunsLaws.EmptySliceIsBlankPages` | packages/adapter-slack/src/recovery.ts:480-507 | A pass is an empty slice if and only if it resumes a scan and the pages it is answered hold no message of its window before the walk is cut. |
| `SlackRunsLaws.EmptySliceLosesAMessage` | packages/adapter-slack/src/main.ts:1211-1232 | A run of two passes from a stored watermark: one is cut after two of three messages, the next meets an empty page, and the watermark moves over the message never fetched. |
| `SlackRunsLaws.AReplyOvertakesAnArrival` | packages/adapter-slack/src/recovery.ts:515-543 | A run of one pass from a stored watermark: a message arrives after the channel was read, a newer reply is read with its thread, and the watermark moves over the message never got past. |
| `SlackRunsLaws.CompletePass` | packages/adapter-slack/src/recovery.ts:459-507 | A pass without failures closes an empty window and fetches something of any other. |
| `SlackRunsLaws.CompleteStepLowers` | packages/adapter-slack/src/main.ts:1208-1234 | Each such pass lowers the pair of messages above the watermark and messages not yet reached, until the gap is empty, and keeps it empty. |
| `SlackRunsLaws.OneSliceCloses` | packages/adapter-slack/src/main.ts:1224-1232 | A complete pass that closes a gap of one slice leaves nothing above the watermark. |
| `SlackRunsLaws.DrainTerminates` | packages/adapter-slack/src/main.ts:1208-1234 | Over a static history the gap is empty after at most as many such passes as the measure says, and stays so. |
| `SlackChunker.FindFences` | packages/adapter-slack/src/mrkdwn.ts:176-181 | The scan lists exactly the fence lines in order, opening and closing in turn, and misses none, not even one that ends the text. |
| `SlackChunker.StateAt` | packages/adapter-slack/src/mrkdwn.ts:182-189 | A position is inside a fence exactly when an odd number of fence lines ends at or before it. |
| `SlackChunker.FindCrossing` | packages/adapter-slack/src/mrkdwn.ts:202 | The fence found crosses the window's end, and none does when none is found. |
| `SlackChunker.CrossingHidesNoBoundary` | packages/adapter-slack/src/mrkdwn.ts:202-203 | Pulling the window back to a crossing fence loses no line boundary. |
| `SlackChunker.FindPreferred` | packages/adapter-slack/src/mrkdwn.ts:204-211 | The backward search terminates and finds the last line boundary outside a fence, or shows that there is none. |
| `SlackChunker.NothingOpensAtOne` | packages/adapter-slack/src/mrkdwn.ts:206 | No fence ends at position 1, where the clamped backward search would repeat itself. |
| `SlackChunker.ChooseCut` | packages/adapter-slack/src/mrkdwn.ts:202-216 | The cut is the last line boundary outside a fence, else the last line boundary, else a hard break that splits no surrogate pair. |
| `SlackChunker.ChunkSlackMessage` | packages/adapter-slack/src/mrkdwn.ts:174-224 | For every text the loops terminate, every chunk is at most 4000 units with its synthetic fences, and every cut is the best one. |
| `SlackChunkerLaws.ChunkingConserves` | packages/adapter-slack/src/mrkdwn.ts:190-223 | The bodies of the chunks, joined, are the text. |
| `SlackChunkerLaws.CutsAreClean` | packages/adapter-slack/src/mrkdwn.ts:204-220 | No cut splits a surrogate pair, a closer is matched by the next opener and vice versa, and a closer is used only when no boundary outside a fence fits the window. |
| `SlackChunkerLaws.ChunksAreFull` | packages/adapter-slack/src/mrkdwn.ts:194-222 | A chunk that is not the last is followed by more than fits into 4000 units and ends behind every line boundary outside fences that fits; with no boundary to end at it is full but for half a surrogate pair. |
| `SlackChunkerLaws.ShortMessagesAreWhole` | packages/adapter-slack/src/mrkdwn.ts:175 | A message of at most 4000 units is one chunk. |
| `SlackChunkerLaws.FencesAreThreeBackticks` | packages/adapter-slack/src/mrkdwn.ts:178 | A line is a fence if and only if three backticks follow its spaces and tabs. |
| `SlackChunkerLaws.ChunkingIsUnique` | packages/adapter-slack/src/mrkdwn.ts:190-223 | The rule of best cuts determines the chunks. |
| `SlackChunkerLaws.ChunkingPreservesMeaning` | packages/adapter-slack/src/mrkdwn.ts:174-224 | If every line with its newline is at most 3992 units, each line starts a line of its chunk with the same text, inside or outside a fence as in the source, and every chunk but the last has an even number of fence lines. |
| `Presence.PresenceEntry.Reconcile` | packages/adapter-slack/src/status.ts:237-242 | A call that finds the loop running leaves a mark, any other one starts the loop. |
| `Presence.PresenceEntry.RunPass` | packages/adapter-slack/src/status.ts:244-308 | A pass from the head of the loop to the next await equals its specification, the clean-up after eight passes included. |
| `Presence.PresenceEntry.RunChanges` | packages/adapter-slack/src/status.ts:269-292 | Removals go first, then additions while the entry is wanted, then the next pass. |
| `Presence.PresenceEntry.Resume` | packages/adapter-slack/src/status.ts:254-308 | The loop goes on from each answer: a removal counts as gone either way, a refused addition ends the loop unless the entry was retired or changed meanwhile. |
| `Presence.PresenceEntry.Retire` | packages/adapter-slack/src/status.ts:192-195 | Retiring makes the entry unwanted and drives the loop. |
| `Presence.PresenceEntry.Rearm` | packages/adapter-slack/src/status.ts:117-127 | Arming the same message keeps what is shown and starts over. |
| `Presence.PresenceEntry.Update` | packages/adapter-slack/src/status.ts:152-164 | Progress changes the desired markers of a wanted entry only. |
| `Presence.PresenceEntry.Reassert` | packages/adapter-slack/src/status.ts:184-189 | Forgetting the confirmed line has it set again. |
| `PresenceLaws.RetirementCompletes` | packages/adapter-slack/src/status.ts:229-312 | Under every interleaving of arming, progress, retirement and answers, once no reconcile runs for an unwanted entry nothing is shown and every marker added had a removal tried after its last addition, all eight passes used or not. |
| `PresenceLaws.RetiredEntriesComeClean` | packages/adapter-slack/src/status.ts:297-311 | After retirement the loop ends after finitely many answers, whatever they are, with nothing left. |
| `PresenceLaws.UnwantedEntriesAddNothing` | packages/adapter-slack/src/status.ts:280-292 | No event begins an addition for an unwanted entry. |
| `PresenceLaws.LoopEndsSettled` | packages/adapter-slack/src/status.ts:265-295 | While it has a pass to spare, a successful answer ends the loop only with exactly the desired markers shown. |
| `PresenceLosses.ChangesAreLostIff` | packages/adapter-discord/src/main.ts:805-880 | For every answer in every pass, the loop of a wanted entry ends with a change still marked if and only if one came meanwhile and the answer stops the loop on the spot: a refused resolve, the end of the last pass or of the clean-up, or a refused addition with nothing marked. It then shows what the pass had come to, and otherwise goes on or ends with exactly the desired markers. |
| `PresenceLosses.OnlyAnswersLoseChanges` | packages/adapter-discord/src/main.ts:805-880 | In every life of an entry nothing but such an answer leaves it wanted, with a change marked and no loop to look at it. |
| `PresenceLosses.UnmarkedLoopsEndSettled` | packages/adapter-slack/src/status.ts:244-295 | With no change marked, a good answer that stops the loop leaves exactly the desired markers. |
| `PresenceLosses.ALateChangeIsLost` | packages/adapter-slack/src/status.ts:232-296 | A life of an entry in which the markers change in each of eight passes and the last change never shows. |
| `PresenceLosses.AFailedResolveLosesAChange` | packages/adapter-discord/src/main.ts:831-838 | A life in which the markers change in the first pass, the message cannot be resolved, and the change stays marked with no loop. |
| `PresenceSettles.ChangesComeToShow` | packages/adapter-slack/src/status.ts:105-168 | In every life, when a message is armed again or a wanted entry is updated while no loop runs or one has a pass to spare, nothing else of the entry changes, and with good answers the loop ends with exactly the new markers and, in a thread, the new line. |
| `PresenceSettles.LinesAreSet` | packages/adapter-slack/src/status.ts:244-268 | In every life a threaded entry at rest with no change marked has the line it should have, or none when it is not wanted. |
| `PresenceSettles.ReassertedLinesAreSet` | packages/adapter-slack/src/status.ts:187-192 | With no loop under way a forgotten line is set again at once. |
| `PresenceSettles.ReassertsAreSwallowedIff` | packages/adapter-slack/src/status.ts:187-268 | Whatever call is under way when a line is forgotten, its answer makes the line count as set if and only if it sets this very line. |
| `PresenceSettles.AReassertIsSwallowed` | packages/adapter-slack/src/status.ts:187-268 | A life in which a line is forgotten while it is being set, and counts as set all the same. |
| `PresenceLaws.AnswersMoveTheLoopOn` | packages/adapter-slack/src/status.ts:244-296 | Every answer moves the loop on: to a later pass, a later stage, or fewer names. |
| `PresenceLaws.NothingComesOffWithoutRemoval` | packages/adapter-discord/src/main.ts:839-877 | Without a bot id or without reactions no removal is ever tried, so exactly the markers added stay on the message. |
| `Limiter.OutboundLimiter.RunDrain` | packages/adapter-slack/src/api.ts:120-132 | The drain loop hands out slots until nobody waits or the next slot is in the future. |
| `Limiter.OutboundLimiter.Acquire` | packages/adapter-slack/src/api.ts:95-118 | A caller joins its channel's lane, born on demand, and starts the drain unless one sleeps. |
| `Limiter.OutboundLimiter.Retire` | packages/adapter-slack/src/api.ts:137-150 | A lane is deleted only if it is still the channel's, idle, and past its cooldown. |
| `Limiter.OutboundLimiter.PendingMs` | packages/adapter-slack/src/api.ts:103-109 | The time until the last slot of the channel's lane, were one more cosmetic caller to ask now and the lane then be served slot by slot. |
| `LimiterLaws.SendsAreSpacedAndRanked` | packages/adapter-slack/src/api.ts:120-152 | Two sends on a channel are at least the interval apart, even across lanes retired and born again, and a cosmetic send leaves no earlier delivery waiting. |
| `LimiterLaws.WaitersAreServedInOrder` | packages/adapter-slack/src/api.ts:95-152 | Per class, those sent followed by those waiting are exactly those who asked, in order; no deleted lane holds a waiter, and a lane with waiters is asleep until its next slot. |
| `LimiterLaws.TimersForgetIdleLanes` | packages/adapter-slack/src/api.ts:137-150 | A retirement timer deletes the lane if and only if it is still the channel's, nobody waits and its cooldown is over, and touches nothing else. |
| `LimiterLaws.PendingIsExact` | packages/adapter-slack/src/api.ts:95-132 | In every run from a cosmetic caller's arrival on, with any traffic on other channels, none on its own and timers that are not late, the caller still waits, no longer than `pendingMs`, or was sent at exactly that time. |
| `LimiterLaws.WakingServes` | packages/adapter-slack/src/api.ts:120-132 | While somebody waits, sleeping until the next slot and waking is such a run's next step, and serves at least one of them. |
| `LiveReply.LiveReplyTracker.DropExpired` | packages/adapter-slack/src/live-reply.ts:214-216 | Exactly the entries past their time go. |
| `LiveReply.LiveReplyTracker.DropOldest` | packages/adapter-slack/src/live-reply.ts:217-222 | The first entries beyond the bound go. |
| `LiveReply.LiveReplyTracker.Deliver` | packages/adapter-slack/src/live-reply.ts:88-113 | A part opens an entry, queues behind its turn's entry, or is left to the caller. |
| `LiveReply.LiveReplyTracker.AnswerPost` | packages/adapter-slack/src/live-reply.ts:131-157 | The opening posts go on, land, or give up the reservation. |
| `LiveReply.LiveReplyTracker.StartAppending` | packages/adapter-slack/src/live-reply.ts:164-187 | A later part is replayed, left to the caller, or edited in at its first-seen place. |
| `LiveReply.LiveReplyTracker.AnswerEdit` | packages/adapter-slack/src/live-reply.ts:186-200 | A successful edit applies the part, a refusal seals the entry, anything else leaves the part unapplied. |
| `LiveReplyLaws.LiveMessageIsTheJoinedParts` | packages/adapter-slack/src/live-reply.ts:164-201 | After each successful edit the live message is the join of the applied parts in first-seen order, each once. |
| `LiveReplyLaws.NoEditDropsAnAppliedPart` | packages/adapter-slack/src/live-reply.ts:176-185 | Whatever edit is in flight, also after an ambiguous failure, renders every part confirmed so far in its place and is at most 4000 units. |
| `LiveReplyLaws.ReplayCallsNothing` | packages/adapter-slack/src/live-reply.ts:169-172 | Replaying a confirmed part of a tracked turn makes no platform call, sealed or not. |
| `LiveReplyLaws.SealedEntriesStaySealed` | packages/adapter-slack/src/live-reply.ts:164-201 | No step reopens a sealed entry or sends an edit for it. |
| `LiveReplyFolds.PartsThatFitAreFolded` | packages/adapter-slack/src/live-reply.ts:164-187 | In every history a part of a tracked, live, open turn that is not applied sends exactly one edit, of the applied parts and the new one joined by empty lines in first-seen order, if and only if that is at most 4000 units; otherwise nothing, and the entry is sealed. |
| `LiveReplyFolds.EditAnswersDecide` | packages/adapter-slack/src/live-reply.ts:186-200 | A good answer applies the part, shows what was sent and leaves the entry open unless the part was final; a refusal seals it; any other answer leaves it as it was. |
| `LiveReplyFolds.OpeningsPostEverything` | packages/adapter-slack/src/live-reply.ts:131-157 | In every history the posts of an opening that lands are exactly the chunks of its text in order, and the last one is the live message. |
| `LiveReplyFolds.FailedOpeningsLetGo` | packages/adapter-slack/src/live-reply.ts:142-162 | A failed opening is no longer tracked for its turn and posts nothing more. |
| `LiveReplyFolds.ClosingSeals` | packages/adapter-slack/src/live-reply.ts:120-123 | Closing a turn seals its tracked entry. |
| `LiveReplyTurns.BoundAfterStep` | packages/adapter-slack/src/live-reply.ts:203-223 | The table is within 64 entries after an opening landed and after a part that opens no entry; a part that opens one leaves one more than the sweep kept, so 65 exactly when that was 64; no other step adds any. |
| `LiveReplyTurns.TheBoundIsExceeded` | packages/adapter-slack/src/live-reply.ts:88-108 | A history of 65 turns that open at once leaves 65 entries in the table. |
| `LiveReplyLaws.SweepDropsTheLeastRecent` | packages/adapter-slack/src/live-reply.ts:203-223 | The table stays in the order of last touch, so the sweep drops what expired and otherwise only entries touched no later than all it keeps. |
| `LiveReplyTurns.WritesOfATurnDoNotOverlap` | packages/adapter-slack/src/live-reply.ts:88-113 | In every history in which no part opens an entry beside an earlier one of its turn that still writes or has yet to open, at most one entry of each turn writes at a time, and a superseded entry is out of the table and stays out. |
| `LiveReplyTurns.UnquietTurnsOverlap` | packages/adapter-slack/src/live-reply.ts:88-113 | In every history a part that does open such an entry, whether the earlier one was dropped while opening, while editing or for room, leads to two writes of the turn at once within two further steps; every part has at least one chunk, which cutting always gives. |
| `LiveReplyTurns.LandedOpeningTakesThePlace` | packages/adapter-slack/src/live-reply.ts:152-155 | An opening that lands while its turn is in the table takes the turn's place, from whichever entry holds it. |
| `LiveReplyTurns.DroppedOpeningComesBack` | packages/adapter-slack/src/live-reply.ts:152-157 | For any two parts of a turn a history in which the opening of the first outlives its expiry, the second opens beside it so that both write, and the first returns to the table when it lands. |
| `Scheduler.RecoveryScheduler.Trigger` | packages/adapter-slack/src/recovery.ts:658-667 | A trigger starts the loop, or marks a follow-up and wakes a sleeping one. |
| `Scheduler.RecoveryScheduler.Stop` | packages/adapter-slack/src/recovery.ts:669-673 | Stopping drops the follow-up and wakes a sleeping loop. |
| `Scheduler.RecoveryScheduler.FinishPass` | packages/adapter-slack/src/recovery.ts:685-691 | After a pass the loop ends, starts another pass at once, or sleeps for the jittered backoff. |
| `SchedulerLaws.HistoriesAreLawful` | packages/adapter-slack/src/recovery.ts:634-709 | Passes never overlap, start only before a stop, and only for an unanswered trigger or after a sleep; a sleep follows a pass that did not complete and is within its backoff and a fifth more; and the loop ends only stopped or right after a completed pass with no trigger since it began. |
| `SchedulerLaws.NoTriggerIsLost` | packages/adapter-slack/src/recovery.ts:658-704 | Until a stop, an unanswered trigger keeps the loop going and the next thing the loop does is start a pass. |
| `SchedulerLaws.PassesAreFollowedUp` | packages/adapter-slack/src/recovery.ts:677-704 | After a pass the loop ends if it was stopped, passes again if it was triggered since the pass began, ends if the pass completed, and sleeps otherwise. |
| `SchedulerLaws.TriggersAreHeard` | packages/adapter-slack/src/recovery.ts:658-668 | A trigger before any stop is noted, and starts a pass at once when no loop runs. |
| `SchedulerLaws.SleepersRetry` | packages/adapter-slack/src/recovery.ts:690-704 | A sleep that nobody cuts short ends with its timer, and a retry follows unless the loop was stopped. |
| `SchedulerLaws.BackoffStaysInRange` | packages/adapter-slack/src/recovery.ts:686-690 | Backoff is one second doubled per retry since the last completed pass, capped at one minute. |
| `SendGate.LruSet.AddIfAbsent` | packages/adapter-slack/src/main.ts:242-248 | The value becomes the most recent one and the oldest beyond the limit is forgotten. |
| `SendGate.RecoveryGate.Join` | packages/adapter-discord/src/recovery.ts:134-156 | A call joins the attempt in flight, is a duplicate of an acknowledged id, or starts an attempt. |
| `SendGate.RecoveryGate.Settle` | packages/adapter-discord/src/recovery.ts:138-153 | An answered attempt is no longer pending and marks its id only when it was acked. |
| `SendGate.RecoveryGate.ForgetBeyond` | packages/adapter-discord/src/recovery.ts:163-166 | Only the most recent ids up to the limit are kept. |
| `SendGateLaws.SendsAreSingleFlightAndWindowed` | packages/adapter-discord/src/recovery.ts:119-167 | A send starts only when none is in flight for its id and the id was never acked or at least `limit` other ids were since; joiners join the attempt in flight; only an acked id is refused as duplicate. |
| `SendCallers.JoinersShareTheOutcome` | packages/adapter-slack/src/main.ts:711-718 | In every history each joiner is told what the one earlier caller is told whose send of the same id it joined, with "duplicate" in place of a success on Slack; a refused caller is told "duplicate"; and once nothing is in flight for an id, everyone who called with it was told something. |
| `SendCallers.OneAckPerSend` | packages/adapter-slack/src/main.ts:711-718 | On Slack no two callers are told "acked" for one send. |
| `SendCallers.AnswersAreFinal` | packages/adapter-discord/src/recovery.ts:134-156 | What a caller was told is never taken back or changed by a later step. |
| `SendGateLaws.FailuresStayRetryable` | packages/adapter-slack/src/main.ts:703-753 | The next call for an id that was never acked and is not in flight starts a send, and memory stays within the limit. |
| `SendGateLaws.PendingAndAckedAreDisjoint` | packages/adapter-discord/src/recovery.ts:138-153 | In Discord's gate no id is both in flight and acknowledged. |
| `EditOutbox.Outbox.SendEdit` | packages/adapter-discord/src/main.ts:2036-2050 | An edit takes the place of an older one of its message, the oldest beyond the cap goes, and a flush is asked for. |
| `EditOutbox.Outbox.FlushEdits` | packages/adapter-slack/src/main.ts:785-790 | At most one flush at a time, begun at once or in a later turn. |
| `EditOutbox.Outbox.TakeNext` | packages/adapter-discord/src/main.ts:2064-2073 | The oldest queued edit is requested, or the flush ends. |
| `EditOutbox.Outbox.Answered` | packages/adapter-slack/src/main.ts:798-810 | An acknowledged edit leaves the outbox unless a newer one took its place; a failure ends the flush or moves it to a new client. |
| `EditOutboxLaws.EditsAreAccountedFor` | packages/adapter-discord/src/main.ts:2020-2099 | Under every interleaving each edit is queued, superseded by a newer edit of its message, acked or evicted, and at most 256 are queued. |
| `EditOutboxLaws.NewerEditsAreNeverOvertaken` | packages/adapter-discord/src/main.ts:2020-2099 | An older edit of a message is never acked after a newer one. |
| `EditOutboxLaws.FlushDrains` | packages/adapter-discord/src/main.ts:2057-2098 | A flush at work that gets as many good answers as there are requests to make, those for edits sent on the way included, reaches a state with nothing queued, in which every edit sent so far is acked, superseded or evicted. |
| `EditOutboxLaws.DrainsInOrder` | packages/adapter-discord/src/main.ts:2064-2084 | Good answers in a row acknowledge the queued edits from the first on, in order, and the next one is then on its way, or the flush leaves. |
| `EditOutboxLaws.RequestsTakeTheFirst` | packages/adapter-discord/src/main.ts:2057-2073 | Whatever step makes a new request asks for the first queued edit. |
| `EditOutboxLaws.PlacesAreKept` | packages/adapter-discord/src/main.ts:2044 | A newer edit keeps the place of the one it replaces, and any other goes to the end. |
| `EditOutboxLaws.FailuresKeepEverything` | packages/adapter-slack/src/main.ts:798-812 | A failed request loses nothing; on Slack the flush goes on with the oldest edit at once if another client is connected by then, and otherwise leaves. |
| `EditOutboxLaws.NewEditsAreCarriedUnlessLeaving` | packages/adapter-discord/src/main.ts:2057-2098 | With the gateway connected a new edit leaves a flush at work if and only if the last flush is not between its last step and its clean-up; if it is, the edit stays queued, with no flush, until the outbox is flushed or written again. |
| `EditOutboxLaws.FlushesAreHeardUnlessLeaving` | packages/adapter-discord/src/main.ts:2057-2098 | With the gateway connected and something queued, a flush that is asked for leaves a flush at work under the same condition; if it is dropped, what is queued stays, with no flush, until the outbox is flushed or written again. |
| `EditOutboxLaws.AnEditIsStranded` | packages/adapter-discord/src/main.ts:2057-2098 | A run that ends with an edit queued, the gateway connected and no flush. |
| `EditOutboxLaws.AConnectIsUnheard` | packages/adapter-discord/src/main.ts:2020-2098 | A run in which an edit is sent while the gateway is away and the flush the connect asks for is dropped: the edit stays queued, the gateway connected, no flush. |

## Left out

- Files, sockets and HTTP: cursor bytes and fsync, Web API and gateway calls, downloads, speech. Only their outcomes and the order of saves are modelled.
- Text conversion by regular expressions, mention repair and error classification by code or message: arbitrary inputs of the models.
- `SlackChunker.FindFences`: "\n" is the only line terminator; the multiline anchors of the pattern also accept "\r", U+2028 and U+2029.
- `SlackScan.RecoverConversation`: two spellings of one timestamp (`1.5` and `1.50`) would be two map keys in the code and are one here; a page with a malformed timestamp is an unreadable page; `Number(ts)` is exact.
- `SlackRunsLaws.NothingBelowTheWatermarkIsLost`: starts from a stored watermark, because without one the window start moves with the clock; it claims top-level messages only, and thread completeness is claimed for one walk (`SlackThread.ThreadWalkIsContiguous`). The closing watermark is not claimed to be the newest message of the gap: with three or more slices it is lower.
- `DiscordRunsLaws.NoCrashLosesAMessage`: the set of recoverable conversations is chosen anew at each pass; discovery of threads and direct messages, and the strikes against unreadable conversations, are not modelled. The retry timer of a pass triggered while another runs may be cleared by a clean pass, so no claim is made that every Discord trigger is followed by a pass.
- `DiscordScanLaws.RunsDrainTheGap`: progress is claimed without candidates and unavailable verdicts, because a candidate followed by a full window of duplicates never gets a fresh ack.
- `PresenceLaws.RetirementCompletes`: claims that removals were tried, not that they succeeded, which is all the code claims; which markers and line a snapshot asks for is arbitrary, and a Discord removal whose reaction cannot be looked up counts as tried.
- `Presence.PresenceEntry.Reconcile`: whether markers can be removed is fixed for the life of an entry; the code reads the bot's id anew at each reconcile, so an entry whose bot id becomes known later is not covered.
- `Presence.PresenceEntry.Resume`: on Discord without a bot id the code removes without awaiting; the model may stop there too.
- `LiveReply.LiveReplyTracker.Deliver`: entries are numbered values in a sequence rather than heap objects; that a turn's writes are serialised is modelled per entry, and across entries of one turn it holds under the condition of `LiveReplyTurns.WritesOfATurnDoNotOverlap`.
- `Limiter.OutboundLimiter.RunDrain`: synchronous code takes no time, sleeps never end early, and lanes are numbered values in the map.
- Slack's unreadable-channel strikes, participated and pending thread records, and the outage gate; reconnect and lease logic; the rate-limit retry loop of the Web API client.
- Chunkers of the other adapters, origin and author naming, attachment labels, configuration checks, the admin console, the command line, setup and release scripts: easy members or process plumbing.
