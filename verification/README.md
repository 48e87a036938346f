# Pebble: synchronisation protocols and their algorithms

Pebble is a mail client. Much of it keeps local state in step with something else: a
Gmail account's history, a POP3 mailbox, a browser's OAuth flow, a backend that stores
drafts and notes. This project models those protocols with their loops, interleavings and
failure paths, together with the self-contained algorithms beside them, and proves what
holds of them over whole runs. `dafny verify dfyconfig.toml` checks everything.

A protocol is a value `State`, a function `Step` (or one function per phase) and lemmas
about all runs. Objects the program changes in place are classes whose methods say that
they make exactly such a step. Network replies, clocks, random values and storage
failures are inputs, and theorems hold for all of them.

| file | component |
|---|---|
| `Basics.dfy`, `Sequences.dfy`, `Text.dfy` | options, results and bytes; stable sorting and filtering; white space, lines, decimal numbers |
| `GmailHistory.dfy` | the history log, its compaction, the flag changes derived from it, paging |
| `GmailSync.dfy` | the local store and the worker: initial sync and polls |
| `GmailMirror.dfy`, `GmailInitial.dfy`, `GmailLoss.dfy` | what the worker keeps over whole runs, and what it loses |
| `GmailProgress.dfy` | exactly which faults and replies stop the cursor |
| `GmailCycle.dfy` | which poll cycles run while the failure circuit is open |
| `SyncRuntime.dfy` | the per-account worker manager, cut at its lock sections |
| `OAuthFlow.dfy` | the browser OAuth transaction, cut at its lock sections |
| `DraftAutosave.dfy` | the draft save loops, cut at their awaits |
| `KanbanStore.dfy` | notes, cards and fetches of the kanban board, cut at their awaits |
| `IconFill.dfy` | the icon generator's flood fill and edge fade |
| `Pop3Wire.dfy`, `Pop3Sync.dfy` | POP3 framing and listings (sections 3, 5 and 7 of RFC 1939); fetching and draining |
| `CryptoEnvelope.dfy`, `KeyStore.dfy` | context-bound encryption over an ideal AEAD (section 2 of RFC 5116); the data key |
| `Snippet.dfy`, `FolderAggregation.dfy`, `Reconcile.dfy`, `PollPolicy.dfy` | snippets, unread badges, flag reconciliation, polling arithmetic |

## What the code does not do

Some statements one would expect are false of the code. Each has a lemma with the input
or the exact condition:

- A Gmail message taken out of its only label is soft-deleted locally, by a poll in which
  nothing fails, although the server never deleted it
  (`GmailLoss.CleanPollLosesArchivedMessage`); likewise a message moved between two labels,
  when it is taken out of the first one first, although the server still shows it under the
  second (`GmailLoss.CleanPollLosesMovedMessage`). It stays lost (`GmailLoss.LostStaysLost`).
  `GmailLoss.SurvivesPollIff` says exactly which messages a poll leaves, whatever fails, and
  `GmailLoss.HeldThroughoutIff` which messages a whole run leaves. The cause is
  that the store deletes a message on leaving its last folder
  (`crates/pebble-store/src/messages.rs:826-858`) and its lookup ignores deleted messages
  (`crates/pebble-store/src/messages.rs:885-903`).
- A full resync of a store that holds messages only adds to them. Without failures it makes
  the mirror hold at its cursor if and only if none of them has been deleted on the server,
  has a wrong flag or has a label that the server has taken away, and the listings show every
  label they lack (`GmailInitial.ResyncMirrorsIff`, `GmailInitial.RepairedIff`).
- A stop of a sync worker that falls between the two lock sections of a start does not
  cancel the start (`SyncRuntime.StopDoesNotCancelStart`). A stop is final if and only if no
  start in flight can still bring a worker (`SyncRuntime.StopIsFinalIff`).
- A sync start that fails late removes whatever entry its account has by then, which can be
  the worker of a newer start or of an older one (`SyncRuntime.LateFailureAbortsOther`,
  `SyncRuntime.LateFailureAbortsOlder`). All workers survive if and only if the entry is not
  a working worker (`SyncRuntime.FailureHarmlessIff`), and the entry is still the start's own
  placeholder if and only if no stop, commit or failed start of the account came in between
  (`SyncRuntime.KeepsPlaceholderIff`).
- A change of the polling interval can be undone by a start that was in flight: it puts the
  worker with the old interval back and aborts the new one (`SyncRuntime.StaleWorkerReturns`),
  or makes the new start a no-op (`SyncRuntime.StaleWorkerStays`). The change lasts if and only
  if every start of the account in flight holds a working worker with the new interval
  (`SyncRuntime.PreferenceLastsIff`, and over a given run `SyncRuntime.ServedThroughoutIff`).
- A trigger that arrives between the lock sections of a start is accepted and lost
  (`SyncRuntime.TriggerIsSwallowed`). An accepted trigger reaches a worker if and only if the
  account's entry is not a placeholder (`SyncRuntime.TriggerReachesWorkerIff`).
- A failing edit of a kanban note restores the note's settled value if and only if no edit
  of it was pending at its issue, or that edit's text was the settled value already
  (`KanbanStore.FailedEditRestoresIff`, `KanbanStore.OverlappingFailures`).
- A failing card change puts back the whole board from before it. That undoes nothing else
  if and only if the board is still the one the change made
  (`KanbanStore.FailureUndoesOnlyItselfIff`). Two overlapping changes that both fail leave
  the unsaved board of the first (`KanbanStore.OverlappingChangesFail`): a card whose removal
  failed stays away (`KanbanStore.FailedRemovalStays`).
- A reordering of a column takes a card that its list leaves out off the board
  (`KanbanStore.ReorderKeepsIff`).
- A POP3 response cut right after a lone dot passes for complete (`Pop3Wire.CutStream`,
  `Pop3Wire.CutAfterStuffing`).
- A POP3 message that was stored but not marked seen, and has left the inbox since, makes
  every later round over the mailbox fail as soon as one round would select it
  (`Pop3Sync.BlockedForEver`). Rounds drain a mailbox if and only if each of its unknown
  messages can be stored at the start (`Pop3Sync.DrainsIff`). Five such polls open the circuit
  (`Pop3Sync.BlockedOpensCircuit`), and an open POP3 circuit never closes
  (`Pop3Sync.CircuitIsAbsorbing`), unlike Gmail's (`GmailCycle.CircuitCloses`).
- Legacy ciphertext whose nonce happens to start with the envelope's magic is not read
  (`CryptoEnvelope.LegacyRoundTripIff`).
- A folder with an empty id shows no unread badge (`FolderAggregation.EmptyIdLosesUnread`,
  `FolderAggregation.UnreadConserved`).
- A first failure in the background can shorten the poll delay
  (`PollPolicy.FirstFailureShortensIff`).

## What is assumed

- Gmail: message ids are not reused; folder ids are distinct and not empty; a fetch returns
  the labels the server has at some moment between the history's end and the present. The
  pages of a label's listing may be read at different moments: each listed message carried
  the label, undeleted, at some moment since the cursor was read. The store keeps one live message per remote id. Message and label pairs that the Inbox
  fallback got wrong are exempt from the mirror (`GmailMirror.FallbackPairs`). The mirror
  starts at an initial sync of a store that holds nothing and lasts until a poll resyncs
  because its cursor has expired or cannot be read.
- Sync manager: an abort takes effect at once, and a worker's trigger receiver lives as
  long as its loop.
- OAuth: new tokens have never been used, and the clock does not go back. Answers of polls
  that passed the pending lock before their flow was started do not count, and
  `OAuthFlow.EarlyPollExpiresFirst` shows why.
- Drafts and board: JavaScript runs to the next await without interruption.
- POP3: each character of a stream is one byte.
- Encryption: nonce and ciphertext never repeat, and only what was sealed opens.

## Model

| member | source | states |
|---|---|---|
| `GmailHistory.LastRecordDecides` | crates/pebble-mail/src/gmail_sync.rs:186-226 | what the log does to a label of a message is what the last record that mentions both does: a removal if it has one, else the addition |
| `GmailHistory.CompactOncePerPair` | crates/pebble-mail/src/gmail_sync.rs:186-226 | each message and label pair appears once in the compacted log |
| `GmailHistory.CompactKeepsLastAction` | crates/pebble-mail/src/gmail_sync.rs:186-226 | the compacted log has, for every pair, the last action of the full log, and no pair the log lacks |
| `GmailHistory.CompactionPreservesReplay` | crates/pebble-mail/src/gmail_sync.rs:186-226 | applying the compacted mutations in any order gives the label sets of replaying the whole log in order |
| `GmailHistory.LabelMutations` | crates/pebble-mail/src/gmail_sync.rs:186-226 | the loops over entries, changes and labels compute that compacted log, in order of last occurrence |
| `GmailHistory.FlagsMatchFullReplay` | crates/pebble-mail/src/gmail_sync.rs:235-271 | flag changes taken from the compacted log: one per affected message, each equal to the UNREAD and STARRED outcome of the full replay |
| `GmailHistory.FlagChanges` | crates/pebble-mail/src/gmail_sync.rs:235-271 | the table-filling loop computes those flag changes |
| `GmailHistory.CollectHistory` | crates/pebble-mail/src/gmail_sync.rs:288-327 | the page loop collects what its specification over page replies collects, for every sequence of replies |
| `GmailHistory.CollectRestoresLog` | crates/pebble-mail/src/gmail_sync.rs:288-327 | however a server cuts its log into pages, collecting them gives the whole log and its last history id |
| `GmailHistory.CollectAllOrNothing` | crates/pebble-mail/src/gmail_sync.rs:288-327 | a failed or expired page leaves nothing of the pages before it |
| `GmailSync.FetchedRowIs` | crates/pebble-mail/src/gmail_sync.rs:335-354 | a fetched message is in the folders of its visible labels, and in the fallback exactly if they have none; it is unread or starred as its labels say |
| `GmailSync.ResolveFolderIds` | crates/pebble-mail/src/gmail_sync.rs:335-354 | the folders of a message: the mapped labels' folders, each once, or the fallback if there are none |
| `GmailSync.GmailSyncWorker.ApplyFlagChanges` | crates/pebble-mail/src/gmail_sync.rs:896-927 | applying flag changes with lookup and write failures makes exactly the specified steps and counts each failure |
| `GmailSync.GmailSyncWorker.ApplyDeletions` | crates/pebble-mail/src/gmail_sync.rs:929-958 | likewise for soft deletions |
| `GmailSync.GmailSyncWorker.ApplyLabelMutations` | crates/pebble-mail/src/gmail_sync.rs:960-1000 | likewise for label mutations: hidden labels, messages not held and unmapped labels are skipped |
| `GmailSync.GmailSyncWorker.SyncLabel` | crates/pebble-mail/src/gmail_sync.rs:679-799 | a label's sync adds the label's folder to listed messages held already, and fetches and stores the others |
| `GmailSync.GmailSyncWorker.InitialSync` | crates/pebble-mail/src/gmail_sync.rs:602-676 | all labels one after the other; the cursor read beforehand is stored only without failures |
| `GmailSync.GmailSyncWorker.PollHistory` | crates/pebble-mail/src/gmail_sync.rs:869-1131 | a poll applies flags, deletions and labels, then fetches what survived; the cursor advances only without failures |
| `GmailSync.GmailSyncWorker.PollChanges` | crates/pebble-mail/src/gmail_sync.rs:802-1131 | all branches of a poll: no cursor, unreadable cursor, expired cursor, failed listing, resync and delta |
| `GmailMirror.PollKeepsMirror` | crates/pebble-mail/src/gmail_sync.rs:802-1131 | whatever fails, a poll keeps the mirror at the old cursor, and without failures establishes it at the new one |
| `GmailMirror.PollKeepsNoGhosts` | crates/pebble-mail/src/gmail_sync.rs:802-1131 | no message visible locally was deleted on the server before the cursor, with the same two cases |
| `GmailMirror.CleanPollHoldsArrivals` | crates/pebble-mail/src/gmail_sync.rs:1002-1115 | after a poll without failures every message that arrived and was not deleted is held, unless its fetch found it gone |
| `GmailMirror.RunKeepsGood` | crates/pebble-mail/src/gmail_sync.rs:802-1131 | over every interleaving of server events with clean and partly failed polls: each held message and tracked label untouched since the cursor agrees with the server, and nothing deleted is visible |
| `GmailMirror.QuietPollEqualizes` | crates/pebble-mail/src/gmail_sync.rs:802-1131 | one clean poll of a quiet server makes every held message equal to the server on all tracked labels |
| `GmailMirror.PollOnce` | crates/pebble-mail/src/gmail_sync.rs:802-1131 | the worker's poll is a step of such a run: its rows and cursor follow the model's |
| `GmailInitial.InitialKeeps` | crates/pebble-mail/src/gmail_sync.rs:602-799 | syncing the labels, with listings whose pages are read while the server changes, keeps the mirror at the cursor read before the first of them, whatever fails |
| `GmailInitial.MirrorFromInitialSync` | crates/pebble-mail/src/gmail_sync.rs:602-1131 | from a store that holds nothing, an initial sync and any run after it keep the mirror |
| `GmailInitial.CleanInitialHoldsListed` | crates/pebble-mail/src/gmail_sync.rs:602-799 | after an initial sync without failures every message listed under any label is held |
| `GmailInitial.SyncInitially` | crates/pebble-mail/src/gmail_sync.rs:602-676 | the worker's own initial sync of an empty store starts such a run: the mirror holds of its rows, and its cursor follows the model's if nothing failed |
| `GmailInitial.ResyncMirrorsIff` | crates/pebble-mail/src/gmail_sync.rs:602-860 | exactly when a clean resync of a store that holds messages makes the mirror hold at its cursor: none of them is deleted on the server, and what the store shows of each pair, with what the listings add, is what the server has |
| `GmailInitial.RepairedIff` | crates/pebble-mail/src/gmail_sync.rs:602-799 | if listings are complete, that comes down to the store: right flags, and no label that the server lacks |
| `GmailProgress.PollCleanIff` | crates/pebble-mail/src/gmail_sync.rs:869-1131 | exactly when a poll counts no failure: no step on a flag, a deletion or a label stumbles over a fault, and each arrival not held is gone, or is fetched, can be stored and is listed once |
| `GmailProgress.FaultlessPollIsCleanIff` | crates/pebble-mail/src/gmail_sync.rs:1002-1131 | if no call of the local steps fails, the replies to the fetches decide, and one that finds the message gone does not count |
| `GmailProgress.FaultlessPollIsClean` | crates/pebble-mail/src/gmail_sync.rs:869-1131 | a poll without arrivals in which no store call fails counts no failure |
| `GmailProgress.PollAdvancesIff` | crates/pebble-mail/src/gmail_sync.rs:802-1131 | exactly when a poll moves the cursor, over everything its history held; otherwise the next poll meets the same history |
| `GmailProgress.PollAdvances` | crates/pebble-mail/src/gmail_sync.rs:869-1131 | the worker's own cursor moves exactly then |
| `GmailProgress.SyncLabelCleanIff` | crates/pebble-mail/src/gmail_sync.rs:679-799 | exactly when a label's sync counts no failure: it is listed, every held message joins, and every other one is fetched, can be stored and is listed once |
| `GmailProgress.InitialCleanIff` | crates/pebble-mail/src/gmail_sync.rs:602-676 | an initial sync counts no failure, so that its cursor is stored, exactly if no label's sync does |
| `GmailLoss.SurvivesLabels` | crates/pebble-store/src/messages.rs:811-858 | a held message survives a clean run of label mutations if and only if no removal leaves it without a folder, and then has exactly the resulting folders |
| `GmailLoss.LeaveFirstLoses` | crates/pebble-mail/src/gmail_sync.rs:960-1000 | removal from the only folder before the addition to another loses the message |
| `GmailLoss.JoinFirstKeeps` | crates/pebble-mail/src/gmail_sync.rs:960-1000 | the other order keeps it |
| `GmailLoss.SurvivesFaultyLabels` | crates/pebble-mail/src/gmail_sync.rs:960-1000 | whatever fails, a held message survives exactly if the mutations that take effect never leave it without a folder, and then has the folders they make |
| `GmailLoss.SurvivesPollIff` | crates/pebble-mail/src/gmail_sync.rs:869-1115 | exactly which held messages a poll leaves, whatever fails: those that no deletion and no mutation taking effect drops, and those that arrive anew and can be stored |
| `GmailLoss.SurvivesCleanPollIff` | crates/pebble-mail/src/gmail_sync.rs:869-1115 | of the held messages that its history does not delete, a clean poll leaves those the compacted mutations never leave without a folder, and those that arrive anew and are fetched |
| `GmailLoss.CleanPollLosesArchivedMessage` | crates/pebble-mail/src/gmail_sync.rs:960-1000 | when nothing fails, the poll of a message taken out of its only label counts as clean and drops it, although the server never deleted it |
| `GmailLoss.CleanPollLosesMovedMessage` | crates/pebble-mail/src/gmail_sync.rs:960-1000 | when nothing fails, the poll of a moved message counts as clean and drops it, although the server shows it and never deleted it |
| `GmailLoss.LostStaysLost` | crates/pebble-mail/src/gmail_sync.rs:802-1131 | polls without an arrival of its id never bring a lost message back |
| `GmailLoss.RunHolds` | crates/pebble-mail/src/gmail_sync.rs:802-1131 | over every run with any failures a message that was held at the start, or arrived in what has been synced, and is not deleted is held, unless a poll's mutations leave it without a folder or its fetch finds it gone |
| `GmailLoss.HeldThroughoutIff` | crates/pebble-mail/src/gmail_sync.rs:802-1131 | over every run a held message that the server does not delete is held all the time if and only if no poll's mutations leave it without a folder, unless it arrives anew and can be stored |
| `GmailCycle.RunPollCycle` | crates/pebble-mail/src/gmail_sync.rs:1133-1168 | a cycle is skipped while the circuit is open unless allowed; otherwise it clears or raises the failure counter |
| `GmailCycle.FailuresOfAttempts` | crates/pebble-mail/src/gmail_sync.rs:1133-1260 | the counter is the failure run of the polls actually made, whatever was skipped |
| `GmailCycle.SkippedIff` | crates/pebble-mail/src/gmail_sync.rs:1133-1260 | a cause that should poll is skipped exactly if it is a focus or a push and the last five polls made failed |
| `GmailCycle.AttemptedIff` | crates/pebble-mail/src/realtime_policy.rs:50-63 | exactly which causes poll: the delay, a manual trigger and the network's return always, a focus or a push unless the last five polls made failed, nothing else ever |
| `GmailCycle.CircuitCloses` | crates/pebble-mail/src/gmail_sync.rs:1133-1260 | after one successful timed poll no such cause is skipped |
| `SyncRuntime.ReservesIff` | src-web/src/sync_runtime.rs:171-197 | a start reserves its account if and only if it has no entry or the entry's task has finished or was aborted, and otherwise does nothing |
| `SyncRuntime.VacantIsStarted` | src-web/src/sync_runtime.rs:166-232 | an uninterrupted start makes every such account that is found a new listening worker with the requested interval |
| `SyncRuntime.FinishedIsVacant` | src-web/src/sync_runtime.rs:173-178 | an account whose worker has left its loop and finished can be started again |
| `SyncRuntime.OwnershipInEveryRun` | src-web/src/sync_runtime.rs:166-338 | in every interleaving each working task is its account's map entry or held by a start before its second lock, and each placeholder in the map belongs to a start in flight |
| `SyncRuntime.QuiescentAccount` | src-web/src/sync_runtime.rs:166-338 | with no start of an account in flight it has at most one worker and no placeholder |
| `SyncRuntime.StopLeavesWorkerIff` | src-web/src/sync_runtime.rs:275-285 | after a stop the account has a worker exactly if a start in flight holds one |
| `SyncRuntime.StopIsFinal` | src-web/src/sync_runtime.rs:275-285 | if no start in flight can still bring a worker, no run after the stop without a new start gives one |
| `SyncRuntime.StopIsFinalIff` | src-web/src/sync_runtime.rs:166-285 | a stop is final if and only if no start in flight has its worker still to build or holds a working one outside the map |
| `SyncRuntime.StopDoesNotCancelStart` | src-web/src/sync_runtime.rs:166-232 | a stop between the lock sections of a start does not prevent its worker |
| `SyncRuntime.FailureHarmlessIff` | src-web/src/sync_runtime.rs:234-239 | every working worker survives the failure of a start if and only if the account's entry is not one of them |
| `SyncRuntime.KeepsPlaceholderIff` | src-web/src/sync_runtime.rs:166-285 | after any run from a reservation the entry is still its placeholder if and only if no stop, commit or failed start of the account removed it |
| `SyncRuntime.UndisplacedFailure` | src-web/src/sync_runtime.rs:234-239 | the failure of a start that nothing displaced removes its own placeholder and changes no other task |
| `SyncRuntime.LateFailureAbortsOther` | src-web/src/sync_runtime.rs:166-239 | a start that fails late aborts the worker a newer start put there |
| `SyncRuntime.LateFailureAbortsOlder` | src-web/src/sync_runtime.rs:166-239 | it can also abort the worker of an older start that a stop had displaced, with no newer start at all |
| `SyncRuntime.UninterruptedStart` | src-web/src/sync_runtime.rs:166-232 | an uninterrupted start ends with one listening worker of the requested interval, or with no entry, and touches no other task |
| `SyncRuntime.SyncManager.ReserveStart` | src-web/src/sync_runtime.rs:166-200 | the first lock section of a start is the model's step; it refuses a live entry |
| `SyncRuntime.SyncManager.StartAccount` | src-web/src/sync_runtime.rs:166-232 | the two lock sections in sequence |
| `SyncRuntime.SyncManager.TriggerAccount` | src-web/src/sync_runtime.rs:241-273 | a delivered trigger changes nothing; for one that cannot be delivered the account gets a listening worker with interval 0, or no entry if it is not found |
| `SyncRuntime.SyncManager.StopAccount` | src-web/src/sync_runtime.rs:275-285 | the entry is removed and its task aborted |
| `SyncRuntime.SyncManager.ApplyRealtimePreference` | src-web/src/sync_runtime.rs:287-338 | with no other lock section in between, and any starts in flight before and after it: afterwards exactly the accounts that can be started have an entry, a listening worker with the new interval; the others are reported |
| `SyncRuntime.ServedThroughoutIff` | src-web/src/sync_runtime.rs:166-338 | over every run without a stop of the account or the end of its loops, an interval in place lasts if and only if no start that was in flight commits a worker of another interval or fails |
| `SyncRuntime.PreferenceLastsIff` | src-web/src/sync_runtime.rs:166-338 | it lasts in all such runs if and only if every start of the account in flight holds a working worker with the same interval |
| `SyncRuntime.CommitServes` | src-web/src/sync_runtime.rs:166-232 | whatever falls between the lock sections of a start that has reserved its account and finds it, its commit serves the account with the requested interval, unless its worker's loop has ended already |
| `SyncRuntime.StaleWorkerReturns` | src-web/src/sync_runtime.rs:220-338 | a start in flight that had built its worker replaces and aborts the worker with the new interval |
| `SyncRuntime.StaleWorkerStays` | src-web/src/sync_runtime.rs:166-338 | if it commits before the change restarts the account, the restart does nothing and the old interval stays |
| `SyncRuntime.TriggerKeepsEntryIff` | src-web/src/sync_runtime.rs:241-273 | a trigger keeps the account's entry if and only if its task still listens, and touches no other |
| `SyncRuntime.TriggerReachesWorkerIff` | src-web/src/sync_runtime.rs:241-273 | the task that receives an accepted trigger is a working worker, now or ever, if and only if the entry is no placeholder, and a placeholder means a start in flight |
| `SyncRuntime.TriggerIsSwallowed` | src-web/src/sync_runtime.rs:72-80 | a trigger between the lock sections of a start is accepted by the placeholder, which is aborted, and the worker is another task |
| `OAuthFlow.ConstantTimeEq` | src-web/src/oauth.rs:899-908 | the fold over all bytes is true exactly on equal byte strings |
| `OAuthFlow.OAuthState.StartFlow` | src-web/src/oauth.rs:360-383 | a start prunes both maps and inserts its flow |
| `OAuthFlow.OAuthState.TakeCallback` | src-web/src/oauth.rs:397-418 | a callback removes its entry before judging it, and marks an accepted flow as processing under the same lock |
| `OAuthFlow.OAuthState.CallbackStatus` | src-web/src/oauth.rs:299-337 | the two lock sections of a poll and its answer |
| `OAuthFlow.InvInEveryRun` | src-web/src/oauth.rs:299-489 | the consistency of pending flows, statuses, running callbacks and the log in every interleaving of handlers |
| `OAuthFlow.StatusOnlyMovesForward` | src-web/src/oauth.rs:299-337 | answers about a started flow go pending, processing, one fixed outcome, expired, in that order |
| `OAuthFlow.AcceptedIff` | src-web/src/oauth.rs:390-418 | in every run a callback that gets the lock is accepted if and only if its flow is pending and within its time to live; no other flow is touched |
| `OAuthFlow.StaysPendingIff` | src-web/src/oauth.rs:299-418 | over every run a pending flow stays pending until its time to live has passed, whatever other flows do, if and only if no callback and no cancelling poll takes it |
| `OAuthFlow.StartedFlowAcceptedIff` | src-web/src/oauth.rs:360-418 | a started flow that is called back in time is accepted if and only if nothing took it before |
| `OAuthFlow.PendingAnswerIff` | src-web/src/oauth.rs:309-325 | a poll is answered under the pending lock if and only if its flow is pending and fresh: a plain one says pending and leaves the flow, a cancelling one says expired and removes it |
| `OAuthFlow.StatusAnswerIff` | src-web/src/oauth.rs:327-337 | past it a poll says processing exactly while the callback runs, and the recorded outcome until its retention has passed |
| `OAuthFlow.StartPrunesStale` | src-web/src/oauth.rs:366-371 | a start removes the flows past their time to live, and only those |
| `OAuthFlow.AcceptedOnceInTime` | src-web/src/oauth.rs:390-418 | a key is accepted at most once, before its time to live has passed, and never after any answer but pending |
| `OAuthFlow.AnswersAfterAcceptance` | src-web/src/oauth.rs:299-337 | after an acceptance a poll answers processing or the recorded outcome, and expired only 600 seconds after the outcome |
| `OAuthFlow.EarlyPollExpiresFirst` | src-web/src/oauth.rs:309-337 | a poll past the pending lock before its flow was inserted answers expired, and the flow is accepted after it |
| `DraftAutosave.InvInEveryRun` | src/hooks/useComposeDraft.ts:156-252 | the queue, the promises, the save loops and the log agree in every interleaving of queueing, replies, delays and cancellations |
| `DraftAutosave.EveryDraftIsQueued` | src/hooks/useComposeDraft.ts:232-236 | in every run the queueings logged are all drafts queued before the first cancellation, in order, each under a new version, whatever the loops are doing |
| `DraftAutosave.NoDraftIsForgotten` | src/hooks/useComposeDraft.ts:173-236 | without a cancellation the last draft queued for an account is saved, has failed four times, or is being saved or queued with a running loop |
| `DraftAutosave.SavedLoopGoesOn` | src/hooks/useComposeDraft.ts:183-195 | after a save the loop saves the queued draft, or ends |
| `DraftAutosave.FailedLoopGoesOn` | src/hooks/useComposeDraft.ts:196-215 | after a failure it saves a newer draft at once, waits to try again up to three times, or ends |
| `DraftAutosave.DelayGoesOn` | src/hooks/useComposeDraft.ts:206-221 | after a retry delay it saves the queued draft, counting the earlier failures if it is the same one |
| `DraftAutosave.CancelAwaitsAll` | src/hooks/useComposeDraft.ts:238-252 | a cancellation waits for every running loop and leaves none in a retry delay |
| `DraftAutosave.CancelledLoopEnds` | src/hooks/useComposeDraft.ts:173-252 | once cancelled a loop ends with its next event, and a cancellation whose loops have ended resolves |
| `DraftAutosave.SavesNeverOverlap` | src/hooks/useComposeDraft.ts:173-230 | between two saves of an account the first has finished, and versions never go back |
| `DraftAutosave.OneWorkerPerAccount` | src/hooks/useComposeDraft.ts:173-230 | two save loops that have not ended belong to different accounts |
| `DraftAutosave.AtMostFourTries` | src/hooks/useComposeDraft.ts:173-230 | each queued draft is tried at most four times and never again once saved |
| `DraftAutosave.SavesCarryLastId` | src/hooks/useComposeDraft.ts:183-187 | each save carries the id of the account's last successful save, if it has one and it is not empty |
| `DraftAutosave.UncancelledEnd` | src/hooks/useComposeDraft.ts:173-230 | a loop that ends before any cancellation has saved the last queued draft or failed four times |
| `DraftAutosave.NoSaveAfterCancel` | src/hooks/useComposeDraft.ts:238-252 | no save starts after a cancellation |
| `DraftAutosave.CancelReturnsEverything` | src/hooks/useComposeDraft.ts:238-252 | when a cancellation resolves every save has finished, and the first to resolve returns every account's last id |
| `DraftAutosave.OneIdPerAccount` | src/hooks/useComposeDraft.ts:183-187 | with a backend that answers a save carrying an id with that id, all successful saves of an account have one id, so a cancellation returns every id there is |
| `DraftAutosave.DraftPersistence.QueueDraftSave` | src/hooks/useComposeDraft.ts:232-236 | queueing replaces the queued draft and starts a loop if there is none |
| `DraftAutosave.DraftPersistence.SaveReturned` | src/hooks/useComposeDraft.ts:180-227 | the loop from a successful save to its next await |
| `DraftAutosave.DraftPersistence.SaveThrew` | src/hooks/useComposeDraft.ts:196-227 | the loop from a failed save to its next await |
| `DraftAutosave.DraftPersistence.DelayReturned` | src/hooks/useComposeDraft.ts:210-227 | the loop from the end of a retry delay to its next await |
| `DraftAutosave.DraftPersistence.CancelPendingDraftSaves` | src/hooks/useComposeDraft.ts:238-247 | a cancellation clears the queues and cuts the delays short |
| `KanbanStore.PendingEditIsShown` | src/stores/kanban.store.ts:74-198 | in every run: while a note's latest edit is pending the note shows exactly its text, the id set is the ids of the cards, and the board is loading exactly while its latest fetch is in flight |
| `KanbanStore.SupersededChangesNothing` | src/stores/kanban.store.ts:81-197 | replies and failures of superseded edits and fetches change nothing |
| `KanbanStore.LandingFetch` | src/stores/kanban.store.ts:74-104 | a landing fetch leaves a note as it was if and only if an edit of it was pending at its start or landing or issued in between, and shows the fetched note otherwise |
| `KanbanStore.SavedEditShowsReply` | src/stores/kanban.store.ts:171-182 | in every run the reply to a note's latest edit makes the note show exactly the saved note, or none if the reply lacks it, ends the pending edit, and changes no other note |
| `KanbanStore.FailedEditLeavesOthers` | src/stores/kanban.store.ts:183-197 | a failing edit changes no other note |
| `KanbanStore.FetchEnds` | src/stores/kanban.store.ts:81-104 | the latest fetch's reply puts its cards on the board, its failure leaves board and notes, and either ends the loading |
| `KanbanStore.FailedEditRestoresIff` | src/stores/kanban.store.ts:183-197 | exactly when a failing edit restores the note's settled value |
| `KanbanStore.OverlappingFailures` | src/stores/kanban.store.ts:156-198 | two overlapping edits that both fail leave the first one's unsaved text |
| `KanbanStore.ReorderShows` | src/stores/kanban.store.ts:126-143 | a reordering of existing cards leaves the other columns as they are and puts the listed cards after them, in the order of the list, each at its index in its column |
| `KanbanStore.ReorderKeepsIff` | src/stores/kanban.store.ts:126-143 | a message stays on the board if and only if it is listed or has a card in another column |
| `KanbanStore.MoveShows` | src/stores/kanban.store.ts:106-112 | a move gives exactly the card its column and position |
| `KanbanStore.FailedChangeRestoresBoard` | src/stores/kanban.store.ts:106-154 | a failing card change restores the whole board from its issue, whatever happened since |
| `KanbanStore.FailureUndoesOnlyItselfIff` | src/stores/kanban.store.ts:106-154 | a failing change undoes nothing but itself if and only if the board is still the one it made, as it is when no change, failure or landing fetch came in between |
| `KanbanStore.OverlappingChangesFail` | src/stores/kanban.store.ts:106-154 | two overlapping changes that fail in their order leave the first one's unsaved board |
| `KanbanStore.FailedRemovalStays` | src/stores/kanban.store.ts:106-154 | a removal and a move that both fail: the card is gone although its removal failed |
| `KanbanStore.PreserveNotes` | src/stores/kanban.store.ts:84-98 | the merge loop keeps the preserved notes as shown and takes the others from the reply |
| `KanbanStore.Store.FetchReturned` | src/stores/kanban.store.ts:81-104 | a fetch's reply makes the model's step |
| `KanbanStore.Store.SetContextNote` | src/stores/kanban.store.ts:156-169 | an edit shows its text at once under a new generation |
| `KanbanStore.Store.NoteReturned` | src/stores/kanban.store.ts:171-182 | a saved edit shows the saved note if it is the latest |
| `KanbanStore.Store.NoteThrew` | src/stores/kanban.store.ts:183-197 | a failed edit rolls back if it is the latest |
| `IconFill.SeedEdges` | site/gen_icons.py:21-26 | the queue starts with every border cell and, of the image, no other |
| `IconFill.QueueNeighbours` | site/gen_icons.py:38-41 | exactly the neighbours not visited yet are added |
| `IconFill.AdjacentIff` | site/gen_icons.py:38 | the neighbours are the cells above, below, left and right |
| `IconFill.FillEnds` | site/gen_icons.py:30-41 | with the queue empty the visited near-white cells are exactly the reachable ones |
| `IconFill.FloodFill` | site/gen_icons.py:15-41 | the fill terminates; a pixel becomes transparent exactly if a 4-neighbour path of near-white pixels joins it to a near-white border pixel; nothing else changes |
| `IconFill.FadedAlphaIs` | site/gen_icons.py:58-62 | a faded pixel keeps exactly its opacity times (255 - its least component) times 10 / 459, rounded down |
| `IconFill.FadeLowers` | site/gen_icons.py:58-62 | a fade lowers the opacity strictly, and a whiter pixel keeps no more of it |
| `IconFill.CountTransparent` | site/gen_icons.py:50-56 | the count is positive exactly if a neighbour inside the image is transparent |
| `IconFill.FadeEdges` | site/gen_icons.py:45-62 | the in-place sweep: a pixel fades exactly if it qualifies and a neighbour is transparent, swept neighbours by their new opacity, the others by their old |
| `IconFill.FadeKeepsPicture` | site/gen_icons.py:45-62 | the fade keeps colours, never raises opacity, and changes only pixels with a neighbour that ends transparent |
| `Text.WordsOfJoin` | crates/pebble-core/src/snippet.rs:3 | words joined by blanks split into the same words |
| `Text.NormalIsJoin` | crates/pebble-core/src/snippet.rs:3 | text with single blanks between words is the join of its words |
| `Text.ParseUnsigned` | crates/pebble-mail/src/reconcile.rs:32-35 | checked digit-by-digit parsing accepts exactly an optional plus sign and digits of a value that fits |
| `Text.DecimalRoundTrip` | crates/pebble-mail/src/pop3.rs:494-499 | a printed number parses back |
| `Snippet.SnippetForm` | crates/pebble-core/src/snippet.rs:2-10 | a snippet is normalised text with the same words, or the first 200 characters of such text and an ellipsis; at most 203 characters |
| `Snippet.SnippetIdempotent` | crates/pebble-core/src/snippet.rs:2-10 | a snippet is its own snippet |
| `Snippet.SnippetOfWords` | crates/pebble-core/src/snippet.rs:2-10 | snippets depend only on the words, and short ones determine them |
| `Snippet.NormalTextIsKept` | crates/pebble-core/src/snippet.rs:2-10 | exactly the texts that are their own snippet |
| `Pop3Wire.Connection.ReadMultilineBytes` | crates/pebble-mail/src/pop3.rs:339-369 | the read loop returns what the specification of framing reads and leaves the rest of the stream |
| `Pop3Wire.FramingRoundTrip` | crates/pebble-mail/src/pop3.rs:339-369 | any lines, dot-stuffed and terminated, are read back exactly, and what follows stays unread |
| `Pop3Wire.CutStream` | crates/pebble-mail/src/pop3.rs:339-369 | a stream that ends inside a line is an error unless what arrived of the line is a single dot |
| `Pop3Wire.CutAfterStuffing` | crates/pebble-mail/src/pop3.rs:339-369 | a message cut after the stuffing of a line is accepted without that line |
| `Pop3Wire.RefusedIffUnterminated` | crates/pebble-mail/src/pop3.rs:339-369 | a stream is refused exactly if no offset that starts a line starts a bare dot |
| `Pop3Wire.ParseUidlLines` | crates/pebble-mail/src/pop3.rs:490-508 | the UIDL loop: all entries, or the error of the first bad line |
| `Pop3Wire.ParseListLines` | crates/pebble-mail/src/pop3.rs:510-529 | the LIST loop: the last size of each number, or the error of the first bad line |
| `Pop3Wire.ListingRoundTrip` | crates/pebble-mail/src/pop3.rs:275-288 | printed UIDL and LIST replies, each in any order, list the same numbers, UIDs and sizes, sorted by number |
| `Pop3Wire.ListingOverTheWire` | crates/pebble-mail/src/pop3.rs:275-369 | the same through framing, both replies on one stream |
| `Pop3Sync.SelectsNewest` | crates/pebble-mail/src/pop3_sync.rs:367-380 | the selection is `limit` unknown messages or all, ascending, and none left out has a higher number |
| `Pop3Sync.Pop3SyncWorker.KnownUidls` | crates/pebble-mail/src/pop3_sync.rs:219-256 | known are listed messages in the inbox and seen ones, without listed ones that lack attachments |
| `Pop3Sync.Pop3SyncWorker.SyncRound` | crates/pebble-mail/src/pop3_sync.rs:153-178 | a round with any failure makes the specified step |
| `Pop3Sync.Pop3SyncWorker.RunPollCycle` | crates/pebble-mail/src/pop3_sync.rs:126-151 | a poll cycle, gated by the circuit |
| `Pop3Sync.StoresUpToFailure` | crates/pebble-mail/src/pop3_sync.rs:153-178 | storing stops at the first message that fails: those before it are stored, complete, and all other rows are as they were |
| `Pop3Sync.RoundShrinks` | crates/pebble-mail/src/pop3_sync.rs:153-178 | a successful round leaves as many messages unknown as its limit left out |
| `Pop3Sync.DrainsIff` | crates/pebble-mail/src/pop3_sync.rs:153-178 | faultless rounds whose limits add up to the unknown messages all succeed if and only if each unknown message can be stored at the start, and then store all of them, complete |
| `Pop3Sync.DrainsInCeiling` | crates/pebble-mail/src/pop3_sync.rs:153-178 | with one limit, n unknown messages that can be stored take ceil(n / limit) rounds |
| `Pop3Sync.FailuresLoseNothing` | crates/pebble-mail/src/pop3_sync.rs:153-178 | over any rounds with any faults, at most as many messages stay unknown as the limits of the successful ones leave |
| `Pop3Sync.DrainsDespiteFailures` | crates/pebble-mail/src/pop3_sync.rs:153-178 | the mailbox has drained, every message stored complete, once those limits reach what was unknown, whatever failed in between |
| `Pop3Sync.SeenIsKnownOrFetched` | crates/pebble-mail/src/pop3_sync.rs:153-274 | a successful round marks as seen exactly what was known and what it fetched, and a failed one nothing |
| `Pop3Sync.SeenIsNotFetchedAgain` | crates/pebble-mail/src/pop3_sync.rs:219-274 | over every run a seen UID that never lacks attachments is not fetched again, even if its message goes away |
| `Pop3Sync.RoundSucceedsIff` | crates/pebble-mail/src/pop3_sync.rs:153-178 | without a fault a round succeeds exactly if no selected message is live outside the inbox or complete already |
| `Pop3Sync.StaysSelected` | crates/pebble-mail/src/pop3_sync.rs:367-380 | a message the limit reaches, while it stays unknown, stays within reach when more becomes known |
| `Pop3Sync.BlockedForEver` | crates/pebble-store/src/migrations.rs:795-810 | an unseen message that left the inbox and that a round would select makes this and every later round over the mailbox fail, for any limit and faults, and nothing is marked seen any more |
| `Pop3Sync.CircuitOpensIff` | crates/pebble-mail/src/pop3_sync.rs:126-151 | the circuit of a fresh worker is open exactly if at some time five rounds in a row have failed |
| `Pop3Sync.CircuitIsAbsorbing` | crates/pebble-mail/src/pop3_sync.rs:126-135 | once the circuit is open no later cycle changes anything |
| `Pop3Sync.BlockedOpensCircuit` | crates/pebble-mail/src/pop3_sync.rs:126-151 | five polls that reach such a message open the circuit, and nothing synchronises again |
| `CryptoEnvelope.BuildContextAad` | crates/pebble-crypto/src/lib.rs:62-71 | the buffer is built as domain, length, purpose, length, record |
| `CryptoEnvelope.ContextAadInjective` | crates/pebble-crypto/src/lib.rs:62-71 | the associated data determines purpose and record |
| `CryptoEnvelope.CryptoService.EncryptScoped` | crates/pebble-crypto/src/aes.rs:81-88 | the output is header, nonce and ciphertext |
| `CryptoEnvelope.ScopedRoundTrip` | crates/pebble-crypto/src/lib.rs:40-54 | scoped data decrypts to its message under its own purpose and record and is not authentic under any other, whatever else was encrypted |
| `CryptoEnvelope.LegacyRoundTripIff` | crates/pebble-crypto/src/aes.rs:95-120 | legacy data is read, flagged for migration, exactly if its nonce lacks the magic |
| `CryptoEnvelope.StrippedHeaderFails` | crates/pebble-crypto/src/aes.rs:58-120 | scoped data without its header never decrypts as legacy |
| `CryptoEnvelope.MigrationFlag` | crates/pebble-crypto/src/aes.rs:95-124 | the migration flag of decrypted data is the check made without decrypting; data with the magic never takes the legacy path |
| `CryptoEnvelope.OnlyOutputsDecrypt` | crates/pebble-crypto/src/lib.rs:40-54 | any data that decrypts under a purpose and record is, byte for byte, what encrypting for them returned, or legacy output |
| `KeyStore.HexRoundTrip` | crates/pebble-crypto/src/keystore.rs:53-62 | hexadecimal encoding decodes back |
| `KeyStore.Credential.GetOrCreateDek` | crates/pebble-crypto/src/keystore.rs:64-105 | all branches: read failure, missing, raw, hexadecimal and invalid secret |
| `KeyStore.KeyIsStable` | crates/pebble-crypto/src/keystore.rs:64-105 | from any secret and with any failures all successful calls return the same key; after one, a call fails only if the store cannot be read |
| `KeyStore.RawKeyMigrates` | crates/pebble-crypto/src/keystore.rs:70-78 | a raw key is returned, and what replaces it reads back as the same key |
| `KeyStore.InvalidNeverOverwritten` | crates/pebble-crypto/src/keystore.rs:80-88 | an invalid secret is never overwritten and never succeeds |
| `FolderAggregation.VirtualIdRoundTrip` | src/lib/folderAggregation.ts:20-32 | an id maps to a role exactly if it is that role's virtual id |
| `FolderAggregation.SplitFolders` | src/lib/folderAggregation.ts:58-70 | the pass finds the first folder of each role and all others in order |
| `FolderAggregation.SortForSidebar` | src/lib/folderAggregation.ts:58-81 | the first folder of each role in the fixed order, then the others sorted |
| `FolderAggregation.SidebarOrder` | src/lib/folderAggregation.ts:58-81 | exactly the first folder of each role and every other folder are shown: inbox, sent, archive, drafts, trash and spam in this order, then the others by rank |
| `FolderAggregation.DuesAreTotal` | src/lib/folderAggregation.ts:34-81 | what the folders shown stand for adds up to all unread messages, in either mode |
| `FolderAggregation.UnreadConserved` | src/lib/folderAggregation.ts:83-101 | the badges shown add up to the total, each message counted once, exactly if no folder shown with an empty id has unread messages |
| `FolderAggregation.EmptyIdLosesUnread` | src/lib/folderAggregation.ts:83-88 | a folder with an empty id loses its unread messages |
| `Reconcile.ComputeFlagDiff` | crates/pebble-mail/src/reconcile.rs:11-55 | the loops compute the diff: grace, unparsable UIDs, last remote flags |
| `Reconcile.DiffReachesFixpoint` | crates/pebble-mail/src/reconcile.rs:11-55 | applying the diff gives every row past its grace that the server knows the last remote flags, leaves all others alone, and a second diff is empty |
| `Reconcile.DiffGivesServersFlags` | crates/pebble-mail/src/reconcile.rs:11-55 | after the diff each row has the flags of the last report for its UID, unless it was changed less than 60 seconds ago, has no UID or no report: then it is unchanged |
| `Reconcile.DeletionsExact` | crates/pebble-mail/src/reconcile.rs:63-79 | exactly the rows whose UID parses and is absent on the server are detected |
| `Reconcile.ChangesAndDeletionsDisjoint` | crates/pebble-mail/src/reconcile.rs:11-79 | no message is both changed and deleted if the flags are of messages on the server |
| `PollPolicy.IntervalsOrdered` | crates/pebble-mail/src/realtime_policy.rs:113-123 | recent, idle and background delays are ordered for every interval |
| `PollPolicy.StableDelays` | crates/pebble-mail/src/realtime_policy.rs:113-139 | without failures: the chosen interval after recent activity in the foreground, at least 30 seconds without it, at least 120 in the background |
| `PollPolicy.RuntimeState.CurrentContext` | crates/pebble-mail/src/realtime_policy.rs:101-109 | the context has the foreground flag and the failures, and recent activity within the window |
| `PollPolicy.FailureDelayIsExact` | crates/pebble-mail/src/realtime_policy.rs:125-131 | despite saturation the delay after f failures is the idle delay times 2^(f-1), up to 300 seconds |
| `PollPolicy.FailureDelayGrows` | crates/pebble-mail/src/realtime_policy.rs:125-131 | among failures the delay never falls, and is 300 seconds from the fifth |
| `PollPolicy.FirstFailureShortensIff` | crates/pebble-mail/src/realtime_policy.rs:125-140 | in the background the first failure shortens the delay exactly for intervals below 120 or above 300 seconds |
| `PollPolicy.RuntimeState.RecordTrigger` | crates/pebble-mail/src/realtime_policy.rs:81-99 | what each trigger records |
| `PollPolicy.ForegroundIff` | crates/pebble-mail/src/realtime_policy.rs:81-99 | after any triggers the application is in the foreground exactly if every blur was followed by a focus |
| `PollPolicy.LastActivityIs` | crates/pebble-mail/src/realtime_policy.rs:81-99 | the last activity is the last trigger but a timer, unless that is a blur |
| `PollPolicy.CountIsCurrentRun` | crates/pebble-mail/src/backoff.rs:22-30 | the counter is the length of the current run of failures, as far as 32 bits hold it |
| `PollPolicy.CircuitOpenIff` | crates/pebble-mail/src/backoff.rs:33-35 | the circuit is open exactly if the last five outcomes were failures |
| `PollPolicy.BackoffIsExact` | crates/pebble-mail/src/backoff.rs:43-49 | the cut-off exponent does not show: 15 seconds doubled with every failure, up to 300 |
| `PollPolicy.JitteredDelayBounds` | crates/pebble-mail/src/backoff.rs:43-54 | with jitter the delay stays within 11.25 and 375 seconds, and is zero without failures |

## Left out

- Network, TLS, SOCKS and HTTP code, command routing, React components and the rest of the user interface.
- The SQL of the local store and the search index; the store is a map with the effects of the calls used.
- Gmail: attachment repair, thread ids, the arrival order of concurrent fetches, notifications, token refresh and the ordering of labels in an initial sync.
- `GmailSync.GmailSyncWorker.SyncLabel`: does not refetch held messages that lack their attachments, because attachment repair is not part of this model, and takes a label's listing as collected from its pages.
- `GmailSync.GmailSyncWorker.InitialSync`: starts after the folders have been refreshed, because folder listing is network code.
- `GmailSync.GmailSyncWorker.PollHistory`: does not refetch held messages that lack their attachments, because attachment repair is not part of this model.
- `GmailSync.GmailSyncWorker.PollChanges`: likewise.
- `GmailMirror.RunKeepsGood`: says nothing after a resync of a store that holds messages, because a resync only adds labels to them; `GmailInitial.ResyncMirrorsIff` says when the mirror holds again.
- Local edits of mail racing with Gmail sync.
- Sync manager: what a worker does inside its loop, and the delay before an abort takes effect.
- `SyncRuntime.SyncManager.ApplyRealtimePreference`: no other lock section falls within the call, because a method runs without interruption; `SyncRuntime.CommitServes` and `SyncRuntime.StaleWorkerStays` are about those that do.
- OAuth: authentication of polls, trimming and emptiness checks of the key, the token exchange and the accounts it stores.
- Drafts: the reset of the cancellation flag when the hook is mounted again, the current account's copy of its id, and the migration of drafts from browser storage.
- Board: the migration of notes from browser storage, which only shapes a fetch's reply, and the message of a failing `addCard`.
- `IconFill.FadeLowers`: is over the reals, where the program rounds in floating point.
- `IconFill.FadeEdges`: likewise; its arithmetic is `IconFill.FadeLowers`'.
- Icons: resizing and the files written.
- POP3: connecting, login, status lines and the UTF-8 check of listings.
- POP3: parsing of the message itself and the sorted order in which seen UIDs are kept.
- Encryption: AES-GCM, key derivation, random generation, zeroisation of keys, and panics.
- Snippets from HTML.
- Folder order: the locale's comparison of names is an arbitrary rank.
- `PollPolicy.JitteredDelayBounds`: is over the reals.
- `can_skip_reconcile`, the parsing of trigger names and the default policy, which are one comparison or table each.
