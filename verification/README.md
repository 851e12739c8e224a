# Verified model of the mail engine

A Dafny model of how this mail client keeps its local store honest: the IMAP
folder mirror and its history pull, the database connection with its outbox and
draft saving, thread assembly, the backend cache, and the string formats that
carry identities and text between them. `dafny verify dfyconfig.toml` checks all
of it.

Code that changes things step by step is modelled as classes and loops; each
method is proved against a specification, and the promises are proved about the
specification for every input, run or reachable state.

## The folder mirror

`Imap` is one mailbox: live UIDs with flags and mod-sequences, UIDNEXT,
HIGHESTMODSEQ, UIDVALIDITY, and the steps other clients and the server take.
`Mirror` puts the local side beside it as one machine of small steps: rows, the
stored cursor, a delta cycle with a program counter, the history row and the
live pull. Server steps fall between any two client steps and a run may be cut
after any of them. `MirrorInvariants` proves one invariant for every run,
`MirrorTheorems` reads the promises off it, and `MirrorWitnesses` gives concrete
runs that go wrong where a promise stops. `SyncFolder` is the cycle as an
imperative class, each of whose statements is a step of that machine.

The base of a cursor is the low bound of the initial fetch that first installed
it; arrival and flag promises are about UIDs from there up. A new pull starts at
the lowest local UID, and the model remembers how things stood at that moment.
What a Completed pull promises depends on it, and `MirrorExact` says exactly how,
for every reachable state a pull can start in at a 32-bit UID. While the
UIDVALIDITY is still the one of that day:

- the tail below the start is stored in every run, and every chunk lowers the
  anchor, if and only if the start was not above UIDNEXT (`Sane`);
- nothing below a current cursor's UIDNEXT is missing in any run, if and only if
  the cursor was current when the pull started and no live message below the base
  was missing where the pull may pass over it (`Unbroken`): at or above the start,
  or, for a start above UIDNEXT, below its first chunk.

One row of the current UIDVALIDITY is enough for the first (`Rooted`); a store
whose rows are all of it and at or above the base meets both.
`MirrorTheorems.HolesWereThere` says that nothing else can be missing, and
`MirrorExact.HolesStay` that a hole at or above the start does stay.
`MirrorStarts` carries the start through every run.

`HistoryPipeline` is the producer, the consumer and the channel of capacity one
on their own, with a measure that every step lowers and the meaning of every
terminal status. `PullReplay` is the reference, one chunk after another with no
channel, and proves that every run of the two halves stores a piece of it, and
all of it when it ends by itself. `PullHistory` is the same code imperatively,
under an arbitrary scheduler and database and any backend whose chunks lower the
anchor or bring nothing. The source assumes that of its backends too: one that kept returning
rows at the same anchor would be asked for ever.

What is assumed of the server: UIDs and UIDVALIDITY do not change while the
mailbox is selected, each command is answered at one moment, HIGHESTMODSEQ is at
least 1 and UIDNEXT is present, and `n:*` names the highest message even below
`n`. Every FETCH item is assumed to translate: one that does not is logged and
skipped while the cursor advances all the same
(crates/imap-client/src/backend.rs:554-565).

What is taken from the desktop: the sync connection's lock is held for a whole
delta cycle (apps/desktop/src-tauri/src/sync_engine.rs:581) and by the pull for
each persist-and-record, so those two never overlap. That a pull starts only
when the previous one is over is an assumption: cancelling removes the canceller
and the history row at once and starting writes a new row before the account's
lock is taken (apps/desktop/src-tauri/src/commands/history_sync.rs:84-164 and
185-236), so an old driver that is still draining can record or close on the new
row, and the model does not show that.

## Connection, outbox, drafts

`TursoConn` has the engine, the connection with its poison flag and the
transaction handle, and an atomic store that knows nothing of either. A call
carries the outcome the engine gave it; a failing COMMIT or ROLLBACK may leave
the transaction open or throw it away. The refinement holds for callers that do
not go around a live handle and for recovery rollbacks that close their orphan;
both conditions are shown to be needed, and the second is shown to be exact.
When the flag and the handle tell exactly whether a transaction is open is
`TursoConn.OpenExactly`.

`Outbox` runs the drain over that connection, with abandoned transactions,
restarts and user actions anywhere in between, and `OutboxDrain` is the worker's
loop. In the desktop the user's actions arrive on a second connection to the
same file while a pass runs; the model puts them on the one connection, outside
live transactions. A re-enqueue that lands on a row the pass has listed is
therefore part of the model: `Outbox.LostExactly` says when its payload is
deleted without having been sent, and `Outbox.AcknowledgedExactly` when it never
gets in, because the row went between the lookup and the update.

`Drafts` follows the server copies of one draft through saves, retries,
discards, mailbox renames, crashes and other clients' expunges, counting failed
destroys and appends whose id was not kept. The upper bound on copies holds in
every run. That one is always left holds while no other client expunges; with
others at work, the client's own steps still leave one as long as the new copy
was left alone up to the destroy. `DraftSaver` is the save and the dispatch arm.

## Threads

`Threading` defines one-at-a-time and batched assembly over the same store.
Lookups that SQL leaves open are functions constrained only by the query; a
message's fresh thread id is a function of the message, so that the two can be
compared without renaming. `ThreadingTheorems` proves when they agree, that
references and counts survive, and that repeating a chunk adds nothing.
`ThreadPlaces` says which thread a message lands in, in terms of what rows and
earlier headers carry its references. `ApplyChunk` is the code: read pass, three buckets, one transaction. Ids within
a chunk are distinct, as UIDs are; where the comparison needs it, Message-IDs are
distinct too.

## Backend cache

`BackendCache` has one account's slots and all its callers under every
interleaving; `BackendFactory` is one caller's code with the others' steps
between its own. Time is an arbitrary non-decreasing number.

## Formats

`UidChunks`, `StripBcc`, `CidRefs`, `SearchQuery`, `Ids` and `Subject` have the
loops and codecs, each against an independent reference: reading back, fields of
an unfolded header, the one proper rewriting, a lexer of the rendered query,
decoding, the key of a key. `SearchMeaning` and `CidMeaning` say what a typed
operator asks for and which references are found. `Text` and `Decimal` are the string operations they
share. Which characters beyond ASCII are alphanumeric, and which strings are
dates, are parameters of the search model.

## Where code and comments differ

The code is what is modelled.

- A storage error in the history consumer returns at once and leaves the row
  Running, though the comments at crates/sync/src/history.rs:110-112 and 297-300
  promise a terminal status either way.
- The third branch of the consumer's final status cannot be reached
  (crates/sync/src/history.rs:437-441).
- A drain outcome of DeadLettered is reported even when recording it failed
  (crates/sync/src/outbox_drain.rs:201-218).
- An operator that takes text and has none (`from:`) becomes a search term,
  though crates/search/src/lib.rs:181-183 says it is dropped.
- The comment at crates/storage/src/repos/outbox.rs:42-43 dead-letters at the
  sixth failure; the code does at the fifth.

## Model

| member | source | states |
|---|---|---|
| MirrorInvariants.StepKeeps | crates/sync/src/lib.rs:125-238 | every server step, cycle step, pull step and cut keeps the combined invariant of server, rows, cursor and history row |
| MirrorInvariants.RunKeeps | crates/sync/src/lib.rs:99-238 | the invariant holds in every state of every run, UIDVALIDITY resets and cuts included |
| MirrorTheorems.ArrivalHolds | crates/imap-client/src/backend.rs:477-528 | with a cursor of the current UIDVALIDITY, every live UID from the base up to the cursor's UIDNEXT has a local row |
| MirrorTheorems.NoFlagChangeLost | crates/imap-client/src/backend.rs:576-611 | a live local row at or above the base whose server modseq the cursor has reached shows the server's flags, failed CHANGEDSINCE fetches and changes between SELECT and FETCH included |
| MirrorTheorems.CyclePrunes | crates/sync/src/lib.rs:169-220 | when a cycle that got a non-empty listing stores its cursor, every local id was live when that same cycle took the listing, so nothing of an older UIDVALIDITY is left |
| MirrorTheorems.PulledRangeStored | crates/sync/src/history.rs:324-350 | while the UIDVALIDITY is the one the pull started in, at every moment, after any cut, cancel, retry or restart, the store holds every live UID from the persisted anchor up to the start; for a start above UIDNEXT, every one below the UIDNEXT of that moment |
| MirrorTheorems.CompletedMeansAll | crates/imap-client/src/backend.rs:663-726 | a Completed pull that started at or below UIDNEXT, in the UIDVALIDITY it still runs in, has stored every live UID below its start, across dense chunks, skipped gaps and the slow walk |
| MirrorTheorems.RootedMeansAll | apps/desktop/src-tauri/src/commands/history_sync.rs:589-609 | in particular one that found a row of that UIDVALIDITY when it started |
| MirrorExact.CompletedExactly | crates/imap-client/src/backend.rs:663-726 | from any reachable state a pull can start in, Completed means the tail is stored in every continuation with that start and UIDVALIDITY if and only if the start is not above UIDNEXT; the failing run continues the given one |
| MirrorExact.AnchorFallsExactly | crates/imap-client/src/backend.rs:700-721 | and the same condition decides whether every successful chunk of every such continuation moves the anchor strictly down |
| MirrorTheorems.HolesWereThere | crates/sync/src/lib.rs:221-238 | whatever is still missing below the cursor's UIDNEXT after a Completed pull was live and missing when it started, below the base and either at or above the start or, for a start above UIDNEXT, below its first chunk |
| MirrorTheorems.WholeFolderMirrored | crates/sync/src/lib.rs:221-238 | after a Completed pull that started over an unbroken store no live UID below the cursor's UIDNEXT is missing |
| MirrorExact.WholeExactly | crates/sync/src/lib.rs:221-238 | from any reachable state a pull can start in, Completed means nothing below a current cursor's UIDNEXT is missing in every continuation with that start and UIDVALIDITY if and only if the cursor is current at the start and no live message below the base that the pull may pass over is missing then |
| MirrorExact.HolesStay | crates/imap-client/src/backend.rs:663-726 | what is missing at or above a fresh start and below the cursor's UIDNEXT, and in no running cycle's hands, stays missing while it is live, not the highest message, the UIDVALIDITY stays, and no later pull starts anew from above it |
| MirrorTheorems.AnchorFalls | crates/imap-client/src/backend.rs:700-721 | over the IMAP adapter every successful chunk moves the anchor strictly down, for a pull that started at or below UIDNEXT in the UIDVALIDITY it still runs in |
| MirrorStarts.RunStarts | apps/desktop/src-tauri/src/commands/history_sync.rs:572-609 | in every reachable state, what was stored when the pull started at the lowest local UID is still stored while live, and a cursor current then keeps its base, as long as the UIDVALIDITY stays |
| MirrorStarts.AllAboveBase | apps/desktop/src-tauri/src/commands/history_sync.rs:589-609 | rows of the current UIDVALIDITY only, none below the base: a start over such a store meets both conditions |
| MirrorTheorems.CaughtUp | crates/sync/src/lib.rs:144-238 | a cursor level with the server plus a pruned store means rows and server agree exactly from the base up, flags included |
| MirrorWitnesses.FlagLostBelowBase | crates/sync/src/history.rs:171-196 | a run in which a chunk fetched before a flag change is stored after the cursor passed it: below the base the flag promise fails |
| MirrorWitnesses.HoleAfterReset | crates/sync/src/history.rs:139-196 | a run in which a pull over a synced store is resumed across a UIDVALIDITY reset and completes over a hole: the UIDVALIDITY must stay |
| MirrorWitnesses.HoleBelowBase | crates/sync/src/lib.rs:125-238 | a run in which a first sync cut before its cursor write leaves a row below the later base: a pull started there completes over the hole it started with |
| MirrorWitnesses.CompletedUnexhausted | crates/imap-client/src/backend.rs:1288-1312 | from an empty client: a stale row survives an empty listing, gives a start above UIDNEXT, and a message arriving during the gap search ends the pull as Completed with the anchor far from the tail |
| MirrorWitnesses.UnsaneRun | crates/imap-client/src/backend.rs:1288-1312 | from every reachable state a pull starts in above UIDNEXT there is such a run, whatever the store and the server hold, and it can leave any messages below the first chunk alive, stored or missing as they were |
| MirrorWitnesses.CursorlessRun | crates/sync/src/lib.rs:125-238 | from every reachable state a pull starts in without a current cursor there is a run that completes it and then installs a cursor over a message that arrived since and was never fetched |
| MirrorWitnesses.HoleRun | crates/imap-client/src/backend.rs:1288-1312 | from every reachable state a pull starts in at or below a live missing message there is a run that completes with it still live and missing |
| SyncFolder.Folder.Sync | crates/sync/src/lib.rs:99-238 | the cycle as written is a run of the mirror: it fails only if SELECT, the fetch or a write does, stores the cursor last, leaves the store and the report that what it was told comes to, and only listed rows if a listing came; on a quiet server the store, cursor and pruned count are those CaughtUpWith gives in terms of server, prior cursor and limit, a failed flag pass or listing included |
| SyncFolder.QuietLeaves | crates/imap-client/src/backend.rs:496-611 | from any answers of a quiet server: everything new since a current cursor, or the last `limit` UIDs below UIDNEXT, is stored with its flags, a failed flag pass keeps only the old modseq, and nothing else is new, changed or gone |
| SyncFolder.Folder.ListMessages | crates/imap-client/src/backend.rs:462-647 | an error only if SELECT or the fetch fails or the UIDVALIDITY differs; otherwise the cursor is the SELECT answer (with the prior modseq exactly if a flag pass was due and failed), the headers everything the server held from the low bound up when they were fetched, the updates everything changed since the prior modseq when the pass ran |
| SyncFolder.Folder.Reconcile | crates/sync/src/lib.rs:169-220 | keeps exactly the local ids that the listing has, or stops at the first failing write without losing any of those |
| SyncFolder.Folder.Write | crates/sync/src/lib.rs:150-238 | the store ends as the old rows with the fetched ones over them, less what the listing lacks, with every flag update applied; the report counts the headers, the updates that met a row and the rows the listing lacked |
| SyncFolder.Folder.ApplyFlags | crates/sync/src/lib.rs:221-238 | every delivered flag update lands on its row if there is one, counted if there is, and nothing else changes; cut short, what is written plus what is pending comes to the same |
| HistoryPipeline.StepWorks | crates/sync/src/history.rs:242-295 | every step of producer, consumer or cancel lowers one measure of anchor, retries, channel and pending statements |
| HistoryPipeline.RunIsShort | crates/sync/src/history.rs:242-295 | a pull from anchor a is over within 16a + 14 steps, whatever fails and however the halves interleave |
| HistoryPipeline.NeverStuck | crates/sync/src/history.rs:171-196 | until both halves have returned, one of them can move |
| HistoryPipeline.RunStatus | crates/sync/src/history.rs:302-444 | retry and anchor bookkeeping that ties the two halves together in every reachable state |
| HistoryPipeline.TerminalStatus | crates/sync/src/history.rs:352-444 | Completed was decided with no cancel and an exhausted tail, Canceled had the flag set, Error had exactly five failures in a row at one anchor |
| PullHistory.Pull.Join | crates/sync/src/history.rs:114-196 | for every scheduler and database, and every backend whose chunks lower the anchor or are empty (MirrorInvariants.FetchFills: the IMAP adapter is one), the pull ends, within the step bound; only a storage error aborts it and only the button cancels it; what it stored is the first chunks of the sequential pull of that backend, all of them when it ends Completed or Error, and which of the two is decided by the backend alone; a backend that always answers gives Completed |
| PullReplay.StoresThePlan | crates/sync/src/history.rs:242-444 | over every run: what producer and consumer have stored is a piece of what asking for one chunk after another gives, all of it after Completed or Error, with the anchor of the last chunk stored |
| PullReplay.MergedHolds | crates/sync/src/history.rs:336-350 | the store after some chunks has every header of each and nothing else new, and a row that was there is as it was |
| PullReplay.StuckIsLast | crates/sync/src/history.rs:262-276 | nothing is fetched after a chunk that leaves the anchor where it was |
| PullHistory.Pull.Write | crates/sync/src/history.rs:324-444 | the consumer's statements; a storage error returns at once and leaves the status Running |
| PullHistory.Pull.Answer | crates/sync/src/history.rs:255-294 | a chunk is made ready to send, an error raises the failure count by one, the fifth in a row gives up, and each attempt is logged |
| PullHistory.Pull.Offer | crates/sync/src/history.rs:262-276 | a sent chunk moves the producer to its anchor with the failure count back at zero, or ends it |
| TursoConn.RecoveryRefines | crates/storage/src/turso_conn.rs:208-222 | the recovering connection refines an atomic store: committed data is the autocommit writes and committed transactions in order, and a live handle sees its own writes on top |
| TursoConn.DirectCallSeesCommitted | crates/storage/src/turso_conn.rs:225-257 | a direct statement sees nothing of an abandoned transaction, and its acknowledged write is committed at once |
| TursoConn.OpenExactly | crates/storage/src/turso_conn.rs:281-306 | over well-used sequences, a transaction is open exactly when a handle is live or the poison flag is set, at every moment, if and only if every recovery rollback closes its orphan and no COMMIT or ROLLBACK fails by throwing its transaction away |
| TursoConn.ExplainedExactly | crates/storage/src/turso_conn.rs:208-222 | open transactions stay accounted for if and only if every recovery rollback closes its orphan |
| TursoConn.WedgedCommitsNothing | crates/storage/src/turso_conn.rs:208-222 | once one does not, the connection commits nothing more until the process restarts, whatever it acknowledges |
| TursoConn.UndisciplinedWriteLost | crates/storage/src/turso_conn.rs:309-315 | a direct write around a live handle joins its transaction and can be lost: a run of four calls |
| TursoConn.Connection.Execute | crates/storage/src/turso_conn.rs:227-238 | recovery first, then an autocommit write that lands outside any orphan |
| TursoConn.Connection.Begin | crates/storage/src/turso_conn.rs:281-306 | a handle exactly when the engine opened a transaction |
| TursoConn.Transaction.Commit | crates/storage/src/turso_conn.rs:358-371 | committed data becomes the transaction's, or the handle is poisoned |
| TursoConn.Transaction.OnDrop | crates/storage/src/turso_conn.rs:389-411 | an unfinished handle sets the shared flag |
| Outbox.StepKeeps | crates/sync/src/outbox_drain.rs:158-230 | every step of a pass, a user action, a foreign transaction or a crash keeps the outbox invariant |
| Outbox.EachRowAccountedFor | crates/storage/src/repos/outbox.rs:216-256 | each entered row is pending, dead or sent and exactly one of them; sent only after an accepted dispatch; at most five failures since its last enqueue, and dead exactly at five unless re-enqueued mid-pass |
| Outbox.NeverSentTwice | crates/storage/src/turso_conn.rs:201-207 | a row whose delete returned Ok is never dispatched again, across any abandoned transactions |
| Outbox.LostWasRaced | crates/storage/src/repos/outbox.rs:127-185 | a payload is deleted undispatched only if it was put on its row while a pass had the row listed, and that pass's delete took it |
| Outbox.RacedPayloadLost | crates/storage/src/repos/outbox.rs:127-185 | and whatever else happens in between, such a delete always takes the new payload with the row |
| Outbox.LostExactly | crates/sync/src/outbox_drain.rs:138-173 | over every run, a payload leaves the table without an accepted dispatch if and only if it was put on an existing row and the pass under way deleted the row before anything else was put there |
| Outbox.SavedAgainMidPass | crates/sync/src/outbox_drain.rs:138-173 | a run from the empty table: a draft saved again between listing and dispatch is lost from the outbox |
| Outbox.AcknowledgedExactly | crates/storage/src/repos/outbox.rs:140-167 | over every run, an acknowledged update of a row that the lookup found leaves its payload in the table, due again, if and only if no delete of the row fell between lookup and update; otherwise it changed nothing |
| Outbox.UpdateMetNoRow | apps/desktop/src-tauri/src/commands/drafts.rs:160-168 | a run from the empty table in which the drain deletes the row between the two: the call returns Ok and the new payload is nowhere |
| Outbox.UnsweptDeleteUndone | crates/storage/src/turso_conn.rs:203-207 | behind an orphan that recovery failed to close, an acknowledged delete is undone by a restart |
| OutboxDrain.Worker.Drain | crates/sync/src/outbox_drain.rs:138-156 | one outcome per due row, in due order and up to the limit, none passed over for a later one, each as the backend and the write answered for that row; exactly the rows reported sent leave, and if nobody else writes, refused rows are counted and rescheduled or dead, all others as they were |
| OutboxDrain.Worker.ProcessOne | crates/sync/src/outbox_drain.rs:158-230 | delete after an accepted dispatch, count or dead-letter after a refused one, and the outcome reported in each case |
| OutboxDrain.Worker.EnqueueDedup | crates/storage/src/repos/outbox.rs:127-185 | one row per key, reset and due again with the new payload, unless the pass's write falls between lookup and update and deletes that row, when the id comes back without a row; other rows as that write leaves them |
| Drafts.NeverZeroCopies | crates/imap-client/src/backend.rs:1106-1174 | from the first APPEND that took effect there is always a server copy, over every run of saves, retries, discards, failures and crashes in which no other client expunges |
| Drafts.CopiesBounded | crates/imap-client/src/backend.rs:1158-1171 | over every run, other clients' expunges included, copies number at most one plus failed destroys plus appends whose id was not kept, and one more between APPEND and destroy |
| Drafts.SmoothLeavesOne | crates/sync/src/outbox_drain.rs:264-291 | saves without a failure leave exactly one copy, the one whose id is stored |
| Drafts.DestroyTakesFound | crates/imap-client/src/backend.rs:1343-1391 | the destroy takes the copy just found exactly when the lookup found the prior copy itself |
| Drafts.ForeignExpungeLeavesNone | crates/imap-client/src/backend.rs:1146-1151 | another client's expunge of the new copy before the lookup makes that happen and the save ends with none: a concrete run |
| Drafts.FoundSurvives | crates/imap-client/src/backend.rs:1141-1171 | in every run, a save that no other client's expunge met between its APPEND and its lookup does not destroy the copy it found, whatever was expunged before or after |
| Drafts.OwnStepsLeaveOne | crates/imap-client/src/backend.rs:1106-1174 | in every run no step of this client takes the last copy, provided, for a destroy, that the save was undisturbed and the found copy is still there |
| Drafts.ForeignExpungeBeforeDestroy | crates/imap-client/src/backend.rs:1151-1171 | the found copy must still be there: expunged after the lookup, the destroy of the prior copy leaves none: a concrete run |
| DraftSaver.Saver.SaveDraft | crates/imap-client/src/backend.rs:1074-1175 | APPEND before destroy; the result names the copy just written, and the error and the copies left are stated for every outcome |
| DraftSaver.Saver.Dispatch | crates/sync/src/outbox_drain.rs:254-291 | the prior id is read at dispatch, the new one stored; Ok exactly when every step succeeds, else the error of the first that fails; never fewer than one copy, never more than the bound |
| DraftSaver.Saver.Newest | crates/imap-client/src/backend.rs:1141-1151 | the highest UID whose Message-ID matches |
| ThreadingTheorems.BatchIsOneByOneExactly | crates/sync/src/threading.rs:114-177 | batched assembly equals one-at-a-time assembly if and only if every subject lookup reached answers on the store before the chunk what it would answer in its turn |
| ThreadingTheorems.BatchWithoutSubjects | crates/sync/src/threading.rs:54-81 | in particular when the subject step matches nothing, in-chunk references and self-references included |
| ThreadingTheorems.TwinSubjectsSplit | crates/sync/src/threading.rs:148-158 | two new messages sharing a subject nobody else has get one thread one at a time and two in one chunk |
| ThreadingTheorems.BatchKeeps | crates/sync/src/lib.rs:298-484 | a chunk of distinct messages keeps every thread reference valid and every count equal to its messages, for new, healed and plain rows |
| ThreadingTheorems.SecondChunkAddsNothing | crates/sync/src/lib.rs:350-400 | the same chunk again attaches nothing and writes nothing |
| ThreadPlaces.OneNextPlaces | crates/sync/src/threading.rs:54-111 | a message without a thread joins the thread of the message it replies to, else that of its last reference that leads to one, else the latest recent one of its subject; a fresh thread is minted only if none of these gives one, and the thread counts it |
| ThreadPlaces.BatchPlaces | crates/sync/src/threading.rs:114-177 | the same for every header of a chunk, judged by the store before it and the headers before it in the chunk |
| ThreadPlaces.ReplyJoins | crates/sync/src/threading.rs:119-133 | a reply to a stored message joins that message's thread |
| ThreadPlaces.ReplyJoinsEarlier | crates/sync/src/threading.rs:119-133 | a reply to an earlier header of the chunk ends in that header's thread |
| ApplyChunk.Engine.Apply | crates/sync/src/lib.rs:298-484 | the three phases and one transaction produce the batched assembly, every header in the right thread (ThreadPlaces.ChunkPlaced), or leave the store alone, and report exactly the new, healed and changed rows |
| ApplyChunk.ReadPass | crates/sync/src/lib.rs:308-345 | the read-only pass chooses the attachments of the batched assembly |
| ApplyChunk.MintAll | crates/sync/src/lib.rs:419-427 | all fresh threads are in place, whatever order the hash map yields them |
| ApplyChunk.TouchBuckets | crates/sync/src/lib.rs:433-475 | touching new rows first and healed rows after comes to touching them in chunk order |
| BackendCache.StepKeeps | apps/desktop/src-tauri/src/backend_factory.rs:80-122 | every lookup, build, wait, eviction, abandoned future and tick keeps the cache invariant |
| BackendCache.FilledOnce | apps/desktop/src-tauri/src/backend_factory.rs:118-121 | a slot is filled at most once |
| BackendCache.SameSlotSameHandle | apps/desktop/src-tauri/src/backend_factory.rs:80-122 | callers share a handle if and only if they joined the same slot |
| BackendCache.HitsAreYoung | apps/desktop/src-tauri/src/backend_factory.rs:86-93 | a cached handle was younger than the limit when the lookup returned it |
| BackendCache.HitsExactly | apps/desktop/src-tauri/src/backend_factory.rs:86-93 | a lookup returns the cached slot's handle at once if and only if there is one and it is younger than thirty minutes |
| BackendCache.RetryIsFresh | apps/desktop/src-tauri/src/backend_factory.rs:176-198 | the retried operation's handle was built after the first attempt's authentication error |
| BackendCache.OneBuilder | apps/desktop/src-tauri/src/backend_factory.rs:118-121 | at most one caller builds a slot at any moment |
| BackendCache.NeverStuck | apps/desktop/src-tauri/src/backend_factory.rs:118-121 | a waiter can always take, build, or watch a builder that can finish |
| BackendCache.FilledBetweenReads | apps/desktop/src-tauri/src/backend_factory.rs:86-105 | a run in which a slot filled between a lookup's two reads is replaced although it is new |
| BackendCache.YoungReplacedWasJustBuilt | apps/desktop/src-tauri/src/backend_factory.rs:86-105 | in every run, a lookup replaces a filled slot that is still young only if the slot was empty at its own first read, the cache unchanged since: it was built strictly between the two reads |
| BackendFactory.AppState.WithAuthRetry | apps/desktop/src-tauri/src/backend_factory.rs:176-198 | after an authentication error the caller evicts, the failed handle is never in the cache again, and the operation runs a second time on a handle whose build began no earlier than the error unless reopening gave none; its answer is the last run's; no other error is retried; alone and with builds that succeed there are exactly two runs after such an error and one otherwise; the caller is never left evicting |
| BackendFactory.AppState.GetOrOpen | apps/desktop/src-tauri/src/backend_factory.rs:80-122 | the caller ends with an entry in use, or with a failed build or a wait it gave up, and never without one when it is alone and builds succeed |
| UidChunks.Chunk | crates/imap-client/src/backend.rs:1737-1769 | batches read back to the input in order; each fits 1000 UIDs and 4096 bytes; all but the last hold 372 or more; at most a 372nd of the UIDs, rounded up |
| UidChunks.ReadJoined | crates/imap-client/src/backend.rs:1737-1769 | a comma-joined batch splits and parses back to its UIDs |
| StripBcc.StripsExactly | crates/mime/src/compose.rs:288-340 | the output's header fields are the input's without the Bcc ones, separator and body unchanged, and a second application changes nothing |
| StripBcc.AnyCaseOfBcc | crates/mime/src/compose.rs:288-319 | a header line of its own is dropped exactly when it starts with one of the eight spellings of `bcc:`, and the rest is stripped as if it were not there |
| StripBcc.StripBccHeader | crates/mime/src/compose.rs:288-319 | the line loop computes that reference |
| StripBcc.FindHeaderEnd | crates/mime/src/compose.rs:326-340 | header and body as the first empty line divides them |
| CidRefs.ScanIsProper | crates/mime/src/lib.rs:881-939 | the rewriting is the only one that replaces each reference by its longest, first id within both limits and copies the rest |
| CidRefs.RewriteIsProper | crates/mime/src/lib.rs:881-939 | at most 64 uses per entry and never more than 48 MiB beyond the input |
| CidRefs.RewriteCidRefs | crates/mime/src/lib.rs:881-939 | the occurrence walk with its copy cursor computes that rewriting |
| CidRefs.SortOrders | crates/mime/src/lib.rs:906-913 | a stable order, longest bare id first, keeping every entry |
| CidMeaning.MentionIsReplaced | crates/mime/src/lib.rs:914-939 | wherever the scan meets a known id after `cid:`, ended by a quote of either kind, a bracket, an ampersand, white space or the end, it puts that id's first URI while both limits allow |
| CidMeaning.FirstMentionIsReplaced | crates/mime/src/lib.rs:914-939 | so the first mention in a text is replaced by that URI, what is before it kept |
| SearchQuery.RenderingKeepsMeaning | crates/search/src/lib.rs:98-115 | the rendered query reads back as exactly its clauses if and only if no term of it is blank |
| SearchQuery.TypedWordsAreSearched | crates/search/src/lib.rs:132-142 | words and phrases that are no operator, colons and all, are searched for as typed |
| SearchQuery.EmptyQuotesSpoilQuery | crates/search/src/lib.rs:266-275 | an empty pair of quotes renders to a query that reads back as nothing |
| SearchQuery.TokensKeepText | crates/search/src/lib.rs:147-169 | tokens hold every character but unquoted white space, in order |
| SearchQuery.Tokenize | crates/search/src/lib.rs:147-169 | the token loop yields the maximal runs between unquoted spaces |
| SearchQuery.Parse | crates/search/src/lib.rs:132-142 | each token in turn becomes its operator's predicate or a term |
| SearchMeaning.OperatorTyped | crates/search/src/lib.rs:171-247 | `name:value`, the name in any case and the value bare or quoted, is one token and sets the part of the query that the name says, and only that |
| SearchQuery.LexTerm | crates/search/src/lib.rs:266-294 | an escaped term reads back as its literal text, whatever it contains |
| SearchQuery.ToTantivyString | crates/search/src/lib.rs:98-115 | terms then fields, each escaped, joined by AND |
| Ids.DecodeEncode | crates/imap-client/src/sync_state.rs:72-102 | every message reference survives, even with the separator in its folder |
| Ids.EncodeIsInjective | crates/imap-client/src/sync_state.rs:72-78 | different references have different ids |
| Ids.DecodesExactly | crates/imap-client/src/sync_state.rs:80-102 | what decodes is exactly four pieces with readable numbers |
| Ids.ScopedIsInjective | crates/core/src/ids.rs:81-91 | scoped ids determine account and key |
| Ids.WrongAccountKeepsId | crates/core/src/ids.rs:93-103 | another account leaves a scoped id unchanged |
| Ids.DisplayOfScoped | crates/core/src/ids.rs:105-113 | the display key is the backend key |
| Ids.MailboxThroughMessageId | crates/imap-client/src/backend.rs:309-314 | the wire name comes back through a message id with the right account and only with it |
| Ids.AccountIdsAreClean | crates/core/src/ids.rs:25-59 | a minted account id has no separator and names one provider and one address |
| Ids.AccountIdsAreInjective | crates/core/src/ids.rs:25-59 | and determines both |
| Ids.MintsExactly | crates/core/src/ids.rs:25-59 | an id is minted if and only if the provider is a plain slug and the typed text is white space around one clean `local@domain`, and it is made of just these |
| Subject.NormalizeTwice | crates/sync/src/threading.rs:237-270 | normalising a key again changes nothing |
| Subject.AnyTagLeavesKey | crates/sync/src/threading.rs:237-270 | `re:`, `fw:` or `fwd:` in any case before any subject leaves its key |
| Subject.OthersStay | crates/sync/src/threading.rs:237-270 | and a subject without one is only put in lower case and respaced |
| Subject.ChainKeepsKey | apps/desktop/ui/src/reply.rs:23-49 | any chain of replies and forwards of any subject keeps its key |
| Subject.NormalizeSubject | crates/sync/src/threading.rs:237-250 | the loop terminates with the normal form |

## Left out

- MirrorTheorems.CompletedMeansAll: not promised across a UIDVALIDITY reset or for a start above UIDNEXT, which only a stale row can give; MirrorWitnesses.HoleAfterReset and MirrorWitnesses.UnsaneRun show it fails there.
- MirrorTheorems.WholeFolderMirrored: not promised over a store that already had a hole or without a current cursor at the start; MirrorWitnesses.HoleBelowBase and MirrorWitnesses.CursorlessRun show it fails there.
- MirrorTheorems.ArrivalHolds: FETCH items that cannot be translated, which the adapter skips while the cursor advances; such a message never gets a row.
- MirrorTheorems.PulledRangeStored: messages that arrive between UIDNEXT and a start above it; and a draining pull that was cancelled and one started beside it are not modelled together.
- MirrorTheorems.NoFlagChangeLost: not promised below the base, where MirrorWitnesses.FlagLostBelowBase shows it fails.
- MirrorTheorems.AnchorFalls: conditional like CompletedMeansAll (MirrorExact.AnchorFallsExactly); termination itself (HistoryPipeline.RunIsShort) needs no such condition.
- TursoConn.RecoveryRefines: a statement that fails inside a transaction leaves it open; an engine that rolls back on its own at that point is not modelled.
- Drafts.NeverZeroCopies: not promised when other clients expunge; Drafts.OwnStepsLeaveOne is what holds then.
- Outbox.EachRowAccountedFor: accounts that stay. Removing an account deletes its rows (crates/storage/migrations/0001_initial.sql:96), and its database is not modelled.
- BackendCache.StepKeeps: one account; slots of other accounts share only the lock.
- ThreadingTheorems.BatchIsOneByOneExactly: one clock reading per chunk for the thirty-day window, one account, and unique Message-IDs.
- ThreadPlaces.OneNextPlaces: a Message-ID that rows of different threads carry, or a threaded and an unthreaded row, where the query may pick either.
- ApplyChunk.Engine.Apply: repeated ids within one chunk; contacts; the JSON encoding of flags and labels.
- BackendFactory.AppState.GetOrOpen: waiting is bounded by a patience parameter, after which the caller is dropped.
- Optimistic local edits from the UI, which make local and server flags differ until the drain runs.
- VANISHED responses and reported removals, which the IMAP adapter never produces; body fetches and blob files.
- The JMAP adapter, TLS, XOAUTH2, SMTP, OAuth and keyring code, and the HTTP client.
- The FTS index drop and rebuild, PRAGMAs, compression and telemetry.
- Jitter, backoff lengths and the pause between history chunks: due dates and delays are arbitrary numbers.
- Thread counts after a prune: deleting a message does not lower its thread's count in the source, so the counts are proved for chunks only.
- HTML sanitising and MIME parsing, which are libraries.
- IDLE reconnects and the event debounce loop.
