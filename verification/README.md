# DIPLOMATIC sync, modelled and proved in Dafny

DIPLOMATIC synchronises end-to-end encrypted events between the clients of one
user. Clients write messages, a host numbers sealed bags per realm, and every
client renders what it holds by last-writer-wins. This project models that
machinery and proves what it promises: the protocol in any interleaving, the
entity store with its caches and indexes, the byte formats, the export file,
and the arithmetic underneath.

Check it with `dafny verify dfyconfig.toml`.

## How it is built

- **The protocol** is a step system. `SyncState` splits every handler of
  `web/src/sync.ts` and `web/src/client.ts` at its awaits; any number of
  handlers of any number of clients interleave, and any answer of the host may
  be lost. `SyncInv` and `SyncSteps` prove one invariant for every step;
  `SyncSafe` adds that no bag below a cursor is skipped, which one kind of step
  breaks. `SyncTheorems` states what holds along every run. `SyncRuns` and
  `SyncLimits` construct runs.
- **The handlers themselves** are methods on mutable store objects (`Stores`,
  `Handlers`, `HandlersOpen`, `HandlersRecon`, `HandlersWrite`). Each method
  returns, as a ghost value, the moves of the step system that it made; its
  contract says that the stores hold what those moves leave (`Over`, `Holds`),
  and what that is. So `SyncRuns.AloneKeeps` and the theorems about runs apply
  to the code as it is written, loop by loop.
- **The entity store.** `Lww` holds the one-op step and its meaning;
  `EntQuery` what a query means; `EntIndex`/`EntMemory` the indexed in-memory
  store as a class; `EntIdb` the grouped durable apply; `CacheState`,
  `CacheInv`, `CacheSteps`, `CacheTheorems` the optimistic cache as a step
  system with a peer that writes the durable store; `EntCache` the class whose
  methods are those steps; `Replay` the rebuild from the archive.
- **Bytes.** `Codec` (varints), `Structs` (records as functions), `Coder`
  (`Encoder` and `Decoder` objects and the record codecs on them), `Layout` (the
  records byte for byte), `Doubles` (what a JavaScript number holds), `Sealing`
  (message to bag and back), `MsgBytes` (protocol messages as bytes), `Exim`
  (export file), `Checksum`, `Base128`, `Batch`, `X25519` with `Bits` and `Field`.
- **The host** (`Host`, `PushItems`) and **call coalescing** (`Coalesce`).

Cryptography is ideal: `unseal` inverts `seal`, a signature checks when it was
made by the realm's key over those bytes, hashes have 32 bytes, and where it
matters two given inputs do not collide. `Sealing.IdealExists` shows that the
assumptions can be met together. In the protocol model a message stands for its
own archive key; `Sealing.KeyIsIdentity` and `MsgBytes.MsgOfInjective` justify
that.

## What the code does not keep

Each of these is a property that the code or its documentation suggests and
that fails. For each there is a condition that says exactly when it holds.

1. `StateManager.apply` lays the statuses of the parsed messages over the whole
   batch by position. They line up exactly when every message that does not
   parse comes after all that do (`Messages.AlignedExactly`,
   `Messages.AllAckedExactly`). Otherwise a message that was applied is never
   queued for upload (`SyncRuns.WriteQueuesAll`), and two clients end quiescent
   with different archives and rows (`SyncLimits.LostWrite`). `Convergence`
   therefore assumes writes whose failures come last.
2. `reconcileHost` without `pull` moves each cursor to the top of its realm and
   queues nothing; `client.reconcile` ends with such a call. It keeps the
   "nothing is skipped" invariant exactly when every listed bag was archived,
   queued or held before (`SyncLimits.InventorySkips`,
   `SyncLimits.SkippedBag`).
3. `reconcileHost` that fails on a realm, pull on or off, returns with the
   cursors of the realms before already at their tops and their missing bags
   not queued. It skips no bag exactly when every bag of those realms was
   archived, queued or held before (`SyncLimits.InventoryStops`,
   `SyncLimits.StoppedBag`). What does not depend on cursors (uploads, archives,
   rows) survives both.
4. `CachedEntDB.ingestFromDurable` of an eid the durable store does not hold
   yet removes the optimistic row from memory for good: an ingest drops a row
   exactly when its eid is ingested and the durable store lacks it
   (`CacheLimits.IngestDrops`, `CacheLimits.LostRow`).
5. Two ops on one eid with one update time: the first to arrive wins, so the
   rows depend on the order unless the newest ops of each eid write the same
   row (`Lww.OrderIndependence`, `Replay.ReplayMatchesExactly`). If their
   counters differ the cache, which compares counters, can disagree with the
   durable store for ever; over a set of ops the two agree whenever nothing is
   outstanding exactly when it has no such tie (`CacheLimits.TieDisagrees`,
   `CacheLimits.AgreementExactly`).
6. `batchByBytes` may use a batch more than needed: it uses fewest exactly when
   no batch of weightless items follows one that is exactly full
   (`Batch.FewestExactly`).
7. An empty body is sealed but does not open (`Sealing.SealOpen`); an empty
   parent id is lost by the durable row form (`EntIdb.StoredRoundTrip`); a body
   that its head does not announce is dropped by an export
   (`Exim.KeptExactly`).
8. `readVarInt` returns a number, so an integer survives exactly when a double
   holds it (`Codec.VarIntRoundTrip`).
9. `CoalesceTail.run` lets passes overlap when the work calls back before it
   has yielded, and only then (`Coalesce.OverlapExactly`).

## Model

The main results come first, then the operations and lemmas component by
component.

| member | source | states |
|---|---|---|
| `SyncTheorems.Convergence` | web/src/client.ts:719-791 | with nothing outstanding all clients have applied the same messages, hold the same rows, tombstones included, when the newest ops of each eid agree, and the same archive when every message parses |
| `SyncTheorems.RowsShowNewest` | web/src/entdb/entdb.ts:252-290 | with nothing outstanding a client has a row for an eid exactly when a message of the host that parses names it, and the row shows a newest one field by field: dead exactly when that message has no body |
| `SyncTheorems.QuiescentArchives` | web/src/client.ts:719-791 | with nothing outstanding an archive is the host's messages plus those its own writes never queued; two archives agree exactly when these leftovers do |
| `SyncTheorems.NoUploadLost` | web/src/client.ts:295-372 | in every reachable state of any run an archived message is on the host, queued for upload, still being written, or one that its own write left out of the queue |
| `SyncTheorems.NoFalseDequeue` | web/src/sync.ts:465-474 | at every step of any run a message leaves an upload queue only if the host then holds its bag, for push, peek and inventory |
| `SyncTheorems.NothingSkipped` | web/src/sync.ts:382-518 | in every reachable state of a run whose inventories pull and finish, each host bag at or below a cursor has its message archived, in the download queue or held by a running handler |
| `SyncTheorems.NothingForgotten` | web/src/sync.ts:252-327 | along every run a client keeps what it archived and applied, and the host only adds bags at the end |
| `SyncTheorems.NothingLetGo` | web/src/sync.ts:713-883 | along a run whose inventories pull and finish what is covered stays covered: no handler drops a message that it neither archived nor queued |
| `SyncSteps.StepKeeps` | web/src/sync.ts:135-1079 | every step of every handler (write, drain, peek, push, pull, notification, inventory of any kind, lost answers) keeps the invariant of its client, and undoes nothing another handler relies on |
| `SyncSafe.StepSafe` | web/src/sync.ts:135-1079 | every step but one of an inventory that will queue nothing keeps each bag below a cursor covered: archived, queued or held by a running handler |
| `SyncTheorems.AlignedRun` | web/src/client.ts:352-367 | if in every write the failures come last, no finished write ever left a message that parses out of the upload queue |
| `SyncLimits.LostWrite` | web/src/state.ts:82-110 | a run that ends quiescent with a message that only its author has |
| `SyncLimits.InventorySkips` | web/src/sync.ts:994-1024 | an inventory without pull that runs alone skips no bag exactly when all bags it lists were archived, queued or held before |
| `SyncLimits.InventoryStops` | web/src/sync.ts:932-1001 | an inventory that gives up after some realms has moved their cursors to the top; it skips no bag exactly when all bags of those realms were archived, queued or held before |
| `CacheLimits.AgreementExactly` | web/src/entdb/cached.ts:577-584 | for a set of ops, memory and durable store agree whenever nothing is outstanding, in every run over these ops, exactly when no two of them tie on eid and update time with different counters |
| `CacheTheorems.Agreement` | web/src/entdb/cached.ts:209-459 | with nothing outstanding each row in memory is the durable row, and each type warmed by reading is complete, when equal eids and update times have equal counters |
| `CacheTheorems.NeverOlder` | web/src/entdb/cached.ts:311-379 | along every run whose ingests name eids the durable store holds, ties included, a row in memory is never dropped and never moves to an older (update time, counter) |
| `CacheTheorems.NothingStuck` | web/src/entdb/cached.ts:209-379 | at any time a row that differs from the durable one is queued to be persisted or owed a pull |
| `CacheSteps.StepKeeps` | web/src/entdb/cached.ts:209-459 | every step of the cache (apply, persist, pull, warm, row read, ingest, peer write) keeps the whole invariant |
| `CacheLimits.IngestDrops` | web/src/entdb/cached.ts:334-379 | an ingest that runs alone drops a row of memory exactly when its eid is ingested and the durable store does not hold it |
| `Lww.OrderIndependence` | web/src/entdb/entdb.ts:252-290 | all orders and repetitions of the ops give one store exactly when the newest ops of each eid write the same row |
| `Lww.DeadExactly` | web/src/entdb/entdb.ts:252-290 | after any run of ops an eid is dead exactly when the op that wins it is a delete, and otherwise live with that op's content |
| `Lww.ApplyOpMeans` | web/src/entdb/entdb.ts:252-290 | one op: refused for an eid that does not parse or a row that is no older; else a tombstone exactly for a delete, and a live row with the eid's creation time, the op's type, parent and body and the first occurrences of its non-empty tags |
| `Lww.NoResurrection` | web/src/entdb/entdb.ts:252-290 | a row is replaced only by a strictly newer op, so an older one never revives a tombstone |
| `Replay.ReplayMatchesExactly` | web/src/client.ts:1010-1051 | a replay equals the state of every order of arrival exactly when the newest messages of each eid write the same row |
| `EntIdb.GroupedIsSequential` | web/src/entdb/idb.ts:257-374 | the grouped batch equals the sequential one as the store reads it back, and outright when no op has an empty parent id |
| `EntMemory.EntDBMemory.GetEntities` | web/src/entdb/memory.ts:305-387 | every indexed query answers exactly the live rows of its type that meet it, by parent, tag or update time written out as bounds, without repeats; an upside-down range is an error |
| `Messages.AlignedExactly` | web/src/state.ts:82-110 | every message that parses gets its own status exactly when failures come last |
| `HandlersRecon.ReconcileHost` | web/src/sync.ts:894-1079 | a full inventory: cursors at the top, uploads exactly what the host lacks, and with pull on exactly the bags of listed messages that are not archived come in, none left out; a failed listing ends it with the cursors of the realms before at the top |
| `HandlersOpen.HandleNotif` | web/src/sync.ts:713-883 | final archive, queue and cursors of a notification; a full sync is scheduled exactly when it brought a message that was not archived |
| `Handlers.PushBatch` | web/src/sync.ts:135-194 | exactly the stored messages of the batch leave the upload queue, an answer index without a hash is skipped, and nothing changes if the answer failed; the cursor goes to the last of the unbroken run of stored numbers right after it and moves for no other realm; the effect is a run of the protocol's push moves |
| `Handlers.SyncPeek` | web/src/sync.ts:382-518 | final queues and cursor of a peek: this realm's cursor goes to the highest number listed and never back, no other moves, and only after the rows are queued; a run of the protocol's peek moves |
| `Host.SuccessNamesItsBag` | shared/api/push.ts:61-116 | each index is answered once, and each success's number holds exactly the bag at that index, after all older bags |
| `Host.StoredVouched` | shared/api/push.ts:61-75 | if the check accepts only what was signed, every bag answered with success was signed for just its realm and head ciphertext |
| `Host.AnsweredBySignature` | shared/api/push.ts:61-116 | a bag is answered with success exactly when its realm has 32 bytes and its signature checks over realm followed by head ciphertext, and with InvalidSignature otherwise |
| `Sealing.EndToEnd` | shared/bag.ts:44-139 | archive row, seal, push, list, peek, pull, open: the reader has the author's message under the author's key |
| `Sealing.OpenVouches` | shared/bag.ts:95-139 | whatever opens was signed for its own realm and head, decrypts to the head it comes with, and has the body whose hash the head announces |
| `Exim.FileRoundTrip` | shared/crypto/exim.ts:100-184 | decoding an encoded file gives its realms, heads and bodies in order and consumes every byte |
| `Exim.FileVouched` | shared/crypto/exim.ts:142-184 | a file that decodes has the nonce and the realm directory of one that was signed: no row can be cut, added or changed |
| `Exim.FileHeld` | shared/crypto/exim.ts:142-184 | a file that decodes gives one realm for each directory row, in order, with as many messages as it says, heads that hash to what it says and unseal under that realm's own keys, and bodies that hash to what their heads say |
| `Exim.KeptExactly` | shared/crypto/exim.ts:225-233 | nothing is lost exactly when each body is announced by its head |
| `Checksum.CanonicalExactly` | shared/checksum.ts:27-48 | the preimage ignores order, and for self-delimiting records determines the collection |
| `Checksum.RevsExactly` | shared/checksum.ts:65-76 | two stores share a frontier preimage exactly when they hold the same revisions, equally often |
| `Codec.VarIntRoundTrip` | shared/codec.ts:97-103 | an encodable integer reads back exactly when a double holds it |
| `Doubles.NearestDouble` | shared/codec.ts:97-103 | any other integer reads as the nearest double, of two the even one |
| `Structs.HeadRoundTrip` | shared/codecs/messageHead.ts:9-59 | a head reads back exactly when its eid parses and its hash is there if and only if its length is positive |
| `Base128.RoundTrip` | shared/binary.ts:73-123 | decoding an encoding gives the bytes back; symbols are below 128; the length is 8n/7 rounded up |
| `Base128.SameNumber` | shared/binary.ts:73-98 | bytes and symbols are the digits of one number, lowest first, in base 256 and base 128 |
| `X25519.RunLadder` | shared/crypto/x25519.ts:77-112 | for every k below 2 to the 255th the deferred-swap loop takes the base point to its multiple by k, in any relation that a step doubles and adds in, and computes the ladder that swaps and swaps back on every bit, all values in range |
| `X25519.ScalarMultiple` | shared/crypto/x25519.ts:77-112 | over 255 bits the ladder gives the multiple by k, for every k below 2 to the 255th |
| `Coalesce.OverlapExactly` | web/src/coalesce.ts:17-63 | in every run at most one pass is under way at a time exactly when the work never calls back before it has yielded |
| `Coalesce.AnswerIsFresh` | web/src/coalesce.ts:21-31 | a caller is answered by a pass that began no earlier than its call |
| `Batch.FewestExactly` | web/src/batch.ts:7-32 | no split that fits has fewer batches exactly when no batch of weightless items comes right after one that is exactly full |
| `SyncTheorems.OnlyStoredLeave` | web/src/sync.ts:155-168 | a step takes a message out of an upload queue only if the host holds its bag, also when rejected bags shift positions |
| `SyncRuns.AloneKeeps` | web/src/sync.ts:135-1079 | a handler that runs without interruption keeps its client's invariant wherever it stops |
| `SyncRuns.Alone` | web/src/sync.ts:135-883 | such a handler extends any run of the whole system |
| `SyncRuns.WriteAlone` | web/src/client.ts:295-372 | what a local write leaves in archive, rows and upload queue |
| `SyncRuns.WriteQueuesAll` | web/src/client.ts:352-367 | a write queues every message that parses exactly when its failures come last |
| `SyncRuns.DrainAlone` | web/src/client.ts:386-464 | what draining a batch of pending rows leaves |
| `SyncLimits.InventoryAlone` | web/src/sync.ts:894-1079 | an inventory without pull moves every listed cursor to the top and queues nothing |
| `SyncLimits.SkippedBag` | web/src/client.ts:915-921 | an inventory without pull of a new client skips a bag that no later peek asks for |
| `SyncLimits.StoppedBag` | web/src/sync.ts:932-1001 | an inventory with pull whose second listing fails does too |
| `SyncSafe.PushFurthest` | web/src/sync.ts:170-190 | the cursor after a push is the number v such that stored bags are reported for every number after the start up to v, and none for v + 1 |
| `SyncSteps.ArchiveLast` | web/src/stores/memory/msgs.ts:25-33 | a message archived in several rows is pending, in the realm of its last row |
| `SyncSteps.EnqueueLast` | web/src/sync.ts:503-515 | a key enqueued in several rows holds the message of its last row |
| `Handlers.NewOrSkipped` | web/src/sync.ts:458-503 | a bag is enqueued exactly when its message is not archived and no earlier bag carries it, and its key is cleared otherwise |
| `Handlers.NewMsgs` | web/src/sync.ts:458-503 | the enqueued rows carry exactly the messages of the answer that are not archived |
| `HandlersOpen.OpenPulled` | web/src/sync.ts:252-327 | the bags that open are archived and exactly the pulled rows leave the download queue; if all open, a run of the protocol's pull moves |
| `HandlersOpen.NoticeRowsMean` | web/src/sync.ts:782-811 | exactly the notices with a message that was not archived become rows, to archive when the body came along and to pull otherwise |
| `HandlersOpen.RunToCovers` | web/src/sync.ts:818-831 | a notification moves a cursor only over bags it brought, each of them new |
| `HandlersOpen.RunToExactly` | web/src/sync.ts:818-831 | its run reaches a number exactly when all numbers from the cursor on came in sequence among its new items |
| `HandlersRecon.ListRealms` | web/src/sync.ts:932-1001 | the inventory holds exactly the messages of the realms listed before the first failure, each with a bag that carries it, and their cursors are at the top |
| `HandlersRecon.LookUpEach` | web/src/sync.ts:1016-1043 | lookups drop the uploads the host holds and, with pull on, collect exactly the messages not archived |
| `HandlersWrite.MarkApplyStats` | web/src/client.ts:447-464 | for any statuses a row fails when a status other than Success, NoChange, DatabaseError and StorageError is reported for it, else is applied on Success or NoChange, and else keeps its mark |
| `HandlersWrite.MarkedMeans` | web/src/types.ts:325-330 | the same of the marking function: a transient failure leaves a row pending |
| `HandlersWrite.ToUpload` | web/src/client.ts:352-360 | exactly the acknowledged messages go to the upload queue |
| `HandlersWrite.DropMatching` | web/src/sync.ts:351-380 | queue rows of the archived messages leave the queue, and no others |
| `HandlersWrite.DoApply` | web/src/client.ts:313-376 | final archive, download and upload queues of a write; a run of the protocol's write moves |
| `HandlersWrite.ApplyStored` | web/src/client.ts:433-444 | applying stored rows changes their marks only |
| `HandlersWrite.MarkedAsStep` | web/src/client.ts:447-464 | with the statuses of a store that does not fail, this is the marking and queueing of the protocol step |
| `Stores.MemoryMessageStore.Add` | web/src/stores/memory/msgs.ts:25-33 | rows are written in order, a row that is there goes back to pending |
| `Stores.MemoryDownloadQueue.Deq` | web/src/stores/memory/dnlds.ts:15-20 | the rows with these numbers in this realm leave, no others |
| `Stores.MemoryHostStore.RecordSeqs` | web/src/stores/memory/hosts.ts:51-63 | set a cursor, or move it forward only |
| `Messages.CollectOps` | web/src/state.ts:82-92 | the ops of the messages that parse, in order, each with the eid, offset, counter, type, parent, tags and body of its message, and a parse status for each message |
| `Messages.OpCarries` | web/src/state.ts:24-46 | a message gives an op exactly when its body parses; the op has its fields and is a delete exactly when the body is missing |
| `Messages.AlignStats` | web/src/state.ts:97-110 | a message that does not parse gets its parse status, every other one the status at its own position, or none |
| `Messages.AllAckedExactly` | web/src/state.ts:82-110 | every message that parses is acknowledged exactly when failures come last |
| `Lww.NormalizeTags` | web/src/entdb/entdb.ts:178-200 | first occurrences of the non-empty tags, in order |
| `Lww.ApplyAllRenders` | web/src/entdb/entdb.ts:252-290 | any batch keeps each row the newest op of its eid, over all ops seen so far |
| `Lww.WinnerShows` | web/src/entdb/entdb.ts:252-290 | from an empty store on, every row shows the op that wins its eid: none newer, all earlier ones older |
| `Lww.StatusesMean` | web/src/entdb/entdb.ts:252-290 | an op succeeds exactly when all ops of its eid before it are older; else it reports NoChange, or why its eid does not parse |
| `Lww.TypesExactly` | web/src/entdb/entdb.ts:293-301 | a type is reported exactly when a successful op found or left a live row of it |
| `Lww.ChangedExactly` | web/src/entdb/memory.ts:252-276 | an eid is reported exactly when some op of it succeeded |
| `Lww.ApplyAllSplit` | web/src/entdb/memory.ts:252-276 | splitting a batch changes nothing |
| `Lww.RendersUnique` | web/src/entdb/entdb.ts:252-290 | only one store renders ops whose newest agree |
| `Lww.DistinctStampsConverge` | web/src/entdb/entdb.ts:252-290 | with distinct update times per eid, sequences with the same ops give the same store |
| `Lww.TypesCover` | web/src/entdb/entdb.ts:293-301 | the reported types cover the types of every changed row, before and after |
| `EntQuery.AnswersAgree` | web/src/entdb/memory.ts:305-387 | any two correct answers have the same rows, none twice |
| `EntQuery.AnswersMean` | web/src/entdb/memory.ts:305-387 | an answer has exactly the live rows of the type that are asked for, or is the error of an upside-down range |
| `EntQuery.MatchesMeans` | web/src/entdb/entdb.ts:109-176 | tag and update-time bounds, open and closed, written out |
| `EntQuery.AppliedIsNormal` | web/src/entdb/entdb.ts:252-290 | applied rows carry tags without repeats and without empty ones |
| `EntMemory.EntDBMemory.constructor` | web/src/entdb/memory.ts:54-60 | a store of the given rows, its indexes exact |
| `EntMemory.EntDBMemory.Put` | web/src/entdb/memory.ts:62-74 | one row is set and all three indexes hold exactly the live rows |
| `EntMemory.EntDBMemory.Remove` | web/src/entdb/memory.ts:76-85 | one row is gone and the indexes are exact |
| `EntMemory.EntDBMemory.Apply` | web/src/entdb/memory.ts:252-276 | rows, statuses, types and changed eids of applying the ops one by one |
| `EntMemory.EntDBMemory.ByTagSpec` | web/src/entdb/memory.ts:197-230 | exact, range and prefix tag queries through the index |
| `EntMemory.EntDBMemory.ByDateSpec` | web/src/entdb/memory.ts:232-250 | update-time queries through the type index |
| `EntMemory.EntDBMemory.Scan` | web/src/entdb/memory.ts:324-376 | a full scan gives the answers that the indexes give |
| `EntMemory.EntDBMemory.CountEntities` | web/src/entdb/memory.ts:388-400 | the number of live rows of a type |
| `EntIdb.StoredRoundTrip` | web/src/entdb/idb.ts:71-136 | a row reads back from its stored form unless its parent id is empty |
| `EntIdb.ApplyTable` | web/src/entdb/idb.ts:257-374 | grouping by eid gives the rows, statuses, types and eids of applying one by one |
| `EntIdb.EntIDB.Apply` | web/src/entdb/idb.ts:257-374 | grouping by eid does the same on the store object |
| `CacheTheorems.ShownAtOnce` | web/src/entdb/cached.ts:209-232 | whatever the state, an optimistic apply shows in memory before the durable store has it |
| `CacheTheorems.PullMeans` | web/src/entdb/cached.ts:334-379 | one pull touches its own eid only; it leaves the row in memory when that is strictly newer by (update time, counter) or has moved since the guard was taken, and takes the durable row, or none, otherwise |
| `CacheTheorems.InstallMeans` | web/src/entdb/cached.ts:381-459 | a read installs each row that memory lacks or has an older one for, and nothing else |
| `CacheLimits.LostRow` | web/src/entdb/cached.ts:334-379 | for every live op there is a run after which memory lacks its row, of a warm type, for good |
| `CacheLimits.TieDisagrees` | web/src/entdb/cached.ts:577-584 | for every such tie there is a run after which they disagree for good |
| `CacheLimits.CountersOf` | web/src/entdb/entdb.ts:264-269 | without ties the counter is a function of eid and update time |
| `EntCache.CachedEntDB.constructor` | web/src/entdb/cached.ts:161-176 | memory is the given rows and their types are warm, as the machine starts |
| `EntCache.CachedEntDB.Apply` | web/src/entdb/cached.ts:209-232 | the synchronous part of apply: the ops reach memory exactly when the cache is optimistic, and one persist with the new stamps is queued; the machine's apply step, for every durable store and every read under way |
| `EntCache.CachedEntDB.Persisted` | web/src/entdb/cached.ts:232-289 | after a persist exactly the rejected eids, or all of them, are to be pulled, each once; with the durable store's own statuses this is the machine's persist step |
| `EntCache.CachedEntDB.PullMerged` | web/src/entdb/cached.ts:334-379 | merging one pulled row is the machine's merge step; a type is reported exactly when the row in memory changed and it was live of that type before or is after |
| `EntCache.CachedEntDB.Finished` | web/src/entdb/cached.ts:232-289 | a finished job leaves the chain, the machine's step, and the count of applies in flight stays right |
| `EntCache.CachedEntDB.IngestFromDurable` | web/src/entdb/cached.ts:311-332 | one pull of each eid is queued, the machine's ingest step |
| `EntCache.CachedEntDB.WarmMerged` | web/src/entdb/cached.ts:381-411 | a warm read installs rows that are missing or newer and marks its type warm, the machine's install step |
| `EntCache.CachedEntDB.RowMerged` | web/src/entdb/cached.ts:440-459 | a row read installs a row that is missing or newer, the machine's install step for its eid |
| `Replay.SortSorts` | web/src/hlc.ts:43-48 | newest first, the same messages, ties in their old order |
| `Replay.ReplayLeavesGreatest` | web/src/client.ts:1010-1051 | a replay writes each eid at most once and leaves the row of a message with the greatest (update time, counter) |
| `Replay.ReplayIsIncremental` | web/src/client.ts:1010-1051 | with distinct update times a replay equals the state built as messages came in |
| `Replay.NextBatch` | web/src/client.ts:1027-1037 | a batch is not empty, stops at 100 messages or once it has 102400 bytes, and not before |
| `Replay.ReplayAll` | web/src/client.ts:1010-1051 | the batches are the sorted archive and the store ends as applying all of it |
| `Codec.EncodeVarInt` | shared/codec.ts:7-31 | the loop writes the little-endian base-128 digits, or refuses |
| `Codec.LebMeans` | shared/codec.ts:7-31 | byte i holds the i-th lowest seven bits, every byte but the last has its high bit set, and no byte is idle |
| `Codec.DecodeVarInt` | shared/codec.ts:33-63 | the loop reads what the digit function means, within its byte limit |
| `Codec.DecMeans` | shared/codec.ts:33-63 | reading stops at the first byte without the high bit and gives the integer of these seven-bit groups; it fails with InvalidMessage if the input ends first and VarLimitExceeded if eight bytes go by |
| `Doubles.DoubleExactly` | shared/codec.ts:97-103 | the integers that survive are those of at most 53 significant bits |
| `Codec.PutVarIntExactly` | shared/codec.ts:7-31 | an integer is encodable exactly when it is natural and below 2 to the 56th |
| `Codec.LebPrefixFree` | shared/codec.ts:7-31 | no encoding is a proper prefix of another |
| `Codec.VarBytesRoundTrip` | shared/codec.ts:141-159 | length-prefixed bytes read back, whatever follows |
| `Codec.VarStringsRoundTrip` | shared/codec.ts:116-127 | counted lists of strings read back, whatever follows |
| `Coder.Encoder.WriteVarInt` | shared/codec.ts:207-212 | the written bytes grow by the encoding, or nothing is written |
| `Coder.Encoder.WriteVarBytes` | shared/codec.ts:246-263 | length and bytes, or nothing |
| `Coder.Encoder.WriteVarStrings` | shared/codec.ts:223-231 | the counted list, or nothing |
| `Coder.Encoder.Result` | shared/codec.ts:271-281 | one buffer with everything written, in order |
| `Coder.Decoder.ReadVarInt` | shared/codec.ts:97-103 | reads what the byte function means and moves past it |
| `Coder.Decoder.ReadVarBytes` | shared/codec.ts:141-159 | reads length-prefixed bytes as the byte function means and moves past them |
| `Coder.Decoder.ReadVarStrings` | shared/codec.ts:116-127 | reads a counted list, refusing a count above the bytes left |
| `Coder.EncodeHead` | shared/codecs/messageHead.ts:10-25 | the encoder's output grows by the head's bytes, or a status says why not |
| `Coder.DecodeHead` | shared/codecs/messageHead.ts:26-58 | the cursor-by-cursor decoder reads what the byte function means |
| `Coder.EncodeEnt` | shared/codecs/ent.ts:13-25 | the encoder's output grows by the entity body's bytes |
| `Coder.DecodeEnt` | shared/codecs/ent.ts:26-48 | the cursor-by-cursor decoder reads an entity body as the byte function means |
| `Coder.EncodeEid` | shared/codecs/eid.ts:15-21 | the encoder's output grows by the entity id record |
| `Coder.DecodeEid` | shared/codecs/eid.ts:22-29 | the cursor-by-cursor decoder reads the record as the byte function means |
| `Coder.EncodeBag` | shared/codecs/bag.ts:11-22 | the encoder's output grows by the bag's bytes |
| `Coder.DecodeBag` | shared/codecs/bag.ts:23-43 | the cursor-by-cursor decoder reads a bag as the byte function means |
| `Coder.EncodeFileHead` | shared/codecs/fileHead.ts:30-40 | the encoder's output grows by the export header with its realm directory |
| `Coder.DecodeFileHead` | shared/codecs/fileHead.ts:41-52 | the cursor-by-cursor decoder reads the header and its directory as the byte function means |
| `Structs.EidRoundTrip` | shared/codecs/eid.ts:14-30 | an entity id record reads back, whatever follows |
| `Structs.MadeEidIsOk` | shared/codecs/eid.ts:31-39 | a made entity id is a valid parent id |
| `Structs.EntRoundTrip` | shared/codecs/ent.ts:12-49 | an entity body reads back with its tail |
| `Structs.BagRoundTrip` | shared/codecs/bag.ts:10-44 | a bag reads back |
| `Structs.FileHeadRoundTrip` | shared/codecs/fileHead.ts:29-78 | an export header with any directory reads back |
| `Structs.PreimageExactly` | shared/codecs/fileHead.ts:16-27 | two preimages of a file hash are equal exactly when nonce and realm directory are |
| `Layout.HeadIs` | shared/codecs/messageHead.ts:9-25 | the bytes of a head, field by field, and when it can be written |
| `Layout.EntIs` | shared/codecs/ent.ts:12-26 | the bytes of an entity body, and when it can be written |
| `Layout.EidIs` | shared/codecs/eid.ts:14-22 | the bytes of an entity id, and when it can be written |
| `Layout.BagIs` | shared/codecs/bag.ts:10-22 | the bytes of a bag, and when it can be written |
| `Layout.PeekHeadIs` | shared/codecs/peekItemHead.ts:11-18 | the bytes of a stored head |
| `Layout.PeekItemIs` | shared/codecs/peekItem.ts:10-17 | the bytes of a listed item |
| `Layout.IndexItemIs` | shared/codecs/fileIndexItem.ts:13-19 | the bytes of one message in an export's head section |
| `Layout.FileRealmIs` | shared/codecs/fileRealm.ts:15-25 | the bytes of one row of the realm directory, and when it can be written |
| `Layout.FileHeadIs` | shared/codecs/fileHead.ts:29-40 | the bytes of an export header, and when it can be written |
| `Layout.RevIs` | shared/checksum.ts:50-58 | the bytes of a revision, and when it can be written |
| `Sealing.IdealExists` | shared/bag.ts:44-93 | the assumptions on keys and hash can be met |
| `Sealing.Rebuilt` | web/src/types.ts:364-397 | a message rebuilt from its archive row is the message exactly when its head has the length of its body and the hash of one that is not empty |
| `Sealing.SealOpen` | shared/bag.ts:44-139 | opening a sealed message gives it back with the author's key exactly when its body is not empty |
| `Sealing.KeyIsIdentity` | shared/bag.ts:44-93 | without collisions two messages share an archive key exactly when they are the same |
| `Sealing.SignedBytes` | shared/bag.ts:23-29 | for 32-byte realms the signed bytes are equal exactly when realm and head ciphertext are |
| `Sealing.SealSigns` | shared/bag.ts:44-93 | sealing signs the bag's realm followed by its head ciphertext |
| `Sealing.PushedBag` | shared/api/push.ts:35-75 | the pushed bag reads off the wire as sealed and its signature is accepted |
| `Sealing.PeekedItem` | shared/sync.ts:15-40 | a listed item decrypts to the author's head bytes |
| `Sealing.PeekVouches` | shared/sync.ts:15-40 | a listed item that decrypts was signed for the reader's realm and its own head |
| `MsgBytes.MsgOfInjective` | web/src/state.ts:24-46 | two wire messages are one protocol message exactly when they are the same |
| `MsgBytes.MsgOfMeans` | web/src/state.ts:24-46 | the protocol message of a wire message, field by field, with the time that its entity id carries |
| `MsgBytes.WrittenBody` | shared/codecs/ent.ts:51-58 | the body of a local write parses to the content it was made from |
| `Exim.EncodeFile` | shared/crypto/exim.ts:100-140 | the printer writes the file that the format describes, or the first error |
| `Exim.DecodeFile` | shared/crypto/exim.ts:142-184 | the parser reads what the format means, errors included |
| `Exim.OpenChunk` | shared/crypto/exim.ts:280-321 | checks the heads' hash before any body and reads as many items as the directory says |
| `Exim.RealmVouches` | shared/crypto/exim.ts:280-321 | a realm that opens has as many messages and such heads as its row says |
| `Exim.MigrateFile` | shared/crypto/exim.ts:188-202 | decode, transform, encode under the new key |
| `Exim.MigrateKeeps` | shared/crypto/exim.ts:188-202 | migrating unchanged keeps the content under the new key |
| `Checksum.CmpBytes` | shared/checksum.ts:9-24 | the loop is negative exactly when a is a proper prefix of b or has the smaller byte where they first differ, and nought exactly when they are equal |
| `Checksum.CmpMeans` | shared/checksum.ts:9-24 | negative exactly for a proper prefix, or the smaller byte at the first difference |
| `Checksum.CmpTotal` | shared/checksum.ts:9-24 | the comparison is a total order on byte strings |
| `Checksum.SortSorts` | shared/checksum.ts:27-48 | sorted, with the same records |
| `Checksum.SortedUnique` | shared/checksum.ts:27-48 | a collection has one sorted order |
| `Checksum.SortInOrder` | shared/checksum.ts:27-48 | in the sorted records an earlier one is equal to a later one or comes first, byte by byte |
| `Checksum.ConcatJoins` | shared/checksum.ts:27-48 | records are put end to end |
| `Checksum.ChecksumPreimage` | shared/checksum.ts:27-48 | the offset loop fills the buffer with the records in rising order |
| `Checksum.RevPrefixFree` | shared/checksum.ts:50-63 | an encoded revision is a prefix of no other |
| `Checksum.EncodeRevs` | shared/checksum.ts:65-76 | all revisions encoded, or the first failure's status |
| `Host.MemoryStorage.SetBags` | shared/storage/memory.ts:46-90 | each realm's bags of a batch go to its end with the next numbers, other users and old bags are unchanged; it succeeds exactly when every bag of a valid realm has a head that can be encoded |
| `Host.MemoryStorage.ListHeads` | shared/storage/memory.ts:105-119 | the heads above a number, rising |
| `Host.MemoryStorage.GetBodies` | shared/storage/memory.ts:92-103 | the bodies that exist, in the order asked for |
| `Host.AboveMeans` | shared/storage/memory.ts:105-119 | exactly the heads above the number, each under its own, rising |
| `Host.BodiesMean` | shared/storage/memory.ts:92-103 | exactly the bodies asked for that the log has |
| `Host.BodiesInOrder` | shared/storage/memory.ts:92-103 | if all are there, each at the place it was asked for |
| `Host.HandlePush` | shared/api/push.ts:35-127 | exactly the bags with valid signatures are stored, as one batch, and answered by request index, unless a head cannot be encoded |
| `Host.SentVouched` | shared/api/push.ts:61-75 | if the check accepts only what was signed, so was every bag that goes to storage, for its own realm and head |
| `Host.OneRealmBatch` | shared/storage/memory.ts:59-85 | a batch of one realm gets consecutive numbers |
| `Host.StorableExactly` | shared/codecs/peekItemHead.ts:11-18 | a head can be encoded exactly when it is shorter than 2 to the 56th bytes, so for every buffer |
| `PushItems.OneItemPerIndex` | shared/api/push.ts:61-116 | exactly one item per request index, whatever was rejected |
| `Coalesce.EveryoneAnswered` | web/src/coalesce.ts:44-63 | with nothing running and no failure every caller has been answered |
| `Coalesce.OneFurtherPass` | web/src/coalesce.ts:44-63 | calls during one pass cause at most one further pass |
| `Coalesce.CoalesceTail.Run` | web/src/coalesce.ts:21-31 | the object's run is the machine's call |
| `Coalesce.CoalesceTail.PassDone` | web/src/coalesce.ts:44-63 | the end of a pass is the machine's, with another pass exactly if there was demand |
| `Batch.BatchByBytes` | web/src/batch.ts:7-32 | the batches concatenate to the input, none is empty, each fits or is one item, none could have taken the next item, and none goes on once it has reached the limit |
| `Batch.Fewest` | web/src/batch.ts:7-32 | with positive sizes no other split that fits has fewer batches |
| `Base128.Btob128` | shared/binary.ts:73-98 | the buffer loop cuts the bits into seven-bit pieces |
| `Base128.B128tob` | shared/binary.ts:103-123 | the buffer loop reads bytes back, refusing symbols above 127 |
| `X25519.LeToNumber` | shared/crypto/x25519.ts:23-28 | the loop reads little-endian bytes |
| `X25519.NumberToLe` | shared/crypto/x25519.ts:30-39 | the loop writes the residue as 32 bytes |
| `X25519.FieldBytes` | shared/crypto/x25519.ts:23-39 | the two undo each other exactly on field elements |
| `X25519.DecodeU` | shared/crypto/x25519.ts:41-46 | the high bit of the coordinate is ignored, as in section 5 of RFC 7748 |
| `X25519.Clamp` | shared/crypto/x25519.ts:48-55 | the masks clear and set the bits they should |
| `X25519.ClampMeans` | shared/crypto/x25519.ts:48-55 | a clamped scalar is a multiple of 8 between 2 to the 254th and the 255th, other bits as given |
| `X25519.CSwapSwaps` | shared/crypto/x25519.ts:57-62 | mask and xor swap exactly on one |
| `X25519.StepValues` | shared/crypto/x25519.ts:93-107 | the eleven assignments of one turn give, modulo P, the doubling of the first point and the sum of the two on the curve with coefficient 486662; no dividend of a remainder is negative |
| `X25519.PowerMod` | shared/crypto/x25519.ts:64-75 | square and multiply gives the power's residue |
| `X25519.ModInv` | shared/crypto/x25519.ts:64-75 | z to the P - 2, modulo P |
| `X25519.OneTurn` | shared/crypto/x25519.ts:87-107 | one turn undoes the deferred swap and does its own at once |
| `X25519.ComputeX25519` | shared/crypto/x25519.ts:77-112 | clamp, decode, ladder, inverse, encode: the bytes of x over z for the multiple of the point by the clamped scalar |
| `X25519.PublicKey` | shared/crypto/x25519.ts:115-117 | a public key is that of the multiple of the point with coordinate 9 |
| `X25519.LadderMultiplies` | shared/crypto/x25519.ts:77-112 | after any number of bits the pair is the multiples by these bits and by one more |
| `X25519.BaseIsNine` | shared/crypto/x25519.ts:115-117 | the base point's bytes stand for 9 |

## Left out

- Crashes in the middle of a handler, `clear`, rebuild, wipe and unlink inside the protocol and cache machines; `Replay` models the rebuild itself on a cleared store.
- Several hosts per client, and realm rotation: the protocol has one host and fixed realms.
- Liveness: that queues eventually drain. The theorems say what holds whenever they have.
- Failing durable stores in the cache; the code claims no agreement there.
- Cryptographic strength, nonces and key derivation: keys, hashes and signatures are ideal functions.
- Dates beyond 8.64e15 milliseconds, and UTF-8: strings are sequences of bytes or characters.
- HTTP, WebSocket and worker transports, authentication, notifier delivery, progress events, logs, debouncing and React hooks.
- IndexedDB and SQLite: `EntIdb` keeps the grouping logic over a table; key ranges, including the tag-prefix range, are not part of this model.
- JavaScript's built-in sort is modelled by insertion sort functions, and the iteration order of a `Map` or `Set` of keys by any order.
- The order in which `applyChain` runs jobs: the machine allows every interleaving, so more than the code does.
- Aliasing of byte arrays held by the memory stores: rows are values.
- Bags whose heads do not decrypt, and malformed push items: the host is honest. `Host`, `Sealing` and `Coder` state the error paths of those functions on their own.
- The notification items that a push produces, and the size below which they carry a body.
- Empty tag lists: rows come normalized, their tags absent when there are none, so the branch of the index that such a list would take does not arise.
- That the doubling and addition formulas of `X25519.StepValues` are those of a group; the ladder multiplies whatever relation they double and add in.
- X25519.ModInv: computes z to the P - 2; that this is the inverse, since P is prime, is not proved.
- Exim.FileVouched: assumes that the file's preimage collides with none that was signed, and a file shorter than 2 to the 53rd bytes.
- Download keys as strings: a key is the realm and the sequence number.
- The `realmBagMgrs` cache of the export code: a ring of managers is a function.
- HandlersWrite.DoApply: takes the statuses of the kicked apply as an argument, and is tied to the protocol step for the statuses of a store that does not fail; that apply is the machine's own step and `EntCache`'s method. `HandlersWrite.MarkApplyStats` and `ToUpload` hold for any statuses.
- HandlersWrite.ApplyStored: as `DoApply`, for the statuses of a store that does not fail.
- Handlers.SyncPeek: starts at the host's answer, all items of which decrypt; request, lost answer, decryption and concurrency of the crypto pool are `Sealing` and the machine's `Ask`, `PeekLost` and `Reply`.
- HandlersOpen.OpenPulled: is tied to the protocol's moves when every bag opens, as an honest host's do.
- HandlersOpen.HandleNotif: assumes that the host's row is there and that every item of the notification decrypts and opens.
- HandlersRecon.ReconcileHost: leaves out the returned tallies and message checksum, progress, and items that do not decrypt.
- SyncTheorems.Convergence: assumes writes whose failures come last and inventories that pull and finish, since without either it is false (see above).
- SyncTheorems.NothingSkipped: assumes inventories that pull and finish, since other ones break it (see above).
- CacheTheorems.Agreement: assumes that equal eids and update times have equal counters, that every peer write is followed by an ingest of its eid, and that an eid is ingested only once the durable store holds it, since without these it is false or not claimed.
- CacheTheorems.NeverOlder: assumes that an eid is ingested only once the durable store holds it, since otherwise the row is dropped (see above).
