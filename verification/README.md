# A verified model of dbvault

dbvault backs up databases into an object store. A backup cuts a database file into chunks at page
boundaries, names every chunk by a keyed digest so that equal chunks are stored once, and publishes a signed
manifest followed by a completion record. A restore verifies the manifest, reassembles the file beside the
target and moves it into place. Snapshots are replicated to other stores, pruned by a retention policy and
swept by garbage collection, while a scheduler, an approval service, a job-event stream, a warehouse sync and
a PostgreSQL grant helper work around them.

This project models that core in Dafny and proves what it promises, over all inputs and over all runs.

* **Repository.** Backups, replications and garbage collections are one state machine (`Repository`) whose
  steps are single store operations. They interleave freely, a process may stop anywhere, and an operation
  that reports a failure may or may not have taken effect. `CommitOrder.Reachable` is the invariant of every
  reachable state. `RoundTrip` draws from it that a completion record stands above a whole snapshot and
  that a restore returns the original bytes. `Backup.Create`, `Replication.Replicate` and
  `GarbageCollection.RunPlan` are the imperative services; each returns a ghost list of steps whose effect on
  stores and catalogue is proved to be its own, so that what holds of all runs of the machine holds of them.
  Ghost counters of failed operations say when a service may fail: a service that reports a failure had one, or
  a reason in the data that its contract names.
* **Digests.** A hash is an arbitrary function, so no statement assumes that it has no collisions. Each says
  that the property holds, or that two of the finitely many messages hashed in that very situation collide.
  Compression, encryption, signing and JSON are functions with the laws that what is written can be read back;
  `LawsMet.Met` gives functions that meet all laws at once.
* **Restore on disk.** `RestoreFile` tracks the file system after every operation, including failed ones.
* **Merkle trees.** The level-by-level builder gives the tree of section 2.1 of RFC 6962; inclusion proofs are
  sound and complete.
* **Retention, cron, approvals, job events, warehouse, identifiers.** Each loop is proved against a
  specification written without it, and the promise is proved of the specification.

Where the code falls short of what its documentation says, the model follows the code; a lemma gives an input
and another says exactly when the promise holds:

* Garbage collection lists `chunks/` and `snapshots/`, but a backup writes below `<source>/chunks/` and
  `<source>/snapshots/`. In every reachable state a plan therefore holds exactly the objects under `chunks/`,
  and the manifests protect none of them (`SweepLimits.PlanIsEverythingListed`). With ordinary source ids there
  are no such objects, and nothing is reclaimed whatever was orphaned (`SweepLimits.SweepReclaimsNothing`). For
  the source ids that are empty, are `chunks` or begin with `chunks/`, a sweep can take a committed chunk
  (`SweepLimits.BadSourceLosesChunk`). `SweepLimits.SafeExactly` is the exact condition.
* A manifest that could not be read is reported as blocked, yet its chunks stay in the plan. No backup of this
  code puts a manifest and a chunk where both are listed, so this concerns stores written by others:
  `GarbageCollection.BlockedLosesChunk` is such a store, and `GarbageCollection.LostExactly` says for any store
  which chunks are planned.
* With page size 0 the chunker returns no chunks. The root digest then says only how long the file was
  (`Snapshots.PagelessRoots`), and a restore writes zeros (`RoundTrip.RestoreExact` and
  `Chunking.ChunkRoundTrip` are exact about it).
* A cron step close to the largest integer wraps around on its first addition, and the field then holds a
  negative value. `CronParse.OverflowingField` shows one; `CronParse.FieldExact` and
  `CronParse.AcceptedIsWellFormed` say exactly when a field is what it denotes.
* Snapshots with equal creation times may be ordered either way by the planner's sort, which is not stable.
  `RetentionLaws.TiesMatter` shows two orders with different plans, and `RetentionLaws.OrderMattersExactly`
  says when all orders give one plan: every tie lies below the newest moment, within or beyond the `keepLast`
  first places, and leads no counted bucket. That pruning early or late makes no difference is proved for
  distinct creation times; these are sufficient, and no exact condition is given for it.
* An incremental warehouse sync agrees with a full refresh exactly when no row is missing at or below the
  recorded watermark or with a NULL one (`WarehouseLaws.CatchesUpExactly`); `WarehouseLaws.LateRowIsMissed` is
  a run from the empty warehouse that misses such a row.
* A full warehouse refresh whose evidence cannot be recorded has already overwritten the listed file
  (`WarehouseLaws.UnrecordedRefreshLies`); `WarehouseLaws.UnrecordedRefresh` says exactly when the old evidence
  is still true.
* A restore that must not replace its target looks first whether it is there, and goes on if looking fails. Then
  it renames over an existing target; `RestoreFile.RestoreTo` has this failed Stat as its only exception.
* Granting and revoking restores a role exactly when it held none of the privileges before
  (`PgGrants.GrantRevoke`); quoting an identifier is undone exactly when it has no control character
  (`PgIdent.CleanQuoted`).

## Model

| member | source | states |
|---|---|---|
| `RoundTrip.RestoreExact` | internal/application/restore/service.go:61-165 | after any history of backups, replications and sweeps over shared stores, restoring a catalogued snapshot from any store that holds its completion record yields exactly the bytes backed up, if and only if they pass the engine's header check and there is a page size or only zeros; with a page size nothing else can come out; or two messages of that history collide |
| `RoundTrip.BackupRestores` | internal/application/backup/service.go:49-167 | a committed backup, as `Create` leaves it, followed by any actions at all, restores from its home store to exactly the bytes of its artifact if and only if they pass the header check and there is a page size or only zeros, or two messages collide; as long as nothing was swept or the source id is an ordinary one |
| `RoundTrip.CompletionIsSafe` | internal/application/backup/service.go:104-154 | in every reachable state, as long as nothing was swept or the source id is an ordinary one, a completion record in a store implies the manifest, its valid signature and every chunk object the manifest names in the same store |
| `RoundTrip.CataloguedIsHome` | internal/application/backup/service.go:155-159 | in every reachable state, under the same condition, a catalogued snapshot has its completion record in the store it was backed up to |
| `RoundTrip.DuplicateIsSame` | internal/application/backup/service.go:88-96 | a catalogued snapshot with the root digest of an artifact has its page size and its bytes (its length, for page size 0), or two hashed messages collide |
| `RoundTrip.ReportedDuplicate` | internal/application/backup/service.go:89-96 | in every reachable state the snapshot a backup reports as a duplicate of belongs to the same source and has the same content, or two hashed messages collide |
| `RoundTrip.SameIsDuplicate` | internal/application/backup/service.go:88-96 | in every reachable state a backup of bytes that a catalogued snapshot of its source holds, cut alike, finds the root in the catalogue, which is when `Create` reports a duplicate |
| `RoundTrip.DamageIsNoticed` | internal/application/restore/service.go:100-262 | whatever happened to a store, its manifest included, as long as it holds the completion record that the backup published, or the published manifest: with a dedup key and a page size a restore fails or yields exactly the bytes backed up, or the manifest object collides with the published one, or the message of an opened object collides with one the backup hashed |
| `Restore.AcceptedIsGenuine` | internal/application/restore/service.go:61-283 | over any store whatever, a restore yields a file only if the signature verifies the manifest object, a tracked completion record holds its digest, the snapshot id matches, the root named is the Merkle root or the digest of the ids listed, every chunk listed is there, opens and has its id, and the file has the header its engine asks for; one violation refuses it, and when all hold only the header can be missing |
| `Restore.GenuineIsRead` | internal/application/restore/service.go:167-267 | the checks on a manifest accept exactly a genuine one, and return what its object decodes to |
| `RoundTrip.WholeObjects` | internal/application/backup/service.go:131-154 | the objects of a whole snapshot are the payload, its signature, a matching completion record and all chunks, whoever wrote them |
| `RoundTrip.ManifestAccepted` | internal/application/restore/service.go:167-267 | the checks of a restore accept the manifest of every whole snapshot and return what the backup wrote |
| `RoundTrip.ContentRestored` | internal/application/restore/service.go:94-145 | decrypting, checking and writing the chunks of a whole snapshot in place gives the artifact |
| `RoundTrip.ChunkReads` | internal/application/restore/service.go:100-127 | a chunk object reused from any other backup opens to this snapshot's chunk |
| `CommitOrder.Reachable` | internal/application/backup/service.go:104-159 | the repository invariant holds after every list of steps |
| `CommitOrder.ApplyKeeps` | internal/application/backup/service.go:104-159 | every single step, of any process and with any failure, keeps the invariant |
| `CommitOrder.PutStores` | internal/application/backup/service.go:120-154 | putting the next object of a snapshot, whether or not it lands, keeps every store good and every completion record above a whole snapshot |
| `CommitOrder.CompleteIsLast` | internal/application/backup/service.go:140-154 | no backup or replication writes a completion record before everything else of that snapshot |
| `CommitOrder.CopyKeysAreKeys` | internal/application/replication/service.go:41-68 | the keys a replication reads from any store's manifest are the keys the backup published |
| `Backup.Create` | internal/application/backup/service.go:49-167 | a backup is a run of the state machine that ends its process and registers the artifact; it fails exactly when a store operation or the recording failed; unless the search by root failed it reports a duplicate exactly when the catalogue has the root, and then changes nothing; success has catalogued the snapshot and reports exactly the bytes of the chunks that the store had or that repeat an earlier one; a failed recording may have landed |
| `Backup.UploadChunks` | internal/application/backup/service.go:103-130 | the upload loop puts or reuses every chunk in order, lists exactly those chunks for the manifest and counts exactly the reused bytes; it ends the backup exactly when a store operation failed |
| `Backup.UploadChunk` | internal/application/backup/service.go:105-126 | a chunk is reused, with nothing written, exactly when the store has it; an absent one is compressed, encrypted and put; the backup ends exactly when the Head or the Put failed |
| `Backup.Publish` | internal/application/backup/service.go:136-154 | manifest, signature and completion record are put in this order, and exactly a failed Put stops the rest |
| `Backup.UploadAndCommit` | internal/application/backup/service.go:97-166 | the catalogue gains the snapshot when everything was published and recorded; it fails exactly when a store operation or the recording failed |
| `Snapshots.SameRootSameContent` | internal/application/digest/digest.go:17-24 | equal root digests mean equal page size and bytes, for any two target chunk sizes, or two hashed messages collide |
| `Snapshots.PagelessRoots` | internal/application/digest/digest.go:17-24 | with page size 0 any two artifacts of one length have one root digest |
| `Snapshots.SameIdSameChunk` | internal/application/digest/digest.go:11-16 | equal chunk ids mean equal page size and bytes, or the two messages collide |
| `Snapshots.KeyKinds` | internal/application/backup/service.go:140-142 | every key of a snapshot tells what object it names, so no two kinds share a key |
| `Digest.ChunkMessageInjective` | internal/application/digest/digest.go:11-16 | the text hashed for a chunk determines page size and bytes |
| `Digest.RootMessageInjective` | internal/application/digest/digest.go:17-24 | the text hashed for a root determines page size, logical size, chunk ids and sizes |
| `Digest.RootDigest` | internal/application/digest/digest.go:17-24 | the hashing loop feeds exactly that text to the keyed hash |
| `Chunking.Chunks` | internal/application/chunking/page_chunker.go:36-87 | the read loop returns the consecutive pieces of the file with their page ranges |
| `Chunking.CountPages` | internal/application/chunking/page_chunker.go:67-70 | a division and one more for a remainder is the number of pages begun |
| `Chunking.ChunkSizes` | internal/application/chunking/page_chunker.go:25-87 | every chunk but the last has the most whole pages that fit in the target, and at least one; the last is not empty and no longer; they are numbered in order |
| `Chunking.ChunkRoundTrip` | internal/application/chunking/page_chunker.go:36-87 | writing all chunks at their page offsets restores the file if and only if the page size is positive or the file is all zeros |
| `Chunking.JoinedChunksFrom` | internal/application/chunking/page_chunker.go:36-87 | the chunks joined are the file: no byte is lost, repeated or moved |
| `ObjectKeys.SweptChunkKeys` | internal/application/backup/service.go:191-200 | a chunk key lies under the swept prefix exactly for source ids that are empty, `chunks` or begin with `chunks/` |
| `ObjectKeys.KindOfChunkKey` | internal/application/backup/service.go:191-200 | the chunk id can be read back from every chunk key |
| `ObjectKeys.SigKeyForManifest` | internal/application/replication/service.go:60-63 | the signature key derived from the manifest key is the one the backup wrote |
| `Replication.Replicate` | internal/application/replication/service.go:29-70 | a replication is a run of the state machine that touches only the target; on success no Get or Put failed, the target holds every object, and copied plus reused is the number of chunks; a failure means a failed operation, an unknown snapshot, a missing or undecodable manifest, or an object that the primary lacks and, if a chunk, the target too |
| `Replication.CopyAll` | internal/application/replication/service.go:50-68 | the loops copy or reuse each object in order and stop at the first failed operation or absent object, and at nothing else |
| `Replication.CopyObject` | internal/application/replication/service.go:72-80 | one object is read from the primary and put to the target, losing nothing the target had; it fails only if the Get or the Put failed or the primary lacks the object |
| `GarbageCollection.MakePlan` | internal/application/garbagecollection/service.go:38-117 | over any pages of consistent listings: the keys to delete are exactly the listed chunks that no readable listed manifest names, each once; the bytes are their total; the blocked keys are exactly the unreadable manifests; the counts are the chunk objects listed and the references of the readable manifests |
| `GarbageCollection.CollectChunks` | internal/application/garbagecollection/service.go:51-67 | the sizes of all listed chunk objects, and how many were listed |
| `GarbageCollection.CollectReferences` | internal/application/garbagecollection/service.go:69-106 | all keys named by readable manifests, exactly the unreadable ones as blocked, and the number of references |
| `GarbageCollection.CollectOrphans` | internal/application/garbagecollection/service.go:108-114 | the chunk keys that are not referenced, without repeats in whatever order the map is walked, and their bytes |
| `GarbageCollection.RunPlan` | internal/application/garbagecollection/service.go:119-129 | an expired plan deletes nothing; otherwise nothing outside the plan is lost or changed, success means all planned keys are gone, a failure means exactly one failed Delete, and the effect is a run of the sweep that leaves catalogue, registry and processes alone |
| `GarbageCollection.LostExactly` | internal/application/garbagecollection/service.go:81-114 | in any store a listed chunk is planned for deletion exactly when every manifest that names it was unreadable |
| `GarbageCollection.BlockedLosesChunk` | internal/application/garbagecollection/service.go:81-114 | a store whose only manifest is blocked and whose chunk is planned all the same |
| `GarbageCollection.UnblockedKeepsChunks` | internal/application/garbagecollection/service.go:69-114 | without blocked manifests no chunk of a listed manifest is planned |
| `SweepLimits.MarksNothing` | internal/application/garbagecollection/service.go:69-106 | no listed manifest of a reachable store names a key under `chunks/` |
| `SweepLimits.PlanIsEverythingListed` | internal/application/garbagecollection/service.go:51-114 | in every reachable state, for any sources and whichever manifests cannot be read, a plan holds exactly the objects under `chunks/`: the manifests protect none |
| `SweepLimits.SweepReclaimsNothing` | internal/application/garbagecollection/service.go:55-73 | in every reachable state where all backups have ordinary source ids every plan is empty |
| `SweepLimits.BadSourceLosesChunk` | internal/application/garbagecollection/service.go:119-129 | for every other source id there is a run after which a completion record stands above a missing chunk |
| `SweepLimits.SafeExactly` | internal/application/garbagecollection/service.go:51-114 | the snapshots of a source survive all sweeps exactly when its id is an ordinary one |
| `RestoreFile.RestoreTo` | internal/application/restore/service.go:61-165 | it refuses, untouched, exactly an existing target without replace that the first Stat sees, an unknown snapshot and one whose lookup failed; success means that the manifest and every chunk are genuine and the target has the header; a manifest that is not genuine leaves the disk untouched; otherwise after every file operation and on every exit the target is as before, or complete, or moved whole to the rollback path, and no other file changed; success with replace leaves the old content at the rollback path unless the second Stat failed |
| `RestoreFile.WriteAndMove` | internal/application/restore/service.go:77-165 | the same from the verified manifest on; success leaves the complete file, no temporary one and with replace the old content at the rollback path; an error without a failed Get, write, sync or rename means that there was nothing to restore |
| `RestoreFile.FillTmp` | internal/application/restore/service.go:80-145 | only the temporary file is touched; on success it holds exactly the restored content, and a failure means a failed operation or that there was nothing to restore |
| `RestoreFile.MoveIntoPlace` | internal/application/restore/service.go:147-159 | each rename keeps the target as before, complete, or at the rollback path; it fails exactly when a rename failed, and after success with replace the old content is at the rollback path unless the Stat failed |
| `RestoreFile.ReadAndVerify` | internal/application/restore/service.go:167-267 | a manifest is returned only if it is genuine, and unless a Get failed it is returned if it is |
| `RestoreFile.FetchChunk` | internal/application/restore/service.go:100-127 | unless the Get failed a chunk is returned exactly when it is there, authentic and its id matches |
| `Merkle.BuildTreeFromNodes` | internal/application/digest/merkle.go:138-173 | pairing level by level with promotion of an odd node builds the tree that section 2.1 of RFC 6962 defines by splitting at the largest power of two |
| `Merkle.BuildTree` | internal/application/digest/merkle.go:44-69 | the same over hashed leaf data; no leaves give the hash of the empty leaf |
| `Merkle.BuildTreeFromHashes` | internal/application/digest/merkle.go:72-97 | the same over given leaf hashes |
| `Merkle.PairHash` | internal/application/digest/merkle.go:18-41 | the root of two leaves hashes byte 1 and the two hashes from left to right, a leaf byte 0 and its data |
| `Merkle.RfcTreeLeaves` | internal/application/digest/merkle.go:138-173 | the leaves of the tree, from left to right, are the given ones |
| `Merkle.RfcTreeHeight` | internal/application/digest/merkle.go:138-173 | the height is exactly the logarithm of the number of leaves, rounded up |
| `MerkleProof.ProofSound` | internal/domain/merkle.go:39-72 | if any proof at all is accepted for a leaf against the root of some data, the leaf is one of the data or two hashed messages collide |
| `MerkleProof.PathSound` | internal/domain/merkle.go:52-72 | the same for a path of any length and with any sibling strings |
| `MerkleProof.ProofComplete` | internal/application/digest/merkle.go:176-204 | every leaf is found, its proof has at most log2(n) steps rounded up, and it is accepted exactly when the leaf hash is not empty |
| `MerkleProof.PathFoldsToRoot` | internal/application/digest/merkle.go:206-240 | folding the reversed search path from the leaf gives the root hash |
| `MerkleProof.ContainsLeaf` | internal/application/digest/merkle.go:242-253 | the search finds a leaf exactly when the tree has it |
| `MerkleProof.Verify` | internal/domain/merkle.go:39-72 | the loop accepts exactly when the folded path is the expected root and nothing is empty |
| `MerkleProof.GenerateProof` | internal/application/digest/merkle.go:176-204 | the proof holds the siblings from the leaf upwards; empty trees and bad indexes are refused |
| `MerkleProof.CollectProofPath` | internal/application/digest/merkle.go:206-240 | the recursion reports containment and appends the siblings on the way down |
| `MerkleProof.ReversePath` | internal/application/digest/merkle.go:193-196 | the swap loop reverses |
| `Retention.Plan` | internal/application/retention/planner.go:26-63 | the filter, the sort, the four passes and the tombstone loop give the specified plan for some order, newest first, of the snapshots filtered; `PlanPromise` says what that means for each snapshot given |
| `Retention.Bucket` | internal/application/retention/planner.go:65-82 | one class for the first snapshot of each of the first `max` buckets |
| `RetentionLaws.PlanClasses` | internal/application/retention/planner.go:26-82 | for whatever order the sort leaves: the classes of a snapshot by its place, its flags and, for the first of its moment, how many newer buckets there are |
| `RetentionLaws.PlanDecides` | internal/application/retention/planner.go:26-63 | for whatever order the sort leaves: every eligible snapshot is kept with exactly the classes of its place or tombstoned, never both; the first, the first `keepLast` and the protected are never tombstoned |
| `RetentionLaws.PlanPromise` | internal/application/retention/planner.go:26-82 | of the result of `Plan` with unique ids and any creation times: a protected snapshot is kept, a committed or protected one is kept or tombstoned and never both, one of any other status is neither and nothing else is named; it is marked protected or restore-tested exactly when it is, recent if fewer than `keepLast` others are at least as new and only if fewer are newer, and latest likewise; exactly `keepLast` are recent and one is latest, as far as there are any; each bucket class goes to exactly one snapshot, a newest, of each of the first buckets, and to no other |
| `RetentionLaws.OpensExactly` | internal/application/retention/planner.go:65-82 | a bucket is opened by the first of its newest snapshots, exactly when few enough buckets are newer |
| `RetentionLaws.ProperDecides` | internal/application/retention/planner.go:26-82 | with distinct creation times the classes follow from the set of snapshots alone |
| `RetentionLaws.PathIndependence` | internal/application/retention/planner.go:26-82 | planning, pruning, adding any snapshots and planning again keeps exactly what planning everything at once keeps, with the same classes |
| `RetentionLaws.StaysTombstoned` | internal/application/retention/planner.go:26-63 | what a plan tombstones no plan over more snapshots keeps |
| `RetentionLaws.TiesMatter` | internal/application/retention/planner.go:33 | with equal creation times two orders of the sort give different plans |
| `RetentionLaws.OrderMattersExactly` | internal/application/retention/planner.go:33-60 | all orders the sort may leave give the same kept snapshots and classes if and only if every tie is settled: not the newest moment, not across `keepLast`, leading no counted bucket |
| `CronNext.NextAfter` | internal/application/scheduler/cron.go:189-210 | the result is the least matching minute strictly after the instant, and there is none exactly when none matches before the limit five years on |
| `CronNext.FirstInDay` | internal/application/scheduler/cron.go:198-205 | the least hour and minute of the lists that is not before the start |
| `CronNext.DayRule` | internal/application/scheduler/cron.go:212-228 | two restricted day fields match a day exactly when one of them does with the other left open; one alone asks for that day, none for any day of the months |
| `CronParse.ParseCron` | internal/application/scheduler/cron.go:74-110 | an expression is accepted exactly when it has five fields that all parse, and its lists hold what the fields' loops visit; `CronText` says what is accepted and visited for every written expression |
| `CronParse.ParseField` | internal/application/scheduler/cron.go:116-168 | a strictly ascending list of exactly the values the parts visit |
| `CronParse.SortInts` | internal/application/scheduler/cron.go:170-176 | the in-place sort leaves a sorted permutation |
| `CronParse.VisitsExact` | internal/application/scheduler/cron.go:153-161 | the 64-bit loop visits exactly the denoted values unless its first addition overflows, and then it visits a negative one |
| `CronParse.FieldExact` | internal/application/scheduler/cron.go:116-168 | a field's list is what its parts denote if and only if no step overflows |
| `CronParse.OverflowingField` | internal/application/scheduler/cron.go:123-161 | an accepted part whose list holds the smallest integer |
| `CronParse.AcceptedIsWellFormed` | internal/application/scheduler/cron.go:74-110 | an accepted expression meets what `NextAfter` needs exactly when no minute or hour step overflows |
| `CronParse.AcceptedIsExact` | internal/application/scheduler/cron.go:74-110 | without overflow every list holds exactly the values its field denotes, Sunday as 0 |
| `CronText.WrittenAccepted` | internal/application/scheduler/cron.go:74-168 | fields of stars, numbers, month or day names, ranges and steps, written with commas and spaces, are accepted exactly when there are five and every value is within the limits of its field, no range is backwards and every step is a positive 64-bit integer |
| `CronText.WrittenParses` | internal/application/scheduler/cron.go:74-168 | unless a step overflows, parsing such an expression gives for each field, in ascending order, exactly the values written: every step-th one of each range, the union over the parts; a star leaves the day fields open, and 7 is Sunday |
| `CronText.PartReads` | internal/application/scheduler/cron.go:123-152 | one written part is read as the range and step it stands for, or refused |
| `Calendar.NextDayNumber` | internal/application/scheduler/cron.go:207 | the following calendar day has the following day number, over all month and leap-year boundaries |
| `Calendar.WeekdayFollows` | internal/application/scheduler/cron.go:207-217 | the weekday of the following day is the next one, counted from a Thursday, the first of January 1970 |
| `Calendar.YearsLater` | internal/application/scheduler/cron.go:195 | the search limit is as many days into the same month years later, counted on if that month is too short |
| `Approval.Service.Create` | internal/application/approval/service.go:20-32 | refuses incomplete and known requests, else stores the request as pending |
| `Approval.CreateAnswers` | internal/application/approval/service.go:20-32 | a request is created exactly when it is complete and new, and then stored as pending and returned; else nothing changes |
| `Approval.Service.Decide` | internal/application/approval/service.go:33-73 | the new state and answer of every branch |
| `Approval.DecideAnswers` | internal/application/approval/service.go:33-73 | in every reachable state a decision is taken exactly when the request is known, pending and in time and the actor is neither its requester nor a decider; then it is stored last, and the answer is the stored request, rejected by a rejection and approved by the last required approval; otherwise no decision is stored and only an overdue request changes |
| `Approval.RunSound` | internal/application/approval/service.go:33-73 | over every run: deciders are distinct and never the requester; approved means exactly the required number approved and none rejected; rejected means only the last decision rejects; pending and expired are still short |
| `Approval.TerminalForever` | internal/application/approval/service.go:40-49 | a terminal status and its decisions never change again |
| `Approval.EnoughApprove` | internal/application/approval/service.go:33-73 | over every run: as many different people, none of them the requester, as are required and in time get a new request approved, and no fewer do |
| `JobEvents.JobService.AppendJobEvent` | internal/application/productexperience/service_jobs.go:1944-1952 | appends the next number and keeps the last thousand |
| `JobEvents.JobService.JobEventsSince` | internal/application/productexperience/service_jobs.go:103-126 | from right after the first event with the cursor's id, or from the oldest if it is gone: exactly the allowed number of events, the limit if it is 1 to 500 and else 100, or all that are left |
| `JobEvents.EventIdInjective` | internal/application/productexperience/service_jobs.go:1946 | event ids never repeat, also beyond six digits |
| `JobEvents.ResumesAfter` | internal/application/productexperience/service_jobs.go:109-117 | a poll resumes right after the cursor, or at the oldest held event if it was evicted |
| `JobEvents.ClientSeesAll` | internal/server/server.go:274-311 | over every interleaving of appends and polls the events a client received are appended events with strictly increasing numbers, its cursor is the last id, and of the events up to it only evicted ones are missing |
| `JobEvents.PollIsFull` | internal/application/productexperience/service_jobs.go:103-126 | in every reachable world a poll delivers, in order, exactly the allowed number of the last thousand events that come after the last received, or all of them; it is empty exactly when the client has the newest event |
| `JobEvents.CatchesUp` | internal/server/server.go:274-311 | after any run, polls without appends whose limits together cover what is held, and any thousand of them, bring the client to the newest event |
| `JobEvents.PollsAdvance` | internal/application/productexperience/service_jobs.go:103-126 | where polls without an append between them leave the client: at the newest event, or as many after the last received or evicted as their limits allow together |
| `JobEvents.NoneLost` | internal/server/server.go:274-311 | while no more than a thousand events were appended, a client has received exactly the first of them, whatever the order of appends and polls |
| `JobEvents.NoneTwice` | internal/server/server.go:274-311 | no two received events have one id |
| `Warehouse.Table.SyncTable` | internal/application/productexperience/service_warehouse.go:354-472 | the files and the evidence after a full, incremental, empty incremental or refused sync, with evidence that could not be read before or recorded after |
| `Warehouse.Table.Scan` | internal/application/productexperience/service_warehouse.go:426-437 | the scan loop over the rows |
| `WarehouseLaws.SyncRule` | internal/application/productexperience/service_warehouse.go:354-515 | a sync appends a part exactly when it is asked to after a recorded sync with a watermark, and replaces the data file otherwise; an append refuses a column that is no plain name, and without rows only notes the time; the evidence has the mode, time, status, counts and paths |
| `WarehouseLaws.WatermarkOrder` | internal/application/productexperience/service_warehouse.go:677-691 | integer watermarks are ordered as numbers, all others as texts by the first character that differs |
| `WarehouseLaws.ScanIsMax` | internal/application/productexperience/service_warehouse.go:426-437 | the scan ends at the largest watermark of the listed and new rows and never goes below the recorded one |
| `WarehouseLaws.EvidenceIsTrue` | internal/application/productexperience/service_warehouse.go:354-472 | over every run of syncs, each with its own rows and its own check result, the recorded rows, bytes and watermark are the totals and the largest watermark of the listed files, whose paths are distinct |
| `WarehouseLaws.WatermarkNeverFalls` | internal/application/productexperience/service_warehouse.go:426-437 | over every run, from any recorded state on and as long as no sync is a full refresh, the recorded watermark never falls |
| `WarehouseLaws.SyncKeepsTruth` | internal/application/productexperience/service_warehouse.go:354-472 | every kind of sync, recorded or not, keeps the evidence true, an unrecorded full refresh under the exact condition of `UnrecordedRefresh` |
| `WarehouseLaws.UnrecordedRefresh` | internal/application/productexperience/service_warehouse.go:397-472 | a full refresh that overwrites `data.parquet` and cannot be recorded leaves the evidence true if and only if that file is not listed, or had as many rows and bytes and the recorded watermark is still the largest |
| `WarehouseLaws.UnrecordedRefreshLies` | internal/application/productexperience/service_warehouse.go:397-472 | a run after which the evidence states one row above a listed file of two |
| `WarehouseLaws.UnrecordedAppend` | internal/application/productexperience/service_warehouse.go:398-472 | an append that cannot be recorded changes neither the evidence nor what it lists |
| `WarehouseLaws.IncrementalRefinesFull` | internal/application/productexperience/service_warehouse.go:517-528 | over every run of inserts above the watermark and syncs, where any append or first sync may stay unrecorded, after each recorded sync the listed files hold exactly the source rows, each once |
| `WarehouseLaws.CatchesUpExactly` | internal/application/productexperience/service_warehouse.go:517-528 | whatever was inserted, a recorded incremental sync agrees with a full refresh if and only if no row is missing that its query does not select |
| `WarehouseLaws.LateRowIsMissed` | internal/application/productexperience/service_warehouse.go:517-528 | a run of a full sync, any insert the query does not select and an incremental sync, after which the row is missing |
| `WarehouseLaws.TailIsMissing` | internal/application/productexperience/service_warehouse.go:517-528 | the tail the query selects is exactly what is missing |
| `WarehouseLaws.QueryComparesWatermark` | internal/application/productexperience/service_warehouse.go:522-528 | read as SQL, the literal in the query is the recorded watermark, whatever quotes it holds |
| `PgIdent.CleanQuoted` | internal/pgdiag/pgdiag.go:330-353 | cleaning a quoted identifier gives it back exactly when it has no control character |
| `PgIdent.SplitJoined` | internal/pgdiag/pgdiag.go:305-326 | splitting joined quoted identifiers gives them back, whatever dots and quotes they hold |
| `PgIdent.SanitizeIdempotent` | internal/pgdiag/pgdiag.go:284-302 | sanitising an accepted name again changes nothing |
| `PgIdent.Sanitize` | internal/pgdiag/pgdiag.go:284-302 | the loop over the parts refuses names with an empty part and quotes all others |
| `PgIdent.SplitQualified` | internal/pgdiag/pgdiag.go:305-326 | the scanning loop splits at the dots outside quotes |
| `PgIdent.UnquotedAccepted` | internal/pgdiag/pgdiag.go:284-353 | names of letters, digits, underscores and dollar signs with dots between them are accepted and quoted one by one |
| `PgIdent.CleanUnquoted` | internal/pgdiag/pgdiag.go:330-353 | a part that is not in quotes is accepted unchanged exactly when it is such a name |
| `PgGrants.ElevationStatements` | internal/pgdiag/pgdiag.go:214-275 | a database that reads and executes the texts ends with what was held plus, or when revoking minus, exactly USAGE on each accepted schema, SELECT on each accepted table and both on each accepted sequence, for the role; schemas come first when granting and last when revoking; the identifiers are the names in the texts |
| `PgGrants.StatementReadsBack` | internal/pgdiag/pgdiag.go:214-275 | a reader of GRANT and REVOKE finds in every text the verb, the privileges, the kind, the identifiers and the role that went into it, whatever characters they hold |
| `PgGrants.ScriptHoldsStatements` | internal/pgdiag/pgdiag.go:186-209 | the script that is sent, split at semicolons outside quotes, gives exactly the statements that were built |
| `PgGrants.ScriptEffect` | internal/pgdiag/pgdiag.go:178-275 | executing the text of the whole script adds, or takes away, exactly the wanted privileges, whatever was held and whatever names and role went into it |
| `PgGrants.GrantRevoke` | internal/pgdiag/pgdiag.go:178-275 | executing the granting and then the revoking script leaves the role what it held if and only if it held none of it before |
| `PgGrants.Elevate` | internal/pgdiag/pgdiag.go:178-194 | it is refused exactly without a role, for the user itself and when nothing is grantable; else the script it sends adds exactly the wanted privileges |
| `PgGrants.Revoke` | internal/pgdiag/pgdiag.go:198-209 | it is refused exactly without a role and for the user itself; else the script it sends, none if nothing is wanted, takes exactly the wanted privileges away |

## Left out

- The insides of SHA-256, HMAC, AES, zstd and JSON; that ciphertexts and signatures cannot be forged is neither assumed nor used.
- RestoreExact: the completion record must be in the store, and once a sweep has run the source id must be an ordinary one; `SafeExactly` is why.
- PathIndependence: asks for distinct creation times, which are sufficient and not necessary; `TiesMatter` is why something must be asked.
- EvidenceIsTrue: asks for a strictly increasing clock, one watermark column per table and comparable watermarks, which the code takes for granted.
- ClientSeesAll: is about one run of the process; after a restart the event numbers begin again.
- NextAfter: asks for hours and minutes in range, which accepted expressions have exactly when no step of these fields overflows (`AcceptedIsWellFormed`); what `time.Date` makes of the wrapped values is not modelled. It works in a calendar without offset changes, so daylight-saving transitions of a location are not modelled.
- SyncTable: the check of the written Parquet file gives only a status; column lists, raw bytes, seeding the embedded engine, and failed extractions and writes are not modelled.
- QueryComparesWatermark: reads literals as standard SQL does; the backslash escapes of MySQL are not modelled.
- RestoreTo: opening and truncating the temporary file are one write, syncing the directory afterwards is dropped, and the rollback time stamp is a parameter. After a failed rename the error is `Fault`, not the source's own text.
- Create: failures of reserving scratch space, snapshotting, compressing, encrypting and signing are the machine's step that stops a process; run records and the byte counters other than the reused bytes are dropped.
- MakePlan: a listing that fails ends the plan with an error and is not modelled; the clock is the parameter that says whether a plan expired.
- Elevate: running the script with psql, and its failures, are not modelled; the database is a reader of the GRANT and REVOKE statements in it, not of all SQL.
- ParseCron: the widths of integers are modelled for the loop over a part, where they matter, and not elsewhere.
- Chunks: page sizes are natural numbers; for a negative one the chunker panics.
- Merkle trees built from chunks, legacy manifests without signatures, missing signers and stores, and cancellation of contexts.
- HTTP handlers, the command line, connectors, the catalogue's SQL, notifications and the product-experience services other than job events and the warehouse sync: they would add members without harder claims.
