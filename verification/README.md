# Git LFS Delta: a verified model of its storage lifecycle and transfers

Git LFS Delta stores every Git LFS object as an ordered manifest of content-addressed chunks. This
project models the parts of the system on which "no live object ever loses a byte" rests, and proves
what holds, over every input, every interleaving and every reachable state. Where the code does not
meet a promise, the exact condition under which it does is proved, together with a concrete run that
breaks it.

`dafny verify dfyconfig.toml` verifies everything.

## How the model is built

| file | what it holds |
|---|---|
| `Content.dfy` | bytes, digests, the two hash functions as parameters |
| `Manifest.dfy`, `ChunkStream.dfy` | the manifest contract, its validator, the streaming chunker |
| `Tables.dfy` | the tables, the byte store and every transaction as a function on them |
| `Steps.dfy` | the server as a state machine: transactions, provider calls and clock ticks of any number of requests, in any order |
| `Invariants.dfy` | what every step keeps |
| `LiveBytes.dfy`, `FinalizeRace.dfy`, `LateDeletes.dfy` | no live object loses a byte: under every interleaving, and exactly when |
| `Cleanup.dfy`, `StuckDrains.dfy`, `Orphans.dfy`, `GcEvidence.dfy` | no cleanup is forgotten, exactly when; which chunk rows can ever go and which are left behind; what a deletion rests on |
| `Publications.dfy`, `SessionLife.dfy` | exactly-once publication, reference counts, upload sessions over all runs |
| `Maintenance.dfy`, `Server.dfy`, `DrainRuns.dfy` | the handlers and maintenance loops as imperative methods over mutable tables, each proved against its transaction function |
| `Schedules.dfy` | building blocks for runs that exhibit a behaviour |
| `Weights.dfy`, `Download.dfy`, `Upload.dfy`, `Cache.dfy`, `CacheRace.dfy` | the client: download pipeline, upload worker pool, chunk cache, and the cache as concurrent workers use it |
| `RoundTrip.dfy`, `BasicUpload.dfy` | whole transfers, client and server together |
| `Locks.dfy` | lock pagination |

Modelling decisions:

- BLAKE3 and SHA-256 are arbitrary functions. Injectivity is a hypothesis of exactly those statements
  that conclude equality of bytes from equality of digests.
- FastCDC is a contract: pieces concatenate to the file, offsets are running sums, inner lengths lie in
  [minimum, maximum] and the last in [1, maximum].
- One repository. Every SQL statement is scoped by `repository_id` and every provider key starts with
  it, so repositories do not meet.
- A transaction is one atomic step that commits whole or not at all. A drain of the deletion queue is
  not atomic: listing, locking the chunk row, the provider delete, the commit and an abort are separate
  steps, because the provider delete happens before the commit and survives an abort. While a drain
  holds a row's lock, a registration of that chunk and a publication that would reference it wait.
- A registration and its provider write are separate steps; a write whose registration committed may
  happen at any later time, or more than once.
- A finalize's verification and its publication are separate steps in the state machine. The statements
  that take them as one step say so.
- The clock is a number of seconds that any step may find advanced.
- `Cache.dfy` performs the chunk reads of a download one after another, in any order; whoever else publishes the
  same cache file meanwhile appears as a rival file, and whoever removes it first as a failing removal.
  `CacheRace.dfy` splits every read into its steps, look, remove, ask and publish, and interleaves the steps of
  all workers with the download pipeline; there the disk works and no other client uses the cache.
- In the thread models the channels deliver in any order, and the outcome of each fetch or put is an
  arbitrary function of the chunk index.

## What turned out to be conditional

- **Finalize can publish a deduplicated object whose chunk is gone.** Chunks already stored when an
  upload begins are never registered to the session, so between finalize's verification and its
  publication nothing protects them. `FinalizeRace.SafeExactlyWhenRegistered` gives the exact condition,
  `FinalizeRace.DeduplicatedFinalizeCanLoseBytes` a reachable state where it fails.
- **A late drain can forget a chunk.** A drain call that reads no row for a queue entry, and drops the
  entry after the chunk was uploaded, published and collected again, leaves an unreferenced row that no
  queue entry names. `Cleanup.CleanupExactlyWhenNoStaleRead` gives the exact condition,
  `Cleanup.CleanupCanBeLost` a reachable state where it fails.
- **A drain fails on registrations of finalized sessions, for ever.** Those sessions are never deleted, so
  their registrations make the row deletion fail after the bytes are gone. A chunk row can ever be removed if
  and only if no finalized session has the chunk registered (`StuckDrains.RowCanGoExactlyWhenUnpinned`);
  otherwise every drain that finds it unreferenced and unheld fails, whatever the provider does
  (`StuckDrains.DrainStuck`, `StuckDrains.PinnedDeadIsStuck`). The ordinary life of one object leads there
  from the empty server (`StuckDrains.OrdinaryLifeGetsStuck`). `Servers.Server.DrainChunkQueue` says exactly
  when a drain succeeds.
- **A provider delete can outlive its lock.** A drain awaits the provider inside the transaction that locks the
  row; if that connection drops, the delete may land after the chunk was uploaded and published again. `Steps`
  has deletes only under their lock; `LateDeletes` adds the others. Bytes of a protected chunk, and of a live
  object, survive under every interleaving if and only if no such delete of them is under way
  (`LateDeletes.KeptExactlyWhenNoLateDelete`, `LateDeletes.ObjectKeptExactlyWhenNoLateDelete`), and the failing
  situation is reachable (`LateDeletes.LateDeleteLosesLiveObject`).
- **Two workers can trip over one corrupt cache file.** Both read it and find it corrupt, one removes it, the other's
  removal fails and the download aborts, although network and disk work. With a working environment no
  interleaving aborts if and only if no corrupt file is named by two indexes of the manifest, the first and
  another, less than a window apart (`CacheRaces.SafeExactlyWhenSpaced`); a zero-filled file and a truncated cache
  file give a run that aborts (`CacheRaces.ZeroFilledFileCanFail`).

## Model

| member | source | states |
|---|---|---|
| `Manifests.Validate` | crates/git-lfs-delta-core/src/manifest.rs:55-106 | accepts exactly the well-formed manifests, otherwise reports the first broken invariant; the overflow branch is unreachable |
| `Manifests.WellFormedIffPartition` | crates/git-lfs-delta-core/src/manifest.rs:46-51 | running offsets hold if and only if the chunks partition the object byte by byte, each byte in exactly one chunk, within the profile bounds |
| `Manifests.FirstBrokenIsUnique` | crates/git-lfs-delta-core/src/manifest.rs:52-54 | the reported error is determined by the manifest: no two errors fit, and none fits a well-formed one |
| `Manifests.DescriptorLimitFollows` | crates/git-lfs-delta-core/src/manifest.rs:62-67 | the 204,800 descriptor limit follows from the object limit and the chunk minimum |
| `Manifests.DescriptorLimitAttained` | crates/git-lfs-delta-core/src/manifest.rs:6-9 | both limits are attained: 204,800 chunks of 512 KiB make a well-formed manifest of 100 GiB |
| `Manifests.OneChunkExactly` | crates/git-lfs-delta-core/src/manifest.rs:83-89 | an object of one chunk is well formed exactly from one byte up to 8 MiB |
| `Manifests.NarrowingsSucceed` | crates/git-lfs-delta-server/src/lib.rs:1774-1798 | after acceptance every integer narrowing of begin and publish succeeds |
| `Streaming.ChunkStream.Next` | crates/git-lfs-delta-core/src/stream.rs:91-111 | hands out the next piece with its descriptor and accounts for it; a bad cut is reported, leaves the accumulated manifest alone, and the stream can go on |
| `Streaming.ChunkStream.Finish` | crates/git-lfs-delta-core/src/stream.rs:59-86 | the manifest depends on the source alone, whatever was taken or reported before; the first bad cut still to come decides a failure |
| `Streaming.ManifestAfterErrors` | crates/git-lfs-delta-core/src/stream.rs:59-111 | after reported errors the finished manifest is well formed if and only if no oversized piece was skipped before a described one, and covers everything that was cut if and only if none was skipped |
| `Streaming.FailedReadsLeaveNoTrace` | crates/git-lfs-delta-core/src/stream.rs:91-98 | under FastCDC's bounds the manifest finished after any failed reads is accepted and complete |
| `Streaming.ProducedManifestIsWellFormed` | crates/git-lfs-delta-core/src/stream.rs:76-86 | producer meets validator: every file up to 100 GiB gets a well-formed manifest with its size and hash |
| `Invariants.StepKeepsInv` | crates/git-lfs-delta-server/src/gc.rs:264-339 | every step of every request keeps the whole invariant: rows match manifests, counts match rows, foreign keys, one open session per object, locked rows are unreferenced and unheld, acknowledged chunks of open sessions are stored, stored digests match |
| `Invariants.ReachableInv` | crates/git-lfs-delta-server/migrations/202607170001_initial.sql:52-54 | the invariant holds in every state reachable from the empty server |
| `Invariants.StepKeepsHeldBytes` | crates/git-lfs-delta-server/src/gc.rs:301-323 | a stored chunk that an open session holds is removed or altered by no step |
| `LiveBytes.StepKeepsLiveBytes` | crates/git-lfs-delta-server/src/gc.rs:294-323 | no step removes or alters a stored byte of a live object |
| `LiveBytes.InterleavedLiveBytes` | crates/git-lfs-delta-server/src/lib.rs:1641-1688 | under any interleaving, aborted drains included: chunks registered to a session and stored before its publication stay stored, unchanged and with matching digests, as long as the object lives |
| `LiveBytes.BasicPublishReconstructs` | crates/git-lfs-delta-server/src/lib.rs:849-863 | an acknowledged basic upload reconstructs its file without being read back |
| `LiveBytes.WholeRunLiveBytes` | crates/git-lfs-delta-server/src/lib.rs:1078-1109 | with verify-and-publish as one step, in every state of every run every published object's chunks, deduplicated ones included, are stored with matching digests and hash to the object id |
| `FinalizeRace.RegisteredIsSafe` | crates/git-lfs-delta-server/src/lib.rs:849-858 | a session whose chunks are all registered and stored can be published safely under every interleaving |
| `FinalizeRace.LoseChunk` | crates/git-lfs-delta-server/src/gc.rs:301-323 | from any consistent state a chunk the session does not hold can lose its bytes while the session stays open |
| `FinalizeRace.SafeExactlyWhenRegistered` | crates/git-lfs-delta-server/src/lib.rs:1084-1109 | a verified finalize is safe under every interleaving if and only if every chunk of the manifest is registered to the session |
| `FinalizeRace.DeduplicatedFinalizeCanLoseBytes` | crates/git-lfs-delta-server/src/lib.rs:1010-1025 | for every pair of hash functions, a reachable state with a verified session that can still publish an object whose chunk is gone |
| `Cleanup.StepKeepsTracked` | crates/git-lfs-delta-server/src/gc.rs:180-203 | a chunk that is referenced or queued stays so through every step, provider failures and aborts included, unless its row is deleted or a stale read exists |
| `Cleanup.CleanupExactlyWhenNoStaleRead` | crates/git-lfs-delta-server/src/gc.rs:285-293 | cleanup cannot be forgotten under any interleaving if and only if no drain call stands between a missing-row read and its queue delete |
| `Cleanup.CleanupCanBeLost` | crates/git-lfs-delta-server/src/gc.rs:276-293 | for every pair of hash functions, a reachable state from which cleanup of a referenced chunk can be forgotten |
| `StuckDrains.PinnedForever` | crates/git-lfs-delta-server/migrations/202607170004_upload_session_chunks.sql:7-8 | once a finalized session holds a chunk, in every later state one does, the row exists and no drain can commit its deletion |
| `StuckDrains.RowCanGoExactlyWhenUnpinned` | crates/git-lfs-delta-server/src/gc.rs:323-336 | in any consistent state some interleaving removes a chunk row if and only if no finalized session has the chunk registered |
| `StuckDrains.PinnedDeadIsStuck` | crates/git-lfs-delta-server/src/gc.rs:294-336 | along every run such a chunk, whenever unreferenced and unheld, is queued and beyond deletion |
| `StuckDrains.DrainStuck` | crates/git-lfs-delta-server/src/gc.rs:264-339 | every drain call that finds such a chunk dead and queued fails, whatever the provider does, and so does the next; if it is the only dead one and the provider deletes it, its bytes are gone |
| `StuckDrains.OrdinaryLifeGetsStuck` | crates/git-lfs-delta-server/src/gc.rs:249-256 | for every pair of hash functions, upload, publication, staging and collection of one object lead from the empty server to such a chunk |
| `LateDeletes.MoveKeepsSound` | crates/git-lfs-delta-server/src/gc.rs:323 | with deletes that outlive their lock, every move keeps the whole invariant but the promise of acknowledgements |
| `LateDeletes.KeptExactlyWhenNoLateDelete` | crates/git-lfs-delta-server/src/gc.rs:276-323 | a referenced or openly held chunk keeps its bytes under every interleaving for as long as it stays so, if and only if no delete of it is under way without its lock |
| `LateDeletes.ObjectKeptExactlyWhenNoLateDelete` | crates/git-lfs-delta-server/src/gc.rs:294-323 | a live object keeps its manifest and every byte under every interleaving while it lives, if and only if no such delete of one of its chunks is under way |
| `LateDeletes.LateDeleteLosesLiveObject` | crates/git-lfs-delta-server/src/gc.rs:323 | for every pair of hash functions, a reachable state with a live object that reconstructs and can still lose a byte while it lives |
| `Orphans.StepAccounts` | crates/git-lfs-delta-server/src/gc.rs:285-293 | a step loses track of an unreferenced row that was queued or registered if and only if it is a finalize that finds its object existing and inserts the row unheld, or a late drain dropping the entry |
| `Orphans.LeftBehindOrigin` | crates/git-lfs-delta-server/src/lib.rs:1755-1812 | in every state of every run, an unreferenced row that is neither queued nor held by a session that can be reclaimed is pinned by a finalized session, or one of those two steps lost track of it |
| `Orphans.ExistingFinalizePins` | crates/git-lfs-delta-server/src/lib.rs:1765-1816 | a finalize that finds its object existing leaves its registered, unreferenced, unqueued chunk behind for ever |
| `GcEvidence.LatestAreNewest` | crates/git-lfs-delta-server/src/gc.rs:76-81 | the dry run sees two epochs exactly when two exist, and every other epoch is older than both |
| `GcEvidence.CandidatesExactly` | crates/git-lfs-delta-server/src/gc.rs:74-93 | the dry run proposes an object if and only if it is live, has no tombstone, and two epochs that every other is older than both lack it |
| `GcEvidence.EpochOrigin` | crates/git-lfs-delta-server/src/gc.rs:34-65 | in every state of every run an epoch goes back to a committed, duplicate-free submission and contains exactly its ids |
| `GcEvidence.SubmissionStays` | crates/git-lfs-delta-server/src/gc.rs:49-62 | every committed submission is recorded, id for id, from then on |
| `GcEvidence.StageExactly` | crates/git-lfs-delta-server/src/gc.rs:119-134 | for every grace: if all planned objects are live each has a tombstone afterwards, new ones due at now plus grace, old deadlines kept; otherwise nothing is staged |
| `GcEvidence.TombstoneOrigin` | crates/git-lfs-delta-server/src/gc.rs:114-136 | every tombstone was staged from a dry run with evidence, and its deadline is staging time plus grace |
| `GcEvidence.DeletionHasEvidence` | crates/git-lfs-delta-server/src/gc.rs:156-178 | every deletion in every run goes back to a dry run before which two snapshots had been committed, the submitted lists of the newest two not naming the object, and happens no earlier than staging time plus grace |
| `GcEvidence.NoDeletionWithoutTwoEpochs` | crates/git-lfs-delta-server/src/gc.rs:67-70 | a run with fewer than two complete epochs deletes no object |
| `Publications.CountsAreOccurrences` | crates/git-lfs-delta-server/src/gc.rs:168-199 | in every reachable state a reference count is the number of rows naming the chunk and its occurrences over all published manifests, repeats included; it is never negative |
| `Publications.PublishAllOrNothing` | crates/git-lfs-delta-server/src/lib.rs:1731-1822 | an error changes nothing, an existing object changes no count or row, a creation adds exactly the object, its rows and one reference per occurrence |
| `Publications.PublishDecides` | crates/git-lfs-delta-server/src/lib.rs:1723-1822 | which answer a publication gives, exactly; an open session is finalized whether or not the object existed |
| `Publications.PublishRecordsSizes` | crates/git-lfs-delta-server/src/lib.rs:1755-1767 | rows that existed keep their size, new ones record the length of the first descriptor naming the chunk |
| `Publications.CreatedOncePerLife` | crates/git-lfs-delta-server/src/lib.rs:1765-1822 | over any number of repeated or competing finalizes, creations exceed deletions by one if the object is live and by none otherwise |
| `Publications.SessionCreatesAtMostOnce` | crates/git-lfs-delta-server/src/lib.rs:1078-1082 | one upload id creates at most one object ever; later finalizes of it change nothing |
| `Publications.FinalizedForever` | crates/git-lfs-delta-server/src/gc.rs:249-256 | a finalized session stays finalized and is never removed |
| `SessionLife.SessionLifeline` | crates/git-lfs-delta-server/src/gc.rs:222-258 | over every run a session keeps its manifest, leaves the open state once, for finalized or expired, and only non-finalized sessions disappear |
| `SessionLife.GoneForever` | crates/git-lfs-delta-server/src/lib.rs:970-999 | a removed session id never comes back |
| `SessionLife.ReachableOneOpen` | crates/git-lfs-delta-server/migrations/202607170001_initial.sql:52-54 | at most one open session per object in every reachable state |
| `SessionLife.ConflictingBeginChangesNothing` | crates/git-lfs-delta-server/src/lib.rs:1000-1009 | a begin with another manifest for an object with a live session changes nothing |
| `SessionLife.FirstBeginStarts` | crates/git-lfs-delta-server/src/lib.rs:970-999 | without a live session a begin opens one, expires the object's stale session and touches no other |
| `Schedules.MatchingBeginResumes` | crates/git-lfs-delta-server/src/lib.rs:982-999 | a matching begin resumes the live session and moves only its expiry |
| `SessionLife.LiveForADay` | crates/git-lfs-delta-server/src/lib.rs:982-999 | along every run an open session accepts chunks until 24 hours after its last begin, and not later |
| `SessionLife.ReclaimRemovesExactly` | crates/git-lfs-delta-server/src/gc.rs:222-258 | reclamation removes exactly the non-finalized sessions whose expiry plus grace has come, with their registrations |
| `SessionLife.ReclaimQueuesExactly` | crates/git-lfs-delta-server/src/gc.rs:230-248 | it queues exactly the unreferenced chunks that lose a holder and that no live session holds |
| `SessionLife.DrainDeletesOnlyDead` | crates/git-lfs-delta-server/src/gc.rs:294-323 | in every reachable state the bytes a drain may delete belong to no live object and to no open session's chunk |
| `Servers.Server.OpenSession` | crates/git-lfs-delta-server/src/lib.rs:1590-1637 | the session transaction of both upload paths, against its specification |
| `Servers.Server.BeginCdc` | crates/git-lfs-delta-server/src/lib.rs:958-1031 | validation, object id and session decide the answer; the plan lists exactly the indexes whose chunk is absent |
| `Servers.Server.RegisterAndStoreChunk` | crates/git-lfs-delta-server/src/lib.rs:1641-1688 | the registration commits first and stays whatever the digest test or the provider answers; which failure occurs, exactly |
| `Servers.Server.UploadCdcChunk` | crates/git-lfs-delta-server/src/lib.rs:1045-1063 | only a live session of the object accepts a chunk of its manifest with the recorded length; acknowledged exactly for bytes of the descriptor's digest whose recorded size agrees, and then registered and stored; each refusal, its cause and its effect exactly |
| `Servers.Server.PublishManifest` | crates/git-lfs-delta-server/src/lib.rs:1717-1823 | the two loops over the descriptors compute the publication transaction whose laws are proved in `Publications` |
| `Servers.Server.ReadBack` | crates/git-lfs-delta-server/src/lib.rs:1083-1103 | succeeds exactly when every chunk is present with matching length and digest, and yields their concatenation; otherwise it stops at the first bad chunk and says whether it is absent |
| `Servers.Server.FinalizeCdc` | crates/git-lfs-delta-server/src/lib.rs:1066-1117 | a finalized session answers from its state; otherwise the object is published exactly when the stored chunks reconstruct it, and nothing changes when they do not; the first bad chunk decides between missing and corrupt, a hash mismatch is reported only when every chunk matches |
| `Servers.Server.DownloadBasic` | crates/git-lfs-delta-server/src/lib.rs:889-919 | the body is served exactly when the live object reconstructs, and hashes to the requested id |
| `Servers.Server.SubmitSnapshot` | crates/git-lfs-delta-server/src/gc.rs:34-65 | commits exactly for duplicate-free id lists, and then the epoch contains exactly the submitted ids; a repeated id leaves no partial epoch |
| `Servers.Server.DryRun` | crates/git-lfs-delta-server/src/gc.rs:74-108 | returns exactly the live, unstaged objects in neither of the two newest epochs |
| `Servers.Server.StageCandidates` | crates/git-lfs-delta-server/src/gc.rs:114-136 | returns exactly the live, unstaged objects in neither of the two newest epochs, and afterwards each has a tombstone at now plus grace, existing tombstones kept |
| `Maintenance.PassOverRow` | crates/git-lfs-delta-server/src/gc.rs:180-199 | giving back one row lowers its chunk's count by one, never below zero, and queues the chunk exactly when none is left |
| `Servers.Server.GiveBackReferences` | crates/git-lfs-delta-server/src/gc.rs:180-199 | the inner loop of a collection, row by row, against its set-level meaning |
| `Servers.Server.CollectDueObjects` | crates/git-lfs-delta-server/src/gc.rs:149-202 | the loop terminates, its counter is the number of tombstones due on entry, exactly their objects go, all others keep row, chunk rows and manifest |
| `Servers.Server.ReclaimSessions` | crates/git-lfs-delta-server/src/gc.rs:220-259 | returns the number of non-finalized sessions past expiry plus grace and performs the reclaim transaction |
| `Servers.Server.DrainChunkQueue` | crates/git-lfs-delta-server/src/gc.rs:264-339 | succeeds exactly when the provider deletes every dead chunk and no session row names one; a failing call stops at such a chunk: its row and entry remain, its bytes are gone unless the provider refused, dead entries before it lost row, bytes and entry, later ones are untouched |
| `DrainRuns.DrainAsRun` | crates/git-lfs-delta-server/src/gc.rs:264-339 | whatever an undisturbed drain call does, failing or not, some run of the drain steps does too |
| `Downloads.Reassemble` | crates/git-lfs-delta-client/src/backend.rs:396-423 | whichever outstanding job completes next, the loop ends with the sequential download's result, failures included |
| `Downloads.MoveKeepsInv` | crates/git-lfs-delta-client/src/backend.rs:379-425 | every move of main thread or worker keeps the pipeline invariant |
| `Downloads.InFlightBounded` | crates/git-lfs-delta-client/src/backend.rs:377-378 | queued, in work, done and pending chunks together never exceed the concurrency |
| `Downloads.NoSendBlocks` | crates/git-lfs-delta-client/src/backend.rs:377-403 | neither channel is ever full when a send is due, even after the main thread gave up |
| `Downloads.ReceiveHasOutstanding` | crates/git-lfs-delta-client/src/backend.rs:406-409 | whenever the main thread receives, the chunk it must write next is queued, in work or done |
| `Downloads.SomeMove` | crates/git-lfs-delta-client/src/backend.rs:379-425 | no deadlock: until everyone is done some move is possible |
| `Downloads.MoveDecreasesRank` | crates/git-lfs-delta-client/src/backend.rs:396-423 | every move makes progress |
| `Downloads.ConcurrentRefinesSequential` | crates/git-lfs-delta-client/src/backend.rs:379-425 | every interleaving: a finished run wrote exactly the sequential download, the number of moves is bounded, and a run that can go no further has finished if and only if every fetch succeeded |
| `Uploads.PlanIsDistinct` | crates/git-lfs-delta-client/src/backend.rs:290-306 | a plan passes exactly when it lists distinct chunks of the manifest |
| `RoundTrips.PlanIsAccepted` | crates/git-lfs-delta-server/src/lib.rs:1010-1025 | whatever is stored, the plan a begin answers with passes the client's range and duplicate tests |
| `Caches.UploadChunkWithRetry` | crates/git-lfs-delta-client/src/backend.rs:225-264 | a put is acknowledged exactly when one of three attempts succeeds and every earlier one was worth retrying |
| `Caches.NetworkExactly` | crates/git-lfs-delta-client/src/backend.rs:160-195 | a fetch yields bytes exactly when one of three attempts is answered with them and every earlier one was worth retrying |
| `Uploads.MoveKeepsInv` | crates/git-lfs-delta-client/src/backend.rs:310-352 | every move of producer or worker keeps the pool invariant: what was sent, no failure overlooked or invented, why a worker is gone |
| `Uploads.SomeMove` | crates/git-lfs-delta-client/src/backend.rs:307-351 | no deadlock, even with every worker dead and jobs still queued |
| `Uploads.MoveDecreasesRank` | crates/git-lfs-delta-client/src/backend.rs:310-352 | every move makes progress |
| `Uploads.FinalizeOnlyAfterEveryAck` | crates/git-lfs-delta-client/src/backend.rs:307-356 | every interleaving: finalize only after every missing chunk was acknowledged, any reported failure rules it out, and the outcome is the sequential upload's |
| `Uploads.NothingSentAfterFailure` | crates/git-lfs-delta-client/src/backend.rs:329-349 | after the producer has seen a failure, an unreadable chunk or no worker left, nothing more is sent |
| `Caches.ChunkCache.ReadOrFetchChunk` | crates/git-lfs-delta-client/src/backend.rs:142-223 | from any cache: answers are valid, a valid entry answers without the network, a corrupt one is replaced, no other entry is touched, a sound cache stays sound; when it answers, exactly |
| `Caches.ChunkCache.ReadChunks` | crates/git-lfs-delta-client/src/backend.rs:379-392 | the reads of a manifest through any cache, one after another in any order: every success is a valid chunk, where servers serve and removals and writes succeed all succeed, every entry is accounted for, a warm cache answers alone, and complete success leaves a warm cache |
| `CacheRaces.ActKeepsInv` | crates/git-lfs-delta-client/src/backend.rs:142-223 | every step of every worker's read, interleaved with the pipeline, keeps the pipeline invariant; whatever is answered or published is a valid chunk |
| `CacheRaces.SafeExactlyWhenSpaced` | crates/git-lfs-delta-client/src/backend.rs:150-158 | with a network that serves and a disk that works, no interleaving of the workers aborts if and only if no corrupt cache file is named by its first index and another less than a window later |
| `CacheRaces.ClashAborts` | crates/git-lfs-delta-client/src/backend.rs:150-158 | from any cache, two such indexes have an interleaving that aborts |
| `CacheRaces.NeverOverwritten` | crates/git-lfs-delta-client/src/backend.rs:211-222 | no step of any worker overwrites a cache file; only its removal changes it |
| `CacheRaces.SoundCacheIsSafe` | crates/git-lfs-delta-client/src/backend.rs:211-222 | from an empty cache, or one without corrupt files, no interleaving aborts |
| `CacheRaces.EveryShift` | crates/git-lfs-delta-client/src/backend.rs:379-425 | every interleaving of read steps and pipeline: bounded, ends finished or aborted, a finished one wrote valid chunks in manifest order, and without a crowded corrupt file it has finished |
| `CacheRaces.ZeroFilledFileCanFail` | crates/git-lfs-delta-client/src/backend.rs:150-158 | for every pair of hash functions, a well-formed two-chunk file, a truncated cache file and two workers with an interleaving that aborts |
| `Caches.CompareCaches` | crates/git-lfs-delta-client/src/backend.rs:142-223 | cache transparency: two downloads of one manifest through two caches with any contents, corrupt or empty, and any networks, disks and orders, deliver the same bytes if both deliver; if nothing can go wrong for either, both deliver or neither |
| `Caches.DownloadTwice` | crates/git-lfs-delta-client/src/backend.rs:150-158 | a delivered object can be downloaded again from the cache alone, whatever the network does |
| `Caches.DownloadObject` | crates/git-lfs-delta-client/src/backend.rs:358-437 | through any cache it delivers exactly when manifest, object id, size, chunk reads and whole hash all agree; what it delivers has the requested size and hash; what it leaves in the cache is accounted for |
| `Servers.Server.DownloadCdcChunk` | crates/git-lfs-delta-server/src/lib.rs:1130-1157 | a chunk is served exactly when the object is live, has the index and the stored bytes match the descriptor |
| `RoundTrips.ServedIsKind` | crates/git-lfs-delta-server/src/lib.rs:1130-1157 | a reconstructible object is served, chunk by chunk, to every client whose retries get through |
| `RoundTrips.FetchedIsStored` | crates/git-lfs-delta-client/src/backend.rs:440-443 | valid chunks of a reconstructible object, from whichever cache or server, concatenate to its stored bytes |
| `RoundTrips.DownloadCdc` | crates/git-lfs-delta-client/src/backend.rs:358-437 | the CDC download of a reconstructible object through any cache and the server's chunk handler delivers the object when its reads come one after another; under every interleaving of its workers it writes nothing else, and aborts in none if and only if no corrupt file is crowded |
| `RoundTrips.UploadOne` | crates/git-lfs-delta-server/src/lib.rs:1034-1063 | putting a piece at its index is accepted, stores and registers it, keeps every invariant and disturbs nothing else |
| `RoundTrips.RoundTrip` | crates/git-lfs-delta-client/src/backend.rs:268-437 | end to end: cut, begin, put the missing indexes in any order with any repeats, finalize; all succeed; the basic download returns the file; the CDC download from the server's chunk handler, through any cache and any losses retries absorb, returns it with reads one after another, and concurrently in every interleaving if and only if no corrupt cache file is crowded |
| `RoundTrips.InterleavedRoundTrip` | crates/git-lfs-delta-server/src/lib.rs:1083-1109 | the round trip with any other requests interleaved: if every chunk was stored or put and none drained before the publication, the store holds exactly the file then and in every later state in which the object lives |
| `BasicUploads.UploadBasic` | crates/git-lfs-delta-server/src/lib.rs:805-866 | success registers every chunk to one session, stores it and publishes; a created object reconstructs the file; refusals keep the server consistent; without obstacle it succeeds |
| `Locks.PageIsSlice` | crates/git-lfs-delta-server/src/lib.rs:639-683 | a page lists in id order exactly the matching locks beyond its cursor up to its next cursor; a next cursor exists exactly when a matching lock lies beyond |
| `Locks.PageLength` | crates/git-lfs-delta-server/src/lib.rs:647-666 | a page is as long as the matching locks beyond its cursor allow, up to the request clamped to [1, 100], 100 by default |
| `Locks.ChangingTableWalk` | crates/git-lfs-delta-server/src/lib.rs:647-681 | with locks coming and going between pages: no lock twice, ids ascending, only locks that were there, and every lock that was there throughout |
| `Locks.FixedTableWalk` | crates/git-lfs-delta-server/src/lib.rs:647-681 | on a fixed table, any limits: the walk ends and lists every matching lock exactly once in id order |

## Left out

- HTTP routing, JSON, headers, metrics and authentication: the handlers start where the request has been parsed and authorised.
- The boundary choice of FastCDC, the hash functions, `object_store` and PostgreSQL: contracts, arbitrary functions, or atomic steps.
- Retry delays, timeouts, semaphores and shutdown: the outcome of the attempts is what the model takes.
- `reconcile.rs`: a snapshot is an arbitrary list of object ids.
- Lock creation, verification and removal, batch responses, the custom-transfer line protocol, `prune_cache`, the administration commands: they would add only easy members.
- Row-level waiting inside a transaction is modelled by not letting the step happen while a drain holds the row; deadlock detection and isolation anomalies inside one transaction are not modelled.
- The expiry timestamps use seconds; sub-second times and clock steps backwards are not modelled.
- Servers.Server.StageCandidates: states stage right after its own dry run; a dry run and a later stage with other requests in between are separate steps in `Steps`.
- Servers.Server.CollectDueObjects: states the loop for a fixed clock and without concurrent requests; single collections interleave with everything else in `Steps`.
- Servers.Server.DrainChunkQueue: states the whole loop without concurrent requests; the interleaved drain is the `Drain…` steps of `Steps`.
- Caches.ChunkCache.ReadChunks: the reads come one after another; the workers' steps interleave in `CacheRaces`.
- Caches.DownloadObject: the chunk reads are performed before reassembly begins; an aborted download may have performed any of them.
- CacheRaces.SafeExactlyWhenSpaced: the disk works and no other client uses the cache; a second client adds its own removals.
- Downloads.Reassemble: the order of completions is an arbitrary choice at each receive; threads and channels themselves are in `Downloads.ConcurrentRefinesSequential`.
- RoundTrips.RoundTrip: both directions run without other requests in between, and no session expires; other requests in between are in `RoundTrips.InterleavedRoundTrip`.
