# distbackup: verified models

distbackup is a content-addressed backup engine. Files are cut into content-defined chunks,
deduplicated against an index, gathered into packs, uploaded, and recorded in a snapshot. This
project models its four cores and its two store backends in Dafny 4.11, proves each alone, and
then composes them: what a backup commits is restored byte for byte, then and later.

Verify everything with `dafny verify dfyconfig.toml`.

## The files

| file | what it holds |
|---|---|
| `Blob.dfy`, `Arithmetic.dfy`, `LittleEndian.dfy` | blobs, content addresses, int64 arithmetic, sums, fixed-width integers |
| `Pipeline.dfy` | the backup pipeline as a step protocol: program counters, bounded channels, cancellation |
| `PipelineShape.dfy`, `PipelineFrames.dfy`, `PipelineFiles.dfy`, `PipelineBlobs.dfy` | invariants of every reachable pipeline state, and of every state of a run not doomed to fail |
| `PipelineTheorems.dfy`, `PipelineBounds.dfy`, `PipelineProgress.dfy`, `PipelineRecords.dfy` | completeness, exact deduplication, byte and memory bounds, deadlock freedom, termination |
| `PipelineHistory.dfy` | a run step by step: its counters, when its channels are closed, and exactly when it reports an error |
| `PipelineArrivals.dfy`, `PipelineSuccess.dfy`, `PipelineLimits.dfy` | the orders in which chunks can arrive, the packs each leads to, and exactly when a run can still succeed |
| `PipelineCap.dfy`, `PipelineCapacity.dfy` | the byte cap: when it never refuses a chunk, and exactly which sources it lets through |
| `Readers.dfy` | readers: short reads, empty reads, an error with or after the last bytes; io.ReadFull |
| `FastCdc.dfy`, `Chunker.dfy` | FastCDC as a function of the stream, and the streaming chunker that refines it |
| `PackFormat.dfy`, `Pack.dfy` | the pack format, its writer and its readers |
| `IndexFormat.dfy`, `IndexLoad.dfy`, `Index.dfy` | the index as one map, its binary form, what loading accepts, and the 256-shard object |
| `RepoModel.dfy`, `RepoInvariant.dfy`, `RepoTheorems.dfy` | the repository as a state machine over its store, its invariant, and when a kill is safe |
| `RepoKept.dfy` | crash safety: what stays true of committed snapshots through every later run |
| `GarbageCollection.dfy`, `CollectingTwice.dfy` | what collection keeps, when a second one deletes nothing, and a history in which it does not |
| `Repository.dfy`, `RepoRefinement.dfy` | the repository object proved against the machine's functions, and its operations as runs of the machine |
| `Restore.dfy`, `RestorePool.dfy`, `RestoreRaces.dfy` | restoring one file, the pool of restore workers as a step protocol, and when its outcome is sure |
| `RestoreFailures.dfy` | restores that fail or are cancelled: what they report, what they leave behind, and that they can stop |
| `PipelineStores.dfy`, `EndToEnd.dfy` | the pipeline as steps of the repository machine, and the end-to-end theorem |
| `SnapshotIdentity.dfy` | when two backups get the same snapshot ID |
| `Retry.dfy`, `S3Fake.dfy`, `S3Listing.dfy`, `S3Conditional.dfy` | the retry loop, the object server, paged listing, conditional puts |
| `LocalFs.dfy`, `LocalFsTheorems.dfy`, `LocalFsDurability.dfy`, `LocalFsDeletion.dfy`, `LocalFsResults.dfy` | the local backend at system-call granularity: complete objects, durability, deletion, and what callers are told |

## How the system is modelled

* **Concurrency.** Each goroutine is a program counter with its locals, each channel a bounded
  sequence with a closed flag, and each `select` a choice between steps. A run is any sequence of
  enabled steps, so a statement about all runs is a statement about all schedules, failures at
  any point, and cancellation at any time. History variables (`Log`) record what passed through
  each channel; no step reads them.
* **Hash.** The digest is a function parameter. Where equality of addresses must mean equality of
  bytes, the digest is assumed free of collisions among a given set of byte strings (`inPlay`:
  the blobs and packs a run handles), never on all byte strings.
* **Header codec.** The JSON pack header is a parameter with a round-trip obligation.
  `PackFormat.RECORDS` is a codec that meets it. In the pipeline, `Config.fits` says which packs
  have a header within the limit, and it alone decides whether Finish fails.
* **Masks and Gear table.** Arbitrary 64-bit words and an arbitrary function from bytes to 64-bit
  words; all chunker results hold for every choice.
* **Integers.** `int64` sums that may wrap are written with `AddInt64`; the rolling hash is
  computed modulo 2^64.
* **Readers.** A reader follows a plan: how many bytes each call returns, and whether its final
  error comes with the last of them; after the plan it is a plain reader. So it may return
  `(0, nil)` only finitely often. Without that, `fill`
  (`internal/chunker/chunker.go:277-287`) does not return.
* **Repository errors.** The command-line tool exits when an operation returns an error, so an
  error from the store is, for the store's contents, the same as a kill at that point.

## Where the code and its comments differ

* **A crash inside garbage collection** (`internal/repo/verify.go:198-202`). The comment says the
  next Open rebuilds the index. Open rebuilds only when the saved index is missing or corrupt
  (`internal/repo/repo.go:117-126`); a stale but well-formed one is loaded, and the next backup
  trusts it. `RepoTheorems.KillSafeIff` proves that a kill is safe in all continuations if and
  only if the saved index does not name a missing pack; `RepoTheorems.StaleReachable` reaches
  such a state, and `RepoTheorems.StaleKillLoses` is the run that then commits a snapshot which
  cannot be restored. Snapshots committed before the kill stay safe even then
  (`RepoKept.KeptForever`).
* **Collecting twice.** A second collection may delete a pack that the first one kept, because the
  rebuild keeps for each blob the first location it lists (`internal/repo/repo.go:272-274`).
  `GarbageCollection.IdempotentIff` gives the exact condition, and
  `CollectingTwice.SecondCollectionDeletes` a history in which an interrupted backup leads to it.
* **Entry bounds** (`internal/pack/pack.go:308`). The sum of offset and length may wrap, and the
  check then accepts an entry outside the pack. `PackFormat.AcceptedInsideIff` gives the exact
  condition and `PackFormat.WrappedEntryAccepted` an instance; headers made by the writer are
  never affected (`PackFormat.EntriesTile`).
* **A cancelled send** (`internal/pipeline/backup.go:414-416`) records an empty chunk list, not a
  truncated one, and reports no error (`PipelineRecords.EmptiedList`, `PipelineRecords.NeverPartial`).
  Only the checks at `internal/pipeline/backup.go:229-234` keep such a list out of a snapshot.
* **Snapshot identity** (`internal/pipeline/backup.go:160-164`). The comment says that two runs over
  an unchanged tree get the same ID. CreatedAt, Duration and PacksWritten are hashed, and for two
  successful runs over the same source into the same index the IDs are equal if and only if these
  three agree (`SnapshotIdentity.SameIdIff`). The chunk lists always agree
  (`PipelineTheorems.ScheduleIndependent`).
* **Packs of a crashed run** (`docs/DECISIONS.md:110-112`). The next run knows their blobs if and
  only if no saved index can be loaded or the saved one lists them (`RepoKept.AdoptedIff`);
  `RepoKept.NotAdopted` is a run after which they are not adopted.
* **Many small files** (`internal/pack/pack.go:58-60`). The comment says that a pack never holds
  more blobs than a header has room for. IsFull counts blob bytes alone
  (`internal/pack/pack.go:174`), so a pack of tiny files can outgrow the header limit, and then
  Finish fails the backup (`internal/pack/pack.go:202`). A run can succeed if and only if its
  chunks can still arrive in an order that keeps every header within the limit
  (`PipelineSuccess.CanSucceedIff`); no run of a first backup of 700,000 files of 20 bytes does
  (`PipelineLimits.ManySmallFiles`). `PipelineLimits.FewNewChunks` is a bound on the source that
  rules it out.
* **The byte cap** (`internal/pipeline/backup.go:73-75`). The comment says that the run is aborted once
  so many source bytes have been read. Each worker adds only its own file to what has been recorded
  (`internal/pipeline/backup.go:401-408`), so what the other workers hold escapes the cap: two workers
  back up twelve bytes under a cap of ten (`PipelineCapacity.TwoWorkersPassCap`), and W workers can
  read up to W times the cap (`PipelineTheorems.ByteCap`). `PipelineCapacity.CapDecides` says exactly
  which sources get through; with one worker it is those within the cap
  (`PipelineCapacity.AllowedIff`).
* **Restoring one path twice** (`internal/pipeline/restore.go:57-59`). The comment says that no two
  workers ever write to one file. A manifest may list a path twice
  (`internal/repo/snapshot.go:190-197` does not forbid it), and with overwriting on, two workers
  can then have one file open. The outcome is sure to be that of restoring the entries in turn if
  and only if no path is listed twice, or overwriting is off, or there is one worker
  (`RestoreRaces.InTurnIff`). `RestoreRaces.MixedFile` is a restore that reports success and leaves
  a file that is neither entry's.
* **Trailing bytes of an index** (`internal/index/index.go:320-325`). ReadFrom takes any error from
  its last call to mean that nothing follows. io.Reader lets a reader return its last byte together
  with the end of the file, and then one extra byte is accepted (`IndexLoad.ExtraByteLoads`); it also
  allows `(0, nil)`, and then a whole index is refused (`IndexLoad.WholeIndexRefused`).
  `IndexLoad.LoadIff` is the exact condition. Files and byte buffers are read exactly
  (`IndexLoad.SteadyLoads`).
* **PutIfAbsent on an existing key** (`internal/store/localfs/localfs.go:244-249`) does not sync the
  directory, so a caller that is told the object exists may lose it to a power loss
  (`LocalFsDurability.ExistsMayBeLost`). It is safe if and only if its directory entry is on disk
  (`LocalFsDurability.ListedForeverIff`).
* **Delete of an absent key** (`internal/store/localfs/localfs.go:385-387`) does not sync the directory
  either, so a caller that is told the object is gone may see it come back after a power loss, if the
  call that removed it had not synced yet (`LocalFsDeletion.DeletedMayReturn`). It stays away if and
  only if its entry is off the disk, too (`LocalFsDeletion.AwayForeverIff`).

## Model

| member | source | states |
|---|---|---|
| PipelineTheorems.RunInv | internal/pipeline/backup.go:181-227 | After every schedule the queue, ownership and closing invariants hold; no channel is ever sent to after close or closed twice |
| PipelineShape.StepShape | internal/pipeline/group.go:79-101 | Each step of any goroutine keeps queue contents, closing discipline and locals, and panics on no channel |
| PipelineShape.PassingIsSound | internal/pipeline/group.go:45-71 | If g.Wait and ctx.Err both pass then no worker failed and no select in the whole run took its cancellation branch |
| PipelineHistory.ErrorIff | internal/pipeline/group.go:45-71 | When all goroutines have returned, the group's error is set if and only if some step of the run failed (a file unreadable or over the cap, a blob or a pack refused, a pack not stored); BackupFiles goes on to its snapshot if and only if nothing failed and nobody cancelled |
| PipelineHistory.NeverAfterClose | internal/pipeline/group.go:79-90 | In every run, no send on a channel and no second close comes after the step that closes it |
| PipelineHistory.CountersAreTrue | internal/pipeline/backup.go:256-271 | In every run, FilesDone, PacksWritten and the lengths of all histories are the numbers of the steps they stand for |
| PipelineTheorems.Complete | internal/pipeline/backup.go:178-236 | A passing run read every file to its end, recorded for each exactly the list of its chunk IDs in order, and the assembler decided on every chunk exactly once |
| PipelineTheorems.ScheduleIndependent | internal/pipeline/backup.go:256-311 | The chunk lists of two passing runs over the same source agree, whatever the worker counts, timing and prior index |
| PipelineTheorems.DedupExact | internal/pipeline/backup.go:426-492 | BlobsNew is the number of distinct produced IDs the index lacked at the start, each is in exactly one pack, and new plus deduplicated counts and bytes add up to everything read |
| PipelineTheorems.EverythingStored | internal/pipeline/backup.go:512-536 | Outside a dry run every pack of a passing run went through PutPack and the index knows exactly the old blobs and every chunk of every file |
| PipelineTheorems.DryRunWritesNothing | internal/pipeline/backup.go:66-71 | A dry run, whatever becomes of it, stores no pack and indexes no blob |
| PipelineTheorems.ByteCap | internal/pipeline/backup.go:400-409 | With W workers and cap M, recorded plus checked-but-unrecorded bytes never exceed W*M in any reachable state, so a passing run reads at most W*M |
| PipelineTheorems.MemoryBound | internal/pipeline/backup.go:107-135 | At most uploadWorkers+9 packs are held at any time, none, built, shipped or made, above target-1 plus one chunk, and every pack but the last reaches the target |
| PipelineProgress.NoDeadlock | internal/pipeline/backup.go:181-227 | Until all goroutines are gone, some goroutine can step without waiting for a cancellation |
| PipelineProgress.StepDescends | internal/pipeline/backup.go:332-364 | A measure falls with every step of every goroutine |
| PipelineProgress.RunsEnd | internal/pipeline/backup.go:181-227 | No run is longer than the measure of its initial state |
| PipelineProgress.CanFinish | internal/pipeline/group.go:67-71 | Every run, however failed or cancelled, extends to one in which every goroutine has returned and every channel is closed |
| PipelineArrivals.RunOrder | internal/pipeline/backup.go:461-492 | In every run that has not failed, the chunks sent came in an order that W workers taking files in walk order can produce, and the packs made are the ones that order is cut into |
| PipelineArrivals.RunAccepted | internal/pack/pack.go:189-206 | Every pack handed on, in failed runs too, is one that Finish accepts |
| PipelineSuccess.CanSucceedIff | internal/pipeline/backup.go:434-492 | A run in which nothing has failed so far extends to one that passes both checks if and only if every file is readable, no new chunk has the zero ID, and the chunks not sent yet can arrive in an order that keeps every pack header within the limit: without a byte cap, and with one that the source stays within; with one worker, any run exactly if the source stays within the cap as well |
| PipelineLimits.CanSucceed | internal/pipeline/backup.go:181-236 | If every pack that could come about is within the header limit and the source within the byte cap, any run of a healthy source in which nothing has failed so far extends to one that passes both checks |
| PipelineLimits.FewNewChunks | internal/pack/pack.go:56-61 | For that it is enough that one header has room for all new chunks of the source |
| PipelineLimits.WalkOrderDecides | internal/pipeline/backup.go:461-492 | A healthy source within the byte cap can be backed up if the packs of the walk order are within the header limit; with one chunk worker, no other source can |
| PipelineLimits.OnePackTooMany | internal/pack/pack.go:172-174 | A source whose new chunks stay below the pack target but are more than a header has room for is backed up by no schedule |
| PipelineLimits.ManySmallFiles | internal/pack/pack.go:56-61 | Such a source: 700,000 readable files of 20 bytes, with the default target, whose first backup fails under every schedule and any number of workers |
| PipelineCap.CapNeverBites | internal/pipeline/backup.go:400-409 | If the whole source stays within the cap, no worker is ever refused for it, in failed and cancelled runs too |
| PipelineCapacity.CapDecides | internal/pipeline/backup.go:400-409 | For any number of workers: a source whose walk-order packs are within the header limit can be backed up if and only if it is healthy and each of its files stays within the cap together with the files before it, but for at most W-1 of them that the other workers can hold unrecorded; no source can that does not meet this |
| PipelineCapacity.AllowedIff | internal/pipeline/backup.go:73-75 | That condition holds of every source within the cap, and with one worker of no other |
| PipelineCapacity.TwoWorkersPassCap | internal/pipeline/backup.go:73-75 | A backup of two files of six bytes by two workers that passes under a cap of ten |
| PipelineRecords.NeverPartial | internal/pipeline/backup.go:344-360 | In every run a recorded chunk list is the file's whole list, or empty with the group's context done |
| PipelineRecords.EmptiedList | internal/pipeline/backup.go:411-416 | A schedule in which a cancelled send leaves an empty list for a file with chunks and no group error |
| PipelineStores.RunAuthored | internal/pipeline/backup.go:466-490 | In every run, failed ones included, every pack holds distinct chunks of the source and only stored packs are indexed |
| PipelineStores.Refines | internal/pipeline/backup.go:512-536 | Any pipeline run is a run of the repository machine that only stores packs and then indexes their blobs |
| FastCdc.BoundaryIsBoundary | internal/chunker/chunker.go:306-339 | The boundary function is the one length that cuts after the first hash hit from MinSize on, else at MaxSize or at the end |
| FastCdc.BoundaryMasks | internal/chunker/chunker.go:320-339 | With the masks written out: the boundary is the one length up to which no hash met the strict mask below AvgSize or the loose one from there on, and whose last hash does, unless MaxSize or the data ends there |
| FastCdc.LooseMaskIrrelevant | internal/chunker/chunker.go:320-328 | The loose mask has no say in a chunk that ends at AvgSize or before |
| FastCdc.NormalChunks | internal/chunker/chunker.go:38-48 | If no hash meets the strict mask, no chunk but the last is shorter than AvgSize |
| FastCdc.RollIsSum | internal/chunker/chunker.go:306-339 | The rolling hash is the sum of the Gear values, each doubled once for every byte since, modulo 2^64 |
| FastCdc.DisjointIsAnd | internal/chunker/chunker.go:320-339 | The test against a mask is that the bitwise conjunction is zero |
| FastCdc.BoundaryLocal | internal/chunker/chunker.go:258-265 | With MaxSize bytes at hand, or a cut before the end, later data does not move the next boundary |
| FastCdc.SplitLossless | internal/chunker/chunker.go:38-48 | The chunks concatenate to the input; all have at most MaxSize bytes, and all but the last more than MinSize |
| FastCdc.CutSplits | internal/chunker/chunker.go:306-339 | At a cut position the split falls into the chunks before it and the split of the rest of the stream |
| FastCdc.ChunkEndsAreCuts | internal/chunker/chunker.go:306-339 | Every chunk ends at a cut position |
| FastCdc.Resynchronise | internal/chunker/chunker.go:301-305 | Two streams with a common tail and one common cut inside it share all later cuts |
| FastCdc.SameChunksFromCut | internal/chunker/chunker.go:301-305 | From a common cut on, the two streams have the same chunks |
| FastCdc.AppendStable | internal/chunker/chunker.go:306-339 | Appending data keeps every chunk but the last |
| FastCdc.BitLocality | internal/chunker/chunker.go:192-199 | Bit k of the rolling hash depends only on the last k+1 bytes hashed |
| FastCdc.WindowLocality | internal/chunker/chunker.go:192-199 | From 63 bytes past MinSize on, the tested hash is a function of the last 64 bytes alone |
| FastCdc.CutDecisionLocal | internal/chunker/chunker.go:323-337 | Two streams that agree on those 64 bytes make the same cut decision under the same mask, wherever their chunks began |
| Readers.Reader.Read | internal/chunker/chunker.go:277-283 | One call returns the bytes and the error that the reader's plan calls for: pieces of any size, nothing at all, the final error with or after the last piece |
| Readers.Reader.ReadFull | internal/index/index.go:280-286 | io.ReadFull: fills the buffer exactly when enough bytes are left, dropping an error that comes with the last byte needed |
| Chunker.Chunker.Slide | internal/chunker/chunker.go:271-275 | Moving unconsumed bytes to the front keeps them, in place |
| Chunker.Chunker.Fill | internal/chunker/chunker.go:266-288 | Filling loses and reorders nothing, and leaves MaxSize bytes buffered or the stream ended |
| Chunker.Chunker.FindBoundary | internal/chunker/chunker.go:306-339 | The two-loop scan finds exactly the boundary |
| Chunker.Chunker.Next | internal/chunker/chunker.go:228-252 | Next yields the next chunk of the whole pending stream in a fresh array at the running offset, or the reader's final error once everything delivered is chunked |
| Chunker.ChunkAll | internal/chunker/chunker.go:344-360 | For every schedule of reads, repeated Next yields the split of the bytes delivered before the first error, at contiguous offsets, in unshared arrays, then that error |
| PackFormat.EntriesTile | internal/pack/pack.go:127-153 | Entry k is blob k; entries tile the blob region from 0 without gaps; each names exactly its blob's bytes |
| PackFormat.TailRecovery | internal/pack/pack.go:248-316 | A tail that covers header and trailer yields the header written; a shorter one yields exactly the bytes needed, or the trailer size |
| PackFormat.PackLayout | internal/pack/pack.go:189-220 | A finished pack byte for byte: blob region, header, the header's length in four bytes, lowest first, and DBPACK01 |
| PackFormat.FoundIff | internal/pack/pack.go:248-320 | For any bytes: a header is read if and only if the magic is right, the length is between 1 and the limit and inside the file, the header is all there, decodes, has version 1 and entries, and no entry is negative or ends past the blob region, unless its end is no int64 |
| PackFormat.ShortIff | internal/pack/pack.go:248-280 | More bytes are asked for exactly when the trailer or the header is cut, and then exactly as many as are needed |
| PackFormat.AcceptedInsideIff | internal/pack/pack.go:303-313 | An accepted entry lies inside the blob region if and only if offset plus length is an int64 |
| PackFormat.WrappedEntryAccepted | internal/pack/pack.go:308-312 | A header accepted although its entry lies outside the pack |
| PackFormat.RecordsRoundTrip | internal/pack/pack.go:197-201 | A concrete header codec meets the round-trip obligation |
| Pack.ParseTail | internal/pack/pack.go:248-316 | The checking loop computes the tail result, each error in the source's order |
| Pack.Writer.Add | internal/pack/pack.go:127-153 | Adds exactly the blobs that are new, authentic and non-zero to an unfinished pack, with the source's errors otherwise |
| Pack.Writer.Finish | internal/pack/pack.go:189-223 | Succeeds once, exactly on a non-empty pack with a header within the limit; the bytes are blobs, header, trailer, and the address is their digest |
| Pack.ReadPackHeader | internal/repo/repo.go:296-322 | At most two reads on any bytes; the error after the loop is unreachable; the result is the two-read function |
| Pack.HeaderRecovered | internal/repo/repo.go:288-322 | On a finished pack of any size the header written is read back |
| Pack.TailIsAsGoodAsWhole | internal/pack/pack.go:334-380 | For any file, the two tail reads yield what reading all of it would |
| Pack.SamePackSameHeader | internal/pack/pack.go:182-223 | The bytes of a finished pack determine its header and its blob region |
| Pack.NewReader | internal/pack/pack.go:334-371 | At most two reads; succeeds exactly when the header is recovered, with the entries by ID |
| Pack.Reader.ReadBlob | internal/pack/pack.go:399-416 | Returns bytes exactly when the entry's bytes hash to the address asked for, with the source's error otherwise |
| Pack.Reader.VerifyAll | internal/pack/pack.go:420-427 | Succeeds exactly when every entry reads back and verifies |
| Pack.PackRoundTrip | internal/pack/pack.go:334-416 | Every blob added to a finished pack is found in it with its bytes, and nothing else is |
| IndexFormat.RoundTrip | internal/index/index.go:239-318 | As byte strings, decoding inverts encoding for every map iteration order if and only if the entry count is within the limit and no offset or length is negative; IndexLoad says for which readers loading does |
| IndexFormat.EncodingLayout | internal/index/index.go:239-274 | Any encoding byte for byte: DBIDX001, the entry count in eight bytes, lowest first, and 80 bytes an entry: blob ID, pack ID, offset and length |
| IndexFormat.DecodesIff | internal/index/index.go:277-328 | Any bytes decode if and only if they start with the magic and a count within the limit, hold exactly that many records, and no offset or length has its sign bit set |
| IndexFormat.DecodesTo | internal/index/index.go:302-317 | And then to exactly the blobs that have a record, each at the location in its first one |
| IndexFormat.NoPrefixNoExtension | internal/index/index.go:296-318 | As byte strings, every strict prefix and proper extension of an encoding is rejected; IndexLoad says for which readers that carries over |
| IndexLoad.LoadIff | internal/index/index.go:320-325 | ReadFrom agrees with decoding the delivered bytes if and only if its last call neither returns a byte with an error nor, when all has been read, returns nothing and no error |
| IndexLoad.SteadyLoads | internal/index/index.go:277-328 | From a reader that reports its error in a call of its own and never returns (0, nil), ReadFrom is exact |
| IndexLoad.LoadEncoding | internal/index/index.go:277-328 | For every reader: a WriteTo output cut short is refused; whole, it is loaded unless the last call returns (0, nil); extended, it is loaded exactly when one byte follows and comes with the error |
| IndexLoad.ExtraByteLoads | internal/index/index.go:322-325 | Any index followed by any one byte is loaded from some reader |
| IndexLoad.WholeIndexRefused | internal/index/index.go:322-325 | Any index is refused from some reader |
| IndexFormat.InsertsMinusDeletes | internal/index/index.go:92-108 | For any interleaving, true Inserts minus true Deletes of an ID is the change of its presence |
| IndexFormat.OneInserterWins | internal/index/index.go:92-108 | Of racing insertions of one absent blob exactly one is told it inserted |
| Index.UnionAt | internal/index/index.go:82-84 | A blob is in the index if and only if it is in the shard of its first byte |
| Index.Index.Insert | internal/index/index.go:109-120 | Insert keeps the first location and reports whether it inserted, on all shards seen as one map |
| Index.Index.Lookup | internal/index/index.go:123-131 | Lookup in one shard is lookup in the whole |
| Index.Index.Len | internal/index/index.go:147-156 | The sum of the shard sizes is the size of the union |
| Index.Index.Delete | internal/index/index.go:160-171 | Delete removes exactly the blob and reports whether it was there |
| Index.Index.WriteTo | internal/index/index.go:239-274 | Writes an encoding of the whole map, each shard in any order |
| Index.Index.ReadFrom | internal/index/index.go:277-328 | For every reader, loads exactly what IndexLoad.Load says, which the rows above compare with decoding, and rebuilds that map; a failure is corruption, except a read error in the header |
| RepoInvariant.StorableSound | internal/repo/repo.go:142-171 | A finished pack is sound under its own address |
| RepoInvariant.RebuildSound | internal/repo/repo.go:250-287 | Rebuilding from sound packs, in any list order, succeeds and every entry points at its blob in a present pack |
| RepoInvariant.RebuildFinds | internal/repo/repo.go:250-287 | A rebuild finds every blob of every pack |
| RepoInvariant.RebuildIff | internal/repo/repo.go:250-287 | Over any packs, damaged ones included, a rebuild succeeds if and only if every listed pack is there and its header can be read |
| RepoInvariant.RebuildKnows | internal/repo/repo.go:260-287 | And then knows exactly the blobs that some listed pack names |
| RepoInvariant.RebuildFirst | internal/repo/repo.go:272-274 | Each of them at the first entry of the first pack in list order that names it |
| RepoInvariant.StepInv | internal/repo/repo.go:104-171 | Every step but a stale kill keeps the repository invariant: sound packs, saved index, live index, coverage of all snapshots |
| RepoKept.KeptForever | internal/repo/repo.go:104-128 | Through every later run, kills inside collections included, each blob that snapshots referred to is resolved by the next Open, which never fails, and by the live index between operations |
| RepoKept.CrashSafety | internal/pipeline/backup.go:242-252 | After any run from Create with kills between any two store writes, collections and index losses, every blob of every snapshot stored before the first kill with a stale index is resolved by the next Open, which never fails |
| RepoKept.AdoptedIff | internal/repo/repo.go:113-128 | Blobs of a stored pack are known to the next run if and only if no index can be loaded or the saved one lists them |
| RepoKept.NotAdopted | internal/repo/repo.go:113-128 | A run from Create, killed between PutPack and SaveIndex, whose pack the next Open does not know |
| RepoTheorems.LiveSafety | internal/repo/repo.go:186-211 | Between operations the live index resolves every snapshot blob to bytes that hash to it |
| RepoTheorems.StaleOnlyInCollection | internal/repo/verify.go:218-250 | The saved index is stale only between a collection's first deletion and its SaveIndex |
| RepoTheorems.KillSafeIff | internal/repo/verify.go:198-202 | Dying in a reachable state is safe in all continuations if and only if the saved index names no missing pack |
| RepoTheorems.StaleKillLoses | internal/repo/repo.go:117-126 | The continuation that loads a stale index and commits a snapshot which cannot be restored |
| RepoTheorems.StaleReachable | internal/repo/verify.go:218-240 | A run from Create that reaches such a state |
| RepoTheorems.SnapshotsStay | internal/repo/repo.go:354-375 | No step removes a snapshot |
| GarbageCollection.CollectKeepsMeaning | internal/repo/verify.go:203-252 | After deleting the orphans and rebuilding in any order, every referenced blob resolves to the same bytes as before |
| GarbageCollection.IdempotentIff | internal/repo/verify.go:203-252 | A further collection deletes nothing, for every list order, if and only if each remaining pack holds a referenced blob that no other pack holds |
| GarbageCollection.CollectTwice | internal/repo/verify.go:203-252 | When no referenced blob lies in two packs, a second collection deletes nothing |
| CollectingTwice.SecondCollectionDeletes | internal/repo/repo.go:260-287 | A run from Create in which a collection keeps two packs that share a referenced blob and, after its rebuild, one of them is an orphan |
| Repository.ReportMeans | internal/repo/verify.go:59-61 | A clean report means every referenced blob is indexed in a present pack; a clean full report, that for each of them the bytes at its location are there and hash to its address |
| Repository.ReportLists | internal/repo/verify.go:81-173 | What the report counts and lists: snapshots, packs, orphans, missing packs, dangling blobs, and, of a full one, the blobs whose bytes are not there or do not hash to their address, and how many were read |
| Repository.Repository.PutPack | internal/repo/repo.go:152-171 | Stores the pack under its address and adds exactly its entries to the index |
| Repository.Repository.GetBlob | internal/repo/repo.go:186-211 | Returns a blob if and only if it is indexed in a present pack, inside it, and the bytes there hash to the address; and then exactly those bytes |
| RepoModel.ResolveIff | internal/repo/repo.go:186-211 | The function that the machine serves blobs with meets the same condition, rotten packs included |
| Repository.Repository.SaveIndex | internal/repo/repo.go:219-225 | The saved bytes encode the live index |
| Repository.Repository.LoadIndex | internal/repo/repo.go:228-242 | Loads exactly a well-formed saved index, else keeps the one it has |
| Repository.Repository.RebuildIndex | internal/repo/repo.go:250-287 | Computes the rebuild over the listing, or fails and keeps the index exactly when a pack cannot be read |
| Repository.Open | internal/repo/repo.go:104-128 | Opens with the saved index if well formed, else with a rebuild; fails exactly when a needed rebuild fails |
| Repository.Repository.Verify | internal/repo/verify.go:81-173 | The nested loops compute the report's sets: missing packs, dangling and unreadable blobs, orphans, counts |
| Repository.Repository.CollectGarbage | internal/repo/verify.go:203-252 | Refuses exactly a damaged repository; a real run deletes exactly the packs and bytes its dry run reports, then rebuilds and saves |
| RepoRefinement.OpenIsStep | internal/repo/repo.go:104-128 | What Open does is a step of the repository machine |
| RepoRefinement.PutPackRun | internal/repo/repo.go:152-171 | What PutPack does to a finished pack is a run of the machine that stores it and then indexes its blobs one by one |
| RepoRefinement.CommitRun | internal/pipeline/backup.go:242-252 | Saving the index and the snapshot is a run of the machine |
| RepoRefinement.CollectRun | internal/repo/verify.go:203-252 | What CollectGarbage does to an undamaged repository is a run of the machine; with nothing to delete it changes nothing |
| Restore.RestoreOneFile | internal/pipeline/restore.go:145-219 | Writes exactly the file's bytes, exactly when nothing fails and the size is right; a failure leaves no file, or if it cannot be removed the chunks so far and at most a part of the next, except that an error from Close leaves the whole file; no other file changes |
| Restore.WantedIff | internal/pipeline/restore.go:175-215 | What a file is restored to: the bytes at its chunks' locations, in order, if each hashes to its address and together they have the size in the manifest |
| Restore.RestoreInTurn | internal/pipeline/restore.go:84-135 | With one worker: succeeds exactly when nothing fails and every entry can be restored in turn, and then the target is what restoring them in turn yields, and the bytes reported are the sizes in the manifest added up |
| Restore.AfterFilesMeans | internal/pipeline/restore.go:155-172 | Restoring entries in turn leaves each path with exactly the bytes of the last entry for it and other files as they were; without overwrite no path may repeat or be taken |
| RestorePool.PassingRestores | internal/pipeline/restore.go:102-135 | For every schedule of any number of workers: a restore that reports success has left exactly what restoring the entries in turn leaves, when no path is listed twice, or overwriting is off, or there is one worker |
| RestoreRaces.InTurnIff | internal/pipeline/restore.go:102-172 | Over all contents and stores and all successful schedules, the outcome is that of restoring in turn if and only if one of these three conditions holds |
| RestoreRaces.MixedFile | internal/pipeline/restore.go:157-193 | A schedule of two workers that reports success for the entries "ab" and "c" of one path and leaves "cb" |
| RestoreRaces.CanRestoreIff | internal/pipeline/restore.go:84-135 | Under these conditions some schedule succeeds if and only if the entries can be restored in turn |
| RestoreFailures.SuccessIff | internal/pipeline/restore.go:102-135 | When all workers have returned, a restore that was not cancelled reports success if and only if every file is finished; one that reports an error has not finished some file it took |
| RestoreFailures.NothingPartial | internal/pipeline/restore.go:194-215 | At any moment of any restore of distinct paths, failed and cancelled ones included, as long as removals succeed: a file in no worker's hands is as it was before, or absent, or complete |
| RestoreFailures.OthersLeft | internal/pipeline/restore.go:145-219 | Nor is any path touched that the snapshot does not name |
| RestoreFailures.PartMayRemain | internal/pipeline/restore.go:196-198 | A run in which the removal fails, too, and part of a chunk is left |
| RestoreFailures.CanStop | internal/pipeline/restore.go:102-125 | From every state of a failed or cancelled restore all workers can return without taking or opening another file or writing another chunk |
| EndToEnd.BackupCommits | internal/pipeline/backup.go:229-252 | After a passing run the repository is where the run's own writes have left it, and every blob its manifest names is stored and indexed |
| EndToEnd.RestoreExact | internal/pipeline/restore.go:175-193 | An index that serves a file's blobs restores exactly the file that was chunked |
| EndToEnd.NeverWrongBytes | internal/pipeline/restore.go:145-219 | Whatever the packs and the index hold, what is restored for a backed-up file is that file, or some other bytes have the address of one of its chunks |
| EndToEnd.RestoredForever | internal/pipeline/restore.go:145-219 | A committed file restores to its bytes after any later run, kills inside collections included, and through any index then in use |
| EndToEnd.BackupThenRestore | internal/pipeline/backup.go:155-254 | The end-to-end theorem over chunker, pipeline, packs, index, repository and restore: the manifest of what a passing run recorded, committed on top of what that run stored, can be restored forever into any target that has its paths free, or may be overwritten, by any number of workers; and a restore that reports success leaves every path with exactly the bytes backed up and changes nothing else |
| EndToEnd.CanCommit | internal/pipeline/backup.go:246-252 | After a passing run the index and the snapshot can always be saved |
| SnapshotIdentity.SameCounters | internal/pipeline/backup.go:277-311 | Two passing runs over the same source and index agree on all counters but the number of packs |
| SnapshotIdentity.SnapshotSays | internal/pipeline/backup.go:277-311 | What a successful backup's manifest says: paths, sizes and chunk lists in order, and counters that are the exact numbers of new and deduplicated blobs, bytes and packs |
| SnapshotIdentity.SameIdIff | internal/repo/snapshot.go:140-150 | Their snapshot IDs are equal if and only if CreatedAt, Duration and PacksWritten agree |
| Retry.Do | internal/retry/retry.go:125-168 | Makes at most MaxAttempts attempts, or one if that is below 1, all but the last retryable and each while the context is not done, and ends for exactly the reason it reports; a done context stops it at the next check |
| S3Fake.Fake.PutObject | internal/store/s3/fake.go:98-134 | Every throttled call gets 503, every other conditional put 409 while conflicts are left, and then 412 if the key is taken; all others write, and none of these does |
| S3Fake.Fake.ListObjects | internal/store/s3/fake.go:235-288 | Returns the next keys after the token in order, at most a page, with a token exactly when more follow |
| S3Listing.ListPage | internal/store/s3/s3.go:378-391 | Although others change the bucket and make calls between attempts, a page of the bucket as it then is is fetched if and only if some call in the budget is not throttled |
| S3Listing.List | internal/store/s3/s3.go:365-411 | Keys come in strictly increasing order, each one that is there throughout the given changes among them, none that was never there; a bucket at rest is listed exactly; throttling within the retry budget never fails it |
| S3Listing.Confined | internal/store/s3/s3.go:164-168 | Repositories of one bucket share no object unless their prefixes are equal, empty or nested |
| S3Listing.QuietIsWithin | internal/store/s3/s3.go:378-391 | Throttling stays within the budget if there is none, or if others only change the bucket, not every call is throttled and two attempts are allowed |
| S3Conditional.PutIfAbsent | internal/store/s3/s3.go:249-284 | One call: created means it wrote to a free key, not created means the key was taken, an error means nothing was written; it settles if and only if conflicts and throttled calls leave an attempt over |
| S3Conditional.EnoughAttempts | internal/store/s3/fake.go:89-122 | Unless every call is throttled, two attempts more than twice the number of conflicts are enough |
| S3Conditional.ServeOne | internal/store/s3/fake.go:98-134 | A request of the race is one conditional put of the server object: same response, same effect |
| S3Conditional.RunsAlone | internal/store/s3/s3.go:249-284 | From every state of the race, a call whose rivals rest settles if and only if conflicts and throttled calls leave it an attempt, and says created exactly if the key was free |
| S3Conditional.ExactlyOneCreates | internal/store/s3/s3.go:235-284 | Any number of clients racing on a free key under any conflicts, throttling and cancellation: once one returns without an error exactly one creates, its bytes are stored, and a failed call never wrote |
| S3Conditional.WriterIsTold | internal/store/s3/s3.go:259-284 | When every call has returned, the client whose write was carried out, and no other, was told it created; and nothing was written exactly if all returned errors |
| S3Conditional.AllCanReturn | internal/retry/retry.go:130-166 | Every run of the race continues to one in which every call has returned |
| S3Conditional.StepDescends | internal/retry/retry.go:130-166 | Each step of a client brings its return nearer, and touches no other client |
| LocalFsTheorems.VisibleIsComplete | internal/store/localfs/localfs.go:160-250 | Whatever fails and whoever is killed, every listed key holds a complete object; with fsync, through power losses too |
| LocalFsTheorems.AtMostOneCreated | internal/store/localfs/localfs.go:205-250 | Of racing conditional puts on a free key at most one returns created, failures and kills included |
| LocalFsDurability.CreatedSurvives | internal/store/localfs/localfs.go:160-250 | A Put, or a creating PutIfAbsent, that returned without an error survives every later power loss: unless the key is deleted it then holds all the bytes of that put or of a later publication of the key, and exactly its own if nothing else replaces it |
| LocalFsDurability.ListedForeverIff | internal/store/localfs/localfs.go:240-250 | An object visible now, under a key never deleted, stays listed through every continuation and power loss if and only if its entry is on disk |
| LocalFsDurability.ExistsMayBeLost | internal/store/localfs/localfs.go:244-249 | A run in which a caller told that the object exists loses it to a power loss |
| LocalFsDeletion.DeletedStaysAway | internal/store/localfs/localfs.go:375-392 | Once a Delete has returned without an error, the key is there only if a put of it was published after the removal: while the power stays on, and through any power losses if this call removed the key |
| LocalFsDeletion.TouchesOwnKey | internal/store/localfs/localfs.go:180-250 | No call changes the entry of any key but its own |
| LocalFsDeletion.AwayForeverIff | internal/store/localfs/localfs.go:385-387 | A key absent now stays so until it is put again, through every continuation and power loss, if and only if it is not on disk either |
| LocalFsDeletion.DeletedMayReturn | internal/store/localfs/localfs.go:385-387 | A run in which a Delete that found the key absent has returned without an error and a power loss brings the key back |
| LocalFsResults.AnswersAreTrue | internal/store/localfs/localfs.go:180-250 | In every run each call puts its file under the key at most once, returns ok exactly when none of its system calls failed, and says created exactly when it is a conditional put that wrote |
| LocalFsResults.AnswersStay | internal/store/localfs/localfs.go:180-250 | No later step changes what a caller has been told |
| LocalFsResults.PutAlone | internal/store/localfs/localfs.go:180-218 | From every state, a Put that nothing hits replaces the key with its bytes, in the directory and on disk |
| LocalFsResults.PutIfAbsentFree | internal/store/localfs/localfs.go:223-250 | A PutIfAbsent of a free key creates it, and leaves no temporary name |
| LocalFsResults.PutIfAbsentTaken | internal/store/localfs/localfs.go:223-250 | A PutIfAbsent of a taken key says so and changes no entry |
| LocalFsResults.DeleteAlone | internal/store/localfs/localfs.go:375-392 | A Delete that nothing hits removes the key and no other entry, and succeeds if it is not there |
| LocalFsResults.NoLitter | internal/store/localfs/localfs.go:256-286 | When every call has returned, whatever failed, no temporary name is left, unless its removal failed, a caller was killed or the power was lost |
| LocalFsResults.WithoutSync | internal/store/localfs/localfs.go:40-48 | With fsync off, a power loss after any run may leave anything in every file |

## Left out

- Goroutines, mutexes and channels as imperative code: the pipeline, the racing S3 clients and the
  local backend are state machines on values, one step per effect another goroutine can see. The
  atomicity of the mutex-protected sections is taken from the code, not proved.
- PipelineTheorems.MemoryBound: assumes chunks of at most a given size, which FastCdc.SplitLossless
  provides; the bound counts packs, not the bytes of chunks waiting in queues.
- EndToEnd.BackupThenRestore: assumes that the source does not change during the run and that the
  digest has no collision among the byte strings in play, and speaks of manifests that list no path
  twice.
- PipelineSuccess.CanSucceedIff: with several workers and a source larger than the byte cap it gives
  no condition for a run that is under way; PipelineCapacity.CapDecides gives one for whole runs.
- PipelineCapacity.CapDecides: sources that can be backed up only in another than walk order, because
  of the header limit, and whose size exceeds the cap as well, get the necessary half alone.
- RestorePool.PassingRestores: names in the target do not share an inode at the start, and paths are
  compared after cleaning; symbolic links, modes and modification times are not modelled.
- LocalFsDurability.CreatedSurvives: one directory, assumed durable itself; syncing new parent
  directories is not modelled.
- Repository.Repository.CollectGarbage: store errors inside the collection are not modelled here;
  the machine of RepoModel covers stopping at any point. Report lists are sets, so their sorted
  order is not stated.
- Repository.Repository.PutPack: store errors are not modelled in the object; an upload that fails
  after the object landed is a step of the pipeline.
- Chunker.Chunker.Next: Config validation and mask generation are left out; the constructor
  requires valid sizes.
- Pack.Writer.Add: write errors of the underlying io.Writer, which is a memory buffer in the
  pipeline.
- Repository.Repository.LoadIndex: reads the stored object through a reader that reports its end in
  a call of its own; Index.Index.ReadFrom covers the others.
- S3Listing.List: callback errors and cancellation between pages, which only cut the visit short.
- S3Conditional.ExactlyOneCreates: the key is not deleted during the race.
- Stray object names under packs/, which the rebuild skips and Verify reports.
- Snapshot JSON and validation: in the repository machine a snapshot is its list of files with sizes
  and chunk lists. SnapshotIdentity adds the hashed fields, without modes and modification times,
  and takes it as given that different manifests are marshalled to different bytes.
- Repository configuration and its validation; Create is the initial state of the machine.
- GetRange corner cases past the end of an object, where the two backends differ.
- Multi-writer repositories and collection during a backup, which are stated non-goals.
- EBS snapshots, the command line, progress reporting, statistics ratios, jitter values, path
  safety checks: no property above depends on them.
