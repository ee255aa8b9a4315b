/** The whole engine: what a backup commits is restored byte for byte, then and after any later
    backups, collections, kills at any moment and losses of the index. */
module EndToEnd {
  import opened Wrappers
  import opened Blob
  import opened FastCdc
  import opened IndexFormat
  import PackFormat
  import opened Pipeline
  import PipelineArrivals
  import opened PipelineFiles
  import opened PipelineLimits
  import Backup = PipelineTheorems
  import opened PipelineStores
  import Repo = RepoModel
  import opened RepoInvariant
  import opened RepoKept
  import opened RepoTheorems
  import opened Restore
  import RestorePool
  import RestoreRaces

  function ItemsOf(h: Digest, chunks: seq<Bytes>): (items: seq<Item>)
    ensures |items| == |chunks|
  {
    seq(|chunks|, k requires 0 <= k < |chunks| => Item(h(chunks[k]), chunks[k]))
  }

  /** The pipeline reads these files, chunked with these parameters. */
  ghost predicate Reads(env: Repo.Env, p: Params, contents: seq<Bytes>, c: Config)
    requires p.Valid()
  {
    && |c.files| == |contents|
    && forall f :: 0 <= f < |contents| ==> c.files[f] == Stream(ItemsOf(env.h, Split(p, contents[f])), true)
  }

  /** buildSnapshot: one entry per file walked, with the chunk list recorded for it. */
  function Manifest(paths: seq<string>, sizes: seq<nat>, chunks: seq<Option<seq<ID>>>): Repo.Snapshot
    requires |paths| == |sizes| == |chunks|
  {
    Repo.Snapshot(seq(|paths|, f requires 0 <= f < |paths| =>
      Repo.FileEntry(paths[f], sizes[f], if chunks[f].Some? then chunks[f].value else [])))
  }

  lemma ManifestRefs(c: Config, paths: seq<string>, sizes: seq<nat>, chunks: seq<Option<seq<ID>>>)
    requires |paths| == |sizes| == |chunks| == |c.files|
    requires forall f :: 0 <= f < |chunks| ==> chunks[f] == Some(Ids(c.files[f].items))
    ensures Repo.BlobIDs(Manifest(paths, sizes, chunks)) <= IdSet(AllChunks(c.files))
  {
    var snap := Manifest(paths, sizes, chunks);
    forall id | id in Repo.BlobIDs(snap)
      ensures id in IdSet(AllChunks(c.files))
    {
      var e :| e in snap.files && id in e.chunks;
      var f :| 0 <= f < |snap.files| && snap.files[f] == e;
      var k :| 0 <= k < |e.chunks| && e.chunks[k] == id;
      InAllChunks(c.files, f, k);
    }
  }

  /** The bytes of the packs that Finish accepted. */
  ghost predicate PacksInPlay(env: Repo.Env, made: seq<seq<Item>>) {
    forall t :: 0 <= t < |made| && PackFormat.Finishable(env.codec, made[t]) ==>
      PackFormat.PackBytes(env.codec, made[t]) in env.inPlay
  }

  lemma AcceptedFit(env: Repo.Env, c: Config, run: seq<Step>)
    requires UsesCodec(c, env.codec) && Replay(c, run).Some? && PacksInPlay(env, Replay(c, run).value.log.made)
    ensures PacksFit(env, Replay(c, run).value.log.made)
  {
    PipelineArrivals.RunAccepted(c, run);
    var made := Replay(c, run).value.log.made;
    forall t | 0 <= t < |made|
      ensures PackFormat.Finishable(env.codec, made[t])
    {
      assert c.fits(made[t]);
    }
  }

  /** A successful backup leaves the repository able to commit its snapshot: every blob that the
      manifest names is stored and indexed before the index and the manifest are written. */
  lemma BackupCommits(env: Repo.Env, c: Config, start: Repo.World, run: seq<Step>, paths: seq<string>, sizes: seq<nat>)
      returns (steps: seq<Repo.Step>, w: Repo.World)
    requires env.Valid() && c.Valid() && !c.dryRun && SourceOk(env, SourceItems(c))
    requires Inv(env, start) && Repo.In(start, Repo.Uploading) && start.proc.idx.Keys == c.known
    requires Replay(c, run).Some? && Passes(Replay(c, run).value)
    requires UsesCodec(c, env.codec) && PacksInPlay(env, Replay(c, run).value.log.made)
    requires |paths| == |sizes| == |c.files|
    ensures PacksFit(env, Replay(c, run).value.log.made)
    ensures Repo.After(env, start, steps) == Some(w) && Repo.NoStaleKill(env, start, steps) && Inv(env, w)
    ensures OnlyStores(steps) && Mirrors(env, start, Replay(c, run).value, w)
    ensures |Replay(c, run).value.chunks| == |paths|
    ensures Repo.BlobIDs(Manifest(paths, sizes, Replay(c, run).value.chunks)) <= w.proc.idx.Keys
  {
    AcceptedFit(env, c, run);
    steps, w := Refines(env, c, start, run);
    Backup.Complete(c, run);
    Backup.EverythingStored(c, run);
    ManifestRefs(c, paths, sizes, Replay(c, run).value.chunks);
  }

  // ---- restoring ----

  /** Each chunk of the file is in play. */
  ghost predicate ChunksInPlay(env: Repo.Env, chunks: seq<Bytes>) {
    forall k :: 0 <= k < |chunks| ==> chunks[k] in env.inPlay
  }

  lemma {:induction false} ContentsExact(env: Repo.Env, packs: Repo.Packs, t: Table, refs: set<ID>, chunks: seq<Bytes>)
    requires env.Valid() && Serves(env, packs, t, refs) && ChunksInPlay(env, chunks)
    requires forall k :: 0 <= k < |chunks| ==> env.h(chunks[k]) in refs
    ensures Contents(env.h, packs, t, Ids(ItemsOf(env.h, chunks))) == Some(Concat(chunks))
  {
    var ids := Ids(ItemsOf(env.h, chunks));
    if chunks != [] {
      var n := |chunks| - 1;
      ContentsExact(env, packs, t, refs, chunks[..n]);
      assert ids[..n] == Ids(ItemsOf(env.h, chunks[..n]));
      assert ids[n] == env.h(chunks[n]) && ids[n] in refs;
      assert Repo.Resolve(env.h, packs, t, ids[n]) == Some(chunks[n]);
    }
  }

  /** An index that serves a file's blobs restores the file exactly. */
  lemma RestoreExact(env: Repo.Env, p: Params, packs: Repo.Packs, t: Table, refs: set<ID>, f: Repo.FileEntry,
                     content: Bytes)
    requires env.Valid() && p.Valid() && Serves(env, packs, t, refs) && ChunksInPlay(env, Split(p, content))
    requires f.chunks == Ids(ItemsOf(env.h, Split(p, content))) && f.size == |content|
    requires forall id :: id in f.chunks ==> id in refs
    ensures Wanted(env.h, packs, t, f) == Some(content)
  {
    var chunks := Split(p, content);
    forall k | 0 <= k < |chunks|
      ensures env.h(chunks[k]) in refs
    {
      assert f.chunks[k] == env.h(chunks[k]) && f.chunks[k] in f.chunks;
    }
    ContentsExact(env, packs, t, refs, chunks);
    SplitLossless(p, content);
  }

  ghost predicate Collides(h: Digest, a: Bytes, b: Bytes) {
    a != b && h(a) == h(b)
  }

  /** A restore never produces wrong bytes. Whatever has become of the packs and the index, what
      is restored for a file is exactly the file that was chunked, or else some other bytes have
      the address of one of its chunks. */
  lemma NeverWrongBytes(h: Digest, p: Params, packs: Repo.Packs, t: Table, f: Repo.FileEntry, content: Bytes,
                        restored: Bytes)
    requires p.Valid() && f.chunks == Ids(ItemsOf(h, Split(p, content)))
    requires Wanted(h, packs, t, f) == Some(restored)
    ensures |restored| == f.size
    ensures restored == content
      || exists other, k :: 0 <= k < |Split(p, content)| && Collides(h, other, Split(p, content)[k])
  {
    var chunks := Split(p, content);
    WantedIff(h, packs, t, f, restored);
    var parts: seq<Bytes> :| Parts(h, packs, t, f.chunks, parts) && restored == Concat(parts);
    SplitLossless(p, content);
    if parts != chunks {
      var k :| 0 <= k < |chunks| && parts[k] != chunks[k];
      assert Collides(h, parts[k], chunks[k]);
    }
  }

  /** `done` follows `ready` when the index and then the snapshot are saved. */
  ghost predicate Commits(env: Repo.Env, ready: Repo.World, index: Bytes, snap: Repo.Snapshot, done: Repo.World) {
    && Repo.CanRun(env, ready, Repo.SaveIndex(index))
    && var saved := Repo.Run(env, ready, Repo.SaveIndex(index));
      Repo.CanRun(env, saved, Repo.SaveSnapshot(snap)) && done == Repo.Run(env, saved, Repo.SaveSnapshot(snap))
  }

  /** What was committed stays restorable: after any later run, kills inside collections
      included, through any index that may then be in use, restoring a file of the snapshot
      yields exactly the bytes backed up. */
  lemma RestoredForever(env: Repo.Env, p: Params, content: Bytes, snap: Repo.Snapshot, f: nat,
                        done: Repo.World, later: seq<Repo.Step>, t: Table)
    requires env.Valid() && p.Valid() && ChunksInPlay(env, Split(p, content))
    requires Inv(env, done) && snap in done.snaps && f < |snap.files|
    requires snap.files[f].chunks == Ids(ItemsOf(env.h, Split(p, content))) && snap.files[f].size == |content|
    requires Repo.After(env, done, later).Some?
    requires ReadableThrough(env, Repo.After(env, done, later).value, t)
    ensures Wanted(env.h, Repo.After(env, done, later).value.packs, t, snap.files[f]) == Some(content)
  {
    var w := Repo.After(env, done, later).value;
    KeptForever(env, done, later);
    forall id | id in snap.files[f].chunks
      ensures id in Repo.References(done.snaps)
    {
      assert snap.files[f] in snap.files && id in Repo.BlobIDs(snap);
    }
    RestoreExact(env, p, w.packs, t, Repo.References(done.snaps), snap.files[f], content);
  }

  function Lengths(contents: seq<Bytes>): (sizes: seq<nat>)
    ensures |sizes| == |contents| && forall f :: 0 <= f < |contents| ==> sizes[f] == |contents[f]|
  {
    seq(|contents|, f requires 0 <= f < |contents| => |contents[f]|)
  }

  /** These entries may be restored here: no path is listed twice, or taken without leave. */
  ghost predicate MayRestore(files: seq<Repo.FileEntry>, overwrite: bool, before: map<string, Bytes>) {
    DistinctPaths(files) && (!overwrite ==> forall f :: 0 <= f < |files| ==> files[f].path !in before)
  }

  /** Every entry's path holds its content, and nothing else has changed. */
  ghost predicate HoldsAll(files: seq<Repo.FileEntry>, contents: seq<Bytes>, before: map<string, Bytes>,
                           after: map<string, Bytes>)
    requires |files| == |contents|
  {
    && (forall f :: 0 <= f < |files| ==> files[f].path in after && after[files[f].path] == contents[f])
    && forall p :: (forall f :: 0 <= f < |files| ==> files[f].path != p) ==>
         (p in after <==> p in before) && (p in after ==> after[p] == before[p])
  }

  lemma AllHeld(h: Digest, packs: Repo.Packs, t: Table, files: seq<Repo.FileEntry>, contents: seq<Bytes>,
                overwrite: bool, before: map<string, Bytes>)
    requires |files| == |contents| && MayRestore(files, overwrite, before)
    requires forall f :: 0 <= f < |files| ==> Wanted(h, packs, t, files[f]) == Some(contents[f])
    ensures AfterFiles(h, packs, t, files, overwrite, before).Some?
    ensures HoldsAll(files, contents, before, AfterFiles(h, packs, t, files, overwrite, before).value)
  {
    DistinctRestore(h, packs, t, files, overwrite, before);
    AfterFilesMeans(h, packs, t, files, overwrite, before);
    forall f | 0 <= f < |files|
      ensures LastOfItsPath(files, f)
    {
    }
  }

  /** With this store and index the entries restore to these contents, wherever they may be
      restored, by any number of workers: some schedule succeeds, and each that does leaves every
      file with its content. */
  ghost predicate Restores(h: Digest, packs: Repo.Packs, t: Table, files: seq<Repo.FileEntry>, contents: seq<Bytes>)
    requires |files| == |contents|
  {
    forall workers: nat, overwrite, dir, inodes ::
      workers >= 1 && RestorePool.Unlinked(dir, inodes)
      && MayRestore(files, overwrite, RestorePool.View(dir, inodes)) ==>
        RestoresInto(RestorePool.Plan(h, packs, t, files, workers, overwrite), contents, dir, inodes)
  }

  ghost predicate RestoresInto(plan: RestorePool.Plan, contents: seq<Bytes>, dir: map<string, nat>, inodes: seq<Bytes>)
    requires |plan.files| == |contents|
  {
    && (exists run :: RestoreRaces.Successful(plan, dir, inodes, run))
    && (forall run :: RestoreRaces.Successful(plan, dir, inodes, run) ==>
         HoldsAll(plan.files, contents, RestorePool.View(dir, inodes), RestoreRaces.Result(plan, dir, inodes, run)))
  }

  lemma PoolRestores(plan: RestorePool.Plan, contents: seq<Bytes>, dir: map<string, nat>, inodes: seq<Bytes>)
    requires |plan.files| == |contents| && plan.workers >= 1 && RestorePool.Unlinked(dir, inodes)
    requires MayRestore(plan.files, plan.overwrite, RestorePool.View(dir, inodes))
    requires forall f :: 0 <= f < |plan.files| ==>
      Wanted(plan.h, plan.packs, plan.t, plan.files[f]) == Some(contents[f])
    ensures RestoresInto(plan, contents, dir, inodes)
  {
    AllHeld(plan.h, plan.packs, plan.t, plan.files, contents, plan.overwrite, RestorePool.View(dir, inodes));
    RestoreRaces.CanRestoreIff(plan, dir, inodes);
    forall run | RestoreRaces.Successful(plan, dir, inodes, run)
      ensures HoldsAll(plan.files, contents, RestorePool.View(dir, inodes), RestoreRaces.Result(plan, dir, inodes, run))
    {
      RestorePool.PassingRestores(plan, dir, inodes, run);
    }
  }

  lemma WantedRestores(h: Digest, packs: Repo.Packs, t: Table, files: seq<Repo.FileEntry>, contents: seq<Bytes>)
    requires |files| == |contents|
    requires forall f :: 0 <= f < |files| ==> Wanted(h, packs, t, files[f]) == Some(contents[f])
    ensures Restores(h, packs, t, files, contents)
  {
    forall workers: nat, overwrite, dir, inodes | workers >= 1 && RestorePool.Unlinked(dir, inodes)
      && MayRestore(files, overwrite, RestorePool.View(dir, inodes))
      ensures RestoresInto(RestorePool.Plan(h, packs, t, files, workers, overwrite), contents, dir, inodes)
    {
      PoolRestores(RestorePool.Plan(h, packs, t, files, workers, overwrite), contents, dir, inodes);
    }
  }

  /** The end-to-end theorem. Take a backup of any files, under any schedule that BackupFiles
      reports as a success. What the run itself has stored and indexed leaves the repository
      ready to save the index and the manifest of the chunk lists the run recorded; and once
      they are saved, after any later run, with kills at any moment, and through any index then
      in use, restoring the snapshot can succeed, and when RestoreFiles reports a success, every
      path holds exactly the bytes that were read and no other file has changed. */
  lemma BackupThenRestore(env: Repo.Env, p: Params, contents: seq<Bytes>, paths: seq<string>, c: Config,
                          start: Repo.World, run: seq<Step>)
      returns (steps: seq<Repo.Step>, ready: Repo.World, snap: Repo.Snapshot)
    requires env.Valid() && p.Valid() && c.Valid() && !c.dryRun && Reads(env, p, contents, c) && |paths| == |contents|
    requires SourceOk(env, SourceItems(c))
    requires forall f :: 0 <= f < |contents| ==> ChunksInPlay(env, Split(p, contents[f]))
    requires Inv(env, start) && Repo.In(start, Repo.Uploading) && start.proc.idx.Keys == c.known
    requires Replay(c, run).Some? && Passes(Replay(c, run).value)
    requires UsesCodec(c, env.codec) && PacksInPlay(env, Replay(c, run).value.log.made)
    ensures Repo.After(env, start, steps) == Some(ready) && OnlyStores(steps)
    ensures PacksFit(env, Replay(c, run).value.log.made) && Mirrors(env, start, Replay(c, run).value, ready)
    ensures |Replay(c, run).value.chunks| == |paths|
    ensures snap == Manifest(paths, Lengths(contents), Replay(c, run).value.chunks)
    ensures Repo.BlobIDs(snap) <= ready.proc.idx.Keys
    ensures forall index, done, later, t ::
      && Commits(env, ready, index, snap, done) && Repo.After(env, done, later).Some?
      && ReadableThrough(env, Repo.After(env, done, later).value, t) ==>
        Restores(env.h, Repo.After(env, done, later).value.packs, t, snap.files, contents)
  {
    var s := Replay(c, run).value;
    steps, ready := BackupCommits(env, c, start, run, paths, Lengths(contents));
    snap := Manifest(paths, Lengths(contents), s.chunks);
    Backup.Complete(c, run);
    forall index, done, later, t | Commits(env, ready, index, snap, done)
      && Repo.After(env, done, later).Some?
      && ReadableThrough(env, Repo.After(env, done, later).value, t)
      ensures Restores(env.h, Repo.After(env, done, later).value.packs, t, snap.files, contents)
    {
      CommitInv(env, ready, index, snap, done);
      forall f | 0 <= f < |contents|
        ensures Wanted(env.h, Repo.After(env, done, later).value.packs, t, snap.files[f]) == Some(contents[f])
      {
        RestoredForever(env, p, contents[f], snap, f, done, later, t);
      }
      WantedRestores(env.h, Repo.After(env, done, later).value.packs, t, snap.files, contents);
    }
  }

  lemma CommitInv(env: Repo.Env, ready: Repo.World, index: Bytes, snap: Repo.Snapshot, done: Repo.World)
    requires env.Valid() && Inv(env, ready) && Commits(env, ready, index, snap, done)
    ensures Inv(env, done) && snap in done.snaps
  {
    StepInv(env, ready, Repo.SaveIndex(index));
    StepInv(env, Repo.Run(env, ready, Repo.SaveIndex(index)), Repo.SaveSnapshot(snap));
  }

  /** The commit can always be carried out. */
  lemma CanCommit(env: Repo.Env, ready: Repo.World, snap: Repo.Snapshot) returns (index: Bytes, done: Repo.World)
    requires Repo.In(ready, Repo.Uploading) && Repo.BlobIDs(snap) <= ready.proc.idx.Keys && |ready.proc.idx| < TWO_63
    ensures Commits(env, ready, index, snap, done)
  {
    index := EncodingExists(ready.proc.idx);
    done := Repo.Run(env, Repo.Run(env, ready, Repo.SaveIndex(index)), Repo.SaveSnapshot(snap));
  }
}
