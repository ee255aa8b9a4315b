/** When two backups of one source get the same snapshot ID. */
module SnapshotIdentity {
  import opened Blob
  import opened Pipeline
  import opened PipelineFiles
  import opened PipelineTheorems
  import opened PipelineStores
  import Repo = RepoModel
  import EndToEnd

  datatype RunStats = RunStats(filesTotal: nat, bytesTotal: nat, blobsNew: nat, blobsDeduped: nat,
                               bytesNew: nat, bytesDeduped: nat, packsWritten: nat, duration: int)

  /** The manifest as it is hashed, with its own ID left blank. */
  datatype ManifestRecord = ManifestRecord(createdAt: int, source: string, hostname: string,
                                           files: seq<Repo.FileEntry>, stats: RunStats)

  function Total(sizes: seq<nat>): nat {
    Sum(sizes, n => n)
  }

  /** buildSnapshot, given the two clock readings. */
  function BuildSnapshot(paths: seq<string>, sizes: seq<nat>, root: string, hostname: string, s: State,
                         createdAt: int, duration: int): ManifestRecord
    requires |paths| == |sizes| == |s.chunks|
  {
    ManifestRecord(createdAt, root, hostname, EndToEnd.Manifest(paths, sizes, s.chunks).files,
           RunStats(|paths|, Total(sizes), s.stats.blobsNew, s.stats.blobsDeduped,
                    s.stats.bytesNew, s.stats.bytesDeduped, s.stats.packsWritten, duration))
  }

  function SnapshotID(h: Digest, marshal: ManifestRecord -> Bytes, r: ManifestRecord): ID {
    h(marshal(r))
  }

  /** The two records are marshalled to different bytes unless they are equal, and those bytes
      are in play. */
  ghost predicate Distinguished(env: Repo.Env, marshal: ManifestRecord -> Bytes, a: ManifestRecord, b: ManifestRecord) {
    && marshal(a) in env.inPlay && marshal(b) in env.inPlay
    && (marshal(a) == marshal(b) ==> a == b)
  }

  /** Equal addresses mean equal chunks. */
  ghost predicate Functional(source: set<Item>) {
    forall a, b :: a in source && b in source && a.id == b.id ==> a == b
  }

  lemma SourceFunctional(env: Repo.Env, source: set<Item>)
    requires env.Valid() && SourceOk(env, source)
    ensures Functional(source)
  {
  }

  lemma DistinctWithout(b: seq<Item>, k: nat, rest: seq<Item>)
    requires Distinct(b) && k < |b| && rest == b[..k] + b[k + 1..]
    ensures Distinct(rest) && forall it :: it in rest <==> it in b && it.id != b[k].id
  {
    assert forall i :: 0 <= i < |rest| ==> rest[i] == (if i < k then b[i] else b[i + 1]);
    forall it | it in b && it.id != b[k].id
      ensures it in rest
    {
      var i :| 0 <= i < |b| && b[i] == it;
      assert rest[if i < k then i else i - 1] == it;
    }
  }

  lemma IdsWithout(b: seq<Item>, id: ID, rest: seq<Item>)
    requires forall it :: it in rest <==> it in b && it.id != id
    ensures IdSet(rest) == IdSet(b) - {id}
  {
    forall x | x in IdSet(b) - {id}
      ensures x in IdSet(rest)
    {
      var it :| it in b && it.id == x;
      assert it in rest;
    }
  }

  lemma Without(b: seq<Item>, k: nat)
    requires Distinct(b) && k < |b|
    ensures var rest := b[..k] + b[k + 1..];
      && Distinct(rest) && IdSet(rest) == IdSet(b) - {b[k].id} && Size(b) == Size(rest) + |b[k].data|
  {
    SizeWithout(b, k);
    DistinctWithout(b, k, b[..k] + b[k + 1..]);
    IdsWithout(b, b[k].id, b[..k] + b[k + 1..]);
  }

  /** Distinct chunks with the same addresses hold the same number of bytes. */
  lemma {:induction false} SameSize(source: set<Item>, a: seq<Item>, b: seq<Item>)
    requires Functional(source) && Genuine(source, a) && Genuine(source, b) && IdSet(a) == IdSet(b)
    ensures Size(a) == Size(b)
    decreases |a|
  {
    if a == [] {
      assert forall it :: it in b ==> it.id in IdSet(b);
    } else {
      var n := |a| - 1;
      assert a[n].id in IdSet(b);
      var k :| 0 <= k < |b| && b[k].id == a[n].id;
      assert a[n] in source && b[k] in source;
      Without(a, n);
      Without(b, k);
      assert a[..n] + a[n + 1..] == a[..n];
      SameSize(source, a[..n], b[..k] + b[k + 1..]);
    }
  }

  lemma TakenGenuine(c: Config, run: seq<Step>)
    requires Replay(c, run).Some?
    ensures From(SourceItems(c), Concat(Replay(c, run).value.log.taken))
  {
    var s := Replay(c, run).value;
    RunAuthored(c, run);
    forall it | it in Concat(s.log.taken)
      ensures it in SourceItems(c)
    {
      var t := ConcatMember(s.log.taken, it);
      assert s.log.made[t] == s.log.taken[t];
    }
  }

  /** The counters of two successful runs over the same source and the same index agree, but for
      the number of packs, which depends on the schedule. */
  lemma SameCounters(env: Repo.Env, c: Config, run: seq<Step>, c': Config, run': seq<Step>)
    requires env.Valid() && SourceOk(env, SourceItems(c))
    requires c.Valid() && Replay(c, run).Some? && Passes(Replay(c, run).value)
    requires c'.Valid() && Replay(c', run').Some? && Passes(Replay(c', run').value)
    requires c.files == c'.files && c.known == c'.known
    ensures var s, s' := Replay(c, run).value.stats, Replay(c', run').value.stats;
      && s.blobsNew == s'.blobsNew && s.blobsDeduped == s'.blobsDeduped
      && s.bytesNew == s'.bytesNew && s.bytesDeduped == s'.bytesDeduped
  {
    DedupExact(c, run);
    DedupExact(c', run');
    TakenGenuine(c, run);
    TakenGenuine(c', run');
    SourceFunctional(env, SourceItems(c));
    SameSize(SourceItems(c), Concat(Replay(c, run).value.log.taken), Concat(Replay(c', run').value.log.taken));
  }

  /** Two successful backups of the same source by the same host into the same index get the same
      snapshot ID if and only if their clock readings and pack counts agree: CreatedAt, Duration
      and PacksWritten are hashed. */
  lemma SameIdIff(env: Repo.Env,
                  marshal: ManifestRecord -> Bytes, c: Config, run: seq<Step>, c': Config, run': seq<Step>,
                  paths: seq<string>, sizes: seq<nat>, root: string, hostname: string,
                  createdAt: int, duration: int, createdAt': int, duration': int)
    requires env.Valid() && SourceOk(env, SourceItems(c)) && |paths| == |sizes| == |c.files|
    requires c.Valid() && Replay(c, run).Some? && Passes(Replay(c, run).value)
    requires c'.Valid() && Replay(c', run').Some? && Passes(Replay(c', run').value)
    requires c.files == c'.files && c.known == c'.known
    ensures |Replay(c, run).value.chunks| == |Replay(c', run').value.chunks| == |paths|
    ensures var s, s' := Replay(c, run).value, Replay(c', run').value;
      var a := BuildSnapshot(paths, sizes, root, hostname, s, createdAt, duration);
      var b := BuildSnapshot(paths, sizes, root, hostname, s', createdAt', duration');
      Distinguished(env, marshal, a, b) ==>
        (SnapshotID(env.h, marshal, a) == SnapshotID(env.h, marshal, b) <==>
          createdAt == createdAt' && duration == duration' && s.stats.packsWritten == s'.stats.packsWritten)
  {
    Complete(c, run);
    Complete(c', run');
    ScheduleIndependent(c, run, c', run');
    SameCounters(env, c, run, c', run');
  }

  /** Sizes that are those of the files add up to the bytes of all chunks. */
  lemma {:induction false} TotalSize(files: seq<Stream>, sizes: seq<nat>)
    requires |files| == |sizes| && forall f :: 0 <= f < |files| ==> sizes[f] == Size(files[f].items)
    ensures Total(sizes) == Size(AllChunks(files))
  {
    if files != [] {
      var n := |files| - 1;
      TotalSize(files[..n], sizes[..n]);
      SizeAppend(AllChunks(files[..n]), files[n].items);
    }
  }

  /** What the manifest of a successful backup says about it. */
  lemma SnapshotSays(c: Config, run: seq<Step>, paths: seq<string>, sizes: seq<nat>, root: string, hostname: string,
                     createdAt: int, duration: int)
    requires c.Valid() && Replay(c, run).Some? && Passes(Replay(c, run).value) && |paths| == |sizes| == |c.files|
    ensures |Replay(c, run).value.chunks| == |paths|
    ensures var s, chunks := Replay(c, run).value, AllChunks(c.files);
      var r := BuildSnapshot(paths, sizes, root, hostname, s, createdAt, duration);
      && r.createdAt == createdAt && r.stats.duration == duration && r.source == root && r.hostname == hostname
      && |r.files| == r.stats.filesTotal == |c.files|
      && (forall f :: 0 <= f < |c.files| ==>
           && r.files[f].path == paths[f] && r.files[f].size == sizes[f]
           && r.files[f].chunks == Ids(c.files[f].items))
      && r.stats.blobsNew == |IdSet(chunks) - c.known| && r.stats.blobsNew + r.stats.blobsDeduped == |chunks|
      && r.stats.bytesNew == Size(Concat(s.log.taken)) && r.stats.bytesNew + r.stats.bytesDeduped == Size(chunks)
      && r.stats.packsWritten == |s.log.taken|
      && ((forall f :: 0 <= f < |c.files| ==> sizes[f] == Size(c.files[f].items)) ==>
           r.stats.bytesTotal == Size(chunks))
  {
    if forall f :: 0 <= f < |c.files| ==> sizes[f] == Size(c.files[f].items) {
      TotalSize(c.files, sizes);
    }
    Complete(c, run);
    DedupExact(c, run);
    EverythingStored(c, run);
  }
}
