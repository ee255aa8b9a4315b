/** The main results about backup runs: what a run that passes both checks has done, whatever
    the schedule, and what every run keeps. */
module PipelineTheorems {
  import opened Wrappers
  import opened Blob
  import opened Pipeline
  import opened PipelineShape
  import opened PipelineFrames
  import opened PipelineFiles
  import opened PipelineBlobs
  import opened PipelineBounds

  ghost predicate Clean(c: Config, s: State) {
    FilesClean(c, s) && BlobsClean(c, s) && UploadsClean(c, s)
  }

  ghost predicate Inv(c: Config, s: State) {
    && Shape(c, s) && !s.panicked && Dooming(s)
    && (s.log.doom == Sound ==> Clean(c, s))
  }

  lemma InitInv(c: Config)
    ensures Inv(c, Init(c))
  {
    InitShape(c);
    InitFiles(c);
    assert Claimed([], AwaitBlob, []) == [];
  }

  lemma StepClean(c: Config, s: State, e: Step)
    requires Shape(c, s) && Enabled(c, s, e) && !s.done && Clean(c, s)
    requires Apply(c, s, e).log.doom == Sound
    ensures Clean(c, Apply(c, s, e))
  {
    match e {
      case CancelParent =>
      case Feed(f) => FeedFrame(s, f); FeedFiles(c, s, f);
      case Work(w, a) => WorkFrame(s, w, a); WorkFiles(c, s, w, a);
      case Read(w, r) => ReadFrame(c, s, w, r); ReadFiles(c, s, w, r); ReadKeepsBlobs(c, s, w, r);
      case CloseBlobs =>
      case Assemble(b) => AssembleFrame(c, s, b); AssembleBlobs(c, s, b);
      case Flush(l) => FlushFrame(s, l); FlushBlobs(c, s, l); FlushKeepsUploads(c, s, l);
      case Upload(u, d) => UploadFrame(s, u, d); UploadUploads(c, s, u, d);
      case Put(u, p) =>
        PutFrame(c, s, u, p);
        PutUploads(c, s, u, p);
        if p.InsertEntry? {
          InsertClaimed(c, s, u);
        }
    }
  }

  /** A blob is sent only while a worker is busy, so the assembler has not seen the end. */
  lemma ReadKeepsBlobs(c: Config, s: State, w: nat, r: ReadStep)
    requires Shape(c, s) && CanRead(c, s, w, r) && BlobsClean(c, s)
    ensures BlobsClean(c, DoRead(c, s, w, r))
  {
    ReadFrame(c, s, w, r);
    assert !Signalled(s.workers[w]);
  }

  lemma FlushKeepsUploads(c: Config, s: State, l: FlushStep)
    requires Shape(c, s) && CanFlush(s, l) && UploadsClean(c, s)
    ensures UploadsClean(c, DoFlush(s, l))
  {
    FlushFrame(s, l);
  }

  lemma StepInv(c: Config, s: State, e: Step)
    requires Inv(c, s) && Enabled(c, s, e)
    ensures Inv(c, Apply(c, s, e))
  {
    StepShape(c, s, e);
    StepDooming(c, s, e);
    if Apply(c, s, e).log.doom == Sound {
      StepClean(c, s, e);
    }
  }

  /** The invariant holds after every schedule; in particular no channel is ever closed twice
      or sent to after it is closed. */
  lemma {:induction false} RunInv(c: Config, run: seq<Step>)
    requires Replay(c, run).Some?
    ensures Inv(c, Replay(c, run).value) && !Replay(c, run).value.panicked
  {
    if run == [] {
      InitInv(c);
    } else {
      RunInv(c, run[..|run| - 1]);
      StepInv(c, Replay(c, run[..|run| - 1]).value, run[|run| - 1]);
    }
  }

  // ---- what a passing run has done ----

  lemma {:induction false} DistinctCount(items: seq<Item>)
    requires Distinct(items)
    ensures |IdSet(items)| == |items|
  {
    if items != [] {
      var n := |items| - 1;
      DistinctCount(items[..n]);
      assert items == items[..n] + [items[n]];
      IdSetPush(items[..n], items[n]);
      assert items[n].id !in IdSet(items[..n]);
    }
  }

  lemma IdSetOfPermutation(a: seq<Item>, b: seq<Item>)
    requires multiset(a) == multiset(b)
    ensures IdSet(a) == IdSet(b) && |a| == |b|
  {
    assert |multiset(a)| == |multiset(b)|;
    assert forall it :: it in a <==> it in multiset(a);
    assert forall it :: it in b <==> it in multiset(b);
  }

  lemma AllTaken(c: Config, s: State)
    requires c.Valid() && Inv(c, s) && Passes(s)
    ensures s.log.doom == Sound && s.log.cancels == 0 && Clean(c, s) && s.asm == AsmGone && s.writer == []
    ensures s.log.sent == s.log.handled && s.log.made == s.log.taken && |s.log.owner| == |c.files|
  {
    PassingIsSound(s);
    assert Finished(s.workers[0]);
    assert s.uploaders[0].UploaderGone?;
  }

  lemma AllRecorded(c: Config, workers: seq<Worker>, owner: seq<nat>, chunks: seq<Option<seq<ID>>>, progress: seq<nat>)
    requires |c.files| == |chunks| == |progress| == |owner|
    requires Owned(owner, workers, chunks) && Recorded(c, |owner|, chunks, progress)
    requires forall i :: 0 <= i < |workers| ==> workers[i].WorkerGone?
    ensures forall f :: 0 <= f < |c.files| ==>
      c.files[f].ok && chunks[f] == Some(Ids(c.files[f].items)) && progress[f] == |c.files[f].items|
  {
    forall f | 0 <= f < |c.files|
      ensures chunks[f].Some?
    {
      assert !Holds(workers[owner[f]], f);
    }
  }

  lemma PassingFiles(c: Config, s: State)
    requires c.Valid() && Inv(c, s) && Passes(s)
    ensures s.log.doom == Sound && s.log.cancels == 0 && s.asm == AsmGone && s.writer == []
    ensures s.log.sent == s.log.handled && s.log.made == s.log.taken
    ensures Clean(c, s) && |s.chunks| == |s.log.progress| == |c.files|
    ensures forall f :: 0 <= f < |c.files| ==>
      c.files[f].ok && s.chunks[f] == Some(Ids(c.files[f].items)) && s.log.progress[f] == |c.files[f].items|
  {
    AllTaken(c, s);
    AllRecorded(c, s.workers, s.log.owner, s.chunks, s.log.progress);
  }

  /** Completeness. When BackupFiles passes g.Wait and ctx.Err, no select in the whole run took
      its cancellation branch, every file was read to its end, its list is the list of its
      chunks in order, and the assembler decided on every chunk exactly once. */
  lemma Complete(c: Config, run: seq<Step>)
    requires c.Valid() && Replay(c, run).Some? && Passes(Replay(c, run).value)
    ensures var s := Replay(c, run).value;
      && s.log.cancels == 0
      && |s.chunks| == |c.files|
      && (forall f :: 0 <= f < |c.files| ==> c.files[f].ok && s.chunks[f] == Some(Ids(c.files[f].items)))
      && multiset(s.log.handled) == multiset(AllChunks(c.files))
      && s.stats.bytesRead == Size(AllChunks(c.files))
  {
    var s := Replay(c, run).value;
    RunInv(c, run);
    PassingFiles(c, s);
    ProducedAll(c.files, s.log.progress);
    RecordedAll(c.files, s.chunks);
  }

  lemma DedupAtEnd(known: set<ID>, handled: seq<Item>, inFlight: set<ID>, index: set<ID>, made: seq<seq<Item>>,
                   stats: Stats, chunks: seq<Item>)
    requires Dedup(known, AsmGone, handled, inFlight, [], index, made, stats)
    requires multiset(handled) == multiset(chunks)
    ensures stats.blobsNew == |IdSet(chunks) - known| && stats.blobsNew + stats.blobsDeduped == |chunks|
    ensures stats.bytesNew == Size(Concat(made)) && stats.bytesNew + stats.bytesDeduped == Size(chunks)
    ensures IdSet(Concat(made)) == IdSet(chunks) - known && Distinct(Concat(made))
    ensures known <= index <= known + IdSet(chunks)
  {
    assert Claimed(made, AsmGone, []) == Concat(made);
    IdSetOfPermutation(handled, chunks);
    SizeOfPermutation(handled, chunks);
    DistinctCount(Concat(made));
  }

  /** Exact deduplication and conservation, for every schedule of a passing run: although the
      uploaders insert into the index the assembler consults, what is new is what the index did
      not know at the start, each new blob is in exactly one pack, and blobs and bytes add up. */
  lemma DedupExact(c: Config, run: seq<Step>)
    requires c.Valid() && Replay(c, run).Some? && Passes(Replay(c, run).value)
    ensures var s, chunks := Replay(c, run).value, AllChunks(c.files);
      && s.stats.blobsNew == |IdSet(chunks) - c.known|
      && s.stats.blobsNew + s.stats.blobsDeduped == |chunks|
      && s.stats.bytesNew + s.stats.bytesDeduped == Size(chunks) == s.stats.bytesRead
      && s.stats.bytesNew == Size(Concat(s.log.taken))
      && IdSet(Concat(s.log.taken)) == IdSet(chunks) - c.known
      && Distinct(Concat(s.log.taken))
      && s.index <= c.known + IdSet(chunks)
  {
    var s := Replay(c, run).value;
    Complete(c, run);
    PassingFiles(c, s) by { RunInv(c, run); }
    DedupAtEnd(c.known, s.log.handled, s.inFlight, s.index, s.log.made, s.stats, AllChunks(c.files));
  }

  lemma {:induction false} AllBelow(s: set<nat>, n: nat)
    requires forall t: nat :: t in s <==> t < n
    ensures |s| == n
  {
    if n == 0 {
      assert s == {};
    } else {
      AllBelow(s - {n - 1}, n - 1);
    }
  }

  lemma UploadsAtEnd(c: Config, uploaders: seq<Uploader>, taken: seq<seq<Item>>, taker: seq<nat>, stored: set<nat>,
                     counted: set<nat>, index: set<ID>, packsWritten: nat)
    requires Uploads(c, uploaders, taken, taker, stored, counted, index, packsWritten)
    requires forall u :: 0 <= u < |uploaders| ==> uploaders[u].UploaderGone?
    ensures packsWritten == |taken|
    ensures !c.dryRun ==> (forall t :: 0 <= t < |taken| ==> t in stored) && IdSet(Concat(taken)) <= index
  {
    forall t | 0 <= t < |taken|
      ensures t in counted
    {
      assert !Carries(uploaders[taker[t]], t);
    }
    AllBelow(counted, |taken|);
    if !c.dryRun {
      forall it | it in Concat(taken)
        ensures it.id in index
      {
        var t := ConcatMember(taken, it);
        assert it.id in IdSet(taken[t]);
      }
    }
  }

  /** Every pack of a passing run went through PutPack, unless the run was a dry run; the index
      then knows exactly what it knew before and every chunk of every file. */
  lemma EverythingStored(c: Config, run: seq<Step>)
    requires c.Valid() && Replay(c, run).Some? && Passes(Replay(c, run).value)
    ensures var s := Replay(c, run).value;
      && s.stats.packsWritten == |s.log.taken|
      && (!c.dryRun ==>
           && (forall t :: 0 <= t < |s.log.taken| ==> t in s.log.stored)
           && s.index == c.known + IdSet(AllChunks(c.files)))
  {
    var s := Replay(c, run).value;
    DedupExact(c, run);
    RunInv(c, run);
    PassingFiles(c, s);
    UploadsAtEnd(c, s.uploaders, s.log.taken, s.log.taker, s.log.stored, s.log.counted, s.index, s.stats.packsWritten);
  }

  /** The Files list of the manifest depends on the source alone, not on worker counts, queue
      timing or what the repository already held. */
  lemma ScheduleIndependent(c: Config, run: seq<Step>, c': Config, run': seq<Step>)
    requires c.Valid() && Replay(c, run).Some? && Passes(Replay(c, run).value)
    requires c'.Valid() && Replay(c', run').Some? && Passes(Replay(c', run').value)
    requires c.files == c'.files
    ensures Replay(c, run).value.chunks == Replay(c', run').value.chunks
  {
    Complete(c, run);
    Complete(c', run');
  }

  lemma DryStep(c: Config, s: State, e: Step)
    requires c.dryRun && Shape(c, s) && Enabled(c, s, e) && s.log.stored == {} && s.index == c.known
    ensures Apply(c, s, e).log.stored == {} && Apply(c, s, e).index == c.known
  {
    match e {
      case CancelParent =>
      case Feed(f) => FeedFrame(s, f);
      case Work(w, a) => WorkFrame(s, w, a);
      case Read(w, r) => ReadFrame(c, s, w, r);
      case CloseBlobs =>
      case Assemble(b) => AssembleFrame(c, s, b);
      case Flush(l) => FlushFrame(s, l);
      case Upload(u, d) => UploadFrame(s, u, d);
      case Put(u, p) => assert UploaderOk(c, s.log.taken, s.uploaders[u]);
    }
  }

  /** A dry run, whatever becomes of it, stores nothing and indexes nothing. */
  lemma {:induction false} DryRunWritesNothing(c: Config, run: seq<Step>)
    requires c.dryRun && Replay(c, run).Some?
    ensures Replay(c, run).value.log.stored == {} && Replay(c, run).value.index == c.known
  {
    if run != [] {
      DryRunWritesNothing(c, run[..|run| - 1]);
      RunInv(c, run[..|run| - 1]);
      DryStep(c, Replay(c, run[..|run| - 1]).value, run[|run| - 1]);
    }
  }

  // ---- what every run keeps ----

  lemma {:induction false} RunBounds(c: Config, maxChunk: nat, run: seq<Step>)
    requires c.Valid() && Small(c, maxChunk) && Replay(c, run).Some?
    ensures var s := Replay(c, run).value; Capped(c, s.workers, s.stats.bytesRead) && SizedState(c, maxChunk, s)
  {
    if run == [] {
      SumZero(c.chunkWorkers);
    } else {
      var s := Replay(c, run[..|run| - 1]).value;
      RunBounds(c, maxChunk, run[..|run| - 1]);
      RunInv(c, run[..|run| - 1]);
      StepCapped(c, s, run[|run| - 1]);
      StepSized(c, maxChunk, s, run[|run| - 1]);
    }
  }

  lemma {:induction false} SumZero(n: nat)
    ensures Sum(seq(n, _ => AwaitFile), Unrecorded) == 0
  {
    SumAtMost(seq(n, _ => AwaitFile), Unrecorded, 0);
  }

  /** With W workers and a cap of M bytes, at most W*M source bytes are read in any run, and at
      most M when there is one worker. */
  lemma ByteCap(c: Config, run: seq<Step>)
    requires c.Valid() && Replay(c, run).Some? && c.maxBytes > 0
    ensures var s := Replay(c, run).value;
      s.stats.bytesRead + Sum(s.workers, Unrecorded) <= c.chunkWorkers * c.maxBytes
    ensures Passes(Replay(c, run).value) ==> Size(AllChunks(c.files)) <= c.chunkWorkers * c.maxBytes
  {
    RunCap(c, run);
    RunInv(c, run);
    if Passes(Replay(c, run).value) {
      Complete(c, run);
    }
  }

  lemma {:induction false} RunCap(c: Config, run: seq<Step>)
    requires Replay(c, run).Some?
    ensures var s := Replay(c, run).value; Capped(c, s.workers, s.stats.bytesRead)
  {
    if run == [] {
      SumZero(c.chunkWorkers);
    } else {
      RunCap(c, run[..|run| - 1]);
      StepCapped(c, Replay(c, run[..|run| - 1]).value, run[|run| - 1]);
    }
  }

  /** At most uploadWorkers + 9 packs are in memory at any time, none larger than one chunk over
      the target, and every pack but the last has reached the target. */
  lemma MemoryBound(c: Config, maxChunk: nat, run: seq<Step>)
    requires c.Valid() && Small(c, maxChunk) && Replay(c, run).Some?
    ensures var s := Replay(c, run).value;
      && PacksHeld(s) <= c.uploadWorkers + PACK_QUEUE + 1
      && Size(s.writer) <= c.packTarget - 1 + maxChunk
      && (s.asm.Shipping? ==> Size(s.asm.pack) <= c.packTarget - 1 + maxChunk)
      && (forall t :: 0 <= t < |s.log.made| ==> Size(s.log.made[t]) <= c.packTarget - 1 + maxChunk)
      && (forall t :: 0 <= t < |s.log.made| - 1 ==> Size(s.log.made[t]) >= c.packTarget)
  {
    RunBounds(c, maxChunk, run);
    RunInv(c, run);
    HeldBound(c, Replay(c, run).value);
  }
}
