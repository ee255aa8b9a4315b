/** Deadlock freedom and termination of every run. */
module PipelineProgress {
  import opened Wrappers
  import opened Blob
  import opened Pipeline
  import opened PipelineShape
  import opened PipelineFrames
  import opened PipelineFiles
  import opened PipelineTheorems

  /** Every goroutine has returned, the one that closes the blob channel included. */
  ghost predicate AllGone(s: State) {
    GroupDone(s) && s.closerGone
  }

  function FeederMove(c: Config, s: State): Option<Step> {
    match s.feeder
    case Feeding =>
      if s.log.fed == |c.files| then Some(Feed(FeedEnd))
      else if |s.fileCh.buf| < FILE_QUEUE then Some(Feed(FeedSend))
      else if s.done then Some(Feed(FeedCancel)) else None
    case FeederReturned => Some(Feed(FeedClose))
    case FeederGone => None
  }

  function WorkerMove(c: Config, s: State, w: nat): Option<Step>
    requires w < |s.workers|
  {
    match s.workers[w]
    case AwaitFile =>
      if s.fileCh.buf != [] then Some(Work(w, TakeFile))
      else if s.fileCh.closed then Some(Work(w, NoMoreFiles))
      else if s.done then Some(Work(w, TakeFileCancel)) else None
    case Reading(f, ids, read) =>
      if CanRead(c, s, w, NextChunk) then Some(Read(w, NextChunk))
      else if CanRead(c, s, w, NextOverCap) then Some(Read(w, NextOverCap))
      else if CanRead(c, s, w, NextEof) then Some(Read(w, NextEof))
      else Some(Read(w, NextError))
    case Offering(_, _, _) =>
      if |s.blobCh.buf| < BLOB_QUEUE then Some(Read(w, SendBlob))
      else if s.done then Some(Read(w, SendBlobCancel)) else None
    case Recording(_, _, _) => Some(Work(w, Record))
    case WorkerReturned(_) => Some(Work(w, SignalWorker))
    case WorkerSignalled(_) => Some(Work(w, WorkerExit))
    case WorkerGone => None
  }

  function AssemblerMove(c: Config, s: State): Option<Step> {
    match s.asm
    case AwaitBlob =>
      if s.blobCh.buf != [] then Some(Assemble(TakeBlob))
      else if s.blobCh.closed then Some(Assemble(NoMoreBlobs))
      else if s.done then Some(Assemble(TakeBlobCancel)) else None
    case Holding(it) =>
      if IsKnown(s, it.id) || !IsZero(it.id) then Some(Assemble(Decide)) else Some(Assemble(AddFail))
    case Flushing(_) => if c.fits(s.writer) then Some(Flush(Finish)) else Some(Flush(FinishFail))
    case Shipping(_, _) =>
      if |s.packCh.buf| < PACK_QUEUE then Some(Flush(SendPack))
      else if s.done then Some(Flush(SendPackCancel)) else None
    case AsmReturned(_) => Some(Flush(ClosePacks))
    case AsmClosed(_) => Some(Flush(AsmExit))
    case AsmGone => None
  }

  function UploaderMove(c: Config, s: State, u: nat): Option<Step>
    requires u < |s.uploaders|
  {
    match s.uploaders[u]
    case AwaitPack =>
      if s.packCh.buf != [] then Some(Upload(u, TakePack))
      else if s.packCh.closed then Some(Upload(u, NoMorePacks))
      else if s.done then Some(Upload(u, TakePackCancel)) else None
    case Storing(_) => if c.dryRun then Some(Put(u, CountPack)) else Some(Put(u, StorePack))
    case Indexing(t, j) =>
      if CanPut(c, s, u, InsertEntry) then Some(Put(u, InsertEntry)) else Some(Put(u, CountPack))
    case UploaderReturned(_) => Some(Upload(u, UploaderExit))
    case UploaderGone => None
  }

  ghost predicate Moves(c: Config, s: State, e: Option<Step>) {
    e.Some? ==> Enabled(c, s, e.value) && e.value != CancelParent
  }

  lemma MovesEnabled(c: Config, s: State)
    requires Shape(c, s)
    ensures Moves(c, s, FeederMove(c, s)) && Moves(c, s, AssemblerMove(c, s))
    ensures forall w :: 0 <= w < |s.workers| ==> Moves(c, s, WorkerMove(c, s, w))
    ensures forall u :: 0 <= u < |s.uploaders| ==> Moves(c, s, UploaderMove(c, s, u))
  {
    forall w | 0 <= w < |s.workers|
      ensures Moves(c, s, WorkerMove(c, s, w))
    {
      assert WorkerOk(c, |s.log.owner|, s.workers[w]);
    }
    forall u | 0 <= u < |s.uploaders|
      ensures Moves(c, s, UploaderMove(c, s, u))
    {
      assert UploaderOk(c, s.log.taken, s.uploaders[u]);
    }
  }

  /** No goroutine of the group has a step of its own. */
  ghost predicate Stuck(c: Config, s: State) {
    && FeederMove(c, s).None? && AssemblerMove(c, s).None?
    && (forall w :: 0 <= w < |s.workers| ==> WorkerMove(c, s, w).None?)
    && (forall u :: 0 <= u < |s.uploaders| ==> UploaderMove(c, s, u).None?)
  }

  lemma StuckIsSound(c: Config, s: State)
    requires Inv(c, s) && Stuck(c, s) && !s.done
    ensures s.log.doom == Sound
  {
    forall w | 0 <= w < |s.workers|
      ensures !FailedWorker(s.workers[w])
    {
      assert WorkerMove(c, s, w).None?;
    }
    forall u | 0 <= u < |s.uploaders|
      ensures !FailedUploader(s.uploaders[u])
    {
      assert UploaderMove(c, s, u).None?;
    }
  }

  /** A stuck pipeline has nobody left but, perhaps, the closer, whose turn it then is. */
  lemma StuckIsDone(c: Config, s: State)
    requires c.Valid() && Inv(c, s) && Stuck(c, s)
    ensures CanCloseBlobs(s) || AllGone(s)
  {
    if !s.done {
      StuckIsSound(c, s);
      assert Clean(c, s);
      assert UploaderMove(c, s, 0).None?;
      assert s.packCh.buf == [];
      assert !s.asm.Shipping?;
      assert forall w :: 0 <= w < |s.workers| ==> !s.workers[w].Offering? && !s.workers[w].AwaitFile? by {
        forall w | 0 <= w < |s.workers|
          ensures !s.workers[w].Offering? && !s.workers[w].AwaitFile?
        {
          assert WorkerMove(c, s, w).None?;
        }
      }
    }
    forall w | 0 <= w < |s.workers|
      ensures s.workers[w].WorkerGone?
    {
      assert WorkerMove(c, s, w).None?;
    }
    if s.closerGone {
      assert s.asm.AsmGone?;
      forall u | 0 <= u < |s.uploaders|
        ensures s.uploaders[u].UploaderGone?
      {
        assert UploaderMove(c, s, u).None?;
      }
      assert Finished(s.workers[0]);
    }
  }

  /** Deadlock freedom: in every reachable state, whatever has failed and whenever the context
      was cancelled, some goroutine can take a step until all of them have returned. */
  lemma NoDeadlock(c: Config, run: seq<Step>) returns (e: Step)
    requires c.Valid() && Replay(c, run).Some? && !AllGone(Replay(c, run).value)
    ensures e != CancelParent && Replay(c, run + [e]).Some?
  {
    var s := Replay(c, run).value;
    RunInv(c, run);
    MovesEnabled(c, s);
    if FeederMove(c, s).Some? {
      e := FeederMove(c, s).value;
    } else if AssemblerMove(c, s).Some? {
      e := AssemblerMove(c, s).value;
    } else if w :| 0 <= w < |s.workers| && WorkerMove(c, s, w).Some? {
      e := WorkerMove(c, s, w).value;
    } else if u :| 0 <= u < |s.uploaders| && UploaderMove(c, s, u).Some? {
      e := UploaderMove(c, s, u).value;
    } else {
      StuckIsDone(c, s);
      e := CloseBlobs;
    }
    assert (run + [e])[..|run|] == run;
  }

  // ---- termination ----

  // Each unit of work weighs more before a step than the work it turns into weighs after it.
  const CHUNK_WEIGHT := 12
  const BLOB_WEIGHT := 10
  const CLAIM_WEIGHT := 7

  function FileWeight(c: Config, f: nat): nat {
    3 + if f < |c.files| then |c.files[f].items| * CHUNK_WEIGHT else 0
  }

  /** The weight of reading a file from chunk k on. */
  function RestWeight(c: Config, f: nat, k: nat): nat {
    if f < |c.files| && k <= |c.files[f].items| then (|c.files[f].items| - k) * CHUNK_WEIGHT else 0
  }

  function WorkerWeight(c: Config, w: Worker): nat {
    match w
    case AwaitFile => 3
    case Reading(f, ids, _) => 5 + RestWeight(c, f, |ids|)
    case Offering(f, ids, _) => 5 + RestWeight(c, f, |ids|) + CHUNK_WEIGHT - 1
    case Recording(_, _, _) => 4
    case WorkerReturned(_) => 2
    case WorkerSignalled(_) => 1
    case WorkerGone => 0
  }

  function WorkerWeights(c: Config): Worker -> nat {
    w => WorkerWeight(c, w)
  }

  function FileWeights(c: Config): nat -> nat {
    f => FileWeight(c, f)
  }

  function PackWeight(pack: seq<Item>): nat {
    |pack| + 4
  }

  function AssemblerWeight(asm: Assembler, writer: seq<Item>): nat {
    match asm
    case AwaitBlob => 4 + |writer| * CLAIM_WEIGHT
    case Holding(_) => 13 + |writer| * CLAIM_WEIGHT
    case Flushing(last) => (if last then 3 else 5) + |writer| * CLAIM_WEIGHT
    case Shipping(pack, last) => (if last then 3 else 5) + |pack| + 5
    case AsmReturned(_) => 2
    case AsmClosed(_) => 1
    case AsmGone => 0
  }

  function UploaderWeight(taken: seq<seq<Item>>, u: Uploader): nat {
    match u
    case AwaitPack => 2
    case Storing(t) => 5 + (if t < |taken| then |taken[t]| else 0)
    case Indexing(t, j) => 4 + (if t < |taken| && j <= |taken[t]| then |taken[t]| - j else 0)
    case UploaderReturned(_) => 1
    case UploaderGone => 0
  }

  function UploaderWeights(taken: seq<seq<Item>>): Uploader -> nat {
    u => UploaderWeight(taken, u)
  }

  /** The files from index f on that the feeder has yet to send. */
  function UnfedWeight(c: Config, f: nat): nat
    decreases |c.files| - f
  {
    if f < |c.files| then FileWeight(c, f) + 1 + UnfedWeight(c, f + 1) else 0
  }

  function FeederWeight(c: Config, feeder: Feeder, fed: nat): nat {
    match feeder
    case Feeding => 2 + UnfedWeight(c, fed)
    case FeederReturned => 1
    case FeederGone => 0
  }

  function Measure(c: Config, s: State): nat {
    (if s.parentCanceled then 0 else 1) + (if s.closerGone then 0 else 1)
    + FeederWeight(c, s.feeder, s.log.fed) + Sum(s.fileCh.buf, FileWeights(c))
    + Sum(s.workers, WorkerWeights(c)) + |s.blobCh.buf| * BLOB_WEIGHT
    + AssemblerWeight(s.asm, s.writer) + Sum(s.packCh.buf, PackWeight)
    + Sum(s.uploaders, UploaderWeights(s.log.taken))
  }

  lemma FeedDescends(c: Config, s: State, f: FeedStep)
    requires CanFeed(c, s, f)
    ensures Measure(c, DoFeed(s, f)) < Measure(c, s)
  {
    match f {
      case FeedSend => SumPush(s.fileCh.buf, s.log.fed, FileWeights(c));
      case _ =>
    }
  }

  lemma TakeFileDescends(c: Config, s: State, w: nat)
    requires Shape(c, s) && CanWork(s, w, TakeFile)
    ensures Measure(c, DoWork(s, w, TakeFile)) < Measure(c, s)
  {
    WorkFrame(s, w, TakeFile);
    SumUpdate(s.workers, w, Reading(s.fileCh.buf[0], [], 0), WorkerWeights(c));
    SumPop(s.fileCh.buf, FileWeights(c));
  }

  lemma {:induction false} WorkDescends(c: Config, s: State, w: nat, a: WorkStep)
    requires Shape(c, s) && CanWork(s, w, a)
    ensures Measure(c, DoWork(s, w, a)) < Measure(c, s)
  {
    if a.TakeFile? {
      TakeFileDescends(c, s, w);
    } else {
      WorkFrame(s, w, a);
      SumUpdate(s.workers, w, DoWork(s, w, a).workers[w], WorkerWeights(c));
    }
  }

  lemma ReadDescends(c: Config, s: State, w: nat, r: ReadStep)
    requires Shape(c, s) && CanRead(c, s, w, r)
    ensures Measure(c, DoRead(c, s, w, r)) < Measure(c, s)
  {
    ReadFrame(c, s, w, r);
    SumUpdate(s.workers, w, DoRead(c, s, w, r).workers[w], WorkerWeights(c));
  }

  lemma AssembleDescends(c: Config, s: State, b: AsmStep)
    requires Shape(c, s) && CanAssemble(s, b)
    ensures Measure(c, DoAssemble(c, s, b)) < Measure(c, s)
  {
    AssembleFrame(c, s, b);
    match b {
      case Decide =>
      case _ =>
    }
  }

  lemma {:induction false} FlushDescends(c: Config, s: State, l: FlushStep)
    requires Shape(c, s) && CanFlush(s, l)
    ensures Measure(c, DoFlush(s, l)) < Measure(c, s)
  {
    FlushFrame(s, l);
    match l {
      case SendPack => SumPush(s.packCh.buf, s.asm.pack, PackWeight);
      case Finish =>
      case SendPackCancel =>
      case _ =>
    }
  }

  lemma TakePackDescends(c: Config, s: State, u: nat)
    requires Shape(c, s) && CanUpload(s, u, TakePack)
    ensures Measure(c, DoUpload(s, u, TakePack)) < Measure(c, s)
  {
    UploadFrame(s, u, TakePack);
    var taken := s.log.taken + [s.packCh.buf[0]];
    SumUpdate(s.uploaders, u, Storing(|s.log.taken|), UploaderWeights(taken));
    forall k | 0 <= k < |s.uploaders|
      ensures UploaderWeights(taken)(s.uploaders[k]) == UploaderWeights(s.log.taken)(s.uploaders[k])
    {
      assert UploaderOk(c, s.log.taken, s.uploaders[k]);
    }
    SumSame(s.uploaders, UploaderWeights(taken), UploaderWeights(s.log.taken));
    SumPop(s.packCh.buf, PackWeight);
  }

  lemma UploadDescends(c: Config, s: State, u: nat, d: UpStep)
    requires Shape(c, s) && CanUpload(s, u, d)
    ensures Measure(c, DoUpload(s, u, d)) < Measure(c, s)
  {
    if d.TakePack? {
      TakePackDescends(c, s, u);
    } else {
      UploadFrame(s, u, d);
      SumUpdate(s.uploaders, u, DoUpload(s, u, d).uploaders[u], UploaderWeights(s.log.taken));
    }
  }

  lemma PutDescends(c: Config, s: State, u: nat, p: PutStep)
    requires Shape(c, s) && CanPut(c, s, u, p)
    ensures Measure(c, DoPut(c, s, u, p)) < Measure(c, s)
  {
    PutFrame(c, s, u, p);
    SumUpdate(s.uploaders, u, DoPut(c, s, u, p).uploaders[u], UploaderWeights(s.log.taken));
  }

  lemma StepDescends(c: Config, s: State, e: Step)
    requires Shape(c, s) && Enabled(c, s, e)
    ensures Measure(c, Apply(c, s, e)) < Measure(c, s)
  {
    match e {
      case CancelParent =>
      case Feed(f) => FeedDescends(c, s, f);
      case Work(w, a) => WorkDescends(c, s, w, a);
      case Read(w, r) => ReadDescends(c, s, w, r);
      case CloseBlobs =>
      case Assemble(b) => AssembleDescends(c, s, b);
      case Flush(l) => FlushDescends(c, s, l);
      case Upload(u, d) => UploadDescends(c, s, u, d);
      case Put(u, p) => PutDescends(c, s, u, p);
    }
  }

  /** Termination: no schedule is longer than the measure of the initial state. */
  lemma {:induction false} RunsEnd(c: Config, run: seq<Step>)
    requires Replay(c, run).Some?
    ensures |run| + Measure(c, Replay(c, run).value) <= Measure(c, Init(c))
  {
    if run != [] {
      RunInv(c, run[..|run| - 1]);
      RunsEnd(c, run[..|run| - 1]);
      StepDescends(c, Replay(c, run[..|run| - 1]).value, run[|run| - 1]);
    }
  }

  /** From every reachable state the goroutines can all return. */
  lemma {:induction false} CanFinish(c: Config, run: seq<Step>) returns (whole: seq<Step>)
    requires c.Valid() && Replay(c, run).Some?
    ensures run <= whole && Replay(c, whole).Some? && AllGone(Replay(c, whole).value)
    ensures var s := Replay(c, whole).value;
      && s.feeder == FeederGone && s.asm == AsmGone && s.fileCh.closed && s.blobCh.closed && s.packCh.closed
      && (forall w :: 0 <= w < |s.workers| ==> s.workers[w] == WorkerGone)
      && (forall u :: 0 <= u < |s.uploaders| ==> s.uploaders[u] == UploaderGone)
    decreases Measure(c, Init(c)) - |run|
  {
    whole := run;
    RunInv(c, run);
    if !AllGone(Replay(c, run).value) {
      var e := NoDeadlock(c, run);
      RunsEnd(c, run + [e]);
      whole := CanFinish(c, run + [e]);
    }
  }
}
