/** What every reachable pipeline state satisfies, failed and cancelled runs included: queue
    contents, who may still touch a channel, and how a run comes to be doomed. */
module PipelineShape {
  import opened Blob
  import opened Pipeline

  /** The file queue holds the indices sent and not yet taken, in order. */
  ghost predicate FileQueue(c: Config, queue: seq<nat>, fed: nat, taken: nat) {
    && |queue| <= FILE_QUEUE && fed <= |c.files| && taken + |queue| == fed
    && forall k :: 0 <= k < |queue| ==> queue[k] == taken + k
  }

  ghost predicate BlobQueue(queue: seq<Item>, sent: seq<Item>, handled: seq<Item>) {
    |queue| <= BLOB_QUEUE && sent == handled + queue
  }

  ghost predicate PackQueue(queue: seq<seq<Item>>, made: seq<seq<Item>>, taken: seq<seq<Item>>, taker: seq<nat>) {
    |queue| <= PACK_QUEUE && made == taken + queue && |taker| == |taken|
  }

  ghost predicate AllSignalled(workers: seq<Worker>) {
    forall i :: 0 <= i < |workers| ==> Signalled(workers[i])
  }

  ghost predicate WorkerOk(c: Config, taken: nat, w: Worker) {
    match w
    case Reading(f, ids, _) => f < taken && f < |c.files| && |ids| <= |c.files[f].items|
    case Offering(f, ids, _) => f < taken && f < |c.files| && 0 < |ids| <= |c.files[f].items|
    case Recording(f, _, _) => f < taken && f < |c.files|
    case _ => true
  }

  ghost predicate WorkersOk(c: Config, taken: nat, workers: seq<Worker>) {
    |workers| == c.chunkWorkers && forall i :: 0 <= i < |workers| ==> WorkerOk(c, taken, workers[i])
  }

  ghost predicate UploaderOk(c: Config, taken: seq<seq<Item>>, u: Uploader) {
    match u
    case Storing(t) => t < |taken|
    case Indexing(t, j) => t < |taken| && j <= |taken[t]| && !c.dryRun
    case _ => true
  }

  ghost predicate UploadersOk(c: Config, taken: seq<seq<Item>>, uploaders: seq<Uploader>) {
    |uploaders| == c.uploadWorkers && forall u :: 0 <= u < |uploaders| ==> UploaderOk(c, taken, uploaders[u])
  }

  ghost predicate AsmOk(asm: Assembler, writer: seq<Item>) {
    (asm.Flushing? ==> writer != []) && (asm.Shipping? ==> asm.pack != [] && writer == [])
  }

  /** A channel is closed exactly when its senders are finished with it. */
  ghost predicate Closures(s: State) {
    && (s.fileCh.closed <==> s.feeder.FeederGone?)
    && (s.blobCh.closed <==> s.closerGone)
    && (s.closerGone ==> AllSignalled(s.workers))
    && (s.packCh.closed <==> s.asm.AsmClosed? || s.asm.AsmGone?)
  }

  ghost predicate Queues(c: Config, s: State) {
    && FileQueue(c, s.fileCh.buf, s.log.fed, |s.log.owner|)
    && BlobQueue(s.blobCh.buf, s.log.sent, s.log.handled)
    && PackQueue(s.packCh.buf, s.log.made, s.log.taken, s.log.taker)
    && Closures(s)
  }

  ghost predicate Locals(c: Config, s: State) {
    && WorkersOk(c, |s.log.owner|, s.workers)
    && UploadersOk(c, s.log.taken, s.uploaders)
    && AsmOk(s.asm, s.writer)
    && |s.chunks| == |c.files| == |s.log.progress|
  }

  ghost predicate Shape(c: Config, s: State) {
    Queues(c, s) && Locals(c, s)
  }

  lemma InitShape(c: Config)
    ensures Shape(c, Init(c))
  {
  }

  lemma FeedShape(c: Config, s: State, f: FeedStep)
    requires Shape(c, s) && CanFeed(c, s, f)
    ensures Shape(c, DoFeed(s, f))
    ensures DoFeed(s, f).panicked == s.panicked
  {
  }

  lemma WorkShape(c: Config, s: State, w: nat, a: WorkStep)
    requires Shape(c, s) && CanWork(s, w, a)
    ensures Shape(c, DoWork(s, w, a))
    ensures DoWork(s, w, a).panicked == s.panicked
  {
    match a {
      case TakeFile =>
      case NoMoreFiles =>
      case TakeFileCancel =>
      case Record =>
      case SignalWorker =>
      case WorkerExit =>
    }
  }

  lemma ReadShape(c: Config, s: State, w: nat, r: ReadStep)
    requires Shape(c, s) && CanRead(c, s, w, r)
    ensures Shape(c, DoRead(c, s, w, r))
    ensures DoRead(c, s, w, r).panicked == s.panicked
  {
    match r {
      case NextChunk =>
      case NextOverCap =>
      case NextEof =>
      case NextError =>
      case SendBlob =>
      case SendBlobCancel =>
    }
  }

  lemma AssembleShape(c: Config, s: State, b: AsmStep)
    requires Shape(c, s) && CanAssemble(s, b)
    ensures Shape(c, DoAssemble(c, s, b))
    ensures DoAssemble(c, s, b).panicked == s.panicked
  {
    match b {
      case TakeBlob =>
      case NoMoreBlobs =>
      case TakeBlobCancel =>
      case Decide =>
      case AddFail =>
    }
  }

  lemma FlushShape(c: Config, s: State, l: FlushStep)
    requires Shape(c, s) && CanFlush(s, l)
    ensures Shape(c, DoFlush(s, l))
    ensures DoFlush(s, l).panicked == s.panicked
  {
    match l {
      case Finish =>
      case FinishFail =>
      case SendPack =>
      case SendPackCancel =>
      case ClosePacks =>
      case AsmExit =>
    }
  }

  lemma UploadShape(c: Config, s: State, u: nat, d: UpStep)
    requires Shape(c, s) && CanUpload(s, u, d)
    ensures Shape(c, DoUpload(s, u, d))
    ensures DoUpload(s, u, d).panicked == s.panicked
  {
    match d {
      case TakePack =>
      case NoMorePacks =>
      case TakePackCancel =>
      case UploaderExit =>
    }
  }

  lemma PutShape(c: Config, s: State, u: nat, p: PutStep)
    requires Shape(c, s) && CanPut(c, s, u, p)
    ensures Shape(c, DoPut(c, s, u, p))
    ensures DoPut(c, s, u, p).panicked == s.panicked
  {
    match p {
      case StorePack =>
      case StoreFail(_) =>
      case InsertEntry =>
      case CountPack =>
    }
  }

  /** Every step keeps the shape, and none sends on a closed channel or closes one twice. */
  lemma StepShape(c: Config, s: State, e: Step)
    requires Shape(c, s) && Enabled(c, s, e)
    ensures Shape(c, Apply(c, s, e))
    ensures Apply(c, s, e).panicked == s.panicked
  {
    match e {
      case CancelParent =>
      case Feed(f) => FeedShape(c, s, f);
      case Work(w, a) => WorkShape(c, s, w, a);
      case Read(w, r) => ReadShape(c, s, w, r);
      case CloseBlobs =>
      case Assemble(b) => AssembleShape(c, s, b);
      case Flush(l) => FlushShape(c, s, l);
      case Upload(u, d) => UploadShape(c, s, u, d);
      case Put(u, p) => PutShape(c, s, u, p);
    }
  }

  ghost predicate FailedWorker(w: Worker) {
    (w.WorkerReturned? && w.failed) || (w.WorkerSignalled? && w.failed)
  }

  ghost predicate FailedAsm(a: Assembler) {
    (a.AsmReturned? && a.failed) || (a.AsmClosed? && a.failed)
  }

  ghost predicate FailedUploader(u: Uploader) {
    u.UploaderReturned? && u.failed
  }

  /** The culprit of a doomed run either has cancelled the group already or is a goroutine
      that is still on its way to reporting its error. */
  ghost predicate Pending(s: State) {
    match s.log.doom
    case Sound => false
    case ByCancel => false
    case ByWorker(w) => w < |s.workers| && FailedWorker(s.workers[w])
    case ByAssembler => FailedAsm(s.asm)
    case ByUploader(u) => u < |s.uploaders| && FailedUploader(s.uploaders[u])
  }

  ghost predicate Dooming(s: State) {
    && (s.done <==> s.groupErr || s.parentCanceled)
    && (s.log.cancels > 0 ==> s.done)
    && (s.log.doom != Sound ==> s.done || Pending(s))
    && (s.log.doom == Sound ==>
         && !s.done && !FailedAsm(s.asm)
         && (forall i :: 0 <= i < |s.workers| ==> !FailedWorker(s.workers[i]))
         && (forall u :: 0 <= u < |s.uploaders| ==> !FailedUploader(s.uploaders[u])))
  }

  lemma StepDooming(c: Config, s: State, e: Step)
    requires Dooming(s) && Enabled(c, s, e)
    ensures Dooming(Apply(c, s, e))
    ensures Apply(c, s, e).log.doom == Sound ==> s.log.doom == Sound
  {
    match e {
      case CancelParent =>
      case Feed(f) =>
      case Work(w, a) => DoomingByWork(c, s, w, a);
      case Read(w, r) => DoomingByRead(c, s, w, r);
      case CloseBlobs =>
      case Assemble(b) => DoomingByAsm(c, s, b);
      case Flush(l) => DoomingByFlush(c, s, l);
      case Upload(u, d) => DoomingByUpload(c, s, u, d);
      case Put(u, p) => DoomingByPut(c, s, u, p);
    }
  }

  lemma DoomingByWork(c: Config, s: State, w: nat, a: WorkStep)
    requires Dooming(s) && CanWork(s, w, a)
    ensures Dooming(DoWork(s, w, a)) && DoWork(s, w, a).log.doom == s.log.doom
  {
  }

  lemma DoomingByRead(c: Config, s: State, w: nat, r: ReadStep)
    requires Dooming(s) && CanRead(c, s, w, r)
    ensures Dooming(DoRead(c, s, w, r))
    ensures DoRead(c, s, w, r).log.doom == Sound ==> s.log.doom == Sound
  {
  }

  lemma DoomingByAsm(c: Config, s: State, b: AsmStep)
    requires Dooming(s) && CanAssemble(s, b)
    ensures Dooming(DoAssemble(c, s, b))
    ensures DoAssemble(c, s, b).log.doom == Sound ==> s.log.doom == Sound
  {
  }

  lemma DoomingByFlush(c: Config, s: State, l: FlushStep)
    requires Dooming(s) && CanFlush(s, l)
    ensures Dooming(DoFlush(s, l))
    ensures DoFlush(s, l).log.doom == Sound ==> s.log.doom == Sound
  {
  }

  lemma DoomingByUpload(c: Config, s: State, u: nat, d: UpStep)
    requires Dooming(s) && CanUpload(s, u, d)
    ensures Dooming(DoUpload(s, u, d)) && DoUpload(s, u, d).log.doom == s.log.doom
  {
  }

  lemma DoomingByPut(c: Config, s: State, u: nat, p: PutStep)
    requires Dooming(s) && CanPut(c, s, u, p)
    ensures Dooming(DoPut(c, s, u, p))
    ensures DoPut(c, s, u, p).log.doom == Sound ==> s.log.doom == Sound
  {
  }

  /** A run that passes both checks was never doomed, and no select in it was cancelled. */
  lemma PassingIsSound(s: State)
    requires Dooming(s) && Passes(s)
    ensures s.log.doom == Sound && s.log.cancels == 0
  {
  }
}
