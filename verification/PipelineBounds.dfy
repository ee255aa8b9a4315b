/** Bounds that hold in every reachable state: source bytes read under a byte cap, and packs
    held in memory. */
module PipelineBounds {
  import opened Blob
  import opened Pipeline
  import opened PipelineShape
  import opened PipelineFrames

  /** Bytes a worker has read, and had checked against the cap, but not recorded yet. */
  function Unrecorded(w: Worker): nat {
    if w.Reading? || w.Offering? || w.Recording? then w.read else 0
  }

  ghost predicate Capped(c: Config, workers: seq<Worker>, bytesRead: nat) {
    c.maxBytes > 0 ==>
      && (forall i :: 0 <= i < |workers| ==> Unrecorded(workers[i]) <= c.maxBytes)
      && bytesRead + Sum(workers, Unrecorded) <= |workers| * c.maxBytes
  }

  lemma CappedRead(c: Config, workers: seq<Worker>, w: nat, next: Worker, bytesRead: nat)
    requires Capped(c, workers, bytesRead) && w < |workers|
    requires c.maxBytes > 0 ==> bytesRead + Unrecorded(next) <= c.maxBytes
    ensures Capped(c, workers[w := next], bytesRead)
  {
    if c.maxBytes > 0 {
      SumUpdate(workers, w, next, Unrecorded);
      SumOthers(workers, w, Unrecorded, c.maxBytes);
    }
  }

  lemma CappedLess(c: Config, workers: seq<Worker>, w: nat, next: Worker, bytesRead: nat, more: nat)
    requires Capped(c, workers, bytesRead) && w < |workers|
    requires more + Unrecorded(next) <= Unrecorded(workers[w])
    ensures Capped(c, workers[w := next], bytesRead + more)
  {
    SumUpdate(workers, w, next, Unrecorded);
  }

  lemma WorkCapped(c: Config, s: State, w: nat, a: WorkStep)
    requires CanWork(s, w, a) && Capped(c, s.workers, s.stats.bytesRead)
    ensures var t := DoWork(s, w, a); Capped(c, t.workers, t.stats.bytesRead)
  {
    var next := DoWork(s, w, a).workers[w];
    CappedLess(c, s.workers, w, next, s.stats.bytesRead, if a.Record? then s.workers[w].read else 0);
  }

  lemma ReadCapped(c: Config, s: State, w: nat, r: ReadStep)
    requires CanRead(c, s, w, r) && Capped(c, s.workers, s.stats.bytesRead)
    ensures var t := DoRead(c, s, w, r); Capped(c, t.workers, t.stats.bytesRead)
  {
    var next := DoRead(c, s, w, r).workers[w];
    if r.NextChunk? {
      CappedRead(c, s.workers, w, next, s.stats.bytesRead);
    } else {
      CappedLess(c, s.workers, w, next, s.stats.bytesRead, 0);
    }
  }

  lemma StepCapped(c: Config, s: State, e: Step)
    requires Enabled(c, s, e) && Capped(c, s.workers, s.stats.bytesRead)
    ensures var t := Apply(c, s, e); Capped(c, t.workers, t.stats.bytesRead)
  {
    match e {
      case CancelParent =>
      case Feed(f) => FeedFrame(s, f);
      case Work(w, a) => WorkCapped(c, s, w, a);
      case Read(w, r) => ReadCapped(c, s, w, r);
      case CloseBlobs =>
      case Assemble(b) => AssembleFrame(c, s, b);
      case Flush(l) => FlushFrame(s, l);
      case Upload(u, d) => UploadFrame(s, u, d);
      case Put(u, p) => PutFrame(c, s, u, p);
    }
  }

  // ---- memory ----

  function InHand(u: Uploader): nat {
    if u.Storing? || u.Indexing? then 1 else 0
  }

  /** Packs being built, shipped, queued or uploaded. */
  function PacksHeld(s: State): nat {
    Sum(s.uploaders, InHand) + |s.packCh.buf| + (if s.asm.Shipping? || s.writer != [] then 1 else 0)
  }

  lemma HeldBound(c: Config, s: State)
    requires Shape(c, s)
    ensures PacksHeld(s) <= c.uploadWorkers + PACK_QUEUE + 1
  {
    SumAtMost(s.uploaders, InHand, 1);
  }

  ghost predicate SmallChunks(items: seq<Item>, maxChunk: nat) {
    forall it :: it in items ==> |it.data| <= maxChunk
  }

  ghost predicate Small(c: Config, maxChunk: nat) {
    forall f :: 0 <= f < |c.files| ==> SmallChunks(c.files[f].items, maxChunk)
  }

  ghost predicate Fits(c: Config, maxChunk: nat, pack: seq<Item>) {
    Size(pack) <= c.packTarget - 1 + maxChunk
  }

  ghost predicate Open(asm: Assembler) {
    asm.AwaitBlob? || asm.Holding? || asm.Flushing? || asm.Shipping?
  }

  ghost predicate PackSizes(c: Config, maxChunk: nat, asm: Assembler, writer: seq<Item>, made: seq<seq<Item>>) {
    && (forall t :: 0 <= t < |made| ==> Fits(c, maxChunk, made[t]))
    && (forall t :: 0 <= t < |made| && (t < |made| - 1 || Open(asm)) ==> Size(made[t]) >= c.packTarget)
    && (asm.AwaitBlob? || asm.Holding? ==> Size(writer) < c.packTarget)
    && Fits(c, maxChunk, writer)
    && (asm.Flushing? ==> (asm.last || Size(writer) >= c.packTarget))
    && (asm.Shipping? ==> Fits(c, maxChunk, asm.pack) && (asm.last || Size(asm.pack) >= c.packTarget))
  }

  ghost predicate Sized(c: Config, maxChunk: nat, sent: seq<Item>, handled: seq<Item>, asm: Assembler,
                        writer: seq<Item>, made: seq<seq<Item>>) {
    && SmallChunks(sent, maxChunk) && SmallChunks(handled, maxChunk)
    && (asm.Holding? ==> asm.item in handled)
    && PackSizes(c, maxChunk, asm, writer, made)
  }

  ghost predicate SizedState(c: Config, maxChunk: nat, s: State) {
    Sized(c, maxChunk, s.log.sent, s.log.handled, s.asm, s.writer, s.log.made)
  }

  lemma StepSized(c: Config, maxChunk: nat, s: State, e: Step)
    requires c.Valid() && Small(c, maxChunk) && Shape(c, s) && Enabled(c, s, e) && SizedState(c, maxChunk, s)
    ensures SizedState(c, maxChunk, Apply(c, s, e))
  {
    match e {
      case CancelParent =>
      case Feed(f) => FeedFrame(s, f);
      case Work(w, a) => WorkFrame(s, w, a);
      case Read(w, r) => ReadFrame(c, s, w, r); ReadSized(c, maxChunk, s, w, r);
      case CloseBlobs =>
      case Assemble(b) => AssembleSized(c, maxChunk, s, b);
      case Flush(l) => FlushSized(c, maxChunk, s, l);
      case Upload(u, d) => UploadFrame(s, u, d);
      case Put(u, p) => PutFrame(c, s, u, p);
    }
  }

  lemma ReadSized(c: Config, maxChunk: nat, s: State, w: nat, r: ReadStep)
    requires Small(c, maxChunk) && CanRead(c, s, w, r) && SizedState(c, maxChunk, s)
    ensures SizedState(c, maxChunk, DoRead(c, s, w, r))
  {
  }

  lemma {:induction false} AssembleSized(c: Config, maxChunk: nat, s: State, b: AsmStep)
    requires c.Valid() && Shape(c, s) && CanAssemble(s, b) && SizedState(c, maxChunk, s)
    ensures SizedState(c, maxChunk, DoAssemble(c, s, b))
  {
    match b {
      case TakeBlob =>
        assert s.blobCh.buf[0] in s.log.sent;
      case NoMoreBlobs =>
      case TakeBlobCancel =>
      case Decide =>
        if !IsKnown(s, s.asm.item.id) {
          ClaimSized(c, maxChunk, s.asm.item, s.writer, s.log.made);
        }
      case AddFail =>
    }
  }

  lemma {:induction false} ClaimSized(c: Config, maxChunk: nat, it: Item, writer: seq<Item>, made: seq<seq<Item>>)
    requires c.Valid() && PackSizes(c, maxChunk, Holding(it), writer, made) && |it.data| <= maxChunk
    ensures var next := if Size(writer + [it]) >= c.packTarget then Flushing(false) else AwaitBlob;
      PackSizes(c, maxChunk, next, writer + [it], made)
  {
    SizePush(writer, it);
  }

  lemma FlushSized(c: Config, maxChunk: nat, s: State, l: FlushStep)
    requires c.Valid() && CanFlush(s, l) && SizedState(c, maxChunk, s) && AsmOk(s.asm, s.writer)
    ensures SizedState(c, maxChunk, DoFlush(s, l))
  {
    match l {
      case Finish =>
      case FinishFail =>
      case SendPack =>
      case SendPackCancel =>
      case ClosePacks =>
      case AsmExit =>
    }
  }
}
