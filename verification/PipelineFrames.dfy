/** Which parts of the state each goroutine leaves alone. */
module PipelineFrames {
  import opened Pipeline

  /** Untouched by the feeder, the workers, the closer and a cancellation. */
  ghost predicate SameRear(s: State, t: State) {
    && t.asm == s.asm && t.writer == s.writer && t.inFlight == s.inFlight && t.index == s.index
    && t.uploaders == s.uploaders && t.packCh.buf == s.packCh.buf && t.packCh.closed == s.packCh.closed
    && t.log.made == s.log.made && t.log.taken == s.log.taken && t.log.taker == s.log.taker
    && t.log.stored == s.log.stored && t.log.counted == s.log.counted && t.log.handled == s.log.handled
    && t.stats.blobsNew == s.stats.blobsNew && t.stats.blobsDeduped == s.stats.blobsDeduped
    && t.stats.bytesNew == s.stats.bytesNew && t.stats.bytesDeduped == s.stats.bytesDeduped
    && t.stats.packsWritten == s.stats.packsWritten
  }

  /** Untouched by the assembler and the uploaders. */
  ghost predicate SameFront(s: State, t: State) {
    && t.feeder == s.feeder && t.workers == s.workers && t.closerGone == s.closerGone
    && t.fileCh == s.fileCh && t.blobCh.closed == s.blobCh.closed && t.chunks == s.chunks
    && t.log.fed == s.log.fed && t.log.owner == s.log.owner && t.log.progress == s.log.progress
    && t.log.sent == s.log.sent && t.log.origin == s.log.origin
    && t.stats.bytesRead == s.stats.bytesRead && t.stats.filesDone == s.stats.filesDone
  }

  ghost predicate SameAssembler(s: State, t: State) {
    && t.asm == s.asm && t.writer == s.writer && t.inFlight == s.inFlight && t.blobCh == s.blobCh
    && t.log.made == s.log.made && t.log.handled == s.log.handled
    && t.stats.blobsNew == s.stats.blobsNew && t.stats.blobsDeduped == s.stats.blobsDeduped
    && t.stats.bytesNew == s.stats.bytesNew && t.stats.bytesDeduped == s.stats.bytesDeduped
  }

  ghost predicate SameUploads(s: State, t: State) {
    && t.uploaders == s.uploaders && t.index == s.index
    && t.log.taken == s.log.taken && t.log.taker == s.log.taker
    && t.log.stored == s.log.stored && t.log.counted == s.log.counted
    && t.stats.packsWritten == s.stats.packsWritten
  }

  lemma FeedFrame(s: State, f: FeedStep)
    ensures SameRear(s, DoFeed(s, f))
    ensures DoFeed(s, f).blobCh == s.blobCh && DoFeed(s, f).workers == s.workers
    ensures DoFeed(s, f).log.sent == s.log.sent && DoFeed(s, f).log.origin == s.log.origin
    ensures DoFeed(s, f).log.progress == s.log.progress && DoFeed(s, f).stats == s.stats
  {
  }

  lemma WorkFrame(s: State, w: nat, a: WorkStep)
    requires CanWork(s, w, a)
    ensures SameRear(s, DoWork(s, w, a)) && DoWork(s, w, a).blobCh == s.blobCh && DoWork(s, w, a).log.sent == s.log.sent
    ensures var t := DoWork(s, w, a);
      && t.feeder == s.feeder && t.log.fed == s.log.fed
      && t.closerGone == s.closerGone && t.parentCanceled == s.parentCanceled
      && t.log.origin == s.log.origin && t.log.progress == s.log.progress
    ensures !a.TakeFile? ==> DoWork(s, w, a).fileCh == s.fileCh
  {
  }

  lemma ReadFrame(c: Config, s: State, w: nat, r: ReadStep)
    requires CanRead(c, s, w, r)
    ensures SameRear(s, DoRead(c, s, w, r))
  {
  }

  lemma AssembleFrame(c: Config, s: State, b: AsmStep)
    requires CanAssemble(s, b)
    ensures SameFront(s, DoAssemble(c, s, b)) && SameUploads(s, DoAssemble(c, s, b))
    ensures DoAssemble(c, s, b).packCh == s.packCh && DoAssemble(c, s, b).log.made == s.log.made
  {
    match b {
      case Decide =>
      case _ =>
    }
  }

  lemma FlushFrame(s: State, l: FlushStep)
    requires CanFlush(s, l)
    ensures SameFront(s, DoFlush(s, l)) && SameUploads(s, DoFlush(s, l)) && DoFlush(s, l).blobCh == s.blobCh
  {
  }

  lemma UploadFrame(s: State, u: nat, d: UpStep)
    requires CanUpload(s, u, d)
    ensures SameFront(s, DoUpload(s, u, d)) && SameAssembler(s, DoUpload(s, u, d)) && DoUpload(s, u, d).index == s.index
  {
  }

  lemma PutFrame(c: Config, s: State, u: nat, p: PutStep)
    requires CanPut(c, s, u, p)
    ensures SameFront(s, DoPut(c, s, u, p)) && SameAssembler(s, DoPut(c, s, u, p))
    ensures DoPut(c, s, u, p).packCh == s.packCh
    ensures !p.InsertEntry? ==> DoPut(c, s, u, p).index == s.index
  {
  }
}
