/** The backup pipeline as a step protocol: one feeder, W chunk workers, the goroutine that
    closes the blob channel, one assembler and M uploaders. Each goroutine is a program
    counter with its locals; each `select` is a choice between steps. */
module Pipeline {
  import opened Wrappers
  import opened Blob

  const FILE_QUEUE := 64
  const BLOB_QUEUE := 128
  const PACK_QUEUE := 8

  /** What the chunker yields for one file: its chunks, then end of file, or, when `ok` is
      false, an error (from Open, when there are no chunks, or from a read). */
  datatype Stream = Stream(items: seq<Item>, ok: bool)

  /** `known` is the set of blobs the repository index holds when the run starts;
      `maxBytes == 0` means no limit. `fits` says of a non-empty pack whether Finish accepts it,
      that is, whether its encoded header is within the limit. */
  datatype Config = Config(files: seq<Stream>, chunkWorkers: nat, uploadWorkers: nat,
                           packTarget: nat, maxBytes: nat, dryRun: bool, known: set<ID>,
                           fits: seq<Item> -> bool)
  {
    predicate Valid() {
      chunkWorkers >= 1 && uploadWorkers >= 1 && packTarget >= 1
    }
  }

  datatype Chan<T> = Chan(buf: seq<T>, closed: bool)

  /** The feeder's loop position is `fed`, the number of indices it has sent. */
  datatype Feeder = Feeding | FeederReturned | FeederGone

  /** `ids` and `read` are the locals of chunkOneFile. In Offering the last id belongs to the
      chunk being sent. A returned worker has not run its deferred chunkWG.Done yet; a
      signalled one has, but has not reported its error to the group yet. */
  datatype Worker =
    | AwaitFile
    | Reading(file: nat, ids: seq<ID>, read: nat)
    | Offering(file: nat, ids: seq<ID>, read: nat)
    | Recording(file: nat, ids: seq<ID>, read: nat)
    | WorkerReturned(failed: bool)
    | WorkerSignalled(failed: bool)
    | WorkerGone

  datatype Assembler =
    | AwaitBlob
    | Holding(item: Item)
    | Flushing(last: bool)
    | Shipping(pack: seq<Item>, last: bool)
    | AsmReturned(failed: bool)
    | AsmClosed(failed: bool)
    | AsmGone

  /** An uploader names its pack by the pack's position in arrival order. */
  datatype Uploader =
    | AwaitPack
    | Storing(t: nat)
    | Indexing(t: nat, next: nat)
    | UploaderReturned(failed: bool)
    | UploaderGone

  /** Which event first doomed the run. */
  datatype Doom = Sound | ByCancel | ByWorker(w: nat) | ByAssembler | ByUploader(u: nat)

  datatype Stats = Stats(filesDone: nat, bytesRead: nat, blobsNew: nat, blobsDeduped: nat,
                         bytesNew: nat, bytesDeduped: nat, packsWritten: nat)

  /** History: what has passed through each channel so far, who took it, how far each file
      has been sent, which file each chunk sent came from, and how many select statements took
      their cancellation branch. */
  datatype Log = Log(fed: nat, owner: seq<nat>, progress: seq<nat>,
                     sent: seq<Item>, origin: seq<nat>, handled: seq<Item>,
                     made: seq<seq<Item>>, taken: seq<seq<Item>>, taker: seq<nat>,
                     stored: set<nat>, counted: set<nat>, cancels: nat, doom: Doom)

  datatype State = State(
    fileCh: Chan<nat>, blobCh: Chan<Item>, packCh: Chan<seq<Item>>,
    feeder: Feeder, workers: seq<Worker>, closerGone: bool, asm: Assembler, uploaders: seq<Uploader>,
    parentCanceled: bool, done: bool, groupErr: bool, panicked: bool,
    chunks: seq<Option<seq<ID>>>, stats: Stats,
    inFlight: set<ID>, writer: seq<Item>, index: set<ID>,
    log: Log)

  // The steps of the feeder, of chunkWorker's loop, of chunkOneFile, of the assembler's loop,
  // of its flush, of uploadWorker's loop and of PutPack.
  datatype FeedStep = FeedSend | FeedCancel | FeedEnd | FeedClose
  datatype WorkStep = TakeFile | NoMoreFiles | TakeFileCancel | Record | SignalWorker | WorkerExit
  datatype ReadStep = NextChunk | NextOverCap | NextEof | NextError | SendBlob | SendBlobCancel
  datatype AsmStep = TakeBlob | NoMoreBlobs | TakeBlobCancel | Decide | AddFail
  datatype FlushStep = Finish | FinishFail | SendPack | SendPackCancel | ClosePacks | AsmExit
  datatype UpStep = TakePack | NoMorePacks | TakePackCancel | UploaderExit
  datatype PutStep = StorePack | StoreFail(landed: bool) | InsertEntry | CountPack

  datatype Step = CancelParent | Feed(f: FeedStep) | Work(w: nat, a: WorkStep) | Read(w: nat, r: ReadStep)
                | CloseBlobs | Assemble(b: AsmStep) | Flush(l: FlushStep)
                | Upload(u: nat, d: UpStep) | Put(u: nat, p: PutStep)

  function Init(c: Config): State {
    State(Chan([], false), Chan([], false), Chan([], false),
          Feeding, seq(c.chunkWorkers, _ => AwaitFile), false, AwaitBlob, seq(c.uploadWorkers, _ => AwaitPack),
          false, false, false, false,
          seq(|c.files|, _ => None), Stats(0, 0, 0, 0, 0, 0, 0),
          {}, [], c.known,
          Log(0, [], seq(|c.files|, _ => 0), [], [], [], [], [], [], {}, {}, 0, Sound))
  }

  function Dooms(g: Log, d: Doom): Log {
    if g.doom == Sound then g.(doom := d) else g
  }

  /** A goroutine's final return into group.Go: the first error is kept and cancels the rest. */
  function Report(s: State, failed: bool): State {
    if failed then s.(groupErr := true, done := true) else s
  }

  predicate Signalled(w: Worker) {
    w.WorkerSignalled? || w.WorkerGone?
  }

  // ---- stage 1 ----

  predicate CanFeed(c: Config, s: State, f: FeedStep) {
    match f
    case FeedSend => s.feeder.Feeding? && s.log.fed < |c.files| && |s.fileCh.buf| < FILE_QUEUE
    case FeedCancel => s.feeder.Feeding? && s.log.fed < |c.files| && s.done
    case FeedEnd => s.feeder.Feeding? && s.log.fed == |c.files|
    case FeedClose => s.feeder.FeederReturned?
  }

  function DoFeed(s: State, f: FeedStep): State {
    match f
    case FeedSend =>
      s.(fileCh := s.fileCh.(buf := s.fileCh.buf + [s.log.fed]), panicked := s.panicked || s.fileCh.closed,
         log := s.log.(fed := s.log.fed + 1))
    case FeedCancel => s.(feeder := FeederReturned, log := s.log.(cancels := s.log.cancels + 1))
    case FeedEnd => s.(feeder := FeederReturned)
    case FeedClose =>
      s.(feeder := FeederGone, fileCh := s.fileCh.(closed := true), panicked := s.panicked || s.fileCh.closed)
  }

  // ---- stage 2 ----

  predicate CapOk(c: Config, s: State, read: nat) {
    c.maxBytes == 0 || s.stats.bytesRead + read <= c.maxBytes
  }

  predicate CanWork(s: State, w: nat, a: WorkStep) {
    && w < |s.workers|
    && var pc := s.workers[w];
      match a
      case TakeFile => pc.AwaitFile? && s.fileCh.buf != []
      case NoMoreFiles => pc.AwaitFile? && s.fileCh.buf == [] && s.fileCh.closed
      case TakeFileCancel => pc.AwaitFile? && s.done
      case Record => pc.Recording? && pc.file < |s.chunks|
      case SignalWorker => pc.WorkerReturned?
      case WorkerExit => pc.WorkerSignalled?
  }

  function DoWork(s: State, w: nat, a: WorkStep): State
    requires CanWork(s, w, a)
  {
    var pc := s.workers[w];
    match a
    case TakeFile =>
      s.(fileCh := s.fileCh.(buf := s.fileCh.buf[1..]), workers := s.workers[w := Reading(s.fileCh.buf[0], [], 0)],
         log := s.log.(owner := s.log.owner + [w]))
    case NoMoreFiles => s.(workers := s.workers[w := WorkerReturned(false)])
    case TakeFileCancel =>
      s.(workers := s.workers[w := WorkerReturned(false)], log := s.log.(cancels := s.log.cancels + 1))
    case Record =>
      s.(workers := s.workers[w := AwaitFile], chunks := s.chunks[pc.file := Some(pc.ids)],
         stats := s.stats.(filesDone := s.stats.filesDone + 1, bytesRead := s.stats.bytesRead + pc.read))
    case SignalWorker => s.(workers := s.workers[w := WorkerSignalled(pc.failed)])
    case WorkerExit => Report(s.(workers := s.workers[w := WorkerGone]), pc.failed)
  }

  /** The chunk that the worker in state `pc` reads next, if there is one. */
  predicate HasNext(c: Config, pc: Worker) {
    pc.Reading? && pc.file < |c.files| && |pc.ids| < |c.files[pc.file].items|
  }

  predicate AtEnd(c: Config, pc: Worker) {
    pc.Reading? && pc.file < |c.files| && |pc.ids| == |c.files[pc.file].items|
  }

  predicate CanRead(c: Config, s: State, w: nat, r: ReadStep) {
    && w < |s.workers|
    && var pc := s.workers[w];
      match r
      case NextChunk =>
        HasNext(c, pc) && CapOk(c, s, pc.read + |c.files[pc.file].items[|pc.ids|].data|)
      case NextOverCap =>
        HasNext(c, pc) && !CapOk(c, s, pc.read + |c.files[pc.file].items[|pc.ids|].data|)
      case NextEof => AtEnd(c, pc) && c.files[pc.file].ok
      case NextError => AtEnd(c, pc) && !c.files[pc.file].ok
      case SendBlob =>
        && pc.Offering? && |s.blobCh.buf| < BLOB_QUEUE
        && pc.file < |c.files| && 0 < |pc.ids| <= |c.files[pc.file].items| && pc.file < |s.log.progress|
      case SendBlobCancel => pc.Offering? && s.done
  }

  function DoRead(c: Config, s: State, w: nat, r: ReadStep): State
    requires CanRead(c, s, w, r)
  {
    var pc := s.workers[w];
    match r
    case NextChunk =>
      var it := c.files[pc.file].items[|pc.ids|];
      s.(workers := s.workers[w := Offering(pc.file, pc.ids + [it.id], pc.read + |it.data|)])
    case NextOverCap =>
      s.(workers := s.workers[w := WorkerReturned(true)], log := Dooms(s.log, ByWorker(w)))
    case NextEof => s.(workers := s.workers[w := Recording(pc.file, pc.ids, pc.read)])
    case NextError =>
      s.(workers := s.workers[w := WorkerReturned(true)], log := Dooms(s.log, ByWorker(w)))
    case SendBlob =>
      var it := c.files[pc.file].items[|pc.ids| - 1];
      s.(blobCh := s.blobCh.(buf := s.blobCh.buf + [it]), panicked := s.panicked || s.blobCh.closed,
         workers := s.workers[w := Reading(pc.file, pc.ids, pc.read)],
         log := s.log.(sent := s.log.sent + [it], origin := s.log.origin + [pc.file],
                       progress := s.log.progress[pc.file := s.log.progress[pc.file] + 1]))
    case SendBlobCancel =>
      // chunkOneFile returns (nil, 0, nil): no ids, no bytes and no error.
      s.(workers := s.workers[w := Recording(pc.file, [], 0)], log := s.log.(cancels := s.log.cancels + 1))
  }

  predicate CanCloseBlobs(s: State) {
    !s.closerGone && forall i :: 0 <= i < |s.workers| ==> Signalled(s.workers[i])
  }

  function DoCloseBlobs(s: State): State {
    s.(closerGone := true, blobCh := s.blobCh.(closed := true), panicked := s.panicked || s.blobCh.closed)
  }

  // ---- stage 3 ----

  predicate IsKnown(s: State, id: ID) {
    id in s.inFlight || id in s.index
  }

  predicate CanAssemble(s: State, b: AsmStep) {
    match b
    case TakeBlob => s.asm.AwaitBlob? && s.blobCh.buf != []
    case NoMoreBlobs => s.asm.AwaitBlob? && s.blobCh.buf == [] && s.blobCh.closed
    case TakeBlobCancel => s.asm.AwaitBlob? && s.done
    case Decide => s.asm.Holding?
    case AddFail => s.asm.Holding? && !IsKnown(s, s.asm.item.id)
  }

  function DoAssemble(c: Config, s: State, b: AsmStep): State
    requires CanAssemble(s, b)
  {
    match b
    case TakeBlob =>
      s.(blobCh := s.blobCh.(buf := s.blobCh.buf[1..]), asm := Holding(s.blobCh.buf[0]),
         log := s.log.(handled := s.log.handled + [s.blobCh.buf[0]]))
    case NoMoreBlobs => s.(asm := if s.writer == [] then AsmReturned(false) else Flushing(true))
    case TakeBlobCancel => s.(asm := AsmReturned(false), log := s.log.(cancels := s.log.cancels + 1))
    case Decide => if IsKnown(s, s.asm.item.id) then Skip(s, s.asm.item) else Claim(c, s, s.asm.item)
    case AddFail =>
      s.(asm := AsmReturned(true), inFlight := s.inFlight + {s.asm.item.id}, log := Dooms(s.log, ByAssembler))
  }

  function Skip(s: State, it: Item): State {
    s.(asm := AwaitBlob,
       stats := s.stats.(blobsDeduped := s.stats.blobsDeduped + 1,
                         bytesDeduped := s.stats.bytesDeduped + |it.data|))
  }

  function Claim(c: Config, s: State, it: Item): State {
    s.(asm := if Size(s.writer + [it]) >= c.packTarget then Flushing(false) else AwaitBlob,
       inFlight := s.inFlight + {it.id}, writer := s.writer + [it],
       stats := s.stats.(blobsNew := s.stats.blobsNew + 1, bytesNew := s.stats.bytesNew + |it.data|))
  }

  function AfterFlush(last: bool): Assembler {
    if last then AsmReturned(false) else AwaitBlob
  }

  predicate CanFlush(s: State, l: FlushStep) {
    match l
    case Finish => s.asm.Flushing?
    case FinishFail => s.asm.Flushing?
    case SendPack => s.asm.Shipping? && |s.packCh.buf| < PACK_QUEUE
    case SendPackCancel => s.asm.Shipping? && s.done
    case ClosePacks => s.asm.AsmReturned?
    case AsmExit => s.asm.AsmClosed?
  }

  function DoFlush(s: State, l: FlushStep): State
    requires CanFlush(s, l)
  {
    match l
    case Finish => s.(asm := Shipping(s.writer, s.asm.last), writer := [])
    case FinishFail => s.(asm := AsmReturned(true), log := Dooms(s.log, ByAssembler))
    case SendPack =>
      s.(packCh := s.packCh.(buf := s.packCh.buf + [s.asm.pack]), panicked := s.panicked || s.packCh.closed,
         asm := AfterFlush(s.asm.last), log := s.log.(made := s.log.made + [s.asm.pack]))
    case SendPackCancel =>
      // flush reports success although the pack was dropped.
      s.(asm := AfterFlush(s.asm.last), log := s.log.(cancels := s.log.cancels + 1))
    case ClosePacks =>
      s.(asm := AsmClosed(s.asm.failed), packCh := s.packCh.(closed := true), panicked := s.panicked || s.packCh.closed)
    case AsmExit => Report(s.(asm := AsmGone), s.asm.failed)
  }

  // ---- stage 4 ----

  predicate CanUpload(s: State, u: nat, d: UpStep) {
    && u < |s.uploaders|
    && var pc := s.uploaders[u];
      match d
      case TakePack => pc.AwaitPack? && s.packCh.buf != []
      case NoMorePacks => pc.AwaitPack? && s.packCh.buf == [] && s.packCh.closed
      case TakePackCancel => pc.AwaitPack? && s.done
      case UploaderExit => pc.UploaderReturned?
  }

  function DoUpload(s: State, u: nat, d: UpStep): State
    requires CanUpload(s, u, d)
  {
    var pc := s.uploaders[u];
    match d
    case TakePack =>
      s.(packCh := s.packCh.(buf := s.packCh.buf[1..]), uploaders := s.uploaders[u := Storing(|s.log.taken|)],
         log := s.log.(taken := s.log.taken + [s.packCh.buf[0]], taker := s.log.taker + [u]))
    case NoMorePacks => s.(uploaders := s.uploaders[u := UploaderReturned(false)])
    case TakePackCancel =>
      s.(uploaders := s.uploaders[u := UploaderReturned(false)], log := s.log.(cancels := s.log.cancels + 1))
    case UploaderExit => Report(s.(uploaders := s.uploaders[u := UploaderGone]), pc.failed)
  }

  predicate CanPut(c: Config, s: State, u: nat, p: PutStep) {
    && u < |s.uploaders|
    && var pc := s.uploaders[u];
      match p
      case StorePack => pc.Storing? && !c.dryRun
      case StoreFail(_) => pc.Storing? && !c.dryRun
      case InsertEntry => pc.Indexing? && pc.t < |s.log.taken| && pc.next < |s.log.taken[pc.t]|
      case CountPack =>
        || (pc.Storing? && c.dryRun)
        || (pc.Indexing? && pc.t < |s.log.taken| && pc.next == |s.log.taken[pc.t]|)
  }

  function DoPut(c: Config, s: State, u: nat, p: PutStep): State
    requires CanPut(c, s, u, p)
  {
    var pc := s.uploaders[u];
    match p
    case StorePack =>
      s.(uploaders := s.uploaders[u := Indexing(pc.t, 0)], log := s.log.(stored := s.log.stored + {pc.t}))
    case StoreFail(landed) =>
      // An error leaves open whether the object reached the store.
      s.(uploaders := s.uploaders[u := UploaderReturned(true)],
         log := Dooms(if landed then s.log.(stored := s.log.stored + {pc.t}) else s.log, ByUploader(u)))
    case InsertEntry =>
      s.(uploaders := s.uploaders[u := Indexing(pc.t, pc.next + 1)],
         index := s.index + {s.log.taken[pc.t][pc.next].id})
    case CountPack =>
      s.(uploaders := s.uploaders[u := AwaitPack], log := s.log.(counted := s.log.counted + {pc.t}),
         stats := s.stats.(packsWritten := s.stats.packsWritten + 1))
  }

  // ---- runs ----

  /** Add refuses the zero ID and nothing else. */
  predicate AddOutcome(s: State, b: AsmStep) {
    s.asm.Holding? ==>
      && (b.Decide? ==> IsKnown(s, s.asm.item.id) || !IsZero(s.asm.item.id))
      && (b.AddFail? ==> IsZero(s.asm.item.id))
  }

  /** Finish refuses a pack whose header is too large and nothing else. */
  predicate FinishOutcome(c: Config, s: State, l: FlushStep) {
    (l.Finish? ==> c.fits(s.writer)) && (l.FinishFail? ==> !c.fits(s.writer))
  }

  predicate Enabled(c: Config, s: State, e: Step) {
    match e
    case CancelParent => !s.parentCanceled
    case Feed(f) => CanFeed(c, s, f)
    case Work(w, a) => CanWork(s, w, a)
    case Read(w, r) => CanRead(c, s, w, r)
    case CloseBlobs => CanCloseBlobs(s)
    case Assemble(b) => CanAssemble(s, b) && AddOutcome(s, b)
    case Flush(l) => CanFlush(s, l) && FinishOutcome(c, s, l)
    case Upload(u, d) => CanUpload(s, u, d)
    case Put(u, p) => CanPut(c, s, u, p)
  }

  function Apply(c: Config, s: State, e: Step): State
    requires Enabled(c, s, e)
  {
    match e
    case CancelParent => s.(parentCanceled := true, done := true, log := Dooms(s.log, ByCancel))
    case Feed(f) => DoFeed(s, f)
    case Work(w, a) => DoWork(s, w, a)
    case Read(w, r) => DoRead(c, s, w, r)
    case CloseBlobs => DoCloseBlobs(s)
    case Assemble(b) => DoAssemble(c, s, b)
    case Flush(l) => DoFlush(s, l)
    case Upload(u, d) => DoUpload(s, u, d)
    case Put(u, p) => DoPut(c, s, u, p)
  }

  /** The state a schedule leads to from the start, or None if one of its steps is not enabled. */
  function Replay(c: Config, run: seq<Step>): Option<State> {
    if run == [] then
      Some(Init(c))
    else
      var p := Replay(c, run[..|run| - 1]);
      if p.Some? && Enabled(c, p.value, run[|run| - 1]) then Some(Apply(c, p.value, run[|run| - 1])) else None
  }

  /** Every goroutine that group.Wait waits for has returned. */
  predicate GroupDone(s: State) {
    && s.feeder.FeederGone?
    && (forall i :: 0 <= i < |s.workers| ==> s.workers[i].WorkerGone?)
    && s.asm.AsmGone?
    && (forall u :: 0 <= u < |s.uploaders| ==> s.uploaders[u].UploaderGone?)
  }

  /** BackupFiles passes g.Wait and then ctx.Err. */
  predicate Passes(s: State) {
    GroupDone(s) && !s.groupErr && !s.parentCanceled
  }
}
