/** The run itself, step by step: what its counters count, when its channels are closed, and when
    BackupFiles reports an error. */
module PipelineHistory {
  import opened Pipeline
  import opened PipelineShape
  import opened PipelineTheorems

  // ---- errors ----

  /** The steps in which a goroutine comes upon an error of its own. */
  predicate Fails(e: Step) {
    match e
    case Read(_, r) => r.NextOverCap? || r.NextError?
    case Assemble(b) => b.AddFail?
    case Flush(l) => l.FinishFail?
    case Put(_, p) => p.StoreFail?
    case _ => false
  }

  ghost predicate Failed(run: seq<Step>) {
    exists k :: 0 <= k < |run| && Fails(run[k])
  }

  ghost predicate FailedAny(s: State) {
    || s.groupErr || FailedAsm(s.asm)
    || (exists w :: 0 <= w < |s.workers| && FailedWorker(s.workers[w]))
    || (exists u :: 0 <= u < |s.uploaders| && FailedUploader(s.uploaders[u]))
  }

  lemma WorkersUpdated(s: State, workers: seq<Worker>, w: nat)
    requires w < |s.workers| == |workers| && workers == s.workers[w := workers[w]]
    ensures (exists i :: 0 <= i < |workers| && FailedWorker(workers[i])) <==>
      FailedWorker(workers[w]) || exists i :: 0 <= i < |s.workers| && i != w && FailedWorker(s.workers[i])
    ensures (exists i :: 0 <= i < |s.workers| && FailedWorker(s.workers[i])) <==>
      FailedWorker(s.workers[w]) || exists i :: 0 <= i < |s.workers| && i != w && FailedWorker(s.workers[i])
  {
    forall i | 0 <= i < |s.workers| && i != w
      ensures workers[i] == s.workers[i]
    {
    }
  }

  lemma UploadersUpdated(s: State, uploaders: seq<Uploader>, u: nat)
    requires u < |s.uploaders| == |uploaders| && uploaders == s.uploaders[u := uploaders[u]]
    ensures (exists i :: 0 <= i < |uploaders| && FailedUploader(uploaders[i])) <==>
      FailedUploader(uploaders[u]) || exists i :: 0 <= i < |s.uploaders| && i != u && FailedUploader(s.uploaders[i])
    ensures (exists i :: 0 <= i < |s.uploaders| && FailedUploader(s.uploaders[i])) <==>
      FailedUploader(s.uploaders[u]) || exists i :: 0 <= i < |s.uploaders| && i != u && FailedUploader(s.uploaders[i])
  {
    forall i | 0 <= i < |s.uploaders| && i != u
      ensures uploaders[i] == s.uploaders[i]
    {
    }
  }

  // ---- counters ----

  predicate TakesFile(e: Step) {
    e.Work? && e.a == TakeFile
  }

  predicate RecordsFile(e: Step) {
    e.Work? && e.a == Record
  }

  predicate SendsBlob(e: Step) {
    e.Read? && e.r == SendBlob
  }

  predicate TakesPack(e: Step) {
    e.Upload? && e.d == TakePack
  }

  predicate CountsPack(e: Step) {
    e.Put? && e.p == CountPack
  }

  /** A select takes its cancellation branch. */
  predicate Cancels(e: Step) {
    match e
    case Feed(f) => f == FeedCancel
    case Work(_, a) => a == TakeFileCancel
    case Read(_, r) => r == SendBlobCancel
    case Assemble(b) => b == TakeBlobCancel
    case Flush(l) => l == SendPackCancel
    case Upload(_, d) => d == TakePackCancel
    case _ => false
  }

  /** The counters and the lengths of the histories, as counts of steps. */
  datatype Counters = Counters(fed: nat, owners: nat, records: nat, sent: nat, handled: nat, made: nat, taken: nat,
                               counted: nat, cancels: nat)

  function CountersOf(s: State): Counters {
    Counters(s.log.fed, |s.log.owner|, s.stats.filesDone, |s.log.sent|, |s.log.handled|, |s.log.made|, |s.log.taken|,
             s.stats.packsWritten, s.log.cancels)
  }

  function Tick(n: nat, b: bool): nat {
    if b then n + 1 else n
  }

  function Advance(k: Counters, e: Step): Counters {
    Counters(Tick(k.fed, e == Feed(FeedSend)), Tick(k.owners, TakesFile(e)), Tick(k.records, RecordsFile(e)),
             Tick(k.sent, SendsBlob(e)), Tick(k.handled, e == Assemble(TakeBlob)), Tick(k.made, e == Flush(SendPack)),
             Tick(k.taken, TakesPack(e)), Tick(k.counted, CountsPack(e)), Tick(k.cancels, Cancels(e)))
  }

  // ---- one step ----

  /** What a step adds to the history. */
  ghost predicate Follows(s: State, t: State, e: Step) {
    && (FailedAny(t) <==> FailedAny(s) || Fails(e))
    && (t.parentCanceled <==> s.parentCanceled || e == CancelParent)
    && (t.fileCh.closed <==> s.fileCh.closed || e == Feed(FeedClose))
    && (t.blobCh.closed <==> s.blobCh.closed || e == CloseBlobs)
    && (t.packCh.closed <==> s.packCh.closed || e == Flush(ClosePacks))
    && CountersOf(t) == Advance(CountersOf(s), e)
  }

  lemma FeedFollows(c: Config, s: State, f: FeedStep)
    requires CanFeed(c, s, f)
    ensures Follows(s, DoFeed(s, f), Feed(f))
  {
    match f {
      case FeedSend =>
      case _ =>
    }
  }

  lemma WorkFollows(c: Config, s: State, w: nat, a: WorkStep)
    requires CanWork(s, w, a)
    ensures Follows(s, DoWork(s, w, a), Work(w, a))
  {
    WorkersUpdated(s, DoWork(s, w, a).workers, w);
    match a {
      case TakeFile =>
      case _ =>
    }
  }

  lemma ReadFollows(c: Config, s: State, w: nat, r: ReadStep)
    requires CanRead(c, s, w, r)
    ensures Follows(s, DoRead(c, s, w, r), Read(w, r))
  {
    WorkersUpdated(s, DoRead(c, s, w, r).workers, w);
    match r {
      case SendBlob =>
      case _ =>
    }
  }

  lemma DecideFollows(c: Config, s: State)
    requires CanAssemble(s, Decide)
    ensures Follows(s, DoAssemble(c, s, Decide), Assemble(Decide))
  {
    if IsKnown(s, s.asm.item.id) {
    } else {
    }
  }

  lemma AssembleFollows(c: Config, s: State, b: AsmStep)
    requires CanAssemble(s, b)
    ensures Follows(s, DoAssemble(c, s, b), Assemble(b))
  {
    match b {
      case TakeBlob =>
      case Decide => DecideFollows(c, s);
      case _ =>
    }
  }

  lemma FlushFollows(c: Config, s: State, l: FlushStep)
    requires CanFlush(s, l)
    ensures Follows(s, DoFlush(s, l), Flush(l))
  {
    match l {
      case SendPack =>
      case _ =>
    }
  }

  lemma UploadFollows(c: Config, s: State, u: nat, d: UpStep)
    requires CanUpload(s, u, d)
    ensures Follows(s, DoUpload(s, u, d), Upload(u, d))
  {
    UploadersUpdated(s, DoUpload(s, u, d).uploaders, u);
    match d {
      case TakePack =>
      case _ =>
    }
  }

  lemma PutFollows(c: Config, s: State, u: nat, p: PutStep)
    requires CanPut(c, s, u, p)
    ensures Follows(s, DoPut(c, s, u, p), Put(u, p))
  {
    UploadersUpdated(s, DoPut(c, s, u, p).uploaders, u);
    match p {
      case InsertEntry =>
      case _ =>
    }
  }

  lemma StepFollows(c: Config, s: State, e: Step)
    requires Enabled(c, s, e)
    ensures Follows(s, Apply(c, s, e), e)
  {
    match e {
      case CancelParent =>
      case Feed(f) => FeedFollows(c, s, f);
      case Work(w, a) => WorkFollows(c, s, w, a);
      case Read(w, r) => ReadFollows(c, s, w, r);
      case CloseBlobs =>
      case Assemble(b) => AssembleFollows(c, s, b);
      case Flush(l) => FlushFollows(c, s, l);
      case Upload(u, d) => UploadFollows(c, s, u, d);
      case Put(u, p) => PutFollows(c, s, u, p);
    }
  }

  lemma FailedNext(run: seq<Step>)
    requires run != []
    ensures Failed(run) <==> Failed(run[..|run| - 1]) || Fails(run[|run| - 1])
    ensures CancelParent in run <==> CancelParent in run[..|run| - 1] || run[|run| - 1] == CancelParent
  {
    var n := |run| - 1;
    assert run == run[..n] + [run[n]];
    if Failed(run[..n]) {
      var k :| 0 <= k < n && Fails(run[..n][k]);
      assert Fails(run[k]);
    }
    if Failed(run) {
      var k :| 0 <= k < |run| && Fails(run[k]);
      assert k < n ==> Fails(run[..n][k]);
    }
  }

  lemma {:induction false} RunFailed(c: Config, run: seq<Step>)
    requires Replay(c, run).Some?
    ensures FailedAny(Replay(c, run).value) <==> Failed(run)
    ensures Replay(c, run).value.parentCanceled <==> CancelParent in run
  {
    if run != [] {
      RunFailed(c, run[..|run| - 1]);
      StepFollows(c, Replay(c, run[..|run| - 1]).value, run[|run| - 1]);
      FailedNext(run);
    }
  }

  /** No error is lost and none is made up. When every goroutine of the group has returned, its
      error is set if and only if, somewhere in the run, a file could not be read or was over the
      cap, a blob or a pack was refused, or a pack could not be stored; and BackupFiles goes on to
      its snapshot if and only if nothing of the kind happened and nobody cancelled it. */
  lemma ErrorIff(c: Config, run: seq<Step>)
    requires Replay(c, run).Some? && GroupDone(Replay(c, run).value)
    ensures Replay(c, run).value.groupErr <==> Failed(run)
    ensures Passes(Replay(c, run).value) <==> !Failed(run) && CancelParent !in run
  {
    RunFailed(c, run);
  }

  // ---- channels ----

  lemma InNext(run: seq<Step>, e: Step)
    requires run != []
    ensures e in run <==> e in run[..|run| - 1] || run[|run| - 1] == e
  {
    assert run == run[..|run| - 1] + [run[|run| - 1]];
  }

  lemma {:induction false} RunClosed(c: Config, run: seq<Step>)
    requires Replay(c, run).Some?
    ensures var s := Replay(c, run).value;
      && (s.fileCh.closed <==> Feed(FeedClose) in run)
      && (s.blobCh.closed <==> CloseBlobs in run)
      && (s.packCh.closed <==> Flush(ClosePacks) in run)
  {
    if run != [] {
      var n := |run| - 1;
      RunClosed(c, run[..n]);
      StepFollows(c, Replay(c, run[..n]).value, run[n]);
      InNext(run, Feed(FeedClose));
      InNext(run, CloseBlobs);
      InNext(run, Flush(ClosePacks));
    }
  }

  /** Nothing is ever sent on a channel, nor the channel closed, after the step that closes it:
      either would be a panic. */
  lemma NeverAfterClose(c: Config, run: seq<Step>, e: Step)
    requires Replay(c, run).Some? && Enabled(c, Replay(c, run).value, e)
    ensures e == Feed(FeedSend) || e == Feed(FeedClose) ==> Feed(FeedClose) !in run
    ensures (e.Read? && e.r == SendBlob) || e == CloseBlobs ==> CloseBlobs !in run
    ensures e == Flush(SendPack) || e == Flush(ClosePacks) ==> Flush(ClosePacks) !in run
  {
    RunInv(c, run);
    RunClosed(c, run);
    var s := Replay(c, run).value;
    if e.Read? {
      assert !Signalled(s.workers[e.w]);
    }
  }

  /** The queues hold at most 64 files, 128 chunks and 8 packs. */
  lemma QueueBounds(c: Config, run: seq<Step>)
    requires Replay(c, run).Some?
    ensures var s := Replay(c, run).value; |s.fileCh.buf| <= 64 && |s.blobCh.buf| <= 128 && |s.packCh.buf| <= 8
  {
    RunInv(c, run);
  }

  /** How many steps of the run are of the given kind. */
  function Count(run: seq<Step>, kind: Step -> bool): nat {
    if run == [] then 0 else Count(run[..|run| - 1], kind) + if kind(run[|run| - 1]) then 1 else 0
  }

  function CountersIn(run: seq<Step>): Counters {
    Counters(Count(run, e => e == Feed(FeedSend)), Count(run, TakesFile), Count(run, RecordsFile),
             Count(run, SendsBlob), Count(run, e => e == Assemble(TakeBlob)), Count(run, e => e == Flush(SendPack)),
             Count(run, TakesPack), Count(run, CountsPack), Count(run, Cancels))
  }

  /** In every run, the feeder has sent as many files as it has made sends, and so on for every
      stage: no counter runs ahead of its steps or behind them. */
  lemma {:induction false} CountersAreTrue(c: Config, run: seq<Step>)
    requires Replay(c, run).Some?
    ensures CountersOf(Replay(c, run).value) == CountersIn(run)
  {
    if run != [] {
      CountersAreTrue(c, run[..|run| - 1]);
      StepFollows(c, Replay(c, run[..|run| - 1]).value, run[|run| - 1]);
    }
  }
}
