/** When a backup can still succeed: exactly which sources, and which orders of arrival, lead to
    a run that BackupFiles reports as a success. */
module PipelineSuccess {
  import opened Wrappers
  import opened Blob
  import opened Pipeline
  import opened PipelineShape
  import opened PipelineFiles
  import opened PipelineBlobs
  import opened PipelineTheorems
  import opened PipelineProgress
  import opened PipelineArrivals
  import opened PipelineCap

  /** Every file can be read to its end, and Add will refuse none of the new chunks. */
  ghost predicate Healthy(c: Config) {
    && (forall f :: 0 <= f < |c.files| ==> c.files[f].ok)
    && (forall id :: id in IdSet(AllChunks(c.files)) - c.known ==> !IsZero(id))
  }

  /** A way to send all chunks, after those of `sofar`, so that Finish accepts every pack. */
  ghost predicate Leads(c: Config, sofar: seq<nat>, order: seq<nat>) {
    sofar <= order && Feasible(c, order) && SentAll(c, order) && AllFit(c, PacksOf(c, order))
  }

  /** A continuation of the run that BackupFiles reports as a success. */
  ghost predicate Succeeds(c: Config, run: seq<Step>, whole: seq<Step>) {
    run <= whole && Replay(c, whole).Some? && Passes(Replay(c, whole).value)
  }

  // ---- what a successful run shows ----

  lemma PassingOrder(c: Config, run: seq<Step>)
    requires c.Valid() && Replay(c, run).Some? && Passes(Replay(c, run).value)
    ensures Healthy(c) && Replay(c, run).value.log.doom == Sound
    ensures var order := Replay(c, run).value.log.origin;
      Leads(c, order, order) && PacksOf(c, order) == Replay(c, run).value.log.made
  {
    var s := Replay(c, run).value;
    RunInv(c, run);
    PassingFiles(c, s);
    RunOrder(c, run);
    RunAccepted(c, run);
    Complete(c, run);
    IdSetOfPermutation(s.log.handled, AllChunks(c.files));
  }

  // ---- following an order ----

  lemma {:induction false} SendsAt(c: Config, order: seq<nat>, k: nat)
    requires Feasible(c, order) && k < |order|
    ensures MaySend(c, order[..k], order[k])
  {
    if k < |order| - 1 {
      SendsAt(c, order[..|order| - 1], k);
      assert order[..|order| - 1][..k] == order[..k];
    }
  }

  /** An order ends when every chunk has been sent. */
  lemma Exhausted(c: Config, sofar: seq<nat>, order: seq<nat>)
    requires Feasible(c, order) && sofar <= order && SentAll(c, sofar)
    ensures sofar == order
  {
    var k := |sofar|;
    assert order[..k] == sofar;
    if k < |order| {
      SendsAt(c, order, k);
    }
  }

  /** The worker's move, except that it waits until the chunk it offers is next in the order. */
  function OrderedMove(c: Config, s: State, order: seq<nat>, w: nat): Option<Step>
    requires w < |s.workers|
  {
    var k := |s.log.origin|;
    if s.workers[w].Offering? && (k >= |order| || order[k] != s.workers[w].file) then None else WorkerMove(c, s, w)
  }

  /** The run is undoomed and has followed the order so far. */
  ghost predicate Toward(c: Config, s: State, order: seq<nat>) {
    Inv(c, s) && s.log.doom == Sound && OrderInv(c, s) && Leads(c, s.log.origin, order)
  }

  ghost predicate StuckInOrder(c: Config, s: State, order: seq<nat>) {
    && FeederMove(c, s).None? && AssemblerMove(c, s).None?
    && (forall w :: 0 <= w < |s.workers| ==> OrderedMove(c, s, order, w).None?)
    && (forall u :: 0 <= u < |s.uploaders| ==> UploaderMove(c, s, u).None?)
  }

  lemma PacksTaken(c: Config, s: State)
    requires c.Valid() && |s.uploaders| == c.uploadWorkers && UploaderMove(c, s, 0).None? && !s.done
    requires DrainedPacks(s.uploaders, s.packCh)
    ensures s.packCh.buf == []
  {
  }

  lemma AssemblerWaits(c: Config, s: State)
    requires AssemblerMove(c, s).None? && !s.done && s.packCh.buf == []
    requires Drained(s.asm, s.blobCh, s.writer) && !s.blobCh.closed
    ensures s.blobCh.buf == []
  {
  }

  /** If nothing moves although a chunk is on offer, the assembler is waiting for chunks. */
  lemma RoomToSend(c: Config, s: State, w: nat)
    requires c.Valid() && Inv(c, s) && s.log.doom == Sound
    requires AssemblerMove(c, s).None? && UploaderMove(c, s, 0).None?
    requires w < |s.workers| && s.workers[w].Offering?
    ensures s.blobCh.buf == [] && !s.done
  {
    assert !Signalled(s.workers[w]);
    PacksTaken(c, s);
    AssemblerWaits(c, s);
  }

  lemma HolderHolds(c: Config, s: State, f: nat)
    requires Shape(c, s) && Clean(c, s) && Follows(c, s.log.origin, s.log.sent, s.log.progress)
    requires f < |s.log.owner| && Unsent(c, s.log.origin, f)
    ensures s.log.owner[f] < |s.workers| && Holds(s.workers[s.log.owner[f]], f)
  {
    assert s.log.progress[f] == Count(s.log.origin, f);
    assert s.chunks[f].None?;
  }

  /** The worker that holds the file whose chunk is awaited can move. */
  lemma HolderMoves(c: Config, s: State, order: seq<nat>, w: nat, f: nat)
    requires w < |s.workers| && Holds(s.workers[w], f) && s.blobCh.buf == []
    requires |s.log.origin| < |order| && f == order[|s.log.origin|]
    ensures OrderedMove(c, s, order, w).Some?
  {
  }

  /** Then no worker waits for a file, and none has left. */
  lemma StillBusy(c: Config, s: State, w: nat)
    requires Shape(c, s) && DrainedFiles(c, s.feeder, s.log.fed, s.fileCh, s.workers) && !s.done
    requires |s.log.owner| < |c.files| && w < |s.workers| && FeederMove(c, s).None?
    requires s.workers[w].Offering? || WorkerMove(c, s, w).None?
    ensures s.workers[w].Offering?
  {
  }

  /** All workers are offering chunks of earlier files. */
  lemma AllOffering(c: Config, s: State, order: seq<nat>, f: nat, w: nat)
    requires Toward(c, s, order) && StuckInOrder(c, s, order) && !s.done
    requires |s.log.owner| <= f < |c.files| && w < |s.workers|
    ensures s.workers[w].Offering? && s.workers[w].file in Ahead(c, s.log.origin, f)
    ensures s.workers[w].file < |s.log.owner| && s.log.owner[s.workers[w].file] == w
  {
    assert OrderedMove(c, s, order, w).None?;
    StillBusy(c, s, w);
    assert Exact(c, s.workers[w], w, s.log.owner, s.chunks, s.log.progress);
    assert s.log.progress[s.workers[w].file] == Count(s.log.origin, s.workers[w].file);
  }

  lemma NoneOffering(c: Config, s: State, order: seq<nat>, w: nat)
    requires c.Valid() && Toward(c, s, order) && StuckInOrder(c, s, order) && w < |s.workers|
    ensures !s.workers[w].Offering?
  {
    if s.workers[w].Offering? {
      assert UploaderMove(c, s, 0).None?;
      RoomToSend(c, s, w);
      var origin := s.log.origin;
      assert Exact(c, s.workers[w], w, s.log.owner, s.chunks, s.log.progress);
      assert s.log.progress[s.workers[w].file] == Count(origin, s.workers[w].file);
      assert Unsent(c, origin, s.workers[w].file);
      assert |origin| < |order| by {
        if origin == order { assert false; }
      }
      var f := order[|origin|];
      SendsAt(c, order, |origin|);
      assert order[..|origin|] == origin;
      if f < |s.log.owner| {
        HolderHolds(c, s, f);
        HolderMoves(c, s, order, s.log.owner[f], f);
      } else {
        Crowded(c, s, order, f);
      }
    }
  }

  lemma Crowded(c: Config, s: State, order: seq<nat>, f: nat)
    requires Toward(c, s, order) && StuckInOrder(c, s, order) && !s.done
    requires |s.log.owner| <= f < |c.files|
    ensures |Ahead(c, s.log.origin, f)| >= c.chunkWorkers
  {
    forall w | 0 <= w < |s.workers|
      ensures s.workers[w].Offering? && s.workers[w].file in Ahead(c, s.log.origin, f)
      ensures s.workers[w].file < |s.log.owner| && s.log.owner[s.workers[w].file] == w
    {
      AllOffering(c, s, order, f, w);
    }
    DistinctFiles(s.workers, s.log.owner, Ahead(c, s.log.origin, f));
  }

  /** Workers that each own their file have different files. */
  lemma DistinctFiles(workers: seq<Worker>, owner: seq<nat>, files: set<nat>)
    requires forall w :: 0 <= w < |workers| ==>
      workers[w].Offering? && workers[w].file in files
      && workers[w].file < |owner| && owner[workers[w].file] == w
    ensures |files| >= |workers|
  {
    var each := seq(|workers|, w requires 0 <= w < |workers| => workers[w].file);
    InjectiveSize(Below(|workers|), each, files);
  }

  lemma OrderNotStuck(c: Config, s: State, order: seq<nat>)
    requires c.Valid() && Toward(c, s, order) && StuckInOrder(c, s, order)
    ensures CanCloseBlobs(s) || AllGone(s)
  {
    forall w | 0 <= w < |s.workers|
      ensures WorkerMove(c, s, w).None?
    {
      NoneOffering(c, s, order, w);
      assert OrderedMove(c, s, order, w).None?;
    }
    StuckIsDone(c, s);
  }

  /** When the assembler starts its last flush, everything has been sent. */
  lemma LastFlush(c: Config, s: State)
    requires c.Valid() && Inv(c, s) && s.log.doom == Sound && OrderInv(c, s) && s.asm.Flushing? && s.asm.last
    ensures SentAll(c, s.log.origin) && s.log.handled == s.log.sent
  {
    assert Signalled(s.workers[0]) && Finished(s.workers[0]);
    forall f: nat | f < |c.files|
      ensures !Unsent(c, s.log.origin, f)
    {
      assert s.log.progress[f] == Count(s.log.origin, f);
      assert Signalled(s.workers[s.log.owner[f]]);
    }
  }

  lemma InPacks(c: Config, items: seq<Item>, n: nat, made: seq<seq<Item>>, writer: seq<Item>)
    requires AllFit(c, AllPacks(CutOf(c, items))) && n <= |items|
    requires made + [writer] == CutOf(c, items[..n]).packs
    ensures c.fits(writer)
  {
    CutPrefix(c, items, n);
    assert AllPacks(CutOf(c, items))[|made|] == writer;
  }

  lemma LastWriterFits(c: Config, s: State, order: seq<nat>)
    requires c.Valid() && Toward(c, s, order) && s.asm.Flushing? && s.asm.last
    ensures c.fits(s.writer)
  {
    LastFlush(c, s);
    Exhausted(c, s.log.origin, order);
    assert PacksOf(c, order) == s.log.made + [s.writer];
    assert PacksOf(c, order)[|s.log.made|] == s.writer;
  }

  lemma HandledPrefix(whole: seq<Item>, sent: seq<Item>, handled: seq<Item>, queue: seq<Item>)
    requires sent <= whole && sent == handled + queue
    ensures |handled| <= |whole| && handled == whole[..|handled|]
  {
  }

  lemma EarlierWriterFits(c: Config, s: State, order: seq<nat>)
    requires Leads(c, s.log.origin, order) && Follows(c, s.log.origin, s.log.sent, s.log.progress)
    requires s.log.sent == s.log.handled + s.blobCh.buf && s.asm == Flushing(false)
    requires CutStage(s.asm, s.writer, s.log.made, CutOf(c, s.log.handled))
    ensures c.fits(s.writer)
  {
    FeasiblePrefix(c, order, |s.log.origin|);
    assert order[..|s.log.origin|] == s.log.origin;
    HandledPrefix(Arrival(c, order), s.log.sent, s.log.handled, s.blobCh.buf);
    InPacks(c, Arrival(c, order), |s.log.handled|, s.log.made, s.writer);
  }

  lemma WriterFits(c: Config, s: State, order: seq<nat>)
    requires c.Valid() && Toward(c, s, order) && s.asm.Flushing?
    ensures c.fits(s.writer)
  {
    if s.asm.last {
      LastWriterFits(c, s, order);
    } else {
      EarlierWriterFits(c, s, order);
    }
  }

  lemma {:induction false} ArrivalFrom(c: Config, order: seq<nat>)
    requires Feasible(c, order)
    ensures forall it :: it in Arrival(c, order) ==> it in AllChunks(c.files)
  {
    if order != [] {
      var init, f := order[..|order| - 1], order[|order| - 1];
      ArrivalFrom(c, init);
      ChunkOf(c.files, f, Count(init, f));
    }
  }

  lemma {:induction false} ChunkOf(files: seq<Stream>, f: nat, k: nat)
    requires f < |files| && k < |files[f].items|
    ensures files[f].items[k] in AllChunks(files)
  {
    if f < |files| - 1 {
      ChunkOf(files[..|files| - 1], f, k);
    }
  }

  lemma HeldNotZero(c: Config, s: State, order: seq<nat>)
    requires Healthy(c) && Toward(c, s, order) && s.asm.Holding?
    ensures IsKnown(s, s.asm.item.id) || !IsZero(s.asm.item.id)
  {
    ArrivalFrom(c, s.log.origin);
    assert s.asm.item in s.log.sent;
  }

  /** The step is no failure, and if it sends a chunk, it is the one that is next. */
  ghost predicate Mild(s: State, order: seq<nat>, e: Step) {
    match e
    case CancelParent => false
    case Read(w, r) =>
      && !r.NextOverCap? && !r.NextError?
      && (r.SendBlob? ==>
           w < |s.workers| && s.workers[w].Offering?
           && |s.log.origin| < |order| && order[|s.log.origin|] == s.workers[w].file)
    case Assemble(b) => !b.AddFail?
    case Flush(l) => !l.FinishFail?
    case Put(_, p) => !p.StoreFail?
    case _ => true
  }

  ghost predicate AllMild(s: State, order: seq<nat>, e: Option<Step>) {
    e.Some? ==> Mild(s, order, e.value)
  }

  lemma MildRead(c: Config, s: State, order: seq<nat>, w: nat, r: ReadStep)
    requires CanRead(c, s, w, r) && Mild(s, order, Read(w, r)) && s.log.origin <= order
    ensures DoRead(c, s, w, r).log.doom == s.log.doom && DoRead(c, s, w, r).log.origin <= order
  {
  }

  lemma MildStep(c: Config, s: State, order: seq<nat>, e: Step)
    requires Enabled(c, s, e) && Mild(s, order, e) && s.log.origin <= order
    ensures Apply(c, s, e).log.doom == s.log.doom && Apply(c, s, e).log.origin <= order
  {
    StepOrigin(c, s, e);
    match e {
      case Read(w, r) => MildRead(c, s, order, w, r);
      case Assemble(b) =>
      case Put(u, p) =>
      case _ =>
    }
  }

  lemma AssemblerIsMild(c: Config, s: State, order: seq<nat>)
    requires s.asm.Holding? ==> IsKnown(s, s.asm.item.id) || !IsZero(s.asm.item.id)
    requires s.asm.Flushing? ==> c.fits(s.writer)
    ensures AllMild(s, order, AssemblerMove(c, s))
  {
  }

  lemma OthersAreMild(c: Config, s: State, order: seq<nat>)
    ensures AllMild(s, order, FeederMove(c, s))
    ensures forall u :: 0 <= u < |s.uploaders| ==> AllMild(s, order, UploaderMove(c, s, u))
  {
  }

  lemma WorkerIsMild(c: Config, s: State, order: seq<nat>, w: nat)
    requires Healthy(c) && w < |s.workers| && WorkerOk(c, |s.log.owner|, s.workers[w])
    requires !CanRead(c, s, w, NextOverCap)
    ensures AllMild(s, order, OrderedMove(c, s, order, w))
  {
  }

  /** Until all goroutines are gone, one of them can take a step that keeps to the order. */
  lemma NextInOrder(c: Config, run: seq<Step>, order: seq<nat>) returns (e: Step)
    requires c.Valid() && Healthy(c) && Uncapped(c) && Replay(c, run).Some?
    requires Toward(c, Replay(c, run).value, order) && !AllGone(Replay(c, run).value)
    ensures Replay(c, run + [e]).Some? && Toward(c, Replay(c, run + [e]).value, order)
  {
    var s := Replay(c, run).value;
    forall w | 0 <= w < |s.workers|
      ensures !CanRead(c, s, w, NextOverCap)
    {
      CapNeverBites(c, run, w);
    }
    e := MoveInOrder(c, s, order);
    MildStep(c, s, order, e);
    assert (run + [e])[..|run|] == run;
    RunInv(c, run + [e]);
    RunOrder(c, run + [e]);
  }

  lemma MoveInOrder(c: Config, s: State, order: seq<nat>) returns (e: Step)
    requires c.Valid() && Healthy(c) && Toward(c, s, order) && !AllGone(s)
    requires forall w :: 0 <= w < |s.workers| ==> !CanRead(c, s, w, NextOverCap)
    ensures Enabled(c, s, e) && Mild(s, order, e)
  {
    MovesEnabled(c, s);
    if s.asm.Holding? {
      HeldNotZero(c, s, order);
    } else if s.asm.Flushing? {
      WriterFits(c, s, order);
    }
    AssemblerIsMild(c, s, order);
    OthersAreMild(c, s, order);
    forall w | 0 <= w < |s.workers|
      ensures AllMild(s, order, OrderedMove(c, s, order, w)) && Moves(c, s, OrderedMove(c, s, order, w))
    {
      assert WorkerOk(c, |s.log.owner|, s.workers[w]) && Moves(c, s, WorkerMove(c, s, w));
      WorkerIsMild(c, s, order, w);
    }
    if StuckInOrder(c, s, order) {
      OrderNotStuck(c, s, order);
    }
    e := PickMove(c, s, order);
  }

  lemma PickMove(c: Config, s: State, order: seq<nat>) returns (e: Step)
    requires Moves(c, s, FeederMove(c, s)) && AllMild(s, order, FeederMove(c, s))
    requires Moves(c, s, AssemblerMove(c, s)) && AllMild(s, order, AssemblerMove(c, s))
    requires forall w :: 0 <= w < |s.workers| ==>
      AllMild(s, order, OrderedMove(c, s, order, w)) && Moves(c, s, OrderedMove(c, s, order, w))
    requires forall u :: 0 <= u < |s.uploaders| ==>
      AllMild(s, order, UploaderMove(c, s, u)) && Moves(c, s, UploaderMove(c, s, u))
    requires StuckInOrder(c, s, order) ==> CanCloseBlobs(s)
    ensures Enabled(c, s, e) && Mild(s, order, e)
  {
    if FeederMove(c, s).Some? {
      e := FeederMove(c, s).value;
    } else if AssemblerMove(c, s).Some? {
      e := AssemblerMove(c, s).value;
    } else if w :| 0 <= w < |s.workers| && OrderedMove(c, s, order, w).Some? {
      e := OrderedMove(c, s, order, w).value;
    } else if u :| 0 <= u < |s.uploaders| && UploaderMove(c, s, u).Some? {
      e := UploaderMove(c, s, u).value;
    } else {
      e := CloseBlobs;
    }
  }

  lemma {:induction false} FollowToEnd(c: Config, run: seq<Step>, order: seq<nat>) returns (whole: seq<Step>)
    requires c.Valid() && Healthy(c) && Uncapped(c) && Replay(c, run).Some?
    requires Toward(c, Replay(c, run).value, order)
    ensures Succeeds(c, run, whole)
    decreases Measure(c, Init(c)) - |run|
  {
    whole := run;
    if !AllGone(Replay(c, run).value) {
      var e := NextInOrder(c, run, order);
      RunsEnd(c, run + [e]);
      whole := FollowToEnd(c, run + [e], order);
    }
  }

  // ---- the condition ----

  /** A run in which nothing has failed so far can still succeed if and only if every file can be
      read, no new chunk has the zero ID, and the chunks not sent yet can arrive in such an order
      that the header of every pack is within the limit; provided that all files together stay
      within the byte cap, if there is one. With one worker this is necessary, too. */
  lemma CanSucceedIff(c: Config, run: seq<Step>)
    requires c.Valid() && Replay(c, run).Some? && Replay(c, run).value.log.doom == Sound
    ensures var possible := Healthy(c) && exists order :: Leads(c, Replay(c, run).value.log.origin, order);
      && (Uncapped(c) ==> ((exists whole :: Succeeds(c, run, whole)) <==> possible))
      && (c.chunkWorkers == 1 ==> ((exists whole :: Succeeds(c, run, whole)) <==> possible && Uncapped(c)))
  {
    var s := Replay(c, run).value;
    if whole :| Succeeds(c, run, whole) {
      PassingOrder(c, whole);
      if c.chunkWorkers == 1 {
        OneWorkerKeepsCap(c, whole);
      }
      OriginGrows(c, run, whole);
      assert Leads(c, s.log.origin, Replay(c, whole).value.log.origin);
    }
    if Healthy(c) && Uncapped(c) {
      if order :| Leads(c, s.log.origin, order) {
        RunInv(c, run);
        RunOrder(c, run);
        var whole := FollowToEnd(c, run, order);
      }
    }
  }
}
