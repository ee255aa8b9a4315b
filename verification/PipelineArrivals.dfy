/** In which orders chunks can reach the assembler, and what packs an order leads to. */
module PipelineArrivals {
  import opened Wrappers
  import opened Blob
  import opened Pipeline
  import opened PipelineShape
  import opened PipelineFrames
  import opened PipelineFiles
  import opened PipelineBlobs
  import opened PipelineTheorems

  // ---- orders ----

  function Count(order: seq<nat>, f: nat): nat {
    if order == [] then 0
    else Count(order[..|order| - 1], f) + if order[|order| - 1] == f then 1 else 0
  }

  /** After these sends, file f has chunks left. */
  predicate Unsent(c: Config, order: seq<nat>, f: nat) {
    f < |c.files| && Count(order, f) < |c.files[f].items|
  }

  /** The files that workers took before file f and are still busy with. */
  function Ahead(c: Config, order: seq<nat>, f: nat): set<nat> {
    set g: nat | 0 <= g < f && Unsent(c, order, g)
  }

  /** The next send can be one of file f: a worker is left over for it. */
  predicate MaySend(c: Config, order: seq<nat>, f: nat) {
    Unsent(c, order, f) && |Ahead(c, order, f)| < c.chunkWorkers
  }

  /** An order of sends, given by the files they are for: files are begun in walk order, each by
      one worker, which sends the file's chunks in order and then goes on to the next file. */
  predicate Feasible(c: Config, order: seq<nat>) {
    order == [] ||
    (Feasible(c, order[..|order| - 1]) && MaySend(c, order[..|order| - 1], order[|order| - 1]))
  }

  /** Every chunk has been sent. */
  ghost predicate SentAll(c: Config, order: seq<nat>) {
    forall f: nat :: f < |c.files| ==> !Unsent(c, order, f)
  }

  /** The chunks in the order in which they are sent. */
  function Arrival(c: Config, order: seq<nat>): (items: seq<Item>)
    requires Feasible(c, order)
    ensures |items| == |order|
  {
    if order == [] then
      []
    else
      var init, f := order[..|order| - 1], order[|order| - 1];
      Arrival(c, init) + [c.files[f].items[Count(init, f)]]
  }

  lemma {:induction false} FeasiblePrefix(c: Config, order: seq<nat>, n: nat)
    requires Feasible(c, order) && n <= |order|
    ensures Feasible(c, order[..n]) && Arrival(c, order[..n]) == Arrival(c, order)[..n]
    decreases |order|
  {
    if n < |order| {
      FeasiblePrefix(c, order[..|order| - 1], n);
      assert order[..|order| - 1][..n] == order[..n];
    } else {
      assert order[..n] == order;
    }
  }

  lemma FeasiblePush(c: Config, order: seq<nat>, f: nat)
    requires Feasible(c, order) && MaySend(c, order, f)
    ensures Feasible(c, order + [f])
    ensures Arrival(c, order + [f]) == Arrival(c, order) + [c.files[f].items[Count(order, f)]]
  {
    assert (order + [f])[..|order|] == order;
  }

  lemma CountPush(order: seq<nat>, f: nat, g: nat)
    ensures Count(order + [f], g) == Count(order, g) + if f == g then 1 else 0
  {
    assert (order + [f])[..|order|] == order;
  }

  // ---- packs ----

  /** What a stream of chunks is cut into: packs that reached the target, the pack under
      construction, and the addresses claimed. */
  datatype Cut = Cut(packs: seq<seq<Item>>, open: seq<Item>, claimed: set<ID>)

  function Gather(c: Config, cut: Cut, it: Item): Cut {
    if it.id in c.known || it.id in cut.claimed then
      cut
    else if Size(cut.open + [it]) >= c.packTarget then
      Cut(cut.packs + [cut.open + [it]], [], cut.claimed + {it.id})
    else
      Cut(cut.packs, cut.open + [it], cut.claimed + {it.id})
  }

  function CutOf(c: Config, items: seq<Item>): Cut {
    if items == [] then Cut([], [], {}) else Gather(c, CutOf(c, items[..|items| - 1]), items[|items| - 1])
  }

  function AllPacks(cut: Cut): seq<seq<Item>> {
    if cut.open == [] then cut.packs else cut.packs + [cut.open]
  }

  /** The packs that chunks arriving in this order are gathered into. */
  function PacksOf(c: Config, order: seq<nat>): seq<seq<Item>>
    requires Feasible(c, order)
  {
    AllPacks(CutOf(c, Arrival(c, order)))
  }

  ghost predicate AllFit(c: Config, packs: seq<seq<Item>>) {
    forall t :: 0 <= t < |packs| ==> c.fits(packs[t])
  }

  lemma CutPush(c: Config, items: seq<Item>, it: Item)
    ensures CutOf(c, items + [it]) == Gather(c, CutOf(c, items), it)
  {
    assert (items + [it])[..|items|] == items;
  }

  lemma {:induction false} CutPrefix(c: Config, items: seq<Item>, n: nat)
    requires n <= |items|
    ensures CutOf(c, items[..n]).packs <= CutOf(c, items).packs
    decreases |items|
  {
    if n < |items| {
      var init := items[..|items| - 1];
      CutPrefix(c, init, n);
      assert init[..n] == items[..n];
      assert CutOf(c, init).packs <= CutOf(c, items).packs;
    } else {
      assert items[..n] == items;
    }
  }

  // ---- every run that is not doomed follows an order ----

  /** What has been sent so far, and how far each file is, is given by the order of the sends. */
  ghost predicate Follows(c: Config, origin: seq<nat>, sent: seq<Item>, progress: seq<nat>) {
    && Feasible(c, origin) && sent == Arrival(c, origin)
    && |progress| == |c.files| && forall f :: 0 <= f < |progress| ==> progress[f] == Count(origin, f)
  }

  ghost predicate CutStage(asm: Assembler, writer: seq<Item>, made: seq<seq<Item>>, cut: Cut) {
    match asm
    case AwaitBlob => made == cut.packs && writer == cut.open
    case Holding(_) => made == cut.packs && writer == cut.open
    case Flushing(last) =>
      if last then made == cut.packs && writer == cut.open else made + [writer] == cut.packs && cut.open == []
    case Shipping(pack, last) =>
      if last then made == cut.packs && pack == cut.open else made + [pack] == cut.packs && cut.open == []
    case _ => made == AllPacks(cut)
  }

  /** What has been made so far is what the chunks decided on so far are cut into. */
  ghost predicate Cutting(c: Config, asm: Assembler, handled: seq<Item>, inFlight: set<ID>, writer: seq<Item>,
                          made: seq<seq<Item>>) {
    var cut := CutOf(c, Decided(handled, asm));
    cut.claimed == inFlight && (forall id :: id in inFlight ==> !IsZero(id)) && CutStage(asm, writer, made, cut)
  }

  ghost predicate Accepted(c: Config, asm: Assembler, made: seq<seq<Item>>) {
    AllFit(c, made) && (asm.Shipping? ==> c.fits(asm.pack))
  }

  ghost predicate OrderInv(c: Config, s: State) {
    && Follows(c, s.log.origin, s.log.sent, s.log.progress)
    && Cutting(c, s.asm, s.log.handled, s.inFlight, s.writer, s.log.made)
  }

  lemma {:induction false} InjectiveSize(s: set<nat>, into: seq<nat>, bound: set<nat>)
    requires forall g :: g in s ==> g < |into| && into[g] in bound
    requires forall g, g' :: g in s && g' in s && into[g] == into[g'] ==> g == g'
    ensures |s| <= |bound|
    decreases |s|
  {
    if s != {} {
      var g :| g in s;
      InjectiveSize(s - {g}, into, bound - {into[g]});
    }
  }

  function Below(n: nat): (s: set<nat>)
    ensures |s| == n && forall i :: i in s <==> 0 <= i < n
  {
    if n == 0 then {} else Below(n - 1) + {n - 1}
  }

  /** A worker that is sending a chunk of file f leaves at most W - 1 workers for the files
      before f. */
  lemma AheadOfWorker(c: Config, workers: seq<Worker>, w: nat, owner: seq<nat>, chunks: seq<Option<seq<ID>>>,
                      progress: seq<nat>, sent: seq<Item>, bytesRead: nat, origin: seq<nat>)
    requires Files(c, workers, owner, chunks, progress, sent, bytesRead) && Follows(c, origin, sent, progress)
    requires |workers| == c.chunkWorkers && w < |workers| && workers[w].Offering?
    ensures MaySend(c, origin, workers[w].file)
  {
    var f := workers[w].file;
    assert Exact(c, workers[w], w, owner, chunks, progress);
    var ahead := Ahead(c, origin, f);
    forall g | g in ahead
      ensures g < |owner| && Holds(workers[owner[g]], g) && owner[g] in Below(|workers|) - {w}
    {
      assert progress[g] == Count(origin, g) && chunks[g].None?;
    }
    InjectiveSize(ahead, owner, Below(|workers|) - {w});
  }

  lemma SendFollows(c: Config, origin: seq<nat>, sent: seq<Item>, progress: seq<nat>, f: nat)
    requires Follows(c, origin, sent, progress) && MaySend(c, origin, f)
    ensures Follows(c, origin + [f], sent + [c.files[f].items[progress[f]]], progress[f := progress[f] + 1])
  {
    FeasiblePush(c, origin, f);
    forall g | 0 <= g < |progress|
      ensures Count(origin + [f], g) == progress[f := progress[f] + 1][g]
    {
      CountPush(origin, f, g);
    }
  }

  lemma ReadFollows(c: Config, s: State, w: nat, r: ReadStep)
    requires Shape(c, s) && CanRead(c, s, w, r) && FilesClean(c, s)
    requires Follows(c, s.log.origin, s.log.sent, s.log.progress)
    ensures var t := DoRead(c, s, w, r); Follows(c, t.log.origin, t.log.sent, t.log.progress)
  {
    if r.SendBlob? {
      AheadOfWorker(c, s.workers, w, s.log.owner, s.chunks, s.log.progress, s.log.sent, s.stats.bytesRead,
                    s.log.origin);
      assert Exact(c, s.workers[w], w, s.log.owner, s.chunks, s.log.progress);
      SendFollows(c, s.log.origin, s.log.sent, s.log.progress, s.workers[w].file);
    }
  }

  lemma TakeCuts(c: Config, handled: seq<Item>, x: Item, inFlight: set<ID>, writer: seq<Item>, made: seq<seq<Item>>)
    requires Cutting(c, AwaitBlob, handled, inFlight, writer, made)
    ensures Cutting(c, Holding(x), handled + [x], inFlight, writer, made)
  {
    assert (handled + [x])[..|handled|] == handled;
  }

  /** The assembler does to its pack what gathering does to the cut. */
  lemma GatherStage(c: Config, it: Item, next: Assembler, writer: seq<Item>, made: seq<seq<Item>>, cut: Cut)
    requires CutStage(Holding(it), writer, made, cut) && it.id !in c.known && it.id !in cut.claimed
    requires next == if Size(writer + [it]) >= c.packTarget then Flushing(false) else AwaitBlob
    ensures CutStage(next, writer + [it], made, Gather(c, cut, it))
  {
  }

  lemma {:induction false} DecideCuts(c: Config, it: Item, next: Assembler, handled: seq<Item>, inFlight: set<ID>,
                                      writer: seq<Item>, made: seq<seq<Item>>)
    requires Cutting(c, Holding(it), handled, inFlight, writer, made)
    requires handled != [] && handled[|handled| - 1] == it
    requires it.id in c.known || it.id in inFlight ==> next == AwaitBlob
    requires !(it.id in c.known || it.id in inFlight) ==>
      !IsZero(it.id) && next == if Size(writer + [it]) >= c.packTarget then Flushing(false) else AwaitBlob
    ensures if it.id in c.known || it.id in inFlight then
        Cutting(c, next, handled, inFlight, writer, made)
      else
        Cutting(c, next, handled, inFlight + {it.id}, writer + [it], made)
  {
    var before := handled[..|handled| - 1];
    assert handled == before + [it];
    CutPush(c, before, it);
    if !(it.id in c.known || it.id in inFlight) {
      GatherStage(c, it, next, writer, made, CutOf(c, before));
    }
  }

  lemma AssembleCuts(c: Config, s: State, b: AsmStep)
    requires CanAssemble(s, b) && AddOutcome(s, b) && BlobsClean(c, s)
    requires !b.AddFail? && !b.TakeBlobCancel?
    requires Cutting(c, s.asm, s.log.handled, s.inFlight, s.writer, s.log.made)
    ensures var t := DoAssemble(c, s, b); Cutting(c, t.asm, t.log.handled, t.inFlight, t.writer, t.log.made)
  {
    match b {
      case TakeBlob => TakeCuts(c, s.log.handled, s.blobCh.buf[0], s.inFlight, s.writer, s.log.made);
      case NoMoreBlobs =>
      case Decide =>
        DecideCuts(c, s.asm.item, DoAssemble(c, s, b).asm, s.log.handled, s.inFlight, s.writer, s.log.made);
      case _ =>
    }
  }

  lemma FlushCuts(c: Config, s: State, l: FlushStep)
    requires CanFlush(s, l) && AsmOk(s.asm, s.writer) && !l.FinishFail? && !l.SendPackCancel?
    requires Cutting(c, s.asm, s.log.handled, s.inFlight, s.writer, s.log.made)
    ensures var t := DoFlush(s, l); Cutting(c, t.asm, t.log.handled, t.inFlight, t.writer, t.log.made)
  {
    match l {
      case Finish =>
      case SendPack =>
      case ClosePacks =>
      case AsmExit =>
      case _ =>
    }
  }

  lemma StepOrder(c: Config, s: State, e: Step)
    requires Inv(c, s) && Enabled(c, s, e) && OrderInv(c, s)
    requires Apply(c, s, e).log.doom == Sound
    ensures OrderInv(c, Apply(c, s, e))
  {
    StepDooming(c, s, e);
    match e {
      case CancelParent =>
      case Feed(f) => FeedFrame(s, f);
      case Work(w, a) => WorkFrame(s, w, a);
      case Read(w, r) => ReadFrame(c, s, w, r); ReadFollows(c, s, w, r);
      case CloseBlobs =>
      case Assemble(b) => AssembleFrame(c, s, b); AssembleCuts(c, s, b);
      case Flush(l) => FlushFrame(s, l); FlushCuts(c, s, l);
      case Upload(u, d) => UploadFrame(s, u, d);
      case Put(u, p) => PutFrame(c, s, u, p);
    }
  }

  /** However the run was scheduled: the chunks arrived in a feasible order, and the packs are
      those which that order leads to. */
  lemma {:induction false} RunOrder(c: Config, run: seq<Step>)
    requires Replay(c, run).Some? && Replay(c, run).value.log.doom == Sound
    ensures OrderInv(c, Replay(c, run).value)
  {
    if run != [] {
      var s := Replay(c, run[..|run| - 1]).value;
      RunInv(c, run[..|run| - 1]);
      StepDooming(c, s, run[|run| - 1]);
      RunOrder(c, run[..|run| - 1]);
      StepOrder(c, s, run[|run| - 1]);
    }
  }

  lemma FlushAccepted(c: Config, s: State, l: FlushStep)
    requires CanFlush(s, l) && FinishOutcome(c, s, l) && Accepted(c, s.asm, s.log.made)
    ensures Accepted(c, DoFlush(s, l).asm, DoFlush(s, l).log.made)
  {
    match l {
      case SendPack => assert DoFlush(s, l).log.made == s.log.made + [s.asm.pack];
      case _ => assert DoFlush(s, l).log.made == s.log.made;
    }
  }

  lemma StepAccepted(c: Config, s: State, e: Step)
    requires Enabled(c, s, e) && Accepted(c, s.asm, s.log.made)
    ensures Accepted(c, Apply(c, s, e).asm, Apply(c, s, e).log.made)
  {
    match e {
      case CancelParent =>
      case Feed(f) => FeedFrame(s, f);
      case Work(w, a) => WorkFrame(s, w, a);
      case Read(w, r) => ReadFrame(c, s, w, r);
      case CloseBlobs =>
      case Assemble(b) => AssembleFrame(c, s, b);
      case Flush(l) => FlushAccepted(c, s, l);
      case Upload(u, d) => UploadFrame(s, u, d);
      case Put(u, p) => PutFrame(c, s, u, p);
    }
  }

  lemma ReadOrigin(c: Config, s: State, w: nat, r: ReadStep)
    requires CanRead(c, s, w, r)
    ensures s.log.origin <= DoRead(c, s, w, r).log.origin
  {
  }

  lemma StepOrigin(c: Config, s: State, e: Step)
    requires Enabled(c, s, e)
    ensures s.log.origin <= Apply(c, s, e).log.origin
    ensures !e.Read? ==> Apply(c, s, e).log.origin == s.log.origin
  {
    match e {
      case CancelParent =>
      case Feed(f) => FeedFrame(s, f);
      case Work(w, a) => WorkFrame(s, w, a);
      case Read(w, r) => ReadOrigin(c, s, w, r);
      case CloseBlobs =>
      case Assemble(b) => AssembleFrame(c, s, b);
      case Flush(l) => FlushFrame(s, l);
      case Upload(u, d) => UploadFrame(s, u, d);
      case Put(u, p) => PutFrame(c, s, u, p);
    }
  }

  /** Every pack handed on, by a failed run too, was accepted by Finish. */
  lemma {:induction false} RunAccepted(c: Config, run: seq<Step>)
    requires Replay(c, run).Some?
    ensures Accepted(c, Replay(c, run).value.asm, Replay(c, run).value.log.made)
  {
    if run != [] {
      RunAccepted(c, run[..|run| - 1]);
      StepAccepted(c, Replay(c, run[..|run| - 1]).value, run[|run| - 1]);
    }
  }

  lemma {:induction false} OriginGrows(c: Config, run: seq<Step>, whole: seq<Step>)
    requires run <= whole && Replay(c, whole).Some?
    ensures Replay(c, run).Some? && Replay(c, run).value.log.origin <= Replay(c, whole).value.log.origin
    decreases |whole|
  {
    if run == whole {
    } else {
      var init := whole[..|whole| - 1];
      assert run <= init;
      OriginGrows(c, run, init);
      StepOrigin(c, Replay(c, init).value, whole[|whole| - 1]);
    }
  }
}
