/** Exactly when a backup with a byte cap can succeed. The cap counts recorded files and the
    worker's own, so what the other workers hold unrecorded escapes it. */
module PipelineCapacity {
  import opened Wrappers
  import opened Blob
  import opened Pipeline
  import opened PipelineShape
  import opened PipelineFrames
  import opened PipelineFiles
  import opened PipelineTheorems
  import opened PipelineProgress
  import opened PipelineArrivals
  import opened PipelineCap
  import opened PipelineSuccess
  import opened PipelineLimits

  /** The bytes of the first n files, without those in `held`. */
  function Rest(files: seq<Stream>, held: set<nat>, n: nat): nat
    requires n <= |files|
  {
    if n == 0 then 0 else Rest(files, held, n - 1) + if n - 1 in held then 0 else Size(files[n - 1].items)
  }

  /** Fewer of the first n files than there are workers. */
  ghost predicate Holdable(c: Config, held: set<nat>, n: nat) {
    |held| < c.chunkWorkers && forall f :: f in held ==> f < n
  }

  /** The file stays within the cap, together with the files before it but for some that other
      workers may hold. */
  ghost predicate Admits(c: Config, k: nat)
    requires k < |c.files|
  {
    c.files[k].items != [] ==>
      exists held :: Holdable(c, held, k) && Rest(c.files, held, k) + Size(c.files[k].items) <= c.maxBytes
  }

  ghost predicate CapAllows(c: Config) {
    c.maxBytes == 0 || forall k :: 0 <= k < |c.files| ==> Admits(c, k)
  }

  // ---- sums ----

  lemma {:induction false} RestAdd(files: seq<Stream>, held: set<nat>, h: nat, n: nat)
    requires h < n <= |files| && h !in held
    ensures Rest(files, held + {h}, n) + Size(files[h].items) == Rest(files, held, n)
  {
    if h < n - 1 {
      RestAdd(files, held, h, n - 1);
    } else {
      RestSame(files, held + {h}, held, n - 1);
    }
  }

  lemma {:induction false} RestSame(files: seq<Stream>, a: set<nat>, b: set<nat>, n: nat)
    requires n <= |files| && forall f :: 0 <= f < n ==> (f in a <==> f in b)
    ensures Rest(files, a, n) == Rest(files, b, n)
  {
    if n > 0 {
      RestSame(files, a, b, n - 1);
    }
  }

  lemma {:induction false} RestNone(files: seq<Stream>, held: set<nat>, n: nat)
    requires n <= |files| && forall f :: 0 <= f < n ==> f in held
    ensures Rest(files, held, n) == 0
  {
    if n > 0 {
      RestNone(files, held, n - 1);
    }
  }

  lemma {:induction false} RestAll(files: seq<Stream>, n: nat)
    requires n <= |files|
    ensures Rest(files, {}, n) == Size(AllChunks(files[..n]))
  {
    if n > 0 {
      RestAll(files, n - 1);
      assert files[..n][..n - 1] == files[..n - 1];
      SizeAppend(AllChunks(files[..n - 1]), files[n - 1].items);
    }
  }

  /** The files among the first n that are not recorded. */
  function Waiting(chunks: seq<Option<seq<ID>>>, n: nat): set<nat>
    requires n <= |chunks|
  {
    set f: nat | 0 <= f < n && chunks[f].None?
  }

  lemma {:induction false} RestRecorded(files: seq<Stream>, chunks: seq<Option<seq<ID>>>, held: set<nat>, n: nat)
    requires |files| == |chunks| && n <= |files| && forall f :: 0 <= f < n ==> (f in held <==> chunks[f].None?)
    ensures RecordedBytes(files[..n], chunks[..n]) == Rest(files, held, n)
  {
    if n > 0 {
      RestRecorded(files, chunks, held, n - 1);
      assert files[..n][..n - 1] == files[..n - 1] && chunks[..n][..n - 1] == chunks[..n - 1];
    }
  }

  lemma {:induction false} RecordedPrefix(files: seq<Stream>, chunks: seq<Option<seq<ID>>>, n: nat)
    requires |files| == |chunks| && n <= |files|
    ensures RecordedBytes(files[..n], chunks[..n]) <= RecordedBytes(files, chunks)
    ensures (forall f :: n <= f < |files| ==> chunks[f].None?) ==>
      RecordedBytes(files[..n], chunks[..n]) == RecordedBytes(files, chunks)
    decreases |files|
  {
    if n < |files| {
      var m := |files| - 1;
      RecordedPrefix(files[..m], chunks[..m], n);
      assert files[..m][..n] == files[..n] && chunks[..m][..n] == chunks[..n];
    } else {
      assert files[..n] == files && chunks[..n] == chunks;
    }
  }

  /** What is recorded, in terms of what is not. */
  lemma BytesRecorded(files: seq<Stream>, chunks: seq<Option<seq<ID>>>, n: nat)
    requires |files| == |chunks| && n <= |files|
    ensures Rest(files, Waiting(chunks, n), n) <= RecordedBytes(files, chunks)
    ensures (forall f :: n <= f < |files| ==> chunks[f].None?) ==>
      Rest(files, Waiting(chunks, n), n) == RecordedBytes(files, chunks)
  {
    RestRecorded(files, chunks, Waiting(chunks, n), n);
    RecordedPrefix(files, chunks, n);
  }

  // ---- what a successful run shows ----

  /** Unrecorded files before a worker's own are in the hands of the others. */
  lemma OthersHold(c: Config, workers: seq<Worker>, w: nat, owner: seq<nat>, chunks: seq<Option<seq<ID>>>,
                   progress: seq<nat>, sent: seq<Item>, bytesRead: nat)
    requires Files(c, workers, owner, chunks, progress, sent, bytesRead) && |workers| == c.chunkWorkers
    requires w < |workers| && Busy(workers[w])
    ensures workers[w].file < |owner| && Holdable(c, Waiting(chunks, workers[w].file), workers[w].file)
  {
    assert Exact(c, workers[w], w, owner, chunks, progress);
    var waiting := Waiting(chunks, workers[w].file);
    forall g | g in waiting
      ensures g < |owner| && owner[g] in Below(|workers|) - {w} && Holds(workers[owner[g]], g)
    {
    }
    InjectiveSize(waiting, owner, Below(|workers|) - {w});
  }

  lemma LastAdmits(c: Config, s: State, w: nat)
    requires c.maxBytes > 0 && Shape(c, s) && FilesClean(c, s) && CanRead(c, s, w, NextChunk)
    requires |s.workers[w].ids| + 1 == |c.files[s.workers[w].file].items|
    ensures Admits(c, s.workers[w].file)
  {
    var pc := s.workers[w];
    assert Exact(c, pc, w, s.log.owner, s.chunks, s.log.progress);
    OthersHold(c, s.workers, w, s.log.owner, s.chunks, s.log.progress, s.log.sent, s.stats.bytesRead);
    BytesRecorded(c.files, s.chunks, pc.file);
    OneMoreRead(c.files[pc.file].items, |pc.ids|, pc.read);
    assert c.files[pc.file].items[..|pc.ids| + 1] == c.files[pc.file].items;
  }

  /** Files that have been read to the end have passed the cap. */
  ghost predicate Admitted(c: Config, workers: seq<Worker>, chunks: seq<Option<seq<ID>>>) {
    && |chunks| == |c.files|
    && (forall i :: 0 <= i < |workers| && Busy(workers[i]) ==>
         workers[i].file < |c.files|
         && (|workers[i].ids| == |c.files[workers[i].file].items| ==> Admits(c, workers[i].file)))
    && (forall f :: 0 <= f < |chunks| && chunks[f].Some? ==> Admits(c, f))
  }

  lemma ReadAdmitted(c: Config, s: State, w: nat, r: ReadStep)
    requires c.maxBytes > 0 && Shape(c, s) && FilesClean(c, s) && !s.done && CanRead(c, s, w, r)
    requires Admitted(c, s.workers, s.chunks)
    ensures Admitted(c, DoRead(c, s, w, r).workers, DoRead(c, s, w, r).chunks)
  {
    match r {
      case NextChunk =>
        if |s.workers[w].ids| + 1 == |c.files[s.workers[w].file].items| {
          LastAdmits(c, s, w);
        }
      case _ =>
    }
  }

  lemma StaysAdmitted(c: Config, workers: seq<Worker>, w: nat, next: Worker, chunks: seq<Option<seq<ID>>>)
    requires Admitted(c, workers, chunks) && w < |workers|
    requires Busy(next) ==> next.file < |c.files|
    requires Busy(next) && |next.ids| == |c.files[next.file].items| ==> Admits(c, next.file)
    ensures Admitted(c, workers[w := next], chunks)
  {
  }

  lemma RecordAdmitted(c: Config, s: State, w: nat)
    requires Shape(c, s) && FilesClean(c, s) && CanWork(s, w, Record) && Admitted(c, s.workers, s.chunks)
    ensures Admitted(c, DoWork(s, w, Record).workers, DoWork(s, w, Record).chunks)
  {
    assert Exact(c, s.workers[w], w, s.log.owner, s.chunks, s.log.progress);
    StaysAdmitted(c, s.workers, w, AwaitFile, s.chunks);
  }

  lemma WorkAdmitted(c: Config, s: State, w: nat, a: WorkStep)
    requires Shape(c, s) && FilesClean(c, s) && CanWork(s, w, a) && Admitted(c, s.workers, s.chunks)
    ensures Admitted(c, DoWork(s, w, a).workers, DoWork(s, w, a).chunks)
  {
    if a == Record {
      RecordAdmitted(c, s, w);
    } else {
      StaysAdmitted(c, s.workers, w, DoWork(s, w, a).workers[w], s.chunks);
    }
  }

  lemma StepAdmitted(c: Config, s: State, e: Step)
    requires c.maxBytes > 0 && Shape(c, s) && FilesClean(c, s) && !s.done && Enabled(c, s, e)
    requires Admitted(c, s.workers, s.chunks)
    ensures Admitted(c, Apply(c, s, e).workers, Apply(c, s, e).chunks)
  {
    match e {
      case CancelParent =>
      case Feed(f) => FeedFrame(s, f);
      case Work(w, a) => WorkAdmitted(c, s, w, a);
      case Read(w, r) => ReadAdmitted(c, s, w, r);
      case CloseBlobs =>
      case Assemble(b) => AssembleFrame(c, s, b);
      case Flush(l) => FlushFrame(s, l);
      case Upload(u, d) => UploadFrame(s, u, d);
      case Put(u, p) => PutFrame(c, s, u, p);
    }
  }

  lemma {:induction false} RunAdmitted(c: Config, run: seq<Step>)
    requires c.maxBytes > 0 && Replay(c, run).Some? && Replay(c, run).value.log.doom == Sound
    ensures Admitted(c, Replay(c, run).value.workers, Replay(c, run).value.chunks)
  {
    if run != [] {
      var s := Replay(c, run[..|run| - 1]).value;
      RunInv(c, run[..|run| - 1]);
      StepDooming(c, s, run[|run| - 1]);
      RunAdmitted(c, run[..|run| - 1]);
      StepAdmitted(c, s, run[|run| - 1]);
    }
  }

  /** A run that passes shows that the cap allows its source. */
  lemma PassingAllowed(c: Config, run: seq<Step>)
    requires c.Valid() && Replay(c, run).Some? && Passes(Replay(c, run).value)
    ensures CapAllows(c)
  {
    if c.maxBytes > 0 {
      RunInv(c, run);
      PassingFiles(c, Replay(c, run).value);
      RunAdmitted(c, run);
    }
  }

  // ---- the best files to hold ----

  /** No other choice of files to hold leaves fewer bytes recorded. */
  ghost predicate Best(c: Config, held: set<nat>, n: nat)
    requires n <= |c.files|
  {
    && Holdable(c, held, n)
    && forall other :: Holdable(c, other, n) ==> Rest(c.files, held, n) <= Rest(c.files, other, n)
  }

  ghost predicate Smallest(c: Config, held: set<nat>, h: nat) {
    && h in held && h < |c.files|
    && forall g :: g in held && g < |c.files| ==> Size(c.files[h].items) <= Size(c.files[g].items)
  }

  lemma {:induction false} SmallestOf(c: Config, held: set<nat>) returns (h: nat)
    requires held != {} && forall g :: g in held ==> g < |c.files|
    ensures Smallest(c, held, h)
  {
    h :| h in held;
    if held != {h} {
      var other := SmallestOf(c, held - {h});
      if Size(c.files[other].items) < Size(c.files[h].items) {
        h := other;
      }
    }
  }

  /** Holding all files, while there are fewer of them than workers. */
  lemma BestAll(c: Config, n: nat)
    requires n <= |c.files| && n < c.chunkWorkers
    ensures Best(c, Below(n), n)
  {
    RestNone(c.files, Below(n), n);
  }

  /** One choice without file n, compared with keeping all but the smallest. */
  lemma WithoutNew(c: Config, held: set<nat>, n: nat, h: nat, other: set<nat>)
    requires n < |c.files| && Best(c, held, n) && Smallest(c, held + {n}, h)
    requires Holdable(c, other, n + 1) && n !in other
    ensures Rest(c.files, held, n) + Size(c.files[h].items) <= Rest(c.files, other, n + 1)
  {
    assert Holdable(c, other, n);
  }

  lemma Left(held: set<nat>, o: set<nat>) returns (g: nat)
    requires |o| < |held|
    ensures g in held && g !in o
  {
    if forall x :: x in held ==> x in o {
      SubsetSmaller(held, o);
    }
    g :| g in held && g !in o;
  }

  lemma {:induction false} SubsetSmaller(a: set<nat>, b: set<nat>)
    requires a <= b
    ensures |a| <= |b|
  {
    if a != {} {
      var x :| x in a;
      SubsetSmaller(a - {x}, b - {x});
    }
  }

  /** One with file n: some file that is held now is not held then. */
  lemma WithNew(c: Config, held: set<nat>, n: nat, h: nat, other: set<nat>)
    requires n < |c.files| && Best(c, held, n) && |held| + 1 == c.chunkWorkers && Smallest(c, held + {n}, h)
    requires Holdable(c, other, n + 1) && n in other
    ensures Rest(c.files, held, n) + Size(c.files[h].items) <= Rest(c.files, other, n + 1)
  {
    var o := other - {n};
    var g := Left(held, o);
    RestSame(c.files, other, o, n);
    RestAdd(c.files, o, g, n);
    assert Holdable(c, o + {g}, n);
  }

  /** When file n joins and all workers hold a file, letting the smallest go is best. */
  lemma BestNext(c: Config, held: set<nat>, n: nat, h: nat)
    requires n < |c.files| && Best(c, held, n) && |held| + 1 == c.chunkWorkers && Smallest(c, held + {n}, h)
    ensures Best(c, held + {n} - {h}, n + 1)
  {
    var kept, m := held + {n} - {h}, n + 1;
    RestAdd(c.files, kept, h, m);
    assert kept + {h} == held + {n};
    RestSame(c.files, held + {n}, held, n);
    assert |kept| == |held|;
    forall other | Holdable(c, other, m)
      ensures Rest(c.files, kept, m) <= Rest(c.files, other, m)
    {
      if n in other {
        WithNew(c, held, n, h, other);
      } else {
        WithoutNew(c, held, n, h, other);
      }
    }
  }

  // ---- a schedule that makes the most of the cap ----

  predicate Active(w: Worker) {
    w.Reading? || w.Offering?
  }

  ghost predicate SomeActive(workers: seq<Worker>) {
    exists i :: 0 <= i < |workers| && Active(workers[i])
  }

  /** Only the file taken last is being read. */
  ghost predicate OneActive(workers: seq<Worker>, owner: seq<nat>) {
    forall i :: 0 <= i < |workers| && Active(workers[i]) ==> workers[i].file + 1 == |owner|
  }

  /** How many files have been read to the end. */
  ghost function ReadOut(workers: seq<Worker>, owner: seq<nat>): nat {
    if SomeActive(workers) && owner != [] then |owner| - 1 else |owner|
  }

  /** Files are read one at a time; while there are more to come, the workers hold on to the best
      ones, and let the smallest go when all of them hold one. */
  ghost predicate Wise(c: Config, workers: seq<Worker>, owner: seq<nat>, chunks: seq<Option<seq<ID>>>) {
    && OneActive(workers, owner) && |owner| <= |c.files| == |chunks|
    && var n := ReadOut(workers, owner);
      var held := Waiting(chunks, n);
      || (!SomeActive(workers) && |owner| == |c.files|)
      || (Best(c, held, n) && (|held| + 1 < c.chunkWorkers ==> held == Below(n)))
      || (!SomeActive(workers) && |held| == c.chunkWorkers
          && forall h :: Smallest(c, held, h) ==> Best(c, held - {h}, n))
  }

  ghost predicate WiseState(c: Config, s: State) {
    Wise(c, s.workers, s.log.owner, s.chunks)
  }

  lemma WiseStart(c: Config)
    requires c.Valid()
    ensures WiseState(c, Init(c))
  {
    assert Waiting(Init(c).chunks, 0) == Below(0);
    BestAll(c, 0);
  }

  /** A worker that waits or reads leaves at most W - 1 to hold files. */
  lemma RoomLeft(c: Config, workers: seq<Worker>, w: nat, owner: seq<nat>, chunks: seq<Option<seq<ID>>>,
                 progress: seq<nat>, sent: seq<Item>, bytesRead: nat)
    requires Files(c, workers, owner, chunks, progress, sent, bytesRead) && |workers| == c.chunkWorkers
    requires w < |workers| && (Busy(workers[w]) ==> Active(workers[w])) && OneActive(workers, owner)
    ensures ReadOut(workers, owner) <= |chunks|
    ensures |Waiting(chunks, ReadOut(workers, owner))| < c.chunkWorkers
  {
    var waiting := Waiting(chunks, ReadOut(workers, owner));
    forall g | g in waiting
      ensures g < |owner| && owner[g] in Below(|workers|) - {w} && Holds(workers[owner[g]], g)
    {
    }
    InjectiveSize(waiting, owner, Below(|workers|) - {w});
  }

  lemma WiseIsBest(c: Config, workers: seq<Worker>, w: nat, owner: seq<nat>, chunks: seq<Option<seq<ID>>>)
    requires Wise(c, workers, owner, chunks) && w < |workers| && Active(workers[w])
    requires owner != [] && |Waiting(chunks, ReadOut(workers, owner))| < c.chunkWorkers
    ensures var k := workers[w].file; k == ReadOut(workers, owner) && Best(c, Waiting(chunks, k), k)
  {
  }

  lemma BestFits(c: Config, chunks: seq<Option<seq<ID>>>, k: nat, n: nat, read: nat)
    requires CapAllows(c) && c.maxBytes > 0 && k < |c.files| == |chunks| && n < |c.files[k].items|
    requires Best(c, Waiting(chunks, k), k) && forall f :: k <= f < |chunks| ==> chunks[f].None?
    requires read == Size(c.files[k].items[..n])
    ensures RecordedBytes(c.files, chunks) + read + |c.files[k].items[n].data| <= c.maxBytes
  {
    BytesRecorded(c.files, chunks, k);
    PartOf(c.files[k].items, n, read);
    assert Admits(c, k);
  }

  lemma OnlyActive(c: Config, workers: seq<Worker>, w: nat, owner: seq<nat>, chunks: seq<Option<seq<ID>>>,
                   progress: seq<nat>)
    requires |c.files| == |chunks| == |progress| && AllExact(c, workers, owner, chunks, progress)
    requires OneActive(workers, owner) && w < |workers| && Active(workers[w])
    ensures owner != [] && workers[w].file == |owner| - 1 && |owner| <= |chunks| && chunks[|owner| - 1].None?
    ensures forall i :: 0 <= i < |workers| && Active(workers[i]) ==> i == w
  {
    assert Exact(c, workers[w], w, owner, chunks, progress);
    forall i | 0 <= i < |workers| && Active(workers[i])
      ensures i == w
    {
      assert Exact(c, workers[i], i, owner, chunks, progress);
    }
  }

  lemma BeyondNone(c: Config, n: nat, chunks: seq<Option<seq<ID>>>, progress: seq<nat>)
    requires |c.files| == |chunks| == |progress| && n < |chunks|
    requires Recorded(c, n + 1, chunks, progress) && chunks[n].None?
    ensures forall f :: n <= f < |chunks| ==> chunks[f].None?
  {
  }

  lemma ActiveIsBest(c: Config, workers: seq<Worker>, w: nat, owner: seq<nat>, chunks: seq<Option<seq<ID>>>,
                     progress: seq<nat>, sent: seq<Item>, bytesRead: nat)
    requires Wise(c, workers, owner, chunks) && |workers| == c.chunkWorkers
    requires Files(c, workers, owner, chunks, progress, sent, bytesRead) && w < |workers| && Active(workers[w])
    ensures var k := workers[w].file;
      k < |c.files| && Best(c, Waiting(chunks, k), k) && forall f :: k <= f < |chunks| ==> chunks[f].None?
  {
    var k := workers[w].file;
    assert owner != [] && k == |owner| - 1 && |owner| <= |chunks| == |c.files| && chunks[k].None? by {
      OnlyActive(c, workers, w, owner, chunks, progress);
    }
    assert |Waiting(chunks, ReadOut(workers, owner))| < c.chunkWorkers by {
      RoomLeft(c, workers, w, owner, chunks, progress, sent, bytesRead);
    }
    assert Best(c, Waiting(chunks, k), k) by {
      WiseIsBest(c, workers, w, owner, chunks);
    }
    assert forall f :: k <= f < |chunks| ==> chunks[f].None? by {
      BeyondNone(c, k, chunks, progress);
    }
  }

  /** The active worker's next chunk is within the cap. */
  lemma NextAllowed(c: Config, workers: seq<Worker>, w: nat, owner: seq<nat>, chunks: seq<Option<seq<ID>>>,
                    progress: seq<nat>, sent: seq<Item>, bytesRead: nat)
    requires CapAllows(c) && c.maxBytes > 0 && Files(c, workers, owner, chunks, progress, sent, bytesRead)
    requires w < |workers| && HasNext(c, workers[w]) && Best(c, Waiting(chunks, workers[w].file), workers[w].file)
    requires forall f :: workers[w].file <= f < |chunks| ==> chunks[f].None?
    ensures var pc := workers[w]; bytesRead + pc.read + |c.files[pc.file].items[|pc.ids|].data| <= c.maxBytes
  {
    var pc := workers[w];
    assert Exact(c, pc, w, owner, chunks, progress);
    BestFits(c, chunks, pc.file, |pc.ids|, pc.read);
  }

  lemma WiseReads(c: Config, s: State, w: nat)
    requires CapAllows(c) && Shape(c, s) && FilesClean(c, s) && WiseState(c, s)
    ensures !CanRead(c, s, w, NextOverCap)
  {
    if w < |s.workers| && HasNext(c, s.workers[w]) && c.maxBytes > 0 {
      ActiveIsBest(c, s.workers, w, s.log.owner, s.chunks, s.log.progress, s.log.sent, s.stats.bytesRead);
      NextAllowed(c, s.workers, w, s.log.owner, s.chunks, s.log.progress, s.log.sent, s.stats.bytesRead);
    }
  }

  lemma PartOf(items: seq<Item>, n: nat, read: nat)
    requires n < |items| && read == Size(items[..n])
    ensures read + |items[n].data| <= Size(items)
  {
    OneMoreRead(items, n, read);
    assert items == items[..n + 1] + items[n + 1..];
    SizeAppend(items[..n + 1], items[n + 1..]);
  }

  ghost predicate MayRecord(c: Config, s: State, f: nat) {
    && !SomeActive(s.workers)
    && (|s.log.owner| == |c.files|
        || (|s.log.owner| <= |s.chunks| && Smallest(c, Waiting(s.chunks, |s.log.owner|), f)
            && forall v :: 0 <= v < |s.workers| ==> s.workers[v].Recording?))
  }

  /** The worker's move, except that it waits to take a file while another is being read, and to
      record its file while it is worth holding. */
  ghost function WiseMove(c: Config, s: State, w: nat): Option<Step>
    requires w < |s.workers|
  {
    match s.workers[w]
    case AwaitFile => if s.fileCh.buf != [] && SomeActive(s.workers) then None else WorkerMove(c, s, w)
    case Recording(f, _, _) => if MayRecord(c, s, f) then WorkerMove(c, s, w) else None
    case _ => WorkerMove(c, s, w)
  }

  // ---- the schedule keeps to that ----

  lemma WiseStays(c: Config, workers: seq<Worker>, w: nat, next: Worker, owner: seq<nat>, chunks: seq<Option<seq<ID>>>)
    requires Wise(c, workers, owner, chunks) && w < |workers|
    requires Active(next) <==> Active(workers[w])
    requires Active(next) ==> next.file == workers[w].file
    ensures Wise(c, workers[w := next], owner, chunks)
  {
    SameActive(workers, w, next);
  }

  lemma SameActive(workers: seq<Worker>, w: nat, next: Worker)
    requires w < |workers| && (Active(next) <==> Active(workers[w]))
    ensures SomeActive(workers[w := next]) <==> SomeActive(workers)
  {
    var after := workers[w := next];
    if i :| 0 <= i < |workers| && Active(workers[i]) {
      assert Active(after[i]);
    }
    if i :| 0 <= i < |after| && Active(after[i]) {
      assert Active(workers[i]);
    }
  }

  lemma WiseTakes(c: Config, workers: seq<Worker>, w: nat, owner: seq<nat>, chunks: seq<Option<seq<ID>>>)
    requires Wise(c, workers, owner, chunks) && w < |workers| && !SomeActive(workers)
    requires |owner| < |c.files| && |Waiting(chunks, |owner|)| < c.chunkWorkers
    ensures Wise(c, workers[w := Reading(|owner|, [], 0)], owner + [w], chunks)
  {
    assert Active(workers[w := Reading(|owner|, [], 0)][w]);
  }

  /** The next file has been read to its end, and its worker holds it. */
  lemma HeldNext(c: Config, held: set<nat>, n: nat)
    requires n + 1 < |c.files| && Best(c, held, n) && (|held| + 1 < c.chunkWorkers ==> held == Below(n))
    ensures var more := held + {n};
      || (Best(c, more, n + 1) && (|more| + 1 < c.chunkWorkers ==> more == Below(n + 1)))
      || (|more| == c.chunkWorkers && forall h :: Smallest(c, more, h) ==> Best(c, more - {h}, n + 1))
  {
    var more := held + {n};
    if |held| + 1 < c.chunkWorkers {
      assert more == Below(n + 1);
      BestAll(c, n + 1);
    } else {
      forall h | Smallest(c, more, h)
        ensures Best(c, more - {h}, n + 1)
      {
        BestNext(c, held, n, h);
      }
    }
  }

  lemma WiseFinishes(c: Config, workers: seq<Worker>, w: nat, next: Worker, owner: seq<nat>,
                     chunks: seq<Option<seq<ID>>>)
    requires Wise(c, workers, owner, chunks) && w < |workers| && Active(workers[w]) && !Active(next)
    requires forall i :: 0 <= i < |workers| && Active(workers[i]) ==> i == w
    requires owner != [] && chunks[|owner| - 1].None? && |Waiting(chunks, |owner| - 1)| < c.chunkWorkers
    ensures Wise(c, workers[w := next], owner, chunks)
  {
    var n := |owner| - 1;
    assert Waiting(chunks, n + 1) == Waiting(chunks, n) + {n};
    assert !SomeActive(workers[w := next]);
    if n + 1 < |c.files| {
      HeldNext(c, Waiting(chunks, n), n);
    }
  }

  lemma WiseRecords(c: Config, workers: seq<Worker>, w: nat, owner: seq<nat>, chunks: seq<Option<seq<ID>>>)
    requires Wise(c, workers, owner, chunks) && w < |workers| && workers[w].Recording? && !SomeActive(workers)
    requires workers[w].file < |owner| <= |chunks| && chunks[workers[w].file].None?
    requires |owner| == |c.files|
      || (Smallest(c, Waiting(chunks, |owner|), workers[w].file) && |Waiting(chunks, |owner|)| == c.chunkWorkers)
    ensures Wise(c, workers[w := AwaitFile], owner, chunks[workers[w].file := Some(workers[w].ids)])
  {
    SameActive(workers, w, AwaitFile);
    var f, held := workers[w].file, Waiting(chunks, |owner|);
    assert Waiting(chunks[f := Some(workers[w].ids)], |owner|) == held - {f};
  }

  /** When every worker is about to record, each of them holds one of the files not recorded. */
  lemma AllHold(c: Config, workers: seq<Worker>, owner: seq<nat>, chunks: seq<Option<seq<ID>>>, progress: seq<nat>,
                sent: seq<Item>, bytesRead: nat)
    requires Files(c, workers, owner, chunks, progress, sent, bytesRead) && |workers| == c.chunkWorkers
    requires forall v :: 0 <= v < |workers| ==> workers[v].Recording?
    ensures |owner| <= |chunks| && |Waiting(chunks, |owner|)| == c.chunkWorkers
  {
    var waiting := Waiting(chunks, |owner|);
    forall g | g in waiting
      ensures owner[g] in Below(|workers|) && Holds(workers[owner[g]], g)
    {
    }
    InjectiveSize(waiting, owner, Below(|workers|));
    var each := seq(|workers|, v requires 0 <= v < |workers| => workers[v].file);
    forall v | v in Below(|workers|)
      ensures each[v] in waiting && each[v] < |owner| && owner[each[v]] == v
    {
      assert Exact(c, workers[v], v, owner, chunks, progress);
    }
    InjectiveSize(Below(|workers|), each, waiting);
  }

  lemma ReadOn(c: Config, s: State, w: nat, r: ReadStep)
    requires !s.done && CanRead(c, s, w, r)
    ensures var t := DoRead(c, s, w, r);
      && t.workers == s.workers[w := t.workers[w]] && t.log.owner == s.log.owner && t.chunks == s.chunks
      && Active(s.workers[w]) && (Active(t.workers[w]) ==> t.workers[w].file == s.workers[w].file)
  {
  }

  lemma ReadWise(c: Config, s: State, w: nat, r: ReadStep)
    requires Shape(c, s) && FilesClean(c, s) && !s.done && WiseState(c, s) && CanRead(c, s, w, r)
    ensures WiseState(c, DoRead(c, s, w, r))
  {
    ReadOn(c, s, w, r);
    NextWise(c, s.workers, w, DoRead(c, s, w, r).workers[w], s.log.owner, s.chunks, s.log.progress, s.log.sent,
             s.stats.bytesRead);
  }

  lemma NextWise(c: Config, workers: seq<Worker>, w: nat, next: Worker, owner: seq<nat>, chunks: seq<Option<seq<ID>>>,
                 progress: seq<nat>, sent: seq<Item>, bytesRead: nat)
    requires Files(c, workers, owner, chunks, progress, sent, bytesRead) && |workers| == c.chunkWorkers
    requires Wise(c, workers, owner, chunks) && w < |workers| && Active(workers[w])
    requires Active(next) ==> next.file == workers[w].file
    ensures Wise(c, workers[w := next], owner, chunks)
  {
    if Active(next) {
      WiseStays(c, workers, w, next, owner, chunks);
    } else {
      OnlyActive(c, workers, w, owner, chunks, progress);
      RoomLeft(c, workers, w, owner, chunks, progress, sent, bytesRead);
      WiseFinishes(c, workers, w, next, owner, chunks);
    }
  }

  lemma TakeWise(c: Config, s: State, w: nat)
    requires Shape(c, s) && FilesClean(c, s) && WiseState(c, s) && CanWork(s, w, TakeFile) && !SomeActive(s.workers)
    ensures WiseState(c, DoWork(s, w, TakeFile))
  {
    RoomLeft(c, s.workers, w, s.log.owner, s.chunks, s.log.progress, s.log.sent, s.stats.bytesRead);
    assert s.fileCh.buf[0] == |s.log.owner|;
    WiseTakes(c, s.workers, w, s.log.owner, s.chunks);
  }

  lemma RecordWise(c: Config, s: State, w: nat)
    requires Shape(c, s) && FilesClean(c, s) && WiseState(c, s) && CanWork(s, w, Record)
    requires MayRecord(c, s, s.workers[w].file)
    ensures WiseState(c, DoWork(s, w, Record))
  {
    assert Exact(c, s.workers[w], w, s.log.owner, s.chunks, s.log.progress);
    if |s.log.owner| < |c.files| {
      AllHold(c, s.workers, s.log.owner, s.chunks, s.log.progress, s.log.sent, s.stats.bytesRead);
    }
    WiseRecords(c, s.workers, w, s.log.owner, s.chunks);
  }

  lemma RestWise(c: Config, s: State, w: nat, a: WorkStep)
    requires Shape(c, s) && WiseState(c, s) && CanWork(s, w, a) && !a.TakeFile? && !a.Record?
    ensures WiseState(c, DoWork(s, w, a))
  {
    var next := DoWork(s, w, a).workers[w];
    assert !Active(next) && !Active(s.workers[w]);
    WiseStays(c, s.workers, w, next, s.log.owner, s.chunks);
  }

  lemma MoveAllows(c: Config, s: State, w: nat, a: WorkStep)
    requires w < |s.workers| && WiseMove(c, s, w) == Some(Work(w, a))
    ensures a.TakeFile? ==> !SomeActive(s.workers)
    ensures a.Record? ==> s.workers[w].Recording? && MayRecord(c, s, s.workers[w].file)
  {
  }

  lemma WorkWise(c: Config, s: State, w: nat, a: WorkStep)
    requires Shape(c, s) && FilesClean(c, s) && WiseState(c, s) && CanWork(s, w, a)
    requires WiseMove(c, s, w) == Some(Work(w, a))
    ensures WiseState(c, DoWork(s, w, a))
  {
    MoveAllows(c, s, w, a);
    match a {
      case TakeFile => TakeWise(c, s, w);
      case Record => RecordWise(c, s, w);
      case _ => RestWise(c, s, w, a);
    }
  }

  /** The step is the worker's own choice, or another goroutine's. */
  ghost predicate Chosen(c: Config, s: State, e: Step) {
    match e
    case CancelParent => false
    case Work(w, _) => w < |s.workers| && WiseMove(c, s, w) == Some(e)
    case _ => true
  }

  lemma StepWise(c: Config, s: State, e: Step)
    requires Shape(c, s) && FilesClean(c, s) && !s.done && WiseState(c, s) && Enabled(c, s, e) && Chosen(c, s, e)
    ensures WiseState(c, Apply(c, s, e))
  {
    match e {
      case Feed(f) => FeedFrame(s, f);
      case Work(w, a) => WorkWise(c, s, w, a);
      case Read(w, r) => ReadWise(c, s, w, r);
      case CloseBlobs =>
      case Assemble(b) => AssembleFrame(c, s, b);
      case Flush(l) => FlushFrame(s, l);
      case Upload(u, d) => UploadFrame(s, u, d);
      case Put(u, p) => PutFrame(c, s, u, p);
      case CancelParent =>
    }
  }

  // ---- it never gets stuck ----

  ghost predicate StuckWise(c: Config, s: State) {
    && FeederMove(c, s).None? && AssemblerMove(c, s).None?
    && (forall w :: 0 <= w < |s.workers| ==> WiseMove(c, s, w).None?)
    && (forall u :: 0 <= u < |s.uploaders| ==> UploaderMove(c, s, u).None?)
  }

  lemma ActiveMoves(c: Config, s: State, w: nat)
    requires w < |s.workers| && Active(s.workers[w]) && WiseMove(c, s, w).None?
    ensures s.workers[w].Offering? && |s.blobCh.buf| >= BLOB_QUEUE
  {
  }

  lemma NoneActive(c: Config, s: State, w: nat)
    requires c.Valid() && Inv(c, s) && s.log.doom == Sound && StuckWise(c, s) && w < |s.workers|
    ensures !Active(s.workers[w])
  {
    if Active(s.workers[w]) {
      ActiveMoves(c, s, w);
      FirstUploaderRests(c, s);
      RoomToSend(c, s, w);
    }
  }

  lemma FirstUploaderRests(c: Config, s: State)
    requires c.Valid() && Shape(c, s) && StuckWise(c, s)
    ensures |s.uploaders| > 0 && UploaderMove(c, s, 0).None?
  {
  }

  /** While there are files to take, only workers that hold one are at rest. */
  lemma AllRecording(c: Config, s: State, w: nat)
    requires c.Valid() && Inv(c, s) && s.log.doom == Sound && StuckWise(c, s) && w < |s.workers|
    requires |s.log.owner| < |c.files| && !SomeActive(s.workers)
    ensures s.workers[w].Recording?
  {
    assert WiseMove(c, s, w).None?;
    if !s.workers[w].Recording? {
      StillBusy(c, s, w);
    }
  }

  lemma NoneRecording(c: Config, s: State, w: nat)
    requires c.Valid() && Inv(c, s) && s.log.doom == Sound && StuckWise(c, s) && w < |s.workers|
    requires !SomeActive(s.workers)
    ensures !s.workers[w].Recording?
  {
    if s.workers[w].Recording? {
      assert Exact(c, s.workers[w], w, s.log.owner, s.chunks, s.log.progress);
      if |s.log.owner| < |c.files| {
        forall v | 0 <= v < |s.workers|
          ensures s.workers[v].Recording?
        {
          AllRecording(c, s, v);
        }
        var held := Waiting(s.chunks, |s.log.owner|);
        assert s.workers[w].file in held;
        var h := SmallestOf(c, held);
        var v := s.log.owner[h];
        assert Holds(s.workers[v], h);
        assert WiseMove(c, s, v).None? && MayRecord(c, s, h);
      } else {
        assert WiseMove(c, s, w).None? && MayRecord(c, s, s.workers[w].file);
      }
    }
  }

  lemma WiseNotStuck(c: Config, s: State)
    requires c.Valid() && Inv(c, s) && s.log.doom == Sound && StuckWise(c, s)
    ensures CanCloseBlobs(s) || AllGone(s)
  {
    forall w | 0 <= w < |s.workers|
      ensures !Active(s.workers[w])
    {
      NoneActive(c, s, w);
    }
    forall w | 0 <= w < |s.workers|
      ensures WorkerMove(c, s, w).None?
    {
      NoneRecording(c, s, w);
      assert WiseMove(c, s, w).None?;
    }
    StuckIsDone(c, s);
  }

  // ---- it sends in walk order ----

  /** In walk order, a file's chunks come after all those of the files before it. */
  lemma {:induction false} WalkInOrder(c: Config, n: nat, k: nat, j: nat, g: nat)
    requires Reaches(c, n, k) && j < |WalkOrder(c, n, k)| && g < WalkOrder(c, n, k)[j]
    ensures g < |c.files| && Count(WalkOrder(c, n, k)[..j], g) == |c.files[g].items|
    decreases n, k
  {
    var order := WalkOrder(c, n, k);
    if k > 0 {
      var init := WalkOrder(c, n, k - 1);
      if j < |init| {
        WalkInOrder(c, n, k - 1, j, g);
        assert order[..j] == init[..j];
      } else {
        assert order[..j] == init;
        WalkCounts(c, n, k - 1, g);
      }
    } else if n > 0 {
      WalkInOrder(c, n - 1, |c.files[n - 1].items|, j, g);
    }
  }

  /** The files before the one being read have been sent. */
  lemma EarlierRead(c: Config, workers: seq<Worker>, w: nat, owner: seq<nat>, chunks: seq<Option<seq<ID>>>,
                    progress: seq<nat>, sent: seq<Item>, bytesRead: nat, f: nat)
    requires Files(c, workers, owner, chunks, progress, sent, bytesRead) && OneActive(workers, owner)
    requires w < |workers| && Active(workers[w]) && f < workers[w].file
    ensures f < |c.files| && progress[f] == |c.files[f].items|
  {
    assert Exact(c, workers[w], w, owner, chunks, progress);
    if chunks[f].None? {
      assert Exact(c, workers[owner[f]], owner[f], owner, chunks, progress);
    }
  }

  lemma EarlierSent(c: Config, workers: seq<Worker>, w: nat, owner: seq<nat>, chunks: seq<Option<seq<ID>>>,
                    progress: seq<nat>, sent: seq<Item>, bytesRead: nat, origin: seq<nat>, f: nat)
    requires Files(c, workers, owner, chunks, progress, sent, bytesRead) && OneActive(workers, owner)
    requires Follows(c, origin, sent, progress) && w < |workers| && Active(workers[w]) && f < workers[w].file
    ensures !Unsent(c, origin, f)
  {
    EarlierRead(c, workers, w, owner, chunks, progress, sent, bytesRead, f);
    assert progress[f] == Count(origin, f);
  }

  lemma OfferedUnsent(c: Config, workers: seq<Worker>, w: nat, owner: seq<nat>, chunks: seq<Option<seq<ID>>>,
                      progress: seq<nat>, sent: seq<Item>, bytesRead: nat, origin: seq<nat>)
    requires Files(c, workers, owner, chunks, progress, sent, bytesRead)
    requires Follows(c, origin, sent, progress) && w < |workers| && workers[w].Offering?
    ensures Unsent(c, origin, workers[w].file)
  {
    assert Exact(c, workers[w], w, owner, chunks, progress);
    assert progress[workers[w].file] == Count(origin, workers[w].file);
  }

  ghost predicate NextInWalk(s: State, order: seq<nat>, w: nat) {
    w < |s.workers| && (s.workers[w].Offering? ==>
      |s.log.origin| < |order| && order[|s.log.origin|] == s.workers[w].file)
  }

  /** If the files before k have been sent and k has not, then k is next. */
  lemma NextWalked(c: Config, order: seq<nat>, origin: seq<nat>, k: nat)
    requires order == WalkOrder(c, |c.files|, 0) && Feasible(c, order) && SentAll(c, order) && origin <= order
    requires Unsent(c, origin, k) && forall f: nat :: f < k ==> !Unsent(c, origin, f)
    ensures |origin| < |order| && order[|origin|] == k
  {
    assert order[..|origin|] == origin && order[..|order|] == order;
    if |origin| < |order| {
      SendsAt(c, order, |origin|);
      if k < order[|origin|] {
        WalkInOrder(c, |c.files|, 0, |origin|, k);
      }
    }
  }

  lemma OfferedNext(c: Config, workers: seq<Worker>, w: nat, owner: seq<nat>, chunks: seq<Option<seq<ID>>>,
                    progress: seq<nat>, sent: seq<Item>, bytesRead: nat, origin: seq<nat>, order: seq<nat>)
    requires Files(c, workers, owner, chunks, progress, sent, bytesRead) && OneActive(workers, owner)
    requires Follows(c, origin, sent, progress) && w < |workers| && workers[w].Offering?
    requires order == WalkOrder(c, |c.files|, 0) && Leads(c, origin, order)
    ensures |origin| < |order| && order[|origin|] == workers[w].file
  {
    OfferedUnsent(c, workers, w, owner, chunks, progress, sent, bytesRead, origin);
    forall f: nat | f < workers[w].file
      ensures !Unsent(c, origin, f)
    {
      EarlierSent(c, workers, w, owner, chunks, progress, sent, bytesRead, origin, f);
    }
    NextWalked(c, order, origin, workers[w].file);
  }

  lemma SendsInWalk(c: Config, s: State, order: seq<nat>, w: nat)
    requires Toward(c, s, order) && order == WalkOrder(c, |c.files|, 0) && WiseState(c, s) && w < |s.workers|
    ensures NextInWalk(s, order, w)
  {
    if s.workers[w].Offering? {
      OfferedNext(c, s.workers, w, s.log.owner, s.chunks, s.log.progress, s.log.sent, s.stats.bytesRead,
                  s.log.origin, order);
    }
  }

  // ---- the schedule to its end ----

  /** The run is undoomed, wise, and has sent in walk order. */
  ghost predicate Plays(c: Config, s: State, order: seq<nat>) {
    Toward(c, s, order) && order == WalkOrder(c, |c.files|, 0) && WiseState(c, s)
  }

  lemma WiseIsMild(c: Config, s: State, order: seq<nat>, w: nat)
    requires Healthy(c) && w < |s.workers| && WorkerOk(c, |s.log.owner|, s.workers[w])
    requires !CanRead(c, s, w, NextOverCap) && NextInWalk(s, order, w)
    requires Moves(c, s, WorkerMove(c, s, w))
    ensures AllMild(s, order, WiseMove(c, s, w)) && Moves(c, s, WiseMove(c, s, w))
  {
  }

  lemma PickWise(c: Config, s: State, order: seq<nat>) returns (e: Step)
    requires Moves(c, s, FeederMove(c, s)) && AllMild(s, order, FeederMove(c, s))
    requires Moves(c, s, AssemblerMove(c, s)) && AllMild(s, order, AssemblerMove(c, s))
    requires forall w :: 0 <= w < |s.workers| ==>
      AllMild(s, order, WiseMove(c, s, w)) && Moves(c, s, WiseMove(c, s, w))
    requires forall u :: 0 <= u < |s.uploaders| ==>
      AllMild(s, order, UploaderMove(c, s, u)) && Moves(c, s, UploaderMove(c, s, u))
    requires StuckWise(c, s) ==> CanCloseBlobs(s)
    ensures Enabled(c, s, e) && Mild(s, order, e) && Chosen(c, s, e)
  {
    if FeederMove(c, s).Some? {
      e := FeederMove(c, s).value;
    } else if AssemblerMove(c, s).Some? {
      e := AssemblerMove(c, s).value;
    } else if w :| 0 <= w < |s.workers| && WiseMove(c, s, w).Some? {
      e := WiseMove(c, s, w).value;
    } else if u :| 0 <= u < |s.uploaders| && UploaderMove(c, s, u).Some? {
      e := UploaderMove(c, s, u).value;
    } else {
      e := CloseBlobs;
    }
  }

  lemma WiseNext(c: Config, s: State, order: seq<nat>) returns (e: Step)
    requires c.Valid() && Healthy(c) && CapAllows(c) && Plays(c, s, order) && !AllGone(s)
    ensures Enabled(c, s, e) && Mild(s, order, e) && Chosen(c, s, e)
  {
    MovesEnabled(c, s);
    if s.asm.Holding? {
      HeldNotZero(c, s, order);
    } else if s.asm.Flushing? {
      WriterFits(c, s, order);
    }
    AssemblerIsMild(c, s, order);
    OthersAreMild(c, s, order);
    forall w | 0 <= w < |s.workers|
      ensures AllMild(s, order, WiseMove(c, s, w)) && Moves(c, s, WiseMove(c, s, w))
    {
      assert WorkerOk(c, |s.log.owner|, s.workers[w]) && Moves(c, s, WorkerMove(c, s, w));
      WiseReads(c, s, w);
      SendsInWalk(c, s, order, w);
      WiseIsMild(c, s, order, w);
    }
    if StuckWise(c, s) {
      WiseNotStuck(c, s);
    }
    e := PickWise(c, s, order);
  }

  lemma PlayOn(c: Config, run: seq<Step>, order: seq<nat>, e: Step)
    requires c.Valid() && Replay(c, run).Some? && Plays(c, Replay(c, run).value, order)
    requires var s := Replay(c, run).value; Enabled(c, s, e) && Mild(s, order, e) && Chosen(c, s, e)
    ensures Replay(c, run + [e]).Some? && Plays(c, Replay(c, run + [e]).value, order)
  {
    var s := Replay(c, run).value;
    MildStep(c, s, order, e);
    StepWise(c, s, e);
    assert (run + [e])[..|run|] == run;
    RunInv(c, run + [e]);
    RunOrder(c, run + [e]);
  }

  lemma {:induction false} PlayToEnd(c: Config, run: seq<Step>, order: seq<nat>) returns (whole: seq<Step>)
    requires c.Valid() && Healthy(c) && CapAllows(c) && Replay(c, run).Some? && Plays(c, Replay(c, run).value, order)
    ensures Succeeds(c, run, whole)
    decreases Measure(c, Init(c)) - |run|
  {
    whole := run;
    if !AllGone(Replay(c, run).value) {
      var e := WiseNext(c, Replay(c, run).value, order);
      PlayOn(c, run, order, e);
      RunsEnd(c, run + [e]);
      whole := PlayToEnd(c, run + [e], order);
    }
  }

  lemma CapSuffices(c: Config) returns (run: seq<Step>)
    requires c.Valid() && Healthy(c) && CapAllows(c) && AllFit(c, WalkPacks(c))
    ensures Succeeds(c, [], run)
  {
    var order := WalkOrder(c, |c.files|, 0);
    WalkLeads(c);
    RunInv(c, []);
    RunOrder(c, []);
    WiseStart(c);
    run := PlayToEnd(c, [], order);
  }

  lemma WalkLeads(c: Config)
    requires c.Valid() && AllFit(c, WalkPacks(c))
    ensures Leads(c, [], WalkOrder(c, |c.files|, 0))
  {
    var n := |c.files|;
    WalkArrives(c, n, 0);
    assert c.files[..n] == c.files && AllChunks(c.files) + [] == AllChunks(c.files);
    forall f: nat | f < n
      ensures !Unsent(c, WalkOrder(c, n, 0), f)
    {
      WalkCounts(c, n, 0, f);
    }
  }

  /** The byte cap, exactly, for any number of workers: a source whose packs in walk order are
      within the header limit can be backed up if and only if it is healthy and every file in it
      stays within the cap together with the files before it, but for some that the other workers
      may be holding. No other source can be backed up if its files do not. */
  lemma CapDecides(c: Config)
    requires c.Valid()
    ensures (exists run :: Succeeds(c, [], run)) ==> Healthy(c) && CapAllows(c)
    ensures AllFit(c, WalkPacks(c)) ==> ((exists run :: Succeeds(c, [], run)) <==> Healthy(c) && CapAllows(c))
  {
    if run :| Succeeds(c, [], run) {
      PassingOrder(c, run);
      PassingAllowed(c, run);
    }
    if Healthy(c) && CapAllows(c) && AllFit(c, WalkPacks(c)) {
      var run := CapSuffices(c);
    }
  }

  // ---- the condition, compared ----

  /** A source that stays within the cap is allowed; with one worker, no other is. */
  lemma AllowedIff(c: Config)
    requires c.Valid()
    ensures Uncapped(c) ==> CapAllows(c)
    ensures c.chunkWorkers == 1 ==> (CapAllows(c) <==> Uncapped(c))
  {
    if c.maxBytes > 0 && Uncapped(c) {
      forall k | 0 <= k < |c.files|
        ensures Admits(c, k)
      {
        assert Holdable(c, {}, k);
        RestTogether(c.files, k);
      }
    }
    if c.maxBytes > 0 && c.chunkWorkers == 1 && CapAllows(c) {
      AloneWithin(c, |c.files|);
      RestAll(c.files, |c.files|);
      assert c.files[..|c.files|] == c.files;
    }
  }

  lemma {:induction false} RestTogether(files: seq<Stream>, k: nat)
    requires k < |files|
    ensures Rest(files, {}, k) + Size(files[k].items) <= Size(AllChunks(files))
  {
    RestAll(files, k + 1);
    assert files == files[..k + 1] + files[k + 1..];
    PrefixSize(files, k + 1);
  }

  lemma {:induction false} PrefixSize(files: seq<Stream>, n: nat)
    requires n <= |files|
    ensures Size(AllChunks(files[..n])) <= Size(AllChunks(files))
    decreases |files|
  {
    if n < |files| {
      var m := |files| - 1;
      PrefixSize(files[..m], n);
      assert files[..m][..n] == files[..n];
      SizeAppend(AllChunks(files[..m]), files[m].items);
    } else {
      assert files[..n] == files;
    }
  }

  lemma {:induction false} AloneWithin(c: Config, n: nat)
    requires c.chunkWorkers == 1 && c.maxBytes > 0 && CapAllows(c) && n <= |c.files|
    ensures Rest(c.files, {}, n) <= c.maxBytes
  {
    if n > 0 {
      AloneWithin(c, n - 1);
      assert Admits(c, n - 1);
      if c.files[n - 1].items != [] {
        var held :| Holdable(c, held, n - 1)
          && Rest(c.files, held, n - 1) + Size(c.files[n - 1].items) <= c.maxBytes;
        assert held == {};
      }
    }
  }

  /** Two workers can take a backup over its cap: two files of six bytes each pass a cap of ten. */
  lemma TwoWorkersPassCap(a: Item, b: Item) returns (c: Config, run: seq<Step>)
    requires !IsZero(a.id) && !IsZero(b.id) && |a.data| == 6 && |b.data| == 6
    ensures c.chunkWorkers == 2 && c.maxBytes == 10 && Size(AllChunks(c.files)) == 12 && Succeeds(c, [], run)
  {
    var one, two := Stream([a], true), Stream([b], true);
    c := Config([one, two], 2, 1, 100, 10, false, {}, _ => true);
    TwoChunks(one, two, a, b);
    assert Holdable(c, {}, 0) && Rest(c.files, {}, 0) == 0;
    assert Holdable(c, {0}, 1) && Rest(c.files, {0}, 1) == 0;
    assert Admits(c, 0) && Admits(c, 1);
    run := CapSuffices(c);
  }

  lemma ChunksPush(files: seq<Stream>, last: Stream)
    ensures AllChunks(files + [last]) == AllChunks(files) + last.items
  {
    assert (files + [last])[..|files|] == files;
  }

  lemma TwoChunks(one: Stream, two: Stream, a: Item, b: Item)
    requires one.items == [a] && two.items == [b]
    ensures AllChunks([one, two]) == [a, b] && Size([a, b]) == |a.data| + |b.data|
    ensures Size([a]) == |a.data| && Size([b]) == |b.data|
  {
    ChunksPush([], one);
    ChunksPush([one], two);
    assert [] + [one] == [one] && [one] + [two] == [one, two];
    SizePush([], a);
    SizePush([], b);
    SizePush([a], b);
    assert [] + [a] == [a] && [] + [b] == [b] && [a] + [b] == [a, b];
  }
}
