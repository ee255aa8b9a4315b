/** The byte cap: what every run has read, and why a cap that the source keeps to never bites. */
module PipelineCap {
  import opened Wrappers
  import opened Blob
  import opened Pipeline
  import opened PipelineShape
  import opened PipelineFrames
  import opened PipelineFiles
  import opened PipelineTheorems

  /** There is no cap, or all the files together stay within it. */
  ghost predicate Uncapped(c: Config) {
    c.maxBytes == 0 || Size(AllChunks(c.files)) <= c.maxBytes
  }

  /** The worker has a file to itself, and has counted no more of it than it has read. */
  ghost predicate Counting(c: Config, i: nat, w: Worker, owner: seq<nat>, chunks: seq<Option<seq<ID>>>)
    requires |chunks| == |c.files|
  {
    Busy(w) ==>
      && w.file < |owner| && w.file < |c.files| && owner[w.file] == i && chunks[w.file].None?
      && (w.Recording? ==> w.read <= Size(c.files[w.file].items))
      && (!w.Recording? ==>
           |w.ids| <= |c.files[w.file].items| && w.read == Size(c.files[w.file].items[..|w.ids|]))
  }

  /** In failed and cancelled runs, too: no more is counted than the files recorded so far hold. */
  ghost predicate Accounted(c: Config, workers: seq<Worker>, owner: seq<nat>, chunks: seq<Option<seq<ID>>>,
                            bytesRead: nat) {
    && |chunks| == |c.files|
    && (forall i :: 0 <= i < |workers| ==> Counting(c, i, workers[i], owner, chunks))
    && (forall f :: |owner| <= f < |chunks| ==> chunks[f].None?)
    && bytesRead <= RecordedBytes(c.files, chunks)
  }

  ghost predicate AccountedState(c: Config, s: State) {
    Accounted(c, s.workers, s.log.owner, s.chunks, s.stats.bytesRead)
  }

  lemma {:induction false} RecordedAtMost(files: seq<Stream>, chunks: seq<Option<seq<ID>>>)
    requires |files| == |chunks|
    ensures RecordedBytes(files, chunks) <= Size(AllChunks(files))
  {
    if files != [] {
      var n := |files| - 1;
      RecordedAtMost(files[..n], chunks[..n]);
      SizeAppend(AllChunks(files[..n]), files[n].items);
    }
  }

  /** A file that is not recorded yet still has room among all chunks. */
  lemma RoomFor(files: seq<Stream>, chunks: seq<Option<seq<ID>>>, f: nat, k: nat)
    requires |files| == |chunks| && f < |files| && chunks[f].None? && k <= |files[f].items|
    ensures RecordedBytes(files, chunks) + Size(files[f].items[..k]) <= Size(AllChunks(files))
  {
    var items := files[f].items;
    RecordedMore(files, chunks, f, []);
    RecordedAtMost(files, chunks[f := Some([])]);
    assert items == items[..k] + items[k..];
    SizeAppend(items[..k], items[k..]);
  }

  lemma OneMoreRead(items: seq<Item>, n: nat, read: nat)
    requires n < |items| && read == Size(items[..n])
    ensures read + |items[n].data| == Size(items[..n + 1])
  {
    SizePush(items[..n], items[n]);
    assert items[..n + 1] == items[..n] + [items[n]];
  }

  lemma NextCounting(c: Config, s: State, w: nat, r: ReadStep)
    requires CanRead(c, s, w, r) && |s.chunks| == |c.files| && Counting(c, w, s.workers[w], s.log.owner, s.chunks)
    ensures Counting(c, w, DoRead(c, s, w, r).workers[w], s.log.owner, s.chunks)
  {
    var pc := s.workers[w];
    match r {
      case NextChunk => OneMoreRead(c.files[pc.file].items, |pc.ids|, pc.read);
      case NextEof => assert c.files[pc.file].items[..|pc.ids|] == c.files[pc.file].items;
      case _ =>
    }
  }

  lemma ReadAccounted(c: Config, s: State, w: nat, r: ReadStep)
    requires CanRead(c, s, w, r) && AccountedState(c, s)
    ensures AccountedState(c, DoRead(c, s, w, r))
  {
    NextCounting(c, s, w, r);
    StillAccounted(c, s.workers, w, DoRead(c, s, w, r).workers[w], s.log.owner, s.chunks, s.stats.bytesRead);
  }

  lemma StillAccounted(c: Config, workers: seq<Worker>, w: nat, next: Worker, owner: seq<nat>,
                       chunks: seq<Option<seq<ID>>>, bytesRead: nat)
    requires Accounted(c, workers, owner, chunks, bytesRead) && w < |workers| && Counting(c, w, next, owner, chunks)
    ensures Accounted(c, workers[w := next], owner, chunks, bytesRead)
  {
  }

  lemma TakeAccounted(c: Config, s: State, w: nat)
    requires Shape(c, s) && CanWork(s, w, TakeFile) && AccountedState(c, s)
    ensures AccountedState(c, DoWork(s, w, TakeFile))
  {
    assert s.fileCh.buf[0] == |s.log.owner|;
    assert c.files[s.fileCh.buf[0]].items[..0] == [];
  }

  lemma RecordAccounted(c: Config, workers: seq<Worker>, w: nat, owner: seq<nat>, chunks: seq<Option<seq<ID>>>,
                        bytesRead: nat)
    requires Accounted(c, workers, owner, chunks, bytesRead) && w < |workers| && workers[w].Recording?
    ensures workers[w].file < |chunks|
    ensures Accounted(c, workers[w := AwaitFile], owner, chunks[workers[w].file := Some(workers[w].ids)],
                      bytesRead + workers[w].read)
  {
    var pc := workers[w];
    assert Counting(c, w, pc, owner, chunks);
    RecordedMore(c.files, chunks, pc.file, pc.ids);
  }

  lemma WorkAccounted(c: Config, s: State, w: nat, a: WorkStep)
    requires Shape(c, s) && CanWork(s, w, a) && AccountedState(c, s)
    ensures AccountedState(c, DoWork(s, w, a))
  {
    match a {
      case TakeFile => TakeAccounted(c, s, w);
      case Record => RecordAccounted(c, s.workers, w, s.log.owner, s.chunks, s.stats.bytesRead);
      case _ =>
        StillAccounted(c, s.workers, w, DoWork(s, w, a).workers[w], s.log.owner, s.chunks, s.stats.bytesRead);
    }
  }

  lemma StepAccounted(c: Config, s: State, e: Step)
    requires Shape(c, s) && Enabled(c, s, e) && AccountedState(c, s)
    ensures AccountedState(c, Apply(c, s, e))
  {
    match e {
      case CancelParent =>
      case Feed(f) => FeedFrame(s, f);
      case Work(w, a) => WorkAccounted(c, s, w, a);
      case Read(w, r) => ReadAccounted(c, s, w, r);
      case CloseBlobs =>
      case Assemble(b) => AssembleFrame(c, s, b);
      case Flush(l) => FlushFrame(s, l);
      case Upload(u, d) => UploadFrame(s, u, d);
      case Put(u, p) => PutFrame(c, s, u, p);
    }
  }

  lemma {:induction false} RunAccounted(c: Config, run: seq<Step>)
    requires Replay(c, run).Some?
    ensures AccountedState(c, Replay(c, run).value)
  {
    if run == [] {
      RecordedNone(c.files, Init(c).chunks);
    } else {
      RunAccounted(c, run[..|run| - 1]);
      RunInv(c, run[..|run| - 1]);
      StepAccounted(c, Replay(c, run[..|run| - 1]).value, run[|run| - 1]);
    }
  }

  /** If all files together stay within the cap, no worker is ever refused for it, whatever else
      has failed. */
  lemma CapNeverBites(c: Config, run: seq<Step>, w: nat)
    requires Uncapped(c) && Replay(c, run).Some?
    ensures !CanRead(c, Replay(c, run).value, w, NextOverCap)
  {
    var s := Replay(c, run).value;
    RunAccounted(c, run);
    if w < |s.workers| && HasNext(c, s.workers[w]) {
      NextWithinCap(c, w, s.workers[w], s.log.owner, s.chunks, s.stats.bytesRead);
    }
  }

  lemma NextWithinCap(c: Config, w: nat, pc: Worker, owner: seq<nat>, chunks: seq<Option<seq<ID>>>, bytesRead: nat)
    requires HasNext(c, pc) && |chunks| == |c.files| && Counting(c, w, pc, owner, chunks)
    requires bytesRead <= RecordedBytes(c.files, chunks)
    ensures bytesRead + pc.read + |c.files[pc.file].items[|pc.ids|].data| <= Size(AllChunks(c.files))
  {
    RoomFor(c.files, chunks, pc.file, |pc.ids| + 1);
    OneMoreRead(c.files[pc.file].items, |pc.ids|, pc.read);
  }

  /** With one worker the cap is exact: a run that passes has read no more than the cap. */
  lemma OneWorkerKeepsCap(c: Config, run: seq<Step>)
    requires c.Valid() && c.chunkWorkers == 1 && Replay(c, run).Some? && Passes(Replay(c, run).value)
    ensures Uncapped(c)
  {
    if c.maxBytes > 0 {
      ByteCap(c, run);
    }
  }
}
