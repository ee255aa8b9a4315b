/** What a cancelled run may leave in the manifest's chunk lists: a list is whole or empty,
    never a proper prefix, and an emptied list is possible, which is why BackupFiles checks
    the context before it builds a snapshot. */
module PipelineRecords {
  import opened Wrappers
  import opened Blob
  import opened Pipeline
  import opened PipelineFrames

  ghost predicate Whole(c: Config, f: nat, ids: seq<ID>) {
    f < |c.files| && ids == Ids(c.files[f].items)
  }

  ghost predicate HonestWorker(c: Config, done: bool, w: Worker) {
    && (w.Reading? || w.Offering? ==>
         w.file < |c.files| && |w.ids| <= |c.files[w.file].items| && w.ids == Ids(c.files[w.file].items[..|w.ids|]))
    && (w.Recording? ==> Whole(c, w.file, w.ids) || (w.ids == [] && done))
  }

  ghost predicate Honest(c: Config, done: bool, workers: seq<Worker>, chunks: seq<Option<seq<ID>>>, fileCh: Chan<nat>) {
    && (forall k :: 0 <= k < |fileCh.buf| ==> fileCh.buf[k] < |c.files|)
    && (forall i :: 0 <= i < |workers| ==> HonestWorker(c, done, workers[i]))
    && (forall f :: 0 <= f < |chunks| && chunks[f].Some? ==>
         Whole(c, f, chunks[f].value) || (chunks[f].value == [] && done))
  }

  ghost predicate HonestState(c: Config, s: State) {
    Honest(c, s.done, s.workers, s.chunks, s.fileCh)
  }

  lemma HonestLater(c: Config, done: bool, later: bool, workers: seq<Worker>, chunks: seq<Option<seq<ID>>>,
                    fileCh: Chan<nat>)
    requires Honest(c, done, workers, chunks, fileCh) && (done ==> later)
    ensures Honest(c, later, workers, chunks, fileCh)
  {
  }

  lemma HonestUpdate(c: Config, done: bool, workers: seq<Worker>, w: nat, next: Worker, chunks: seq<Option<seq<ID>>>,
                     fileCh: Chan<nat>)
    requires Honest(c, done, workers, chunks, fileCh) && w < |workers| && HonestWorker(c, done, next)
    ensures Honest(c, done, workers[w := next], chunks, fileCh)
  {
  }

  lemma {:induction false} HonestRead(c: Config, s: State, w: nat, r: ReadStep)
    requires HonestState(c, s) && CanRead(c, s, w, r)
    ensures HonestState(c, DoRead(c, s, w, r))
  {
    var pc := s.workers[w];
    assert HonestWorker(c, s.done, pc);
    var next := DoRead(c, s, w, r).workers[w];
    match r {
      case NextChunk =>
        var items := c.files[pc.file].items;
        assert items[..|pc.ids| + 1] == items[..|pc.ids|] + [items[|pc.ids|]];
      case NextEof =>
        assert c.files[pc.file].items[..|pc.ids|] == c.files[pc.file].items;
      case _ =>
    }
    HonestUpdate(c, s.done, s.workers, w, next, s.chunks, s.fileCh);
  }

  lemma {:induction false} HonestWork(c: Config, s: State, w: nat, a: WorkStep)
    requires HonestState(c, s) && CanWork(s, w, a)
    ensures HonestState(c, DoWork(s, w, a))
  {
    var t := DoWork(s, w, a);
    match a {
      case TakeFile =>
        assert c.files[s.fileCh.buf[0]].items[..0] == [];
        HonestUpdate(c, s.done, s.workers, w, t.workers[w], s.chunks, s.fileCh);
      case Record =>
        assert HonestWorker(c, s.done, s.workers[w]);
      case _ =>
        HonestUpdate(c, s.done, s.workers, w, t.workers[w], s.chunks, s.fileCh);
        HonestLater(c, s.done, t.done, t.workers, s.chunks, s.fileCh);
    }
  }

  lemma HonestRear(c: Config, s: State, t: State)
    requires HonestState(c, s) && SameFront(s, t) && (s.done ==> t.done)
    ensures HonestState(c, t)
  {
    HonestLater(c, s.done, t.done, s.workers, s.chunks, s.fileCh);
  }

  lemma HonestFeed(c: Config, s: State, f: FeedStep)
    requires HonestState(c, s) && CanFeed(c, s, f)
    ensures HonestState(c, DoFeed(s, f))
  {
    FeedFrame(s, f);
  }

  lemma HonestClose(c: Config, s: State)
    requires HonestState(c, s)
    ensures HonestState(c, DoCloseBlobs(s))
  {
  }

  lemma HonestStep(c: Config, s: State, e: Step)
    requires HonestState(c, s) && Enabled(c, s, e)
    ensures HonestState(c, Apply(c, s, e))
  {
    match e {
      case CancelParent => HonestRear(c, s, Apply(c, s, e));
      case Feed(f) => HonestFeed(c, s, f);
      case Work(w, a) => HonestWork(c, s, w, a);
      case Read(w, r) => HonestRead(c, s, w, r);
      case CloseBlobs => HonestClose(c, s);
      case Assemble(b) => AssembleFrame(c, s, b); HonestRear(c, s, DoAssemble(c, s, b));
      case Flush(l) => FlushFrame(s, l); HonestRear(c, s, DoFlush(s, l));
      case Upload(u, d) => UploadFrame(s, u, d); HonestRear(c, s, DoUpload(s, u, d));
      case Put(u, p) => PutFrame(c, s, u, p); HonestRear(c, s, DoPut(c, s, u, p));
    }
  }

  /** In every run, each recorded list is the file's whole list, or empty; the latter only once
      the group's context is done. */
  lemma {:induction false} NeverPartial(c: Config, run: seq<Step>)
    requires Replay(c, run).Some?
    ensures HonestState(c, Replay(c, run).value)
    ensures var s := Replay(c, run).value;
      forall f :: 0 <= f < |s.chunks| && s.chunks[f].Some? ==>
        Whole(c, f, s.chunks[f].value) || (s.chunks[f].value == [] && s.done)
  {
    if run != [] {
      NeverPartial(c, run[..|run| - 1]);
      HonestStep(c, Replay(c, run[..|run| - 1]).value, run[|run| - 1]);
    }
  }

  /** A schedule that brings the only worker to offering the only chunk of the only file. */
  lemma OfferOne(c: Config, it: Item) returns (run: seq<Step>, s: State)
    requires c.files == [Stream([it], true)] && c.chunkWorkers == 1 && c.maxBytes == 0
    ensures Replay(c, run) == Some(s) && s.workers == [Offering(0, [it.id], |it.data|)]
    ensures !s.groupErr && !s.parentCanceled && s.chunks == [None]
  {
    var s1 := Extend(c, [], Init(c), Feed(FeedSend));
    run := [] + [Feed(FeedSend)];
    var s2 := Extend(c, run, s1, Work(0, TakeFile));
    assert s2.workers == [Reading(0, [], 0)];
    run := run + [Work(0, TakeFile)];
    s := Extend(c, run, s2, Read(0, NextChunk));
    assert [] + [it.id] == [it.id];
    run := run + [Read(0, NextChunk)];
  }

  /** A worker whose send is cancelled reports no error and records an empty list for a file
      that has chunks. */
  lemma EmptiedList(it: Item, known: set<ID>)
    ensures var c := Config([Stream([it], true)], 1, 1, 1, 0, false, known, _ => true);
      exists run :: Replay(c, run).Some? && Replay(c, run).value.chunks == [Some([])]
                    && !Replay(c, run).value.groupErr
  {
    var c := Config([Stream([it], true)], 1, 1, 1, 0, false, known, _ => true);
    var run, s := OfferOne(c, it);
    var s4 := Extend(c, run, s, CancelParent);
    run := run + [CancelParent];
    var s5 := Extend(c, run, s4, Read(0, SendBlobCancel));
    run := run + [Read(0, SendBlobCancel)];
    assert s5.workers == [Recording(0, [], 0)];
    var s6 := Extend(c, run, s5, Work(0, Record));
    assert s6.chunks == [Some([])] && Replay(c, run + [Work(0, Record)]) == Some(s6);
  }

  lemma Extend(c: Config, run: seq<Step>, s: State, e: Step) returns (t: State)
    requires Replay(c, run) == Some(s) && Enabled(c, s, e)
    ensures t == Apply(c, s, e) && Replay(c, run + [e]) == Some(t)
  {
    t := Apply(c, s, e);
    assert (run + [e])[..|run|] == run;
  }
}
