/** Stages 1 and 2 of a run that is not doomed: every file is unfed, queued, in the hands of
    exactly one worker, or recorded with exactly its own chunk list. */
module PipelineFiles {
  import opened Wrappers
  import opened Blob
  import opened Pipeline
  import opened PipelineShape

  function Clip(k: nat, items: seq<Item>): nat {
    if k <= |items| then k else |items|
  }

  /** The chunks sent so far, when `progress[f]` chunks of file f have been sent. */
  ghost function Produced(files: seq<Stream>, progress: seq<nat>): multiset<Item>
    requires |files| == |progress|
  {
    if files == [] then
      multiset{}
    else
      var n := |files| - 1;
      Produced(files[..n], progress[..n]) + multiset(files[n].items[..Clip(progress[n], files[n].items)])
  }

  lemma OneMoreOf(items: seq<Item>, k: nat)
    requires k < |items|
    ensures multiset(items[..Clip(k + 1, items)]) == multiset(items[..Clip(k, items)]) + multiset{items[k]}
  {
    assert items[..k + 1] == items[..k] + [items[k]];
  }

  lemma {:induction false} ProducedMore(files: seq<Stream>, progress: seq<nat>, f: nat)
    requires |files| == |progress| && f < |files| && progress[f] < |files[f].items|
    ensures Produced(files, progress[f := progress[f] + 1])
         == Produced(files, progress) + multiset{files[f].items[progress[f]]}
  {
    var n := |files| - 1;
    var more := progress[f := progress[f] + 1];
    var before, last := Produced(files[..n], progress[..n]), files[n].items;
    if f < n {
      ProducedMore(files[..n], progress[..n], f);
      assert more[..n] == progress[..n][f := progress[f] + 1];
      PlusSwap(before, multiset{files[f].items[progress[f]]}, multiset(last[..Clip(progress[n], last)]));
    } else {
      assert more[..n] == progress[..n];
      OneMoreOf(last, progress[n]);
      PlusAssoc(before, multiset(last[..Clip(progress[n], last)]), multiset{last[progress[n]]});
    }
  }

  lemma PlusSwap<T>(a: multiset<T>, b: multiset<T>, c: multiset<T>)
    ensures (a + b) + c == (a + c) + b
  {
  }

  lemma PlusAssoc<T>(a: multiset<T>, b: multiset<T>, c: multiset<T>)
    ensures a + (b + c) == (a + b) + c
  {
  }

  lemma {:induction false} ProducedNone(files: seq<Stream>, progress: seq<nat>)
    requires |files| == |progress| && forall f :: 0 <= f < |files| ==> progress[f] == 0
    ensures Produced(files, progress) == multiset{}
  {
    if files != [] {
      ProducedNone(files[..|files| - 1], progress[..|files| - 1]);
    }
  }

  /** All chunks of all files, in walk order. */
  function AllChunks(files: seq<Stream>): seq<Item> {
    if files == [] then [] else AllChunks(files[..|files| - 1]) + files[|files| - 1].items
  }

  lemma {:induction false} ProducedAll(files: seq<Stream>, progress: seq<nat>)
    requires |files| == |progress| && forall f :: 0 <= f < |files| ==> progress[f] == |files[f].items|
    ensures Produced(files, progress) == multiset(AllChunks(files))
  {
    if files != [] {
      var n := |files| - 1;
      ProducedAll(files[..n], progress[..n]);
      assert files[n].items[..|files[n].items|] == files[n].items;
    }
  }

  /** The bytes of the files recorded so far. */
  ghost function RecordedBytes(files: seq<Stream>, chunks: seq<Option<seq<ID>>>): nat
    requires |files| == |chunks|
  {
    if files == [] then
      0
    else
      var n := |files| - 1;
      RecordedBytes(files[..n], chunks[..n]) + if chunks[n].Some? then Size(files[n].items) else 0
  }

  lemma {:induction false} RecordedMore(files: seq<Stream>, chunks: seq<Option<seq<ID>>>, f: nat, ids: seq<ID>)
    requires |files| == |chunks| && f < |files| && chunks[f].None?
    ensures RecordedBytes(files, chunks[f := Some(ids)]) == RecordedBytes(files, chunks) + Size(files[f].items)
  {
    var n := |files| - 1;
    if f < n {
      RecordedMore(files[..n], chunks[..n], f, ids);
      assert chunks[f := Some(ids)][..n] == chunks[..n][f := Some(ids)];
    } else {
      assert chunks[f := Some(ids)][..n] == chunks[..n];
    }
  }

  lemma {:induction false} RecordedNone(files: seq<Stream>, chunks: seq<Option<seq<ID>>>)
    requires |files| == |chunks| && forall f :: 0 <= f < |files| ==> chunks[f].None?
    ensures RecordedBytes(files, chunks) == 0
  {
    if files != [] {
      RecordedNone(files[..|files| - 1], chunks[..|files| - 1]);
    }
  }

  lemma {:induction false} RecordedAll(files: seq<Stream>, chunks: seq<Option<seq<ID>>>)
    requires |files| == |chunks| && forall f :: 0 <= f < |files| ==> chunks[f].Some?
    ensures RecordedBytes(files, chunks) == Size(AllChunks(files))
  {
    if files != [] {
      var n := |files| - 1;
      RecordedAll(files[..n], chunks[..n]);
      SizeAppend(AllChunks(files[..n]), files[n].items);
    }
  }

  ghost predicate Holds(w: Worker, f: nat) {
    Busy(w) && w.file == f
  }

  ghost predicate Finished(w: Worker) {
    w.WorkerReturned? || w.WorkerSignalled? || w.WorkerGone?
  }

  /** `ids` and `read` are the addresses and the size of the first |ids| chunks. */
  ghost predicate Prefix(items: seq<Item>, ids: seq<ID>, read: nat) {
    |ids| <= |items| && ids == Ids(items[..|ids|]) && read == Size(items[..|ids|])
  }

  lemma PrefixMore(items: seq<Item>, ids: seq<ID>, read: nat)
    requires Prefix(items, ids, read) && |ids| < |items|
    ensures Prefix(items, ids + [items[|ids|].id], read + |items[|ids|].data|)
  {
    SizePush(items[..|ids|], items[|ids|]);
    assert items[..|ids| + 1] == items[..|ids|] + [items[|ids|]];
  }

  ghost predicate Busy(w: Worker) {
    w.Reading? || w.Offering? || w.Recording?
  }

  /** Worker i's locals describe a prefix of its file, and that file is its alone. */
  ghost predicate Exact(c: Config, w: Worker, i: nat, owner: seq<nat>, chunks: seq<Option<seq<ID>>>, progress: seq<nat>)
    requires |c.files| == |chunks| == |progress|
  {
    Busy(w) ==>
      && w.file < |owner| && w.file < |c.files| && owner[w.file] == i && chunks[w.file].None?
      && Prefix(c.files[w.file].items, w.ids, w.read)
      && progress[w.file] + (if w.Offering? then 1 else 0) == |w.ids|
      && (w.Recording? ==> |w.ids| == |c.files[w.file].items| && c.files[w.file].ok)
  }

  ghost predicate AllExact(c: Config, workers: seq<Worker>, owner: seq<nat>, chunks: seq<Option<seq<ID>>>,
                           progress: seq<nat>)
    requires |c.files| == |chunks| == |progress|
  {
    forall i :: 0 <= i < |workers| ==> Exact(c, workers[i], i, owner, chunks, progress)
  }

  /** A file that has been taken is recorded or still in its worker's hands. */
  ghost predicate Owned(owner: seq<nat>, workers: seq<Worker>, chunks: seq<Option<seq<ID>>>) {
    |owner| <= |chunks| && forall f :: 0 <= f < |owner| ==>
      owner[f] < |workers| && (chunks[f].None? ==> Holds(workers[owner[f]], f))
  }

  ghost predicate Recorded(c: Config, claimed: nat, chunks: seq<Option<seq<ID>>>, progress: seq<nat>)
    requires |c.files| == |chunks| == |progress|
  {
    && (forall f :: 0 <= f < |chunks| && chunks[f].Some? ==>
         && chunks[f].value == Ids(c.files[f].items) && c.files[f].ok && progress[f] == |c.files[f].items|)
    && (forall f :: claimed <= f < |chunks| ==> chunks[f].None? && progress[f] == 0)
  }

  ghost predicate DrainedFiles(c: Config, feeder: Feeder, fed: nat, fileCh: Chan<nat>, workers: seq<Worker>) {
    && (!feeder.Feeding? ==> fed == |c.files|)
    && (forall i :: 0 <= i < |workers| && Finished(workers[i]) ==> fileCh.closed && fileCh.buf == [])
  }

  ghost predicate Files(c: Config, workers: seq<Worker>, owner: seq<nat>, chunks: seq<Option<seq<ID>>>,
                        progress: seq<nat>,
                        sent: seq<Item>, bytesRead: nat) {
    && |c.files| == |chunks| == |progress|
    && AllExact(c, workers, owner, chunks, progress)
    && Owned(owner, workers, chunks)
    && Recorded(c, |owner|, chunks, progress)
    && multiset(sent) == Produced(c.files, progress)
    && bytesRead == RecordedBytes(c.files, chunks)
  }

  ghost predicate FilesClean(c: Config, s: State) {
    && DrainedFiles(c, s.feeder, s.log.fed, s.fileCh, s.workers)
    && Files(c, s.workers, s.log.owner, s.chunks, s.log.progress, s.log.sent, s.stats.bytesRead)
  }

  lemma InitFiles(c: Config)
    ensures FilesClean(c, Init(c))
  {
    ProducedNone(c.files, Init(c).log.progress);
    RecordedNone(c.files, Init(c).chunks);
  }

  lemma FeedFiles(c: Config, s: State, f: FeedStep)
    requires Shape(c, s) && CanFeed(c, s, f) && !s.done && FilesClean(c, s)
    ensures FilesClean(c, DoFeed(s, f))
  {
  }

  lemma AfterIdle(c: Config, workers: seq<Worker>, w: nat, idle: Worker, owner: seq<nat>, chunks: seq<Option<seq<ID>>>,
                  progress: seq<nat>, sent: seq<Item>, bytesRead: nat)
    requires Files(c, workers, owner, chunks, progress, sent, bytesRead)
    requires w < |workers| && !Busy(workers[w]) && !Busy(idle)
    ensures Files(c, workers[w := idle], owner, chunks, progress, sent, bytesRead)
  {
  }

  lemma WorkFiles(c: Config, s: State, w: nat, a: WorkStep)
    requires Shape(c, s) && CanWork(s, w, a) && !s.done && FilesClean(c, s)
    ensures FilesClean(c, DoWork(s, w, a))
  {
    match a {
      case TakeFile => TakeFileFiles(c, s, w);
      case TakeFileCancel =>
      case Record => RecordFiles(c, s, w);
      case _ =>
        AfterIdle(c, s.workers, w, DoWork(s, w, a).workers[w],
                  s.log.owner, s.chunks, s.log.progress, s.log.sent, s.stats.bytesRead);
    }
  }

  lemma TakeFileFiles(c: Config, s: State, w: nat)
    requires Shape(c, s) && CanWork(s, w, TakeFile) && FilesClean(c, s)
    ensures FilesClean(c, DoWork(s, w, TakeFile))
  {
    assert Prefix(c.files[s.fileCh.buf[0]].items, [], 0);
  }

  lemma AfterRecord(c: Config, workers: seq<Worker>, w: nat, owner: seq<nat>, chunks: seq<Option<seq<ID>>>,
                    progress: seq<nat>, sent: seq<Item>, bytesRead: nat)
    requires Files(c, workers, owner, chunks, progress, sent, bytesRead) && w < |workers| && workers[w].Recording?
    requires workers[w].file < |chunks|
    ensures Files(c, workers[w := AwaitFile], owner, chunks[workers[w].file := Some(workers[w].ids)], progress, sent,
                  bytesRead + workers[w].read)
  {
    var pc := workers[w];
    RecordedMore(c.files, chunks, pc.file, pc.ids);
    assert c.files[pc.file].items[..|pc.ids|] == c.files[pc.file].items;
  }

  lemma RecordFiles(c: Config, s: State, w: nat)
    requires CanWork(s, w, Record) && FilesClean(c, s)
    ensures FilesClean(c, DoWork(s, w, Record))
  {
    AfterRecord(c, s.workers, w, s.log.owner, s.chunks, s.log.progress, s.log.sent, s.stats.bytesRead);
  }

  lemma ReadFiles(c: Config, s: State, w: nat, r: ReadStep)
    requires CanRead(c, s, w, r) && !s.done && FilesClean(c, s)
    requires DoRead(c, s, w, r).log.doom == Sound
    ensures FilesClean(c, DoRead(c, s, w, r))
  {
    match r {
      case NextChunk => NextChunkFiles(c, s, w);
      case NextOverCap =>
      case NextEof =>
      case NextError =>
      case SendBlob => SendBlobFiles(c, s, w);
      case SendBlobCancel =>
    }
  }

  lemma NextChunkFiles(c: Config, s: State, w: nat)
    requires CanRead(c, s, w, NextChunk) && FilesClean(c, s)
    ensures FilesClean(c, DoRead(c, s, w, NextChunk))
  {
    var pc := s.workers[w];
    PrefixMore(c.files[pc.file].items, pc.ids, pc.read);
  }

  lemma ExactAfterSend(c: Config, workers: seq<Worker>, w: nat, owner: seq<nat>, chunks: seq<Option<seq<ID>>>,
                       progress: seq<nat>)
    requires |c.files| == |chunks| == |progress| && w < |workers| && workers[w].Offering?
    requires AllExact(c, workers, owner, chunks, progress) && Owned(owner, workers, chunks)
    requires Recorded(c, |owner|, chunks, progress)
    ensures var pc := workers[w];
      && Exact(c, pc, w, owner, chunks, progress)
      && var next := workers[w := Reading(pc.file, pc.ids, pc.read)];
        var more := progress[pc.file := progress[pc.file] + 1];
        && AllExact(c, next, owner, chunks, more) && Owned(owner, next, chunks) && Recorded(c, |owner|, chunks, more)
  {
  }

  lemma {:induction false} AfterSend(c: Config, workers: seq<Worker>, w: nat, owner: seq<nat>,
                                     chunks: seq<Option<seq<ID>>>,
                  progress: seq<nat>, sent: seq<Item>, bytesRead: nat)
    requires Files(c, workers, owner, chunks, progress, sent, bytesRead) && w < |workers| && workers[w].Offering?
    requires workers[w].file < |progress| && 0 < |workers[w].ids| <= |c.files[workers[w].file].items|
    ensures var pc := workers[w];
      Files(c, workers[w := Reading(pc.file, pc.ids, pc.read)], owner, chunks,
            progress[pc.file := progress[pc.file] + 1], sent + [c.files[pc.file].items[|pc.ids| - 1]], bytesRead)
  {
    var pc := workers[w];
    var it := c.files[pc.file].items[|pc.ids| - 1];
    ExactAfterSend(c, workers, w, owner, chunks, progress);
    assert progress[pc.file] == |pc.ids| - 1;
    ProducedMore(c.files, progress, pc.file);
    assert multiset(sent + [it]) == multiset(sent) + multiset{it};
  }

  /** t is s after worker w's chunk has been sent, as far as these stages are concerned. */
  ghost predicate SentFrom(c: Config, s: State, w: nat, t: State)
    requires CanRead(c, s, w, SendBlob)
  {
    var pc := s.workers[w];
    && t.feeder == s.feeder && t.fileCh == s.fileCh && t.chunks == s.chunks && t.stats == s.stats
    && t.workers == s.workers[w := Reading(pc.file, pc.ids, pc.read)]
    && t.log.fed == s.log.fed && t.log.owner == s.log.owner
    && t.log.progress == s.log.progress[pc.file := s.log.progress[pc.file] + 1]
    && t.log.sent == s.log.sent + [c.files[pc.file].items[|pc.ids| - 1]]
  }

  lemma SentKeeps(c: Config, s: State, w: nat, t: State)
    requires CanRead(c, s, w, SendBlob) && FilesClean(c, s) && SentFrom(c, s, w, t)
    ensures FilesClean(c, t)
  {
    AfterSend(c, s.workers, w, s.log.owner, s.chunks, s.log.progress, s.log.sent, s.stats.bytesRead);
  }

  lemma SendBlobFiles(c: Config, s: State, w: nat)
    requires CanRead(c, s, w, SendBlob) && FilesClean(c, s)
    ensures FilesClean(c, DoRead(c, s, w, SendBlob))
  {
    SentKeeps(c, s, w, DoRead(c, s, w, SendBlob));
  }
}
