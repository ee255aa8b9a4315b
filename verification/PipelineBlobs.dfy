/** Stages 3 and 4 of a run that is not doomed: exact deduplication in the assembler, and every
    pack stored and indexed by exactly one uploader. */
module PipelineBlobs {
  import opened Blob
  import opened Pipeline
  import opened PipelineShape

  /** The blobs this run has claimed, in claim order: packs handed on, the pack being handed
      on, and the pack under construction. */
  function Claimed(made: seq<seq<Item>>, asm: Assembler, writer: seq<Item>): seq<Item> {
    Concat(made) + (if asm.Shipping? then asm.pack else []) + writer
  }

  /** The blobs the assembler has decided on: all it has received but the one it holds. */
  function Decided(handled: seq<Item>, asm: Assembler): seq<Item> {
    if asm.Holding? && handled != [] then handled[..|handled| - 1] else handled
  }

  /** The bookkeeping of a run that has decided on the blobs `decided` and claimed `claimed`. */
  ghost predicate Exactly(known: set<ID>, claimed: seq<Item>, decided: seq<Item>, inFlight: set<ID>, index: set<ID>,
                          stats: Stats) {
    && inFlight == IdSet(decided) - known
    && known <= index <= known + inFlight
    && Distinct(claimed) && IdSet(claimed) == inFlight
    && stats.blobsNew == |claimed| && stats.blobsNew + stats.blobsDeduped == |decided|
    && stats.bytesNew == Size(claimed) && stats.bytesNew + stats.bytesDeduped == Size(decided)
  }

  ghost predicate Dedup(known: set<ID>, asm: Assembler, handled: seq<Item>, inFlight: set<ID>, writer: seq<Item>,
                        index: set<ID>, made: seq<seq<Item>>, stats: Stats) {
    && (asm.Holding? ==> handled != [] && handled[|handled| - 1] == asm.item)
    && Exactly(known, Claimed(made, asm, writer), Decided(handled, asm), inFlight, index, stats)
  }

  ghost predicate Drained(asm: Assembler, blobCh: Chan<Item>, writer: seq<Item>) {
    && (asm.AsmReturned? || asm.AsmClosed? || asm.AsmGone? ==> blobCh.closed && blobCh.buf == [] && writer == [])
    && ((asm.Flushing? || asm.Shipping?) && asm.last ==> blobCh.closed && blobCh.buf == [])
  }

  ghost predicate BlobsClean(c: Config, s: State) {
    && Drained(s.asm, s.blobCh, s.writer)
    && Dedup(c.known, s.asm, s.log.handled, s.inFlight, s.writer, s.index, s.log.made, s.stats)
  }

  lemma AfterTake(c: Config, s: State)
    requires CanAssemble(s, TakeBlob) && BlobsClean(c, s)
    ensures BlobsClean(c, DoAssemble(c, s, TakeBlob))
  {
    var x := s.blobCh.buf[0];
    assert (s.log.handled + [x])[..|s.log.handled|] == s.log.handled;
  }

  lemma {:induction false} AfterSkip(known: set<ID>, it: Item, handled: seq<Item>, inFlight: set<ID>,
                                     writer: seq<Item>, index: set<ID>,
                  made: seq<seq<Item>>, stats: Stats)
    requires Dedup(known, Holding(it), handled, inFlight, writer, index, made, stats)
    requires it.id in inFlight || it.id in index
    ensures Dedup(known, AwaitBlob, handled, inFlight, writer, index, made,
                  stats.(blobsDeduped := stats.blobsDeduped + 1, bytesDeduped := stats.bytesDeduped + |it.data|))
  {
    var before := Decided(handled, Holding(it));
    assert handled == before + [it];
    IdSetPush(before, it);
    SizePush(before, it);
  }

  lemma {:induction false} ClaimedPush(made: seq<seq<Item>>, before: Assembler, after: Assembler, writer: seq<Item>,
                                       it: Item)
    requires !before.Shipping? && !after.Shipping?
    ensures Claimed(made, after, writer + [it]) == Claimed(made, before, writer) + [it]
  {
  }

  lemma ClaimOne(known: set<ID>, claimed: seq<Item>, decided: seq<Item>, inFlight: set<ID>, index: set<ID>,
                 stats: Stats, it: Item)
    requires Exactly(known, claimed, decided, inFlight, index, stats) && it.id !in inFlight && it.id !in index
    ensures Exactly(known, claimed + [it], decided + [it], inFlight + {it.id}, index,
                    stats.(blobsNew := stats.blobsNew + 1, bytesNew := stats.bytesNew + |it.data|))
  {
    IdSetPush(decided, it);
    SizePush(decided, it);
    IdSetPush(claimed, it);
    SizePush(claimed, it);
    DistinctPush(claimed, it);
  }

  lemma AfterClaim(known: set<ID>, it: Item, next: Assembler, handled: seq<Item>, inFlight: set<ID>, writer: seq<Item>,
                   index: set<ID>, made: seq<seq<Item>>, stats: Stats)
    requires Dedup(known, Holding(it), handled, inFlight, writer, index, made, stats)
    requires it.id !in inFlight && it.id !in index && (next.AwaitBlob? || next.Flushing?)
    ensures Dedup(known, next, handled, inFlight + {it.id}, writer + [it], index, made,
                  stats.(blobsNew := stats.blobsNew + 1, bytesNew := stats.bytesNew + |it.data|))
  {
    var before := Decided(handled, Holding(it));
    assert handled == before + [it];
    ClaimedPush(made, Holding(it), next, writer, it);
    ClaimOne(known, Claimed(made, Holding(it), writer), before, inFlight, index, stats, it);
  }

  lemma DecideSkip(c: Config, s: State)
    requires s.asm.Holding? && IsKnown(s, s.asm.item.id) && BlobsClean(c, s)
    ensures BlobsClean(c, Skip(s, s.asm.item))
  {
    AfterSkip(c.known, s.asm.item, s.log.handled, s.inFlight, s.writer, s.index, s.log.made, s.stats);
  }

  lemma DecideClaim(c: Config, s: State, next: Assembler)
    requires s.asm.Holding? && !IsKnown(s, s.asm.item.id) && BlobsClean(c, s)
    requires next == (if Size(s.writer + [s.asm.item]) >= c.packTarget then Flushing(false) else AwaitBlob)
    ensures BlobsClean(c, Claim(c, s, s.asm.item))
  {
    var t := Claim(c, s, s.asm.item);
    assert t.asm == next && t.log == s.log && t.index == s.index;
    AfterClaim(c.known, s.asm.item, next, s.log.handled, s.inFlight, s.writer, s.index, s.log.made, s.stats);
    assert Dedup(c.known, t.asm, t.log.handled, t.inFlight, t.writer, t.index, t.log.made, t.stats);
  }

  lemma AssembleBlobs(c: Config, s: State, b: AsmStep)
    requires CanAssemble(s, b) && !s.done && BlobsClean(c, s)
    requires DoAssemble(c, s, b).log.doom == Sound
    ensures BlobsClean(c, DoAssemble(c, s, b))
  {
    match b {
      case TakeBlob => AfterTake(c, s);
      case NoMoreBlobs =>
      case TakeBlobCancel =>
      case Decide =>
        if IsKnown(s, s.asm.item.id) {
          DecideSkip(c, s);
        } else {
          DecideClaim(c, s, Claim(c, s, s.asm.item).asm);
        }
      case AddFail =>
    }
  }

  lemma FinishClaims(made: seq<seq<Item>>, last: bool, writer: seq<Item>)
    ensures Claimed(made, Shipping(writer, last), []) == Claimed(made, Flushing(last), writer)
  {
  }

  lemma SendClaims(made: seq<seq<Item>>, pack: seq<Item>, last: bool)
    ensures Claimed(made + [pack], AfterFlush(last), []) == Claimed(made, Shipping(pack, last), [])
  {
    ConcatPush(made, pack);
  }

  lemma FlushBlobs(c: Config, s: State, l: FlushStep)
    requires AsmOk(s.asm, s.writer) && CanFlush(s, l) && !s.done && BlobsClean(c, s)
    requires DoFlush(s, l).log.doom == Sound
    ensures BlobsClean(c, DoFlush(s, l))
  {
    match l {
      case Finish => FinishClaims(s.log.made, s.asm.last, s.writer);
      case FinishFail =>
      case SendPack => SendClaims(s.log.made, s.asm.pack, s.asm.last);
      case SendPackCancel =>
      case ClosePacks =>
      case AsmExit =>
    }
  }

  // ---- stage 4 ----

  ghost predicate Carries(u: Uploader, t: nat) {
    (u.Storing? || u.Indexing?) && u.t == t
  }

  ghost predicate Carrying(u: Uploader, i: nat, taken: seq<seq<Item>>, taker: seq<nat>, stored: set<nat>,
                           counted: set<nat>, index: set<ID>) {
    (u.Storing? || u.Indexing? ==> u.t < |taken| && u.t < |taker| && taker[u.t] == i && u.t !in counted)
    && (u.Indexing? ==> u.next <= |taken[u.t]| && u.t in stored && IdSet(taken[u.t][..u.next]) <= index)
  }

  ghost predicate Uploads(c: Config, uploaders: seq<Uploader>, taken: seq<seq<Item>>, taker: seq<nat>,
                          stored: set<nat>, counted: set<nat>, index: set<ID>, packsWritten: nat) {
    && |taker| == |taken|
    && (forall t :: 0 <= t < |taken| ==> taker[t] < |uploaders| && (t !in counted ==> Carries(uploaders[taker[t]], t)))
    && (forall i :: 0 <= i < |uploaders| ==> Carrying(uploaders[i], i, taken, taker, stored, counted, index))
    && (forall t :: t in counted ==> t < |taken| && (c.dryRun || (t in stored && IdSet(taken[t]) <= index)))
    && packsWritten == |counted|
  }

  ghost predicate DrainedPacks(uploaders: seq<Uploader>, packCh: Chan<seq<Item>>) {
    forall u :: 0 <= u < |uploaders| && (uploaders[u].UploaderReturned? || uploaders[u].UploaderGone?) ==>
      packCh.closed && packCh.buf == []
  }

  ghost predicate UploadsClean(c: Config, s: State) {
    && DrainedPacks(s.uploaders, s.packCh)
    && Uploads(c, s.uploaders, s.log.taken, s.log.taker, s.log.stored, s.log.counted, s.index, s.stats.packsWritten)
  }

  lemma AfterTakePack(c: Config, uploaders: seq<Uploader>, u: nat, taken: seq<seq<Item>>, taker: seq<nat>,
                      stored: set<nat>, counted: set<nat>, index: set<ID>, packsWritten: nat, pack: seq<Item>)
    requires Uploads(c, uploaders, taken, taker, stored, counted, index, packsWritten)
    requires u < |uploaders| && uploaders[u].AwaitPack?
    ensures Uploads(c, uploaders[u := Storing(|taken|)], taken + [pack], taker + [u], stored, counted, index,
                    packsWritten)
  {
  }

  lemma AfterEnding(c: Config, uploaders: seq<Uploader>, u: nat, taken: seq<seq<Item>>, taker: seq<nat>,
                    stored: set<nat>, counted: set<nat>, index: set<ID>, packsWritten: nat, next: Uploader)
    requires Uploads(c, uploaders, taken, taker, stored, counted, index, packsWritten)
    requires u < |uploaders| && !uploaders[u].Storing? && !uploaders[u].Indexing? && !next.Storing? && !next.Indexing?
    ensures Uploads(c, uploaders[u := next], taken, taker, stored, counted, index, packsWritten)
  {
  }

  lemma UploadUploads(c: Config, s: State, u: nat, d: UpStep)
    requires Shape(c, s) && CanUpload(s, u, d) && !s.done && UploadsClean(c, s)
    ensures UploadsClean(c, DoUpload(s, u, d))
  {
    var t := DoUpload(s, u, d);
    if d.TakePack? {
      AfterTakePack(c, s.uploaders, u, s.log.taken, s.log.taker, s.log.stored, s.log.counted, s.index,
                    s.stats.packsWritten, s.packCh.buf[0]);
    } else {
      AfterEnding(c, s.uploaders, u, s.log.taken, s.log.taker, s.log.stored, s.log.counted, s.index,
                  s.stats.packsWritten, t.uploaders[u]);
    }
  }

  lemma AfterInsert(c: Config, uploaders: seq<Uploader>, u: nat, taken: seq<seq<Item>>, taker: seq<nat>,
                    stored: set<nat>, counted: set<nat>, index: set<ID>, packsWritten: nat)
    requires Uploads(c, uploaders, taken, taker, stored, counted, index, packsWritten)
    requires u < |uploaders| && uploaders[u].Indexing? && uploaders[u].next < |taken[uploaders[u].t]|
    ensures var pc := uploaders[u];
      Uploads(c, uploaders[u := Indexing(pc.t, pc.next + 1)], taken, taker, stored, counted,
              index + {taken[pc.t][pc.next].id}, packsWritten)
  {
    var pc := uploaders[u];
    var pack := taken[pc.t];
    assert pack[..pc.next + 1] == pack[..pc.next] + [pack[pc.next]];
    IdSetPush(pack[..pc.next], pack[pc.next]);
  }

  lemma AfterCount(c: Config, uploaders: seq<Uploader>, u: nat, taken: seq<seq<Item>>, taker: seq<nat>,
                   stored: set<nat>, counted: set<nat>, index: set<ID>, packsWritten: nat)
    requires Uploads(c, uploaders, taken, taker, stored, counted, index, packsWritten)
    requires u < |uploaders| && (uploaders[u].Storing? || uploaders[u].Indexing?)
    requires if uploaders[u].Storing? then c.dryRun else uploaders[u].next == |taken[uploaders[u].t]|
    ensures Uploads(c, uploaders[u := AwaitPack], taken, taker, stored, counted + {uploaders[u].t}, index,
                    packsWritten + 1)
  {
    var pc := uploaders[u];
    assert pc.Indexing? ==> taken[pc.t][..pc.next] == taken[pc.t];
  }

  lemma PutUploads(c: Config, s: State, u: nat, p: PutStep)
    requires CanPut(c, s, u, p) && !s.done && UploadsClean(c, s)
    requires DoPut(c, s, u, p).log.doom == Sound
    ensures UploadsClean(c, DoPut(c, s, u, p))
  {
    match p {
      case StorePack =>
        assert s.log.taken[s.uploaders[u].t][..0] == [];
      case StoreFail(_) =>
      case InsertEntry =>
        AfterInsert(c, s.uploaders, u, s.log.taken, s.log.taker, s.log.stored, s.log.counted, s.index,
                    s.stats.packsWritten);
      case CountPack =>
        AfterCount(c, s.uploaders, u, s.log.taken, s.log.taker, s.log.stored, s.log.counted, s.index,
                   s.stats.packsWritten);
    }
  }

  /** An uploader only indexes blobs that this run has claimed. */
  lemma InsertClaimed(c: Config, s: State, u: nat)
    requires Shape(c, s) && CanPut(c, s, u, InsertEntry) && BlobsClean(c, s)
    ensures BlobsClean(c, DoPut(c, s, u, InsertEntry))
  {
    var pc := s.uploaders[u];
    var it := s.log.taken[pc.t][pc.next];
    assert s.log.made[pc.t] == s.log.taken[pc.t];
    InConcat(s.log.made, pc.t, it);
    assert it in Claimed(s.log.made, s.asm, s.writer);
  }
}
