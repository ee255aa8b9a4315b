/** A backup run as seen by the repository: whatever the schedule, and whether or not the run
    succeeds, its store writes and index insertions are steps of the repository machine. */
module PipelineStores {
  import opened Wrappers
  import opened Blob
  import opened PackFormat
  import opened Pipeline
  import opened PipelineShape
  import opened PipelineFrames
  import opened PipelineFiles
  import Repo = RepoModel
  import opened RepoInvariant
  import RepoTheorems

  ghost predicate From(source: set<Item>, items: seq<Item>) {
    forall it :: it in items ==> it in source
  }

  function SourceItems(c: Config): set<Item> {
    set it | it in AllChunks(c.files)
  }

  /** A pack under construction, or a finished one: distinct chunks of the source. */
  ghost predicate Genuine(source: set<Item>, pack: seq<Item>) {
    From(source, pack) && Distinct(pack)
  }

  ghost predicate GenuineAsm(source: set<Item>, asm: Assembler, writer: seq<Item>, inFlight: set<ID>) {
    && (asm.Holding? ==> asm.item in source)
    && (asm.Shipping? ==> Genuine(source, asm.pack))
    && Genuine(source, writer) && IdSet(writer) <= inFlight
  }

  ghost predicate GenuinePacks(source: set<Item>, made: seq<seq<Item>>) {
    forall t :: 0 <= t < |made| ==> Genuine(source, made[t])
  }

  /** Only stored packs are indexed. */
  ghost predicate StoredFirst(uploaders: seq<Uploader>, taken: seq<seq<Item>>, stored: set<nat>) {
    && (forall u :: 0 <= u < |uploaders| && uploaders[u].Indexing? ==> uploaders[u].t in stored)
    && (forall t :: t in stored ==> t < |taken|)
  }

  ghost predicate Authored(c: Config, s: State) {
    var source := SourceItems(c);
    && From(source, s.blobCh.buf)
    && GenuineAsm(source, s.asm, s.writer, s.inFlight)
    && GenuinePacks(source, s.log.made)
    && StoredFirst(s.uploaders, s.log.taken, s.log.stored)
  }

  lemma {:induction false} InAllChunks(files: seq<Stream>, f: nat, k: nat)
    requires f < |files| && k < |files[f].items|
    ensures files[f].items[k] in AllChunks(files)
  {
    if f < |files| - 1 {
      InAllChunks(files[..|files| - 1], f, k);
    }
  }

  lemma AuthoredByRead(c: Config, s: State, w: nat, r: ReadStep)
    requires Authored(c, s) && CanRead(c, s, w, r)
    ensures Authored(c, DoRead(c, s, w, r))
  {
    ReadFrame(c, s, w, r);
    if r.SendBlob? {
      var pc := s.workers[w];
      InAllChunks(c.files, pc.file, |pc.ids| - 1);
    }
  }

  lemma ClaimGenuine(source: set<Item>, writer: seq<Item>, inFlight: set<ID>, it: Item)
    requires Genuine(source, writer) && IdSet(writer) <= inFlight && it in source && it.id !in inFlight
    ensures Genuine(source, writer + [it]) && IdSet(writer + [it]) <= inFlight + {it.id}
  {
    IdSetPush(writer, it);
    DistinctPush(writer, it);
  }

  lemma AuthoredByAssembler(c: Config, s: State, b: AsmStep)
    requires Authored(c, s) && CanAssemble(s, b)
    ensures Authored(c, DoAssemble(c, s, b))
  {
    AssembleFrame(c, s, b);
    if b.Decide? && !IsKnown(s, s.asm.item.id) {
      ClaimGenuine(SourceItems(c), s.writer, s.inFlight, s.asm.item);
    }
  }

  lemma AuthoredByFlush(c: Config, s: State, l: FlushStep)
    requires Authored(c, s) && CanFlush(s, l)
    ensures Authored(c, DoFlush(s, l))
  {
    FlushFrame(s, l);
  }

  lemma AuthoredByUpload(c: Config, s: State, u: nat, d: UpStep)
    requires Authored(c, s) && CanUpload(s, u, d)
    ensures Authored(c, DoUpload(s, u, d))
  {
    UploadFrame(s, u, d);
  }

  lemma AuthoredByPut(c: Config, s: State, u: nat, p: PutStep)
    requires Shape(c, s) && Authored(c, s) && CanPut(c, s, u, p)
    ensures Authored(c, DoPut(c, s, u, p))
  {
    PutFrame(c, s, u, p);
  }

  lemma StepAuthored(c: Config, s: State, e: Step)
    requires Shape(c, s) && Authored(c, s) && Enabled(c, s, e)
    ensures Authored(c, Apply(c, s, e))
    ensures s.log.made <= Apply(c, s, e).log.made
  {
    match e {
      case CancelParent =>
      case Feed(f) => FeedFrame(s, f);
      case Work(w, a) => WorkFrame(s, w, a);
      case Read(w, r) => AuthoredByRead(c, s, w, r); ReadFrame(c, s, w, r);
      case CloseBlobs =>
      case Assemble(b) => AuthoredByAssembler(c, s, b); AssembleFrame(c, s, b);
      case Flush(l) => AuthoredByFlush(c, s, l);
      case Upload(u, d) => AuthoredByUpload(c, s, u, d); UploadFrame(s, u, d);
      case Put(u, p) => AuthoredByPut(c, s, u, p); PutFrame(c, s, u, p);
    }
  }

  lemma {:induction false} RunAuthored(c: Config, run: seq<Step>)
    requires Replay(c, run).Some?
    ensures Shape(c, Replay(c, run).value) && Authored(c, Replay(c, run).value)
  {
    if run == [] {
      InitShape(c);
    } else {
      var s := Replay(c, run[..|run| - 1]).value;
      RunAuthored(c, run[..|run| - 1]);
      StepShape(c, s, run[|run| - 1]);
      StepAuthored(c, s, run[|run| - 1]);
    }
  }

  // ---- refinement ----

  /** Every chunk carries the address of its own bytes. */
  ghost predicate SourceOk(env: Repo.Env, source: set<Item>) {
    forall it :: it in source ==> it.id == env.h(it.data) && it.id != ZERO && it.data in env.inPlay
  }

  /** The packs that Finish accepted. */
  ghost predicate PacksFit(env: Repo.Env, made: seq<seq<Item>>) {
    forall t :: 0 <= t < |made| ==> Finishable(env.codec, made[t]) && PackBytes(env.codec, made[t]) in env.inPlay
  }

  lemma GenuineStorable(env: Repo.Env, source: set<Item>, pack: seq<Item>)
    requires SourceOk(env, source) && Genuine(source, pack)
    requires Finishable(env.codec, pack) && PackBytes(env.codec, pack) in env.inPlay
    ensures Repo.Storable(env, pack)
  {
    forall k | 0 <= k < |pack|
      ensures pack[k].id == env.h(pack[k].data) && pack[k].id != ZERO && pack[k].data in env.inPlay
    {
      assert pack[k] in source;
    }
  }

  ghost predicate HoldsPack(env: Repo.Env, packs: Repo.Packs, pack: seq<Item>)
    requires Finishable(env.codec, pack)
  {
    var bytes := PackBytes(env.codec, pack);
    env.h(bytes) in packs && packs[env.h(bytes)] == bytes
  }

  lemma FitPrefix(env: Repo.Env, made: seq<seq<Item>>, more: seq<seq<Item>>)
    requires made <= more && PacksFit(env, more)
    ensures PacksFit(env, made)
  {
    assert forall t :: 0 <= t < |made| ==> made[t] == more[t];
  }

  /** The repository has every pack the run has stored, and its index has the same keys. */
  ghost predicate Mirrored(env: Repo.Env, start: Repo.World, made: seq<seq<Item>>, stored: set<nat>, index: set<ID>,
                           w: Repo.World)
    requires PacksFit(env, made)
  {
    && Repo.In(w, Repo.Uploading) && w.proc.idx.Keys == index
    && w.snaps == start.snaps && w.index == start.index
    && (forall t :: t in stored ==> t < |made| && HoldsPack(env, w.packs, made[t]))
  }

  ghost predicate Mirrors(env: Repo.Env, start: Repo.World, s: State, w: Repo.World)
    requires PacksFit(env, s.log.made)
  {
    Mirrored(env, start, s.log.made, s.log.stored, s.index, w)
  }

  lemma MirrorGrow(env: Repo.Env, start: Repo.World, made: seq<seq<Item>>, more: seq<seq<Item>>, stored: set<nat>,
                   index: set<ID>, w: Repo.World)
    requires PacksFit(env, made) && PacksFit(env, more) && made <= more && Mirrored(env, start, made, stored, index, w)
    ensures Mirrored(env, start, more, stored, index, w)
  {
    assert forall t :: 0 <= t < |made| ==> made[t] == more[t];
  }

  lemma MirrorStore(env: Repo.Env, start: Repo.World, made: seq<seq<Item>>, stored: set<nat>, index: set<ID>,
                    w: Repo.World, t: nat)
    requires env.Valid() && PacksFit(env, made) && t < |made| && Repo.Storable(env, made[t])
    requires Inv(env, w) && Mirrored(env, start, made, stored, index, w)
    ensures Repo.CanRun(env, w, Repo.StorePack(made[t]))
    ensures Mirrored(env, start, made, stored + {t}, index, Repo.Run(env, w, Repo.StorePack(made[t])))
  {
    var bytes := PackBytes(env.codec, made[t]);
    if env.h(bytes) in w.packs {
      assert SoundPack(env, env.h(bytes), w.packs[env.h(bytes)]);
    }
  }

  lemma MirrorInsert(env: Repo.Env, start: Repo.World, made: seq<seq<Item>>, stored: set<nat>, index: set<ID>,
                     w: Repo.World,
                     t: nat, k: nat)
    requires env.Valid() && PacksFit(env, made) && t in stored && t < |made|
    requires Repo.Storable(env, made[t]) && k < |made[t]|
    requires Mirrored(env, start, made, stored, index, w)
    ensures var e := Repo.InsertEntry(env.h(PackBytes(env.codec, made[t])), k);
      Repo.CanRun(env, w, e) && Mirrored(env, start, made, stored, index + {made[t][k].id}, Repo.Run(env, w, e))
  {
    assert HoldsPack(env, w.packs, made[t]);
    StorableSound(env, made[t]);
    EntriesTile(made[t], k);
  }

  /** At most one step of the repository, which stores a pack or indexes a blob. */
  ghost predicate AtMostOne(env: Repo.Env, w: Repo.World, steps: seq<Repo.Step>, next: Repo.World) {
    || (steps == [] && next == w)
    || (|steps| == 1 && (steps[0].StorePack? || steps[0].InsertEntry?)
        && Repo.CanRun(env, w, steps[0]) && next == Repo.Run(env, w, steps[0]))
  }

  /** Only flushing and uploading concern the repository. */
  lemma QuietStep(c: Config, s: State, e: Step)
    requires Enabled(c, s, e) && !e.Flush? && !e.Put?
    ensures var t := Apply(c, s, e);
      t.log.made == s.log.made && t.log.stored == s.log.stored && t.index == s.index
  {
    match e {
      case CancelParent =>
      case Feed(f) => FeedFrame(s, f);
      case Work(x, a) => WorkFrame(s, x, a);
      case Read(x, r) => ReadFrame(c, s, x, r);
      case CloseBlobs =>
      case Assemble(b) => AssembleFrame(c, s, b);
      case Upload(u, d) => UploadFrame(s, u, d);
    }
  }

  /** One step of the pipeline is at most one step of the repository. */
  lemma {:induction false} StepMirrors(env: Repo.Env, c: Config, start: Repo.World, s: State, w: Repo.World, e: Step)
      returns (steps: seq<Repo.Step>, next: Repo.World)
    requires env.Valid() && SourceOk(env, SourceItems(c)) && Shape(c, s) && Authored(c, s) && !c.dryRun
    requires Enabled(c, s, e) && PacksFit(env, s.log.made) && PacksFit(env, Apply(c, s, e).log.made)
    requires Inv(env, w) && Mirrors(env, start, s, w)
    ensures Mirrors(env, start, Apply(c, s, e), next)
    ensures AtMostOne(env, w, steps, next)
  {
    steps, next := [], w;
    match e {
      case Flush(l) =>
        FlushFrame(s, l);
        StepAuthored(c, s, e);
        MirrorGrow(env, start, s.log.made, DoFlush(s, l).log.made, s.log.stored, s.index, w);
      case Put(u, p) => steps, next := PutMirrors(env, c, start, s, w, u, p);
      case _ => QuietStep(c, s, e);
    }
  }

  lemma PutMirrors(env: Repo.Env, c: Config, start: Repo.World, s: State, w: Repo.World, u: nat, p: PutStep)
      returns (steps: seq<Repo.Step>, next: Repo.World)
    requires env.Valid() && SourceOk(env, SourceItems(c)) && Shape(c, s) && Authored(c, s)
    requires CanPut(c, s, u, p) && PacksFit(env, s.log.made) && Inv(env, w) && Mirrors(env, start, s, w)
    ensures DoPut(c, s, u, p).log.made == s.log.made && Mirrors(env, start, DoPut(c, s, u, p), next)
    ensures AtMostOne(env, w, steps, next)
  {
    PutFrame(c, s, u, p);
    steps, next := [], w;
    var t := s.uploaders[u].t;
    if p.CountPack? {
      return;
    }
    assert s.log.taken[t] == s.log.made[t];
    GenuineStorable(env, SourceItems(c), s.log.made[t]);
    if p.StorePack? || (p.StoreFail? && p.landed) {
      MirrorStore(env, start, s.log.made, s.log.stored, s.index, w, t);
      steps := [Repo.StorePack(s.log.made[t])];
      next := Repo.Run(env, w, steps[0]);
    } else if p.InsertEntry? {
      MirrorInsert(env, start, s.log.made, s.log.stored, s.index, w, t, s.uploaders[u].next);
      steps := [Repo.InsertEntry(env.h(PackBytes(env.codec, s.log.made[t])), s.uploaders[u].next)];
      next := Repo.Run(env, w, steps[0]);
    }
  }

  /** Any run of the pipeline, successful or not, is a run of the repository machine that only
      stores packs and then indexes their blobs. */
  lemma {:induction false} Refines(env: Repo.Env, c: Config, start: Repo.World, run: seq<Step>)
      returns (steps: seq<Repo.Step>, w: Repo.World)
    requires env.Valid() && SourceOk(env, SourceItems(c)) && !c.dryRun
    requires Inv(env, start) && Repo.In(start, Repo.Uploading) && start.proc.idx.Keys == c.known
    requires Replay(c, run).Some? && PacksFit(env, Replay(c, run).value.log.made)
    ensures Repo.After(env, start, steps) == Some(w) && Repo.NoStaleKill(env, start, steps) && Inv(env, w)
    ensures Mirrors(env, start, Replay(c, run).value, w)
    ensures OnlyStores(steps)
  {
    if run == [] {
      steps, w := [], start;
    } else {
      var s, e := Replay(c, run[..|run| - 1]).value, run[|run| - 1];
      RunAuthored(c, run[..|run| - 1]);
      StepAuthored(c, s, e);
      FitPrefix(env, s.log.made, Apply(c, s, e).log.made);
      var before, at := Refines(env, c, start, run[..|run| - 1]);
      var more, next := StepMirrors(env, c, start, s, at, e);
      steps, w := Extended(env, start, before, at, more, next);
    }
  }

  ghost predicate OnlyStores(steps: seq<Repo.Step>) {
    forall k :: 0 <= k < |steps| ==> steps[k].StorePack? || steps[k].InsertEntry?
  }

  lemma Extended(env: Repo.Env, start: Repo.World, before: seq<Repo.Step>, at: Repo.World, more: seq<Repo.Step>,
                 next: Repo.World)
      returns (steps: seq<Repo.Step>, w: Repo.World)
    requires env.Valid() && Repo.After(env, start, before) == Some(at)
    requires Repo.NoStaleKill(env, start, before) && Inv(env, at)
    requires OnlyStores(before)
    requires AtMostOne(env, at, more, next)
    ensures steps == before + more && w == next && Inv(env, w) && OnlyStores(steps)
    ensures Repo.After(env, start, steps) == Some(w) && Repo.NoStaleKill(env, start, steps)
  {
    if more == [] {
      assert before + more == before;
      steps, w := before, at;
    } else {
      var e := more[0];
      assert more == [e];
      var to := RepoTheorems.Extend(env, start, before, at, e);
      StepInv(env, at, e);
      steps, w := before + [e], to;
    }
  }
}
