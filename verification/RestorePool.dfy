/** Restore with a pool of workers as a step protocol. Each worker takes whole files; but two
    entries of a manifest may name one path, and then two workers write to one file. */
module RestorePool {
  import opened Wrappers
  import opened Blob
  import opened IndexFormat
  import Repo = RepoModel
  import opened Restore

  /** A restore: digest, packs and index, the snapshot's entries, and the options. */
  datatype Plan = Plan(h: Digest, packs: Repo.Packs, t: Table, files: seq<Repo.FileEntry>,
                       workers: nat, overwrite: bool)

  /** What a worker is doing. An open file is an inode, which its path may no longer name, and an
      offset; `next` counts the chunks written. */
  datatype Hand =
    | Idle
    | Opening(file: nat)
    | Writing(file: nat, inode: nat, next: nat, offset: nat)
    | Closed(file: nat, written: nat)
    | Removing(file: nat)
    | Gone

  /** `dir` names the inodes. Indices are taken in order, so `owner`, which says who took each, is
      also the position of the queue; how far the feeder is ahead nobody can see. `stage` counts
      the chunks of each file written since a worker opened it. */
  datatype State = State(dir: map<string, nat>, inodes: seq<Bytes>, hands: seq<Hand>,
                         canceled: bool, failed: bool,
                         owner: seq<nat>, stage: seq<Option<nat>>, finished: set<nat>)

  datatype Act =
    | Take | Leave | OpenFile | OpenFails | WriteChunk | WriteFails(n: nat) | BlobFails | StopEarly
    | Close | CloseFails | CheckSize | RemoveFile(removed: bool)

  datatype Move = CancelParent | Do(w: nat, a: Act)

  /** Two names never share an inode. */
  ghost predicate Unlinked(dir: map<string, nat>, inodes: seq<Bytes>) {
    && (forall p :: p in dir ==> dir[p] < |inodes|)
    && (forall p, q :: p in dir && q in dir && dir[p] == dir[q] ==> p == q)
  }

  /** The files as they can be read. */
  function View(dir: map<string, nat>, inodes: seq<Bytes>): map<string, Bytes> {
    map p | p in dir :: if dir[p] < |inodes| then inodes[dir[p]] else []
  }

  function Start(c: Plan, dir: map<string, nat>, inodes: seq<Bytes>): State {
    State(dir, inodes, seq(c.workers, _ => Idle), false, false, [], seq(|c.files|, _ => None), {})
  }

  function Hole(n: nat): Bytes {
    seq(n, _ => 0)
  }

  /** A write at an offset; a gap before it reads as zeros. */
  function WriteAt(b: Bytes, offset: nat, data: Bytes): Bytes {
    if data == [] then b
    else if offset > |b| then b + Hole(offset - |b|) + data
    else b[..offset] + data + if offset + |data| < |b| then b[offset + |data|..] else []
  }

  /** A worker that is told the context is done stops at its next check. */
  predicate Done(s: State) {
    s.canceled || s.failed
  }

  function Path(c: Plan, f: nat): string
    requires f < |c.files|
  {
    c.files[f].path
  }

  /** The next chunk of the file the worker has open. */
  function NextBlob(c: Plan, pc: Hand): Option<Bytes> {
    if pc.Writing? && pc.file < |c.files| && pc.next < |c.files[pc.file].chunks| then
      Repo.Resolve(c.h, c.packs, c.t, c.files[pc.file].chunks[pc.next])
    else
      None
  }

  predicate HasNext(c: Plan, pc: Hand) {
    pc.Writing? && pc.file < |c.files| && pc.next < |c.files[pc.file].chunks|
  }

  predicate CanDo(c: Plan, s: State, w: nat, a: Act) {
    && w < |s.hands| && |s.stage| == |c.files|
    && var pc := s.hands[w];
      match a
      case Take => pc.Idle? && |s.owner| < |c.files|
      case Leave => pc.Idle? && (|s.owner| == |c.files| || Done(s))
      case OpenFile => pc.Opening? && pc.file < |c.files| && (c.overwrite || Path(c, pc.file) !in s.dir)
      case OpenFails => pc.Opening?
      case WriteChunk => HasNext(c, pc) && NextBlob(c, pc).Some? && pc.inode < |s.inodes|
      case WriteFails(n) =>
        HasNext(c, pc) && NextBlob(c, pc).Some? && pc.inode < |s.inodes| && n <= |NextBlob(c, pc).value|
      case BlobFails => HasNext(c, pc)
      case StopEarly => HasNext(c, pc) && Done(s)
      case Close => pc.Writing? && pc.file < |c.files| && pc.next == |c.files[pc.file].chunks|
      case CloseFails => pc.Writing? && pc.file < |c.files| && pc.next == |c.files[pc.file].chunks|
      case CheckSize => pc.Closed? && pc.file < |c.files|
      case RemoveFile(_) => pc.Removing? && pc.file < |c.files|
  }

  /** An existing file is truncated in place: whoever has it open goes on writing to it. */
  function DoOpen(c: Plan, s: State, w: nat): State
    requires CanDo(c, s, w, OpenFile)
  {
    var f := s.hands[w].file;
    var path := Path(c, f);
    if path in s.dir then
      s.(inodes := if s.dir[path] < |s.inodes| then s.inodes[s.dir[path] := []] else s.inodes,
         hands := s.hands[w := Writing(f, s.dir[path], 0, 0)], stage := s.stage[f := Some(0)])
    else
      s.(dir := s.dir[path := |s.inodes|], inodes := s.inodes + [[]],
         hands := s.hands[w := Writing(f, |s.inodes|, 0, 0)], stage := s.stage[f := Some(0)])
  }

  function DoWrite(c: Plan, s: State, w: nat): State
    requires CanDo(c, s, w, WriteChunk)
  {
    var pc := s.hands[w];
    var data := NextBlob(c, pc).value;
    s.(inodes := s.inodes[pc.inode := WriteAt(s.inodes[pc.inode], pc.offset, data)],
       hands := s.hands[w := Writing(pc.file, pc.inode, pc.next + 1, pc.offset + |data|)],
       stage := s.stage[pc.file := Some(pc.next + 1)])
  }

  function DoAct(c: Plan, s: State, w: nat, a: Act): State
    requires CanDo(c, s, w, a)
  {
    var pc := s.hands[w];
    match a
    case Take => s.(hands := s.hands[w := Opening(|s.owner|)], owner := s.owner + [w])
    case Leave => s.(hands := s.hands[w := Gone])
    case OpenFile => DoOpen(c, s, w)
    case OpenFails => s.(hands := s.hands[w := Gone], failed := true)
    case WriteChunk => DoWrite(c, s, w)
    case WriteFails(n) =>
      s.(inodes := s.inodes[pc.inode := WriteAt(s.inodes[pc.inode], pc.offset, NextBlob(c, pc).value[..n])],
         hands := s.hands[w := Removing(pc.file)])
    case BlobFails => s.(hands := s.hands[w := Removing(pc.file)])
    case StopEarly => s.(hands := s.hands[w := Removing(pc.file)])
    case Close => s.(hands := s.hands[w := Closed(pc.file, pc.offset)])
    case CloseFails => s.(hands := s.hands[w := Gone], failed := true)
    case CheckSize =>
      if pc.written == c.files[pc.file].size then
        s.(hands := s.hands[w := Idle], finished := s.finished + {pc.file})
      else
        s.(hands := s.hands[w := Removing(pc.file)])
    case RemoveFile(removed) =>
      s.(dir := if removed then s.dir - {Path(c, pc.file)} else s.dir, hands := s.hands[w := Gone], failed := true)
  }

  predicate CanMove(c: Plan, s: State, e: Move) {
    match e
    case CancelParent => !s.canceled
    case Do(w, a) => CanDo(c, s, w, a)
  }

  function Apply(c: Plan, s: State, e: Move): State
    requires CanMove(c, s, e)
  {
    match e
    case CancelParent => s.(canceled := true)
    case Do(w, a) => DoAct(c, s, w, a)
  }

  /** The state a schedule leads to, or None if one of its steps is not enabled. */
  function Replay(c: Plan, start: State, run: seq<Move>): Option<State> {
    if run == [] then
      Some(start)
    else
      var p := Replay(c, start, run[..|run| - 1]);
      if p.Some? && CanMove(c, p.value, run[|run| - 1]) then Some(Apply(c, p.value, run[|run| - 1])) else None
  }

  /** RestoreFiles passes g.Wait and then ctx.Err. */
  predicate Passes(s: State) {
    !s.failed && !s.canceled && forall w :: 0 <= w < |s.hands| ==> s.hands[w].Gone?
  }

  // ---- what a worker that has the file to itself does to it ----

  lemma ViewWrite(dir: map<string, nat>, inodes: seq<Bytes>, p: string, b: Bytes)
    requires Unlinked(dir, inodes) && p in dir
    ensures Unlinked(dir, inodes[dir[p] := b])
    ensures View(dir, inodes[dir[p] := b]) == View(dir, inodes)[p := b]
  {
  }

  lemma ViewCreate(dir: map<string, nat>, inodes: seq<Bytes>, p: string)
    requires Unlinked(dir, inodes) && p !in dir
    ensures Unlinked(dir[p := |inodes|], inodes + [[]])
    ensures View(dir[p := |inodes|], inodes + [[]]) == View(dir, inodes)[p := []]
  {
  }

  // ---- the invariant of a run in which nothing has failed ----

  predicate HasFile(pc: Hand, f: nat) {
    (pc.Opening? || pc.Writing? || pc.Closed?) && pc.file == f
  }

  /** The first k chunks of file f hold n bytes. */
  ghost predicate Reached(c: Plan, f: nat, k: nat, n: nat)
    requires f < |c.files|
  {
    && k <= |c.files[f].chunks|
    && Contents(c.h, c.packs, c.t, c.files[f].chunks[..k]).Some?
    && |Contents(c.h, c.packs, c.t, c.files[f].chunks[..k]).value| == n
  }

  ghost predicate HandOk(c: Plan, w: nat, pc: Hand, dir: map<string, nat>, owner: seq<nat>, stage: seq<Option<nat>>,
                         finished: set<nat>)
    requires |stage| == |c.files|
  {
    && (pc.Opening? || pc.Writing? || pc.Closed? ==>
         pc.file < |owner| && pc.file < |c.files| && owner[pc.file] == w && pc.file !in finished)
    && (pc.Opening? ==> stage[pc.file].None?)
    && (pc.Writing? ==>
         && stage[pc.file] == Some(pc.next) && Reached(c, pc.file, pc.next, pc.offset)
         && Path(c, pc.file) in dir && pc.inode == dir[Path(c, pc.file)])
    && (pc.Closed? ==>
         && stage[pc.file] == Some(|c.files[pc.file].chunks|)
         && Reached(c, pc.file, |c.files[pc.file].chunks|, pc.written))
    && (pc.Gone? ==> |owner| == |c.files|)
  }

  ghost predicate HandsOk(c: Plan, hands: seq<Hand>, dir: map<string, nat>, owner: seq<nat>, stage: seq<Option<nat>>,
                          finished: set<nat>) {
    && |hands| == c.workers && |stage| == |c.files| && |owner| <= |c.files|
    && (forall w :: 0 <= w < |hands| ==> HandOk(c, w, hands[w], dir, owner, stage, finished))
    && (forall f :: 0 <= f < |owner| ==>
         owner[f] < |hands| && (f !in finished ==> HasFile(hands[owner[f]], f)))
    && (forall f :: |owner| <= f < |stage| ==> stage[f].None?)
    && (forall f :: f in finished ==>
         f < |owner| && stage[f] == Some(|c.files[f].chunks|) && Wanted(c.h, c.packs, c.t, c.files[f]).Some?)
  }

  /** No worker has opened a file of that path. */
  ghost predicate Untouched(c: Plan, stage: seq<Option<nat>>, p: string)
    requires |stage| == |c.files|
  {
    forall f :: 0 <= f < |stage| && stage[f].Some? ==> Path(c, f) != p
  }

  /** A file that has been opened holds exactly the chunks written to it, no two files that have
      been opened share a path, and everything else is as it was. */
  ghost predicate FilesOk(c: Plan, before: map<string, Bytes>, view: map<string, Bytes>, stage: seq<Option<nat>>) {
    && |stage| == |c.files|
    && (forall f :: 0 <= f < |stage| && stage[f].Some? ==>
         && Path(c, f) in view && stage[f].value <= |c.files[f].chunks|
         && Contents(c.h, c.packs, c.t, c.files[f].chunks[..stage[f].value]) == Some(view[Path(c, f)])
         && (!c.overwrite ==> Path(c, f) !in before))
    && (forall f, g :: 0 <= f < g < |stage| && stage[f].Some? && stage[g].Some? ==> Path(c, f) != Path(c, g))
    && (forall p :: Untouched(c, stage, p) ==> (p in view <==> p in before))
    && (forall p :: Untouched(c, stage, p) && p in view ==> view[p] == before[p])
  }

  ghost predicate Undamaged(s: State) {
    !s.failed && !s.canceled && forall w :: 0 <= w < |s.hands| ==> !s.hands[w].Removing?
  }

  ghost predicate Inv(c: Plan, before: map<string, Bytes>, s: State) {
    && Unlinked(s.dir, s.inodes)
    && HandsOk(c, s.hands, s.dir, s.owner, s.stage, s.finished)
    && FilesOk(c, before, View(s.dir, s.inodes), s.stage)
  }

  lemma OthersUntouched(c: Plan, before: map<string, Bytes>, view: map<string, Bytes>, stage: seq<Option<nat>>,
                        f: nat, k: nat, content: Bytes, p: string)
    requires FilesOk(c, before, view, stage) && f < |stage|
    requires Untouched(c, stage[f := Some(k)], p)
    ensures var after := view[Path(c, f) := content];
      (p in after <==> p in before) && (p in after ==> after[p] == before[p])
  {
    assert stage[f := Some(k)][f].Some? && p != Path(c, f);
    forall g | 0 <= g < |stage| && stage[g].Some?
      ensures Path(c, g) != p
    {
      assert stage[f := Some(k)][g].Some?;
    }
    assert Untouched(c, stage, p);
  }

  /** A worker opens file f or goes on writing it, and no other file of that path is open. */
  lemma UpdatedFiles(c: Plan, before: map<string, Bytes>, view: map<string, Bytes>, stage: seq<Option<nat>>, f: nat,
                     k: nat, content: Bytes)
    requires FilesOk(c, before, view, stage) && f < |stage| && k <= |c.files[f].chunks|
    requires Contents(c.h, c.packs, c.t, c.files[f].chunks[..k]) == Some(content)
    requires c.overwrite || Path(c, f) !in before
    requires forall g :: 0 <= g < |stage| && g != f && stage[g].Some? ==> Path(c, g) != Path(c, f)
    ensures FilesOk(c, before, view[Path(c, f) := content], stage[f := Some(k)])
  {
    forall p | Untouched(c, stage[f := Some(k)], p)
      ensures var after := view[Path(c, f) := content];
        (p in after <==> p in before) && (p in after ==> after[p] == before[p])
    {
      OthersUntouched(c, before, view, stage, f, k, content, p);
    }
  }

  lemma OpenedFiles(c: Plan, before: map<string, Bytes>, view: map<string, Bytes>, stage: seq<Option<nat>>, f: nat)
    requires FilesOk(c, before, view, stage) && f < |c.files| && stage[f].None?
    requires DistinctPaths(c.files) || !c.overwrite
    requires c.overwrite || Path(c, f) !in view
    ensures FilesOk(c, before, view[Path(c, f) := []], stage[f := Some(0)])
  {
    assert c.files[f].chunks[..0] == [];
    assert forall g :: 0 <= g < |stage| && g != f && stage[g].Some? ==> Path(c, g) != Path(c, f);
    assert Untouched(c, stage, Path(c, f));
    UpdatedFiles(c, before, view, stage, f, 0, []);
  }

  lemma WroteFiles(c: Plan, before: map<string, Bytes>, view: map<string, Bytes>, stage: seq<Option<nat>>, f: nat,
                   data: Bytes)
    requires FilesOk(c, before, view, stage) && f < |c.files| && stage[f].Some?
    requires stage[f].value < |c.files[f].chunks|
    requires Repo.Resolve(c.h, c.packs, c.t, c.files[f].chunks[stage[f].value]) == Some(data)
    ensures FilesOk(c, before, view[Path(c, f) := view[Path(c, f)] + data], stage[f := Some(stage[f].value + 1)])
  {
    OneMoreChunk(c.h, c.packs, c.t, c.files[f].chunks, stage[f].value, view[Path(c, f)]);
    UpdatedFiles(c, before, view, stage, f, stage[f].value + 1, view[Path(c, f)] + data);
  }

  lemma TakeHands(c: Plan, s: State, w: nat)
    requires HandsOk(c, s.hands, s.dir, s.owner, s.stage, s.finished) && CanDo(c, s, w, Take)
    ensures var n := |s.owner|;
      HandsOk(c, s.hands[w := Opening(n)], s.dir, s.owner + [w], s.stage, s.finished)
  {
  }

  lemma OpenHands(c: Plan, hands: seq<Hand>, dir: map<string, nat>, owner: seq<nat>, stage: seq<Option<nat>>,
                  finished: set<nat>, w: nat, f: nat, later: map<string, nat>)
    requires HandsOk(c, hands, dir, owner, stage, finished) && w < |hands| && hands[w] == Opening(f)
    requires f < |c.files| && Path(c, f) in later
    requires forall p :: p in dir ==> p in later && later[p] == dir[p]
    ensures HandsOk(c, hands[w := Writing(f, later[Path(c, f)], 0, 0)], later, owner, stage[f := Some(0)], finished)
  {
    assert c.files[f].chunks[..0] == [];
  }

  lemma WriteHands(c: Plan, hands: seq<Hand>, dir: map<string, nat>, owner: seq<nat>, stage: seq<Option<nat>>,
                   finished: set<nat>, w: nat, data: Bytes)
    requires HandsOk(c, hands, dir, owner, stage, finished) && w < |hands| && HasNext(c, hands[w])
    requires NextBlob(c, hands[w]) == Some(data)
    ensures var pc := hands[w];
      HandsOk(c, hands[w := Writing(pc.file, pc.inode, pc.next + 1, pc.offset + |data|)], dir, owner,
              stage[pc.file := Some(pc.next + 1)], finished)
  {
    var pc := hands[w];
    var chunks := c.files[pc.file].chunks;
    OneMoreChunk(c.h, c.packs, c.t, chunks, pc.next, Contents(c.h, c.packs, c.t, chunks[..pc.next]).value);
  }

  lemma CloseHands(c: Plan, hands: seq<Hand>, dir: map<string, nat>, owner: seq<nat>, stage: seq<Option<nat>>,
                   finished: set<nat>, w: nat)
    requires HandsOk(c, hands, dir, owner, stage, finished) && w < |hands| && hands[w].Writing?
    requires hands[w].file < |c.files| && hands[w].next == |c.files[hands[w].file].chunks|
    ensures HandsOk(c, hands[w := Closed(hands[w].file, hands[w].offset)], dir, owner, stage, finished)
  {
  }

  lemma CheckHands(c: Plan, hands: seq<Hand>, dir: map<string, nat>, owner: seq<nat>, stage: seq<Option<nat>>,
                   finished: set<nat>, w: nat)
    requires HandsOk(c, hands, dir, owner, stage, finished) && w < |hands| && hands[w].Closed?
    requires hands[w].file < |c.files| && hands[w].written == c.files[hands[w].file].size
    ensures HandsOk(c, hands[w := Hand.Idle], dir, owner, stage, finished + {hands[w].file})
  {
    var chunks := c.files[hands[w].file].chunks;
    assert chunks[..|chunks|] == chunks;
  }

  lemma OpenInv(c: Plan, before: map<string, Bytes>, s: State, w: nat)
    requires Inv(c, before, s) && CanDo(c, s, w, OpenFile) && (DistinctPaths(c.files) || !c.overwrite)
    ensures Inv(c, before, DoOpen(c, s, w))
  {
    var f := s.hands[w].file;
    var path := Path(c, f);
    assert HandOk(c, w, s.hands[w], s.dir, s.owner, s.stage, s.finished);
    OpenedFiles(c, before, View(s.dir, s.inodes), s.stage, f);
    if path in s.dir {
      ViewWrite(s.dir, s.inodes, path, []);
      OpenHands(c, s.hands, s.dir, s.owner, s.stage, s.finished, w, f, s.dir);
    } else {
      ViewCreate(s.dir, s.inodes, path);
      OpenHands(c, s.hands, s.dir, s.owner, s.stage, s.finished, w, f, s.dir[path := |s.inodes|]);
    }
  }

  /** A worker's open file is the one its path names, and its offset is the end of it. */
  lemma OwnFile(c: Plan, before: map<string, Bytes>, s: State, w: nat)
    requires Inv(c, before, s) && w < |s.hands| && s.hands[w].Writing?
    ensures var pc := s.hands[w];
      && pc.file < |c.files| && s.stage[pc.file] == Some(pc.next)
      && Path(c, pc.file) in s.dir && pc.inode == s.dir[Path(c, pc.file)] < |s.inodes|
      && |s.inodes[pc.inode]| == pc.offset
  {
    assert HandOk(c, w, s.hands[w], s.dir, s.owner, s.stage, s.finished);
    assert Path(c, s.hands[w].file) in View(s.dir, s.inodes);
  }

  lemma WriteFiles(c: Plan, before: map<string, Bytes>, s: State, w: nat)
    requires Inv(c, before, s) && CanDo(c, s, w, WriteChunk)
    ensures var t := DoWrite(c, s, w);
      Unlinked(t.dir, t.inodes) && FilesOk(c, before, View(t.dir, t.inodes), t.stage)
  {
    var pc, data := s.hands[w], NextBlob(c, s.hands[w]).value;
    var view, path := View(s.dir, s.inodes), Path(c, pc.file);
    OwnFile(c, before, s, w);
    Appended(s.inodes[pc.inode], data);
    ViewWrite(s.dir, s.inodes, path, s.inodes[pc.inode] + data);
    assert View(s.dir, DoWrite(c, s, w).inodes) == view[path := view[path] + data];
    WroteFiles(c, before, view, s.stage, pc.file, data);
  }

  lemma WriteHandsOf(c: Plan, s: State, w: nat)
    requires HandsOk(c, s.hands, s.dir, s.owner, s.stage, s.finished) && CanDo(c, s, w, WriteChunk)
    ensures var t := DoWrite(c, s, w); HandsOk(c, t.hands, t.dir, t.owner, t.stage, t.finished)
  {
    WriteHands(c, s.hands, s.dir, s.owner, s.stage, s.finished, w, NextBlob(c, s.hands[w]).value);
  }

  lemma WriteInv(c: Plan, before: map<string, Bytes>, s: State, w: nat)
    requires Inv(c, before, s) && CanDo(c, s, w, WriteChunk)
    ensures Inv(c, before, DoWrite(c, s, w))
  {
    WriteFiles(c, before, s, w);
    WriteHandsOf(c, s, w);
  }

  lemma Appended(b: Bytes, data: Bytes)
    ensures WriteAt(b, |b|, data) == b + data
  {
  }

  lemma ActInv(c: Plan, before: map<string, Bytes>, s: State, w: nat, a: Act)
    requires Inv(c, before, s) && CanDo(c, s, w, a) && (DistinctPaths(c.files) || !c.overwrite)
    requires Undamaged(s) && Undamaged(DoAct(c, s, w, a))
    ensures Inv(c, before, DoAct(c, s, w, a))
  {
    assert !DoAct(c, s, w, a).hands[w].Removing?;
    match a {
      case Take => TakeHands(c, s, w);
      case Leave =>
      case OpenFile => OpenInv(c, before, s, w);
      case WriteChunk => WriteInv(c, before, s, w);
      case Close => CloseHands(c, s.hands, s.dir, s.owner, s.stage, s.finished, w);
      case CheckSize => CheckHands(c, s.hands, s.dir, s.owner, s.stage, s.finished, w);
      case _ =>
    }
  }

  /** Damage stays: a worker that has to remove its file will report an error. */
  lemma DamageStays(c: Plan, s: State, e: Move)
    requires CanMove(c, s, e)
    ensures Undamaged(Apply(c, s, e)) ==> Undamaged(s)
  {
    if w :| 0 <= w < |s.hands| && s.hands[w].Removing? {
      assert Apply(c, s, e).hands[w].Removing? || Apply(c, s, e).failed;
    }
  }

  lemma StartInv(c: Plan, dir: map<string, nat>, inodes: seq<Bytes>)
    requires Unlinked(dir, inodes)
    ensures Inv(c, View(dir, inodes), Start(c, dir, inodes))
  {
  }

  lemma {:induction false} RunInv(c: Plan, dir: map<string, nat>, inodes: seq<Bytes>, run: seq<Move>)
    requires Unlinked(dir, inodes) && (DistinctPaths(c.files) || !c.overwrite)
    requires Replay(c, Start(c, dir, inodes), run).Some?
    requires Undamaged(Replay(c, Start(c, dir, inodes), run).value)
    ensures Inv(c, View(dir, inodes), Replay(c, Start(c, dir, inodes), run).value)
  {
    if run == [] {
      StartInv(c, dir, inodes);
    } else {
      var s, e := Replay(c, Start(c, dir, inodes), run[..|run| - 1]).value, run[|run| - 1];
      DamageStays(c, s, e);
      RunInv(c, dir, inodes, run[..|run| - 1]);
      if e.Do? {
        ActInv(c, View(dir, inodes), s, e.w, e.a);
      }
    }
  }

  /** When all workers have returned and nothing has failed, every file is restored. */
  lemma Ending(c: Plan, before: map<string, Bytes>, s: State)
    requires c.workers >= 1 && Inv(c, before, s) && Passes(s)
    ensures AfterFiles(c.h, c.packs, c.t, c.files, c.overwrite, before) == Some(View(s.dir, s.inodes))
  {
    assert s.hands[0].Gone?;
    forall f | 0 <= f < |c.files|
      ensures f in s.finished
    {
      assert !HasFile(s.hands[s.owner[f]], f);
    }
    AllStaged(c, before, View(s.dir, s.inodes), s.stage);
  }

  lemma AllStaged(c: Plan, before: map<string, Bytes>, view: map<string, Bytes>, stage: seq<Option<nat>>)
    requires FilesOk(c, before, view, stage)
    requires forall f :: 0 <= f < |c.files| ==>
      stage[f] == Some(|c.files[f].chunks|) && Wanted(c.h, c.packs, c.t, c.files[f]).Some?
    ensures AfterFiles(c.h, c.packs, c.t, c.files, c.overwrite, before) == Some(view)
  {
    forall f | 0 <= f < |c.files|
      ensures Path(c, f) in view && Wanted(c.h, c.packs, c.t, c.files[f]) == Some(view[Path(c, f)])
    {
      assert c.files[f].chunks[..|c.files[f].chunks|] == c.files[f].chunks;
    }
    DistinctRestore(c.h, c.packs, c.t, c.files, c.overwrite, before);
    SameFiles(c, before, view, stage);
  }

  lemma SameAt(c: Plan, before: map<string, Bytes>, view: map<string, Bytes>, stage: seq<Option<nat>>,
               m: map<string, Bytes>, p: string)
    requires FilesOk(c, before, view, stage) && DistinctPaths(c.files)
    requires forall f :: 0 <= f < |c.files| ==>
      Path(c, f) in view && Wanted(c.h, c.packs, c.t, c.files[f]) == Some(view[Path(c, f)])
    requires AfterFiles(c.h, c.packs, c.t, c.files, c.overwrite, before) == Some(m)
    ensures (p in m <==> p in view) && (p in m ==> m[p] == view[p])
  {
    if f :| 0 <= f < |c.files| && Path(c, f) == p {
      LastWins(c.h, c.packs, c.t, c.files, c.overwrite, before, f);
    } else {
      OthersKept(c.h, c.packs, c.t, c.files, c.overwrite, before, p);
      assert Untouched(c, stage, p);
    }
  }

  lemma SameFiles(c: Plan, before: map<string, Bytes>, view: map<string, Bytes>, stage: seq<Option<nat>>)
    requires FilesOk(c, before, view, stage) && DistinctPaths(c.files)
    requires forall f :: 0 <= f < |c.files| ==>
      Path(c, f) in view && Wanted(c.h, c.packs, c.t, c.files[f]) == Some(view[Path(c, f)])
    requires AfterFiles(c.h, c.packs, c.t, c.files, c.overwrite, before).Some?
    ensures AfterFiles(c.h, c.packs, c.t, c.files, c.overwrite, before) == Some(view)
  {
    var m := AfterFiles(c.h, c.packs, c.t, c.files, c.overwrite, before).value;
    forall p: string
      ensures (p in m <==> p in view) && (p in m ==> m[p] == view[p])
    {
      SameAt(c, before, view, stage, m, p);
    }
    assert m == view;
  }

  // ---- one worker ----

  /** The only worker has restored the files before f and written k chunks, n bytes, of file f. */
  ghost predicate PartWay(c: Plan, before: map<string, Bytes>, view: map<string, Bytes>, f: nat, k: nat, n: nat) {
    && f < |c.files| && k <= |c.files[f].chunks|
    && var prev := AfterFiles(c.h, c.packs, c.t, c.files[..f], c.overwrite, before);
      var part := Contents(c.h, c.packs, c.t, c.files[f].chunks[..k]);
      && prev.Some? && part.Some? && (Path(c, f) !in prev.value || c.overwrite)
      && view == prev.value[Path(c, f) := part.value] && n == |part.value|
  }

  ghost predicate InTurn(c: Plan, before: map<string, Bytes>, s: State) {
    && Unlinked(s.dir, s.inodes) && |s.stage| == |c.files| && |s.owner| <= |c.files| && |s.hands| == 1
    && var view := View(s.dir, s.inodes);
      match s.hands[0]
      case Idle => AfterFiles(c.h, c.packs, c.t, c.files[..|s.owner|], c.overwrite, before) == Some(view)
      case Opening(f) =>
        f + 1 == |s.owner| && AfterFiles(c.h, c.packs, c.t, c.files[..f], c.overwrite, before) == Some(view)
      case Writing(f, inode, k, n) =>
        && f + 1 == |s.owner| && PartWay(c, before, view, f, k, n)
        && Path(c, f) in s.dir && inode == s.dir[Path(c, f)]
      case Closed(f, n) => f + 1 == |s.owner| && PartWay(c, before, view, f, |c.files[f].chunks|, n)
      case Removing(_) => false
      case Gone =>
        |s.owner| == |c.files| && AfterFiles(c.h, c.packs, c.t, c.files, c.overwrite, before) == Some(view)
  }

  lemma OpenInTurn(c: Plan, before: map<string, Bytes>, s: State)
    requires InTurn(c, before, s) && CanDo(c, s, 0, OpenFile)
    ensures InTurn(c, before, DoOpen(c, s, 0))
  {
    var f := s.hands[0].file;
    assert c.files[f].chunks[..0] == [];
    if Path(c, f) in s.dir {
      ViewWrite(s.dir, s.inodes, Path(c, f), []);
    } else {
      ViewCreate(s.dir, s.inodes, Path(c, f));
    }
  }

  lemma PartMore(c: Plan, before: map<string, Bytes>, view: map<string, Bytes>, f: nat, k: nat, n: nat, data: Bytes)
    requires PartWay(c, before, view, f, k, n) && k < |c.files[f].chunks|
    requires Repo.Resolve(c.h, c.packs, c.t, c.files[f].chunks[k]) == Some(data)
    ensures Path(c, f) in view && |view[Path(c, f)]| == n
    ensures PartWay(c, before, view[Path(c, f) := view[Path(c, f)] + data], f, k + 1, n + |data|)
  {
    OneMoreChunk(c.h, c.packs, c.t, c.files[f].chunks, k, view[Path(c, f)]);
  }

  lemma WriteInTurn(c: Plan, before: map<string, Bytes>, s: State)
    requires InTurn(c, before, s) && CanDo(c, s, 0, WriteChunk)
    ensures InTurn(c, before, DoWrite(c, s, 0))
  {
    var pc, data := s.hands[0], NextBlob(c, s.hands[0]).value;
    var view, path := View(s.dir, s.inodes), Path(c, pc.file);
    PartMore(c, before, view, pc.file, pc.next, pc.offset, data);
    Appended(view[path], data);
    ViewWrite(s.dir, s.inodes, path, view[path] + data);
    assert View(s.dir, DoWrite(c, s, 0).inodes) == view[path := view[path] + data];
  }

  lemma CheckInTurn(c: Plan, before: map<string, Bytes>, s: State)
    requires InTurn(c, before, s) && CanDo(c, s, 0, CheckSize) && s.hands[0].written == c.files[s.hands[0].file].size
    ensures InTurn(c, before, DoAct(c, s, 0, CheckSize))
  {
    var f := s.hands[0].file;
    assert c.files[f].chunks[..|c.files[f].chunks|] == c.files[f].chunks;
    OneMoreFile(c.h, c.packs, c.t, c.files, c.overwrite, before, f,
                AfterFiles(c.h, c.packs, c.t, c.files[..f], c.overwrite, before).value);
  }

  lemma ActInTurn(c: Plan, before: map<string, Bytes>, s: State, a: Act)
    requires InTurn(c, before, s) && CanDo(c, s, 0, a) && Undamaged(s) && Undamaged(DoAct(c, s, 0, a))
    ensures InTurn(c, before, DoAct(c, s, 0, a))
  {
    assert !DoAct(c, s, 0, a).hands[0].Removing?;
    match a {
      case Take =>
      case Leave => assert c.files[..|c.files|] == c.files;
      case OpenFile => OpenInTurn(c, before, s);
      case WriteChunk => WriteInTurn(c, before, s);
      case Close =>
      case CheckSize => CheckInTurn(c, before, s);
      case _ =>
    }
  }

  lemma StepInTurn(c: Plan, before: map<string, Bytes>, s: State, e: Move)
    requires InTurn(c, before, s) && CanMove(c, s, e) && Undamaged(s) && Undamaged(Apply(c, s, e))
    ensures InTurn(c, before, Apply(c, s, e))
  {
    if e.Do? {
      ActInTurn(c, before, s, e.a);
    }
  }

  lemma StartInTurn(c: Plan, dir: map<string, nat>, inodes: seq<Bytes>)
    requires Unlinked(dir, inodes) && c.workers == 1
    ensures InTurn(c, View(dir, inodes), Start(c, dir, inodes))
  {
  }

  lemma {:induction false} RunInTurn(c: Plan, dir: map<string, nat>, inodes: seq<Bytes>, run: seq<Move>)
    requires Unlinked(dir, inodes) && c.workers == 1
    requires Replay(c, Start(c, dir, inodes), run).Some?
    requires Undamaged(Replay(c, Start(c, dir, inodes), run).value)
    ensures InTurn(c, View(dir, inodes), Replay(c, Start(c, dir, inodes), run).value)
  {
    if run == [] {
      StartInTurn(c, dir, inodes);
    } else {
      var s, e := Replay(c, Start(c, dir, inodes), run[..|run| - 1]).value, run[|run| - 1];
      DamageStays(c, s, e);
      RunInTurn(c, dir, inodes, run[..|run| - 1]);
      StepInTurn(c, View(dir, inodes), s, e);
    }
  }

  /** A restore that RestoreFiles reports as a success leaves exactly what restoring the entries in
      turn leaves, whatever the schedule: when no two entries share a path, or overwriting is not
      allowed, or there is only one worker. */
  lemma PassingRestores(c: Plan, dir: map<string, nat>, inodes: seq<Bytes>, run: seq<Move>)
    requires c.workers >= 1 && Unlinked(dir, inodes)
    requires DistinctPaths(c.files) || !c.overwrite || c.workers == 1
    requires Replay(c, Start(c, dir, inodes), run).Some? && Passes(Replay(c, Start(c, dir, inodes), run).value)
    ensures var s := Replay(c, Start(c, dir, inodes), run).value;
      AfterFiles(c.h, c.packs, c.t, c.files, c.overwrite, View(dir, inodes)) == Some(View(s.dir, s.inodes))
  {
    var s := Replay(c, Start(c, dir, inodes), run).value;
    if c.workers == 1 {
      RunInTurn(c, dir, inodes, run);
    } else {
      RunInv(c, dir, inodes, run);
      Ending(c, View(dir, inodes), s);
    }
  }
}
