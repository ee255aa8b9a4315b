/** Restores that fail or are cancelled: what they report, what they leave behind, and that they
    can stop. */
module RestoreFailures {
  import opened Wrappers
  import opened Blob
  import Repo = RepoModel
  import opened Restore
  import opened RestorePool
  import opened RestoreRaces

  /** The worker has the file, if only to remove it. */
  predicate InHand(pc: Hand, f: nat) {
    HasFile(pc, f) || (pc.Removing? && pc.file == f)
  }

  // ---- what is reported ----

  /** File f was taken, and its worker gave it up. */
  ghost predicate Lost(s: State, f: nat) {
    f < |s.owner| && s.owner[f] < |s.hands| && f !in s.finished && !InHand(s.hands[s.owner[f]], f)
  }

  ghost predicate HandInLedger(c: Plan, s: State, w: nat, pc: Hand) {
    && (pc.Opening? || pc.Writing? || pc.Closed? || pc.Removing? ==>
         pc.file < |s.owner| && s.owner[pc.file] == w && pc.file !in s.finished)
    && (pc.Writing? ==> pc.file < |c.files| && pc.next <= |c.files[pc.file].chunks|)
    && (pc.Gone? ==> |s.owner| == |c.files| || Done(s))
  }

  /** Every file taken is finished, in the hands of the worker that took it, or lost; and a restore
      has failed exactly when a file is lost. */
  ghost predicate Ledger(c: Plan, s: State) {
    && |s.owner| <= |c.files| == |s.stage| && |s.hands| == c.workers
    && (forall w :: 0 <= w < |s.hands| ==> HandInLedger(c, s, w, s.hands[w]))
    && (forall f :: 0 <= f < |s.owner| ==> s.owner[f] < |s.hands|)
    && (forall f :: f in s.finished ==> f < |s.owner|)
    && (s.failed <==> exists f :: Lost(s, f))
  }

  lemma SameLost(s: State, t: State, w: nat)
    requires t.owner == s.owner && t.finished == s.finished && w < |s.hands| == |t.hands|
    requires forall x :: 0 <= x < |s.hands| && x != w ==> t.hands[x] == s.hands[x]
    requires forall f :: 0 <= f < |s.owner| && s.owner[f] == w && f !in s.finished ==>
      (InHand(t.hands[w], f) <==> InHand(s.hands[w], f))
    ensures forall f :: Lost(t, f) <==> Lost(s, f)
  {
  }

  lemma TakeLedger(c: Plan, s: State, w: nat)
    requires Ledger(c, s) && CanDo(c, s, w, Take)
    ensures Ledger(c, DoAct(c, s, w, Take))
  {
    var t := DoAct(c, s, w, Take);
    forall f
      ensures Lost(t, f) <==> Lost(s, f)
    {
    }
  }

  lemma CheckLedger(c: Plan, s: State, w: nat)
    requires Ledger(c, s) && CanDo(c, s, w, CheckSize)
    ensures Ledger(c, DoAct(c, s, w, CheckSize))
  {
    var t := DoAct(c, s, w, CheckSize);
    forall f
      ensures Lost(t, f) <==> Lost(s, f)
    {
    }
  }

  /** The worker gives its file up. */
  lemma LoseLedger(c: Plan, s: State, w: nat, a: Act)
    requires Ledger(c, s) && CanDo(c, s, w, a) && (a.OpenFails? || a.CloseFails? || a.RemoveFile?)
    ensures Ledger(c, DoAct(c, s, w, a))
  {
    assert Lost(DoAct(c, s, w, a), s.hands[w].file);
  }

  /** The worker goes on with its file, or has none. */
  lemma KeepLedger(c: Plan, s: State, w: nat, a: Act)
    requires Ledger(c, s) && CanDo(c, s, w, a)
    requires a.Leave? || a.OpenFile? || a.WriteChunk? || a.WriteFails? || a.BlobFails? || a.StopEarly? || a.Close?
    ensures Ledger(c, DoAct(c, s, w, a))
  {
    assert HandInLedger(c, s, w, s.hands[w]);
    SameLost(s, DoAct(c, s, w, a), w);
  }

  lemma ActLedger(c: Plan, s: State, w: nat, a: Act)
    requires Ledger(c, s) && CanDo(c, s, w, a)
    ensures Ledger(c, DoAct(c, s, w, a))
  {
    match a {
      case Take => TakeLedger(c, s, w);
      case CheckSize => CheckLedger(c, s, w);
      case OpenFails => LoseLedger(c, s, w, a);
      case CloseFails => LoseLedger(c, s, w, a);
      case RemoveFile(_) => LoseLedger(c, s, w, a);
      case _ => KeepLedger(c, s, w, a);
    }
  }

  lemma {:induction false} RunLedger(c: Plan, dir: map<string, nat>, inodes: seq<Bytes>, run: seq<Move>)
    requires Replay(c, Start(c, dir, inodes), run).Some?
    ensures Ledger(c, Replay(c, Start(c, dir, inodes), run).value)
  {
    if run != [] {
      var s, e := Replay(c, Start(c, dir, inodes), run[..|run| - 1]).value, run[|run| - 1];
      RunLedger(c, dir, inodes, run[..|run| - 1]);
      if e.Do? {
        ActLedger(c, s, e.w, e.a);
      } else {
        forall f
          ensures Lost(Apply(c, s, e), f) <==> Lost(s, f)
        {
        }
      }
    }
  }

  /** The report is exact. When all workers have returned, a restore that was not cancelled reports
      success if and only if every file has been finished, each with the size it should have; and
      one that reports an error has not finished some file that it took. */
  lemma SuccessIff(c: Plan, dir: map<string, nat>, inodes: seq<Bytes>, run: seq<Move>)
    requires c.workers >= 1 && Replay(c, Start(c, dir, inodes), run).Some?
    requires forall w :: 0 <= w < |Replay(c, Start(c, dir, inodes), run).value.hands| ==>
      Replay(c, Start(c, dir, inodes), run).value.hands[w].Gone?
    ensures var s := Replay(c, Start(c, dir, inodes), run).value;
      && (s.failed ==> exists f :: 0 <= f < |s.owner| && f !in s.finished)
      && (!s.canceled ==> (Passes(s) <==> forall f :: 0 <= f < |c.files| ==> f in s.finished))
  {
    var s := Replay(c, Start(c, dir, inodes), run).value;
    RunLedger(c, dir, inodes, run);
    assert s.hands[0].Gone? && HandInLedger(c, s, 0, s.hands[0]);
    forall f | 0 <= f < |s.owner| && f !in s.finished
      ensures s.failed
    {
      assert Lost(s, f);
    }
  }

  // ---- what is left behind ----

  /** Path p is there in one view as in the other. */
  ghost predicate SamePath(a: map<string, Bytes>, b: map<string, Bytes>, p: string) {
    (p in a <==> p in b) && (p in a ==> a[p] == b[p])
  }

  /** The file is absent or complete. */
  ghost predicate NotPartial(c: Plan, view: map<string, Bytes>, f: nat)
    requires f < |c.files|
  {
    Path(c, f) in view ==> Contents(c.h, c.packs, c.t, c.files[f].chunks) == Some(view[Path(c, f)])
  }

  ghost predicate HandFits(c: Plan, w: nat, pc: Hand, dir: map<string, nat>, view: map<string, Bytes>,
                           owner: seq<nat>, stage: seq<Option<nat>>)
    requires |stage| == |c.files|
  {
    && (pc.Opening? || pc.Writing? || pc.Closed? || pc.Removing? ==>
         && pc.file < |owner| && pc.file < |c.files| && owner[pc.file] == w
         && (pc.Opening? <==> stage[pc.file].None?))
    && (pc.Writing? ==>
         && Path(c, pc.file) in dir && pc.inode == dir[Path(c, pc.file)] && Path(c, pc.file) in view
         && pc.next <= |c.files[pc.file].chunks| && pc.offset == |view[Path(c, pc.file)]|
         && Contents(c.h, c.packs, c.t, c.files[pc.file].chunks[..pc.next]) == Some(view[Path(c, pc.file)]))
    && (pc.Closed? ==> NotPartial(c, view, pc.file))
  }

  ghost predicate FileFits(c: Plan, before: map<string, Bytes>, view: map<string, Bytes>, hands: seq<Hand>,
                           owner: seq<nat>, stage: seq<Option<nat>>, f: nat)
    requires |stage| == |c.files| && f < |c.files|
  {
    && (stage[f].None? ==> SamePath(view, before, Path(c, f)))
    && (stage[f].Some? ==>
         && f < |owner| && owner[f] < |hands|
         && (InHand(hands[owner[f]], f) || NotPartial(c, view, f)))
  }

  ghost predicate Fits(c: Plan, before: map<string, Bytes>, dir: map<string, nat>, view: map<string, Bytes>,
                       hands: seq<Hand>, owner: seq<nat>, stage: seq<Option<nat>>) {
    && |stage| == |c.files|
    && (forall w :: 0 <= w < |hands| ==> HandFits(c, w, hands[w], dir, view, owner, stage))
    && (forall f :: 0 <= f < |c.files| ==> FileFits(c, before, view, hands, owner, stage, f))
    && (forall p :: (forall f :: 0 <= f < |c.files| ==> Path(c, f) != p) ==> SamePath(view, before, p))
  }

  ghost predicate FitsState(c: Plan, before: map<string, Bytes>, s: State) {
    Unlinked(s.dir, s.inodes) && Fits(c, before, s.dir, View(s.dir, s.inodes), s.hands, s.owner, s.stage)
  }

  /** The view and the directory change at one path only. */
  ghost predicate OnlyAt(dir: map<string, nat>, view: map<string, Bytes>, dir': map<string, nat>,
                         view': map<string, Bytes>, path: string) {
    forall p :: p != path ==> (p in dir' <==> p in dir) && (p in dir ==> dir'[p] == dir[p]) && SamePath(view', view, p)
  }

  lemma HandKept(c: Plan, x: nat, pc: Hand, dir: map<string, nat>, view: map<string, Bytes>, owner: seq<nat>,
                 stage: seq<Option<nat>>, f: nat, dir': map<string, nat>, view': map<string, Bytes>, at: Option<nat>)
    requires |stage| == |c.files| && HandFits(c, x, pc, dir, view, owner, stage) && DistinctPaths(c.files)
    requires f < |c.files| && f < |owner| && owner[f] != x && OnlyAt(dir, view, dir', view', Path(c, f))
    ensures HandFits(c, x, pc, dir', view', owner, stage[f := at])
  {
    if pc.Opening? || pc.Writing? || pc.Closed? || pc.Removing? {
      assert pc.file != f && Path(c, pc.file) != Path(c, f);
      assert SamePath(view', view, Path(c, pc.file));
    }
  }

  lemma FileKept(c: Plan, before: map<string, Bytes>, dir: map<string, nat>, view: map<string, Bytes>,
                 hands: seq<Hand>, owner: seq<nat>, stage: seq<Option<nat>>, w: nat, f: nat,
                 dir': map<string, nat>, view': map<string, Bytes>, next: Hand, at: Option<nat>, g: nat)
    requires |stage| == |c.files| && g < |c.files| && FileFits(c, before, view, hands, owner, stage, g)
    requires w < |hands| && InHand(hands[w], f) && f < |c.files| && g != f && DistinctPaths(c.files)
    requires OnlyAt(dir, view, dir', view', Path(c, f))
    ensures FileFits(c, before, view', hands[w := next], owner, stage[f := at], g)
  {
    assert Path(c, g) != Path(c, f);
    assert SamePath(view', view, Path(c, g));
  }

  /** Worker w goes on with its file, and nothing but that file changes. */
  lemma Touched(c: Plan, before: map<string, Bytes>, dir: map<string, nat>, view: map<string, Bytes>,
                hands: seq<Hand>, owner: seq<nat>, stage: seq<Option<nat>>, w: nat, f: nat,
                dir': map<string, nat>, view': map<string, Bytes>, next: Hand, at: Option<nat>)
    requires Fits(c, before, dir, view, hands, owner, stage) && DistinctPaths(c.files)
    requires w < |hands| && InHand(hands[w], f) && f < |c.files| && f < |owner| && owner[f] == w
    requires OnlyAt(dir, view, dir', view', Path(c, f))
    requires HandFits(c, w, next, dir', view', owner, stage[f := at])
    requires FileFits(c, before, view', hands[w := next], owner, stage[f := at], f)
    ensures Fits(c, before, dir', view', hands[w := next], owner, stage[f := at])
  {
    forall x | 0 <= x < |hands| && x != w
      ensures HandFits(c, x, hands[x], dir', view', owner, stage[f := at])
    {
      HandKept(c, x, hands[x], dir, view, owner, stage, f, dir', view', at);
    }
    var hands', stage' := hands[w := next], stage[f := at];
    forall g | 0 <= g < |c.files|
      ensures FileFits(c, before, view', hands', owner, stage', g)
    {
      if g != f {
        FileKept(c, before, dir, view, hands, owner, stage, w, f, dir', view', next, at, g);
      }
    }
    forall p | forall g :: 0 <= g < |c.files| ==> Path(c, g) != p
      ensures SamePath(view', before, p)
    {
      assert SamePath(view, before, p) && p != Path(c, f);
      assert SamePath(view', view, p);
    }
  }

  lemma OpenedFits(c: Plan, before: map<string, Bytes>, dir: map<string, nat>, view: map<string, Bytes>,
                   hands: seq<Hand>, owner: seq<nat>, stage: seq<Option<nat>>, w: nat, f: nat,
                   dir': map<string, nat>, inode: nat)
    requires Fits(c, before, dir, view, hands, owner, stage) && DistinctPaths(c.files)
    requires w < |hands| && hands[w] == Opening(f) && f < |c.files| && dir' == dir[Path(c, f) := inode]
    ensures Fits(c, before, dir', view[Path(c, f) := []], hands[w := Writing(f, inode, 0, 0)], owner,
                 stage[f := Some(0)])
  {
    assert HandFits(c, w, hands[w], dir, view, owner, stage);
    assert c.files[f].chunks[..0] == [];
    Touched(c, before, dir, view, hands, owner, stage, w, f, dir', view[Path(c, f) := []], Writing(f, inode, 0, 0),
            Some(0));
  }

  lemma OpenFits(c: Plan, before: map<string, Bytes>, s: State, w: nat)
    requires FitsState(c, before, s) && CanDo(c, s, w, OpenFile) && DistinctPaths(c.files)
    ensures FitsState(c, before, DoOpen(c, s, w))
  {
    var f, view := s.hands[w].file, View(s.dir, s.inodes);
    var path := Path(c, f);
    if path in s.dir {
      ViewWrite(s.dir, s.inodes, path, []);
      assert s.dir[path := s.dir[path]] == s.dir;
      OpenedFits(c, before, s.dir, view, s.hands, s.owner, s.stage, w, f, s.dir, s.dir[path]);
    } else {
      ViewCreate(s.dir, s.inodes, path);
      OpenedFits(c, before, s.dir, view, s.hands, s.owner, s.stage, w, f, s.dir[path := |s.inodes|], |s.inodes|);
    }
  }

  /** The bytes of an open file change. */
  lemma BytesFit(c: Plan, before: map<string, Bytes>, s: State, w: nat, content: Bytes, next: Hand, at: Option<nat>)
    requires FitsState(c, before, s) && DistinctPaths(c.files)
    requires w < |s.hands| && s.hands[w].Writing? && s.hands[w].file < |c.files|
    requires s.hands[w].inode < |s.inodes| && Path(c, s.hands[w].file) in s.dir
    requires HandFits(c, w, next, s.dir, View(s.dir, s.inodes)[Path(c, s.hands[w].file) := content], s.owner,
                      s.stage[s.hands[w].file := at])
    requires at.Some? && InHand(next, s.hands[w].file)
    ensures var t := s.(inodes := s.inodes[s.hands[w].inode := content], hands := s.hands[w := next],
                        stage := s.stage[s.hands[w].file := at]);
      FitsState(c, before, t)
  {
    var pc, view := s.hands[w], View(s.dir, s.inodes);
    assert HandFits(c, w, pc, s.dir, view, s.owner, s.stage);
    ViewWrite(s.dir, s.inodes, Path(c, pc.file), content);
    Touched(c, before, s.dir, view, s.hands, s.owner, s.stage, w, pc.file, s.dir,
            view[Path(c, pc.file) := content], next, at);
  }

  /** The next chunk has been appended. */
  lemma NextFits(c: Plan, w: nat, pc: Hand, dir: map<string, nat>, view: map<string, Bytes>, owner: seq<nat>,
                 stage: seq<Option<nat>>, data: Bytes)
    requires |stage| == |c.files| && HandFits(c, w, pc, dir, view, owner, stage) && HasNext(c, pc)
    requires Repo.Resolve(c.h, c.packs, c.t, c.files[pc.file].chunks[pc.next]) == Some(data)
    ensures HandFits(c, w, Writing(pc.file, pc.inode, pc.next + 1, pc.offset + |data|), dir,
                     view[Path(c, pc.file) := view[Path(c, pc.file)] + data], owner,
                     stage[pc.file := Some(pc.next + 1)])
  {
    OneMoreChunk(c.h, c.packs, c.t, c.files[pc.file].chunks, pc.next, view[Path(c, pc.file)]);
  }

  lemma WroteFits(c: Plan, before: map<string, Bytes>, dir: map<string, nat>, view: map<string, Bytes>,
                  hands: seq<Hand>, owner: seq<nat>, stage: seq<Option<nat>>, w: nat, data: Bytes)
    requires Fits(c, before, dir, view, hands, owner, stage) && DistinctPaths(c.files)
    requires w < |hands| && HasNext(c, hands[w]) && Path(c, hands[w].file) in view
    requires Repo.Resolve(c.h, c.packs, c.t, c.files[hands[w].file].chunks[hands[w].next]) == Some(data)
    ensures var pc := hands[w];
      Fits(c, before, dir, view[Path(c, pc.file) := view[Path(c, pc.file)] + data],
           hands[w := Writing(pc.file, pc.inode, pc.next + 1, pc.offset + |data|)], owner,
           stage[pc.file := Some(pc.next + 1)])
  {
    var pc := hands[w];
    NextFits(c, w, pc, dir, view, owner, stage, data);
    Touched(c, before, dir, view, hands, owner, stage, w, pc.file, dir,
            view[Path(c, pc.file) := view[Path(c, pc.file)] + data],
            Writing(pc.file, pc.inode, pc.next + 1, pc.offset + |data|), Some(pc.next + 1));
  }

  /** A write at the end of the file appends. */
  lemma WriteIs(c: Plan, s: State, w: nat, data: Bytes)
    requires CanDo(c, s, w, WriteChunk) && NextBlob(c, s.hands[w]) == Some(data)
    requires |s.inodes[s.hands[w].inode]| == s.hands[w].offset
    ensures var pc, t := s.hands[w], DoWrite(c, s, w);
      && t.dir == s.dir && t.owner == s.owner && t.inodes == s.inodes[pc.inode := s.inodes[pc.inode] + data]
      && t.hands == s.hands[w := Writing(pc.file, pc.inode, pc.next + 1, pc.offset + |data|)]
      && t.stage == s.stage[pc.file := Some(pc.next + 1)]
  {
    var pc := s.hands[w];
    assert WriteAt(s.inodes[pc.inode], pc.offset, data) == s.inodes[pc.inode] + data by {
      Appended(s.inodes[pc.inode], data);
    }
  }

  lemma AppendFits(c: Plan, before: map<string, Bytes>, s: State, w: nat, data: Bytes, t: State)
    requires FitsState(c, before, s) && DistinctPaths(c.files) && w < |s.hands| && HasNext(c, s.hands[w])
    requires Repo.Resolve(c.h, c.packs, c.t, c.files[s.hands[w].file].chunks[s.hands[w].next]) == Some(data)
    requires var pc, view := s.hands[w], View(s.dir, s.inodes);
      && t.dir == s.dir && t.owner == s.owner && Path(c, pc.file) in view && Unlinked(t.dir, t.inodes)
      && View(t.dir, t.inodes) == view[Path(c, pc.file) := view[Path(c, pc.file)] + data]
      && t.hands == s.hands[w := Writing(pc.file, pc.inode, pc.next + 1, pc.offset + |data|)]
      && t.stage == s.stage[pc.file := Some(pc.next + 1)]
    ensures FitsState(c, before, t)
  {
    WroteFits(c, before, s.dir, View(s.dir, s.inodes), s.hands, s.owner, s.stage, w, data);
  }

  lemma WriteFits(c: Plan, before: map<string, Bytes>, s: State, w: nat)
    requires FitsState(c, before, s) && CanDo(c, s, w, WriteChunk) && DistinctPaths(c.files)
    ensures FitsState(c, before, DoWrite(c, s, w))
  {
    var pc, data := s.hands[w], NextBlob(c, s.hands[w]).value;
    OpenBytes(c, before, s, w);
    WriteIs(c, s, w, data);
    ViewWrite(s.dir, s.inodes, Path(c, pc.file), s.inodes[pc.inode] + data);
    AppendFits(c, before, s, w, data, DoWrite(c, s, w));
  }

  /** An open file is the one its path names, and is written at its end. */
  lemma OpenBytes(c: Plan, before: map<string, Bytes>, s: State, w: nat)
    requires FitsState(c, before, s) && w < |s.hands| && s.hands[w].Writing? && s.hands[w].inode < |s.inodes|
    ensures var pc := s.hands[w];
      && HandFits(c, w, pc, s.dir, View(s.dir, s.inodes), s.owner, s.stage)
      && pc.file < |c.files| && Path(c, pc.file) in s.dir && Path(c, pc.file) in View(s.dir, s.inodes)
      && View(s.dir, s.inodes)[Path(c, pc.file)] == s.inodes[pc.inode] && |s.inodes[pc.inode]| == pc.offset
  {
  }

  lemma FailedWriteFits(c: Plan, before: map<string, Bytes>, s: State, w: nat, n: nat)
    requires FitsState(c, before, s) && CanDo(c, s, w, WriteFails(n)) && DistinctPaths(c.files)
    ensures FitsState(c, before, DoAct(c, s, w, WriteFails(n)))
  {
    var pc, data := s.hands[w], NextBlob(c, s.hands[w]).value;
    assert HandFits(c, w, pc, s.dir, View(s.dir, s.inodes), s.owner, s.stage);
    assert s.stage[pc.file := s.stage[pc.file]] == s.stage;
    BytesFit(c, before, s, w, WriteAt(s.inodes[pc.inode], pc.offset, data[..n]), Removing(pc.file), s.stage[pc.file]);
  }

  /** The worker does something that leaves the directory and the bytes alone. */
  lemma IdleFits(c: Plan, before: map<string, Bytes>, s: State, w: nat, a: Act)
    requires FitsState(c, before, s) && CanDo(c, s, w, a) && DistinctPaths(c.files)
    requires a.OpenFails? || a.BlobFails? || a.StopEarly? || a.Close? || a.CloseFails? || a.CheckSize?
    ensures FitsState(c, before, DoAct(c, s, w, a))
  {
    var pc, view, t := s.hands[w], View(s.dir, s.inodes), DoAct(c, s, w, a);
    assert HandFits(c, w, pc, s.dir, view, s.owner, s.stage);
    assert FileFits(c, before, view, s.hands, s.owner, s.stage, pc.file);
    assert c.files[pc.file].chunks[..|c.files[pc.file].chunks|] == c.files[pc.file].chunks;
    assert s.stage[pc.file := s.stage[pc.file]] == s.stage;
    Touched(c, before, s.dir, view, s.hands, s.owner, s.stage, w, pc.file, s.dir, view, t.hands[w], s.stage[pc.file]);
  }

  lemma RemovedFits(c: Plan, before: map<string, Bytes>, dir: map<string, nat>, view: map<string, Bytes>,
                    hands: seq<Hand>, owner: seq<nat>, stage: seq<Option<nat>>, w: nat, f: nat)
    requires Fits(c, before, dir, view, hands, owner, stage) && DistinctPaths(c.files)
    requires w < |hands| && hands[w] == Removing(f) && f < |c.files|
    ensures Fits(c, before, dir - {Path(c, f)}, view - {Path(c, f)}, hands[w := Gone], owner, stage)
  {
    assert HandFits(c, w, hands[w], dir, view, owner, stage);
    assert FileFits(c, before, view, hands, owner, stage, f);
    assert stage[f := stage[f]] == stage;
    Touched(c, before, dir, view, hands, owner, stage, w, f, dir - {Path(c, f)}, view - {Path(c, f)}, Gone, stage[f]);
  }

  lemma RemoveFits(c: Plan, before: map<string, Bytes>, s: State, w: nat)
    requires FitsState(c, before, s) && CanDo(c, s, w, RemoveFile(true)) && DistinctPaths(c.files)
    ensures FitsState(c, before, DoAct(c, s, w, RemoveFile(true)))
  {
    var f, view, t := s.hands[w].file, View(s.dir, s.inodes), DoAct(c, s, w, RemoveFile(true));
    assert View(t.dir, t.inodes) == view - {Path(c, f)};
    RemovedFits(c, before, s.dir, view, s.hands, s.owner, s.stage, w, f);
  }

  lemma TakeFits(c: Plan, before: map<string, Bytes>, s: State, w: nat)
    requires Ledger(c, s) && FitsState(c, before, s) && CanDo(c, s, w, Take)
    ensures FitsState(c, before, DoAct(c, s, w, Take))
  {
    var t, view := DoAct(c, s, w, Take), View(s.dir, s.inodes);
    assert FileFits(c, before, view, s.hands, s.owner, s.stage, |s.owner|);
    forall f | 0 <= f < |c.files|
      ensures FileFits(c, before, view, t.hands, t.owner, t.stage, f)
    {
      assert FileFits(c, before, view, s.hands, s.owner, s.stage, f);
    }
  }

  lemma LeaveFits(c: Plan, before: map<string, Bytes>, s: State, w: nat)
    requires FitsState(c, before, s) && CanDo(c, s, w, Leave)
    ensures FitsState(c, before, DoAct(c, s, w, Leave))
  {
    var t, view := DoAct(c, s, w, Leave), View(s.dir, s.inodes);
    forall f | 0 <= f < |c.files|
      ensures FileFits(c, before, view, t.hands, t.owner, t.stage, f)
    {
      assert FileFits(c, before, view, s.hands, s.owner, s.stage, f);
    }
  }

  lemma ActFits(c: Plan, before: map<string, Bytes>, s: State, w: nat, a: Act)
    requires Ledger(c, s) && FitsState(c, before, s) && CanDo(c, s, w, a) && a != RemoveFile(false)
    requires DistinctPaths(c.files)
    ensures FitsState(c, before, DoAct(c, s, w, a))
  {
    match a {
      case Take => TakeFits(c, before, s, w);
      case Leave => LeaveFits(c, before, s, w);
      case OpenFile => OpenFits(c, before, s, w);
      case WriteChunk => WriteFits(c, before, s, w);
      case WriteFails(n) => FailedWriteFits(c, before, s, w, n);
      case RemoveFile(_) => RemoveFits(c, before, s, w);
      case _ => IdleFits(c, before, s, w, a);
    }
  }

  /** Every removal that was tried has succeeded. */
  ghost predicate Removable(run: seq<Move>) {
    forall k :: 0 <= k < |run| && run[k].Do? ==> run[k].a != RemoveFile(false)
  }

  lemma {:induction false} RunFits(c: Plan, dir: map<string, nat>, inodes: seq<Bytes>, run: seq<Move>)
    requires Unlinked(dir, inodes) && DistinctPaths(c.files) && Removable(run)
    requires Replay(c, Start(c, dir, inodes), run).Some?
    ensures FitsState(c, View(dir, inodes), Replay(c, Start(c, dir, inodes), run).value)
  {
    if run != [] {
      var s, e := Replay(c, Start(c, dir, inodes), run[..|run| - 1]).value, run[|run| - 1];
      RunFits(c, dir, inodes, run[..|run| - 1]);
      RunLedger(c, dir, inodes, run[..|run| - 1]);
      if e.Do? {
        ActFits(c, View(dir, inodes), s, e.w, e.a);
      }
    }
  }

  lemma FitsMeans(c: Plan, before: map<string, Bytes>, dir: map<string, nat>, view: map<string, Bytes>,
                  hands: seq<Hand>, owner: seq<nat>, stage: seq<Option<nat>>, f: nat)
    requires Fits(c, before, dir, view, hands, owner, stage) && f < |c.files|
    ensures (exists w :: 0 <= w < |hands| && InHand(hands[w], f))
      || SamePath(view, before, Path(c, f)) || NotPartial(c, view, f)
    ensures stage[f].None? ==> SamePath(view, before, Path(c, f))
  {
    assert FileFits(c, before, view, hands, owner, stage, f);
  }

  /** Nothing partial is left. At any moment of any restore of entries with distinct paths, failed
      and cancelled ones included, and as long as every removal succeeds: a file that no worker has
      in hand is as it was before, or absent, or complete; one that was never opened is as it was. */
  lemma NothingPartial(c: Plan, dir: map<string, nat>, inodes: seq<Bytes>, run: seq<Move>, f: nat)
    requires Unlinked(dir, inodes) && DistinctPaths(c.files) && Removable(run) && f < |c.files|
    requires Replay(c, Start(c, dir, inodes), run).Some?
    ensures var s := Replay(c, Start(c, dir, inodes), run).value;
      || (exists w :: 0 <= w < |s.hands| && InHand(s.hands[w], f))
      || SamePath(View(s.dir, s.inodes), View(dir, inodes), Path(c, f)) || NotPartial(c, View(s.dir, s.inodes), f)
    ensures var s := Replay(c, Start(c, dir, inodes), run).value;
      f < |s.stage| && (s.stage[f].None? ==> SamePath(View(s.dir, s.inodes), View(dir, inodes), Path(c, f)))
  {
    var s := Replay(c, Start(c, dir, inodes), run).value;
    RunFits(c, dir, inodes, run);
    FitsMeans(c, View(dir, inodes), s.dir, View(s.dir, s.inodes), s.hands, s.owner, s.stage, f);
  }

  /** A path that the snapshot does not name is left alone, whatever happens. */
  lemma OthersLeft(c: Plan, dir: map<string, nat>, inodes: seq<Bytes>, run: seq<Move>, p: string)
    requires Unlinked(dir, inodes) && DistinctPaths(c.files) && Removable(run)
    requires Replay(c, Start(c, dir, inodes), run).Some? && forall f :: 0 <= f < |c.files| ==> Path(c, f) != p
    ensures var s := Replay(c, Start(c, dir, inodes), run).value;
      SamePath(View(s.dir, s.inodes), View(dir, inodes), p)
  {
    RunFits(c, dir, inodes, run);
  }

  /** If the removal fails, too, any part of the first chunk may be left in its place. */
  lemma PartMayRemain(c: Plan, data: Bytes, n: nat) returns (run: seq<Move>, t: State)
    requires c.workers >= 1 && c.files != [] && c.files[0].chunks != [] && n <= |data|
    requires Repo.Resolve(c.h, c.packs, c.t, c.files[0].chunks[0]) == Some(data)
    ensures Replay(c, Start(c, map[], []), run) == Some(t) && t.failed && |t.hands| == c.workers && t.hands[0].Gone?
    ensures View(t.dir, t.inodes) == map[Path(c, 0) := data[..n]]
  {
    var m;
    run, m := OpenFirst(c);
    run, t := Extend(c, Start(c, map[], []), run, m, 0, WriteFails(n));
    FirstBytes(data[..n]);
    assert t.inodes == [data[..n]];
    run, t := Extend(c, Start(c, map[], []), run, t, 0, RemoveFile(false));
  }

  lemma FirstBytes(data: Bytes)
    ensures WriteAt([], 0, data) == data
  {
    Appended([], data);
  }

  lemma OpenFirst(c: Plan) returns (run: seq<Move>, t: State)
    requires c.workers >= 1 && c.files != []
    ensures Replay(c, Start(c, map[], []), run) == Some(t) && |t.hands| == c.workers && |t.stage| == |c.files|
    ensures t.hands[0] == Writing(0, 0, 0, 0) && t.dir == map[Path(c, 0) := 0] && t.inodes == [[]]
  {
    var s := Start(c, map[], []);
    run, t := Extend(c, s, [], s, 0, Take);
    run, t := Extend(c, s, run, t, 0, OpenFile);
  }

  // ---- stopping ----

  /** The worker's next step once the context is done. */
  function StopMove(c: Plan, pc: Hand): Act {
    match pc
    case Idle => Leave
    case Opening(_) => OpenFails
    case Writing(f, _, k, _) => if f < |c.files| && k < |c.files[f].chunks| then StopEarly else Close
    case Closed(_, _) => CheckSize
    case _ => RemoveFile(true)
  }

  function StepsToStop(pc: Hand): nat {
    match pc
    case Idle => 1
    case Opening(_) => 1
    case Writing(_, _, _, _) => 3
    case Closed(_, _) => 2
    case Removing(_) => 1
    case Gone => 0
  }

  lemma StopStep(c: Plan, s: State, w: nat)
    requires Ledger(c, s) && Done(s) && w < |s.hands| && !s.hands[w].Gone?
    ensures CanDo(c, s, w, StopMove(c, s.hands[w]))
    ensures var t := DoAct(c, s, w, StopMove(c, s.hands[w]));
      && Ledger(c, t) && Done(t) && t.owner == s.owner && t.stage == s.stage
      && t.hands == s.hands[w := t.hands[w]] && StepsToStop(t.hands[w]) < StepsToStop(s.hands[w])
  {
    assert HandInLedger(c, s, w, s.hands[w]);
    ActLedger(c, s, w, StopMove(c, s.hands[w]));
  }

  /** Once the context is done, a worker can return without taking or opening another file. */
  lemma {:induction false} StopOne(c: Plan, s: State, w: nat) returns (run: seq<Move>, t: State)
    requires Ledger(c, s) && Done(s) && w < |s.hands|
    ensures Replay(c, s, run) == Some(t) && Ledger(c, t) && Done(t) && t.hands == s.hands[w := Gone]
    ensures t.owner == s.owner && t.stage == s.stage
    decreases StepsToStop(s.hands[w])
  {
    run, t := [], s;
    if !s.hands[w].Gone? {
      StopStep(c, s, w);
      var one, m := Extend(c, s, [], s, w, StopMove(c, s.hands[w]));
      var rest;
      rest, t := StopOne(c, m, w);
      Compose(c, s, one, m, rest);
      run := one + rest;
    }
  }

  /** So all workers can, whatever state the restore has come to. */
  lemma {:induction false} StopAll(c: Plan, s: State, n: nat) returns (run: seq<Move>, t: State)
    requires Ledger(c, s) && Done(s) && n <= |s.hands| && forall x :: n <= x < |s.hands| ==> s.hands[x].Gone?
    ensures Replay(c, s, run) == Some(t) && t.owner == s.owner && t.stage == s.stage
    ensures forall x :: 0 <= x < |t.hands| ==> t.hands[x].Gone?
    decreases n
  {
    run, t := [], s;
    if n > 0 {
      var one, m := StopOne(c, s, n - 1);
      var rest;
      rest, t := StopAll(c, m, n - 1);
      Compose(c, s, one, m, rest);
      run := one + rest;
    }
  }

  /** A restore that has failed or is cancelled can end, from any reachable state, without another
      file being taken or opened or another chunk written. */
  lemma CanStop(c: Plan, dir: map<string, nat>, inodes: seq<Bytes>, run: seq<Move>) returns (more: seq<Move>)
    requires Replay(c, Start(c, dir, inodes), run).Some? && Done(Replay(c, Start(c, dir, inodes), run).value)
    ensures Replay(c, Start(c, dir, inodes), run + more).Some?
    ensures var s, t := Replay(c, Start(c, dir, inodes), run).value, Replay(c, Start(c, dir, inodes), run + more).value;
      t.owner == s.owner && t.stage == s.stage && forall w :: 0 <= w < |t.hands| ==> t.hands[w].Gone?
  {
    var s := Replay(c, Start(c, dir, inodes), run).value;
    RunLedger(c, dir, inodes, run);
    var t;
    more, t := StopAll(c, s, |s.hands|);
    Compose(c, Start(c, dir, inodes), run, s, more);
  }
}
