/** What stays true of the blobs of a committed snapshot through every later run, kills at any
    moment of a collection included. */
module RepoKept {
  import opened Wrappers
  import opened Blob
  import opened IndexFormat
  import opened PackFormat
  import opened RepoModel
  import opened RepoInvariant
  import opened RepoTheorems

  /** The index points each of these blobs at an entry for it in a present pack. */
  ghost predicate Finds(env: Env, packs: Packs, t: Table, refs: set<ID>) {
    forall id :: id in refs ==> id in t && Located(env.codec, packs, id, t[id])
  }

  ghost predicate Agree(t: Table, idx: Table, refs: set<ID>) {
    forall id :: id in refs && id in t && id in idx ==> t[id] == idx[id]
  }

  /** Until a collection rebuilds its index, the process has these blobs where the saved index
      has them, and a collection in progress spares their packs. */
  ghost predicate ProcKeeps(env: Env, packs: Packs, refs: set<ID>, saved: Option<Table>, proc: Proc) {
    proc.Live? ==>
      && Finds(env, packs, proc.idx, refs)
      && (proc.phase != Rebuilt && saved.Some? ==> Agree(saved.value, proc.idx, refs))
      && (proc.phase.Collecting? ==> proc.phase.todo !! UsedPacks(proc.idx, refs))
  }

  /** The blobs in `refs`, all referenced by snapshots, are stored, and found through the saved
      index and the live one. Nothing is said of any other blob. */
  ghost predicate Kept(env: Env, w: World, refs: set<ID>) {
    var saved := SavedTable(w.index);
    && refs <= References(w.snaps) && PacksSound(env, w.packs) && AllStored(env.codec, w.packs, refs)
    && (saved.Some? ==> Finds(env, w.packs, saved.value, refs))
    && ProcKeeps(env, w.packs, refs, saved, w.proc)
  }

  /** Every referenced blob is kept in every state the invariant allows, stale ones included. */
  lemma InvKept(env: Env, w: World)
    requires Inv(env, w)
    ensures Kept(env, w, References(w.snaps))
  {
    var refs, saved := References(w.snaps), SavedTable(w.index);
    if saved.Some? {
      assert Finds(env, w.packs, saved.value, refs);
    }
    if w.proc.Live? {
      assert Finds(env, w.packs, w.proc.idx, refs);
    }
  }

  lemma MorePacks(env: Env, packs: Packs, more: Packs, refs: set<ID>, t: Table)
    requires Finds(env, packs, t, refs)
    requires forall id :: id in refs && id in t && t[id].packID in packs ==>
      t[id].packID in more && more[t[id].packID] == packs[t[id].packID]
    ensures Finds(env, more, t, refs)
  {
    forall id | id in refs
      ensures Located(env.codec, more, id, t[id])
    {
      LocatedKeeps(env.codec, packs, more, id, t[id]);
    }
  }

  lemma StillStored(env: Env, packs: Packs, refs: set<ID>, t: Table)
    requires Finds(env, packs, t, refs)
    ensures AllStored(env.codec, packs, refs)
  {
    forall id | id in refs
      ensures Stored(env.codec, packs, id)
    {
      var e := Entry(id, t[id].offset, t[id].length);
      assert e.id in EntryIDs(PackEntries(env.codec, packs[t[id].packID]).value);
      assert Holds(env.codec, packs[t[id].packID], id);
    }
  }

  lemma StoreKeeps(env: Env, w: World, refs: set<ID>, items: seq<Item>)
    requires env.Valid() && Kept(env, w, refs) && CanRun(env, w, StorePack(items))
    ensures Kept(env, Run(env, w, StorePack(items)), refs)
  {
    var pack := PackBytes(env.codec, items);
    StorableSound(env, items);
    if env.h(pack) !in w.packs {
      var more := w.packs[env.h(pack) := pack];
      MorePacks(env, w.packs, more, refs, w.proc.idx);
      StillStored(env, more, refs, w.proc.idx);
      if SavedTable(w.index).Some? {
        MorePacks(env, w.packs, more, refs, SavedTable(w.index).value);
      }
    }
  }

  lemma DeleteKeeps(env: Env, w: World, refs: set<ID>, packID: ID)
    requires Kept(env, w, refs) && CanRun(env, w, DeletePack(packID))
    ensures Kept(env, Run(env, w, DeletePack(packID)), refs)
  {
    var idx, fewer := w.proc.idx, w.packs - {packID};
    forall id | id in refs
      ensures idx[id].packID in fewer
    {
      assert Located(env.codec, w.packs, id, idx[id]) && idx[id].packID in UsedPacks(idx, refs);
    }
    MorePacks(env, w.packs, fewer, refs, idx);
    StillStored(env, fewer, refs, idx);
    if SavedTable(w.index).Some? {
      MorePacks(env, w.packs, fewer, refs, SavedTable(w.index).value);
    }
  }

  lemma SaveKeeps(env: Env, w: World, refs: set<ID>, e: Step)
    requires Kept(env, w, refs) && CanRun(env, w, e) && (e.SaveIndex? || e.SaveAfterGC?)
    ensures Kept(env, Run(env, w, e), refs)
  {
    RoundTrip(w.proc.idx, e.bytes);
  }

  lemma RebuildKeeps(env: Env, w: World, refs: set<ID>, e: Step)
    requires Kept(env, w, refs) && CanRun(env, w, e) && (e.OpenRebuild? || e.RebuildAfterGC?)
    ensures Kept(env, Run(env, w, e), refs)
  {
    RebuildCovers(env, w.packs, e.order, refs);
  }

  lemma CollectKeeps(env: Env, w: World, refs: set<ID>)
    requires Kept(env, w, refs) && CanRun(env, w, StartGC)
    ensures Kept(env, Run(env, w, StartGC), refs)
  {
  }

  lemma CommitKeeps(env: Env, w: World, refs: set<ID>, snap: Snapshot)
    requires Kept(env, w, refs) && CanRun(env, w, SaveSnapshot(snap))
    ensures Kept(env, Run(env, w, SaveSnapshot(snap)), refs)
  {
    assert References(w.snaps) <= References(w.snaps + {snap});
  }

  /** Every step keeps them, a kill at any moment included. */
  lemma StepKeeps(env: Env, w: World, refs: set<ID>, e: Step)
    requires env.Valid() && Kept(env, w, refs) && CanRun(env, w, e)
    ensures Kept(env, Run(env, w, e), refs)
  {
    match e {
      case OpenLoad =>
      case OpenRebuild(_) => RebuildKeeps(env, w, refs, e);
      case BeginBackup =>
      case StorePack(items) => StoreKeeps(env, w, refs, items);
      case InsertEntry(_, _) =>
      case AbortBackup =>
      case SaveIndex(_) => SaveKeeps(env, w, refs, e);
      case SaveSnapshot(snap) => CommitKeeps(env, w, refs, snap);
      case StartGC => CollectKeeps(env, w, refs);
      case DeletePack(packID) => DeleteKeeps(env, w, refs, packID);
      case RebuildAfterGC(_) => RebuildKeeps(env, w, refs, e);
      case SaveAfterGC(_) => SaveKeeps(env, w, refs, e);
      case SpoilIndex(_) =>
      case Kill =>
    }
  }

  lemma {:induction false} RunKeeps(env: Env, w: World, refs: set<ID>, run: seq<Step>)
    requires env.Valid() && Kept(env, w, refs) && After(env, w, run).Some?
    ensures Kept(env, After(env, w, run).value, refs)
  {
    if run != [] {
      RunKeeps(env, w, refs, run[..|run| - 1]);
      StepKeeps(env, After(env, w, run[..|run| - 1]).value, refs, run[|run| - 1]);
    }
  }

  /** Where blobs can be read from: the index of the next Open, or the live index of a process
      between operations. */
  ghost predicate ReadableThrough(env: Env, w: World, t: Table) {
    NextOpen(env, w, t) || (In(w, Idle) && t == w.proc.idx)
  }

  ghost predicate OpenSucceeds(env: Env, w: World) {
    SavedTable(w.index).Some? || forall order :: Lists(w.packs, order) ==> Rebuild(env.codec, w.packs, order).Some?
  }

  lemma KeptServes(env: Env, w: World, refs: set<ID>, t: Table)
    requires Kept(env, w, refs) && ReadableThrough(env, w, t)
    ensures Serves(env, w.packs, t, refs)
  {
    if SavedTable(w.index).None? && NextOpen(env, w, t) {
      var order :| Lists(w.packs, order) && Rebuild(env.codec, w.packs, order) == Some(t);
      RebuildCovers(env, w.packs, order, refs);
    }
    LocatedServes(env, w.packs, t, refs);
  }

  /** Once committed, safe forever: whatever runs follow, with kills at any moment, inside a
      collection too, every blob that a snapshot referred to when they began is resolved by the
      next Open, which never fails, and by the live index of a process between operations. */
  lemma KeptForever(env: Env, w: World, run: seq<Step>)
    requires env.Valid() && Inv(env, w) && After(env, w, run).Some?
    ensures var later := After(env, w, run).value;
      && OpenSucceeds(env, later)
      && forall t :: ReadableThrough(env, later, t) ==> Serves(env, later.packs, t, References(w.snaps))
  {
    var later, refs := After(env, w, run).value, References(w.snaps);
    InvKept(env, w);
    RunKeeps(env, w, refs, run);
    forall order | Lists(later.packs, order)
      ensures Rebuild(env.codec, later.packs, order).Some?
    {
      RebuildSound(env, later.packs, order);
    }
    forall t | ReadableThrough(env, later, t)
      ensures Serves(env, later.packs, t, refs)
    {
      KeptServes(env, later, refs, t);
    }
  }

  /** Crash safety. Take any run from Create with kills between any two store writes, complete or
      interrupted collections and losses of the saved index, cut at the first kill while the
      saved index is stale, if there is one. Every blob of every snapshot stored by then is
      resolved by the next Open after the whole run, and Open never fails. */
  lemma CrashSafety(env: Env, run: seq<Step>, later: seq<Step>)
    requires env.Valid() && After(env, CREATED, run).Some? && NoStaleKill(env, CREATED, run)
    requires After(env, After(env, CREATED, run).value, later).Some?
    ensures var w := After(env, CREATED, run).value;
      var end := After(env, w, later).value;
      && OpenSucceeds(env, end)
      && forall t :: NextOpen(env, end, t) ==> Serves(env, end.packs, t, References(w.snaps))
  {
    CreatedInv(env);
    RunInv(env, CREATED, run);
    KeptForever(env, After(env, CREATED, run).value, later);
  }

  // ---- adoption ----

  /** Blobs of a pack that is stored, by a run that was then killed, say, are known to the next
      run if and only if no index can be loaded or the saved one lists them. */
  lemma AdoptedIff(env: Env, w: World, id: ID)
    requires Inv(env, w) && Stored(env.codec, w.packs, id)
    ensures (forall t :: NextOpen(env, w, t) ==> id in t)
       <==> (SavedTable(w.index).None? || id in SavedTable(w.index).value)
  {
    var saved := SavedTable(w.index);
    if saved.None? {
      forall t | NextOpen(env, w, t)
        ensures id in t
      {
        var order :| Lists(w.packs, order) && Rebuild(env.codec, w.packs, order) == Some(t);
        var p :| p in w.packs && Holds(env.codec, w.packs[p], id);
        RebuildFinds(env, w.packs, order, p, id);
      }
    } else {
      assert NextOpen(env, w, saved.value);
    }
  }

  /** A backup of an empty tree. */
  lemma EmptyBackup(env: Env) returns (run: seq<Step>, at: World)
    ensures After(env, CREATED, run) == Some(at) && NoStaleKill(env, CREATED, run)
    ensures at.packs == map[] && SavedTable(at.index) == Some(map[]) && at.proc == Live(map[], Idle)
    ensures at.snaps == {Snapshot([])}
  {
    var bytes := EncodingExists(CREATED.proc.idx);
    var w1 := Extend(env, CREATED, [], CREATED, BeginBackup);
    run := [] + [BeginBackup];
    var w2 := Extend(env, CREATED, run, w1, SaveIndex(bytes));
    run := run + [SaveIndex(bytes)];
    assert BlobIDs(Snapshot([])) == {};
    at := Extend(env, CREATED, run, w2, SaveSnapshot(Snapshot([])));
    run := run + [SaveSnapshot(Snapshot([]))];
    RoundTrip(CREATED.proc.idx, bytes);
    assert {} + {Snapshot([])} == {Snapshot([])};
  }

  /** A reachable state in which a stored pack is not adopted: a backup commits, and the next one
      is killed after it has stored a pack. */
  lemma NotAdopted(env: Env, items: seq<Item>) returns (run: seq<Step>, w: World)
    requires env.Valid() && Storable(env, items)
    ensures After(env, CREATED, run) == Some(w) && NoStaleKill(env, CREATED, run) && w.proc.Dead?
    ensures Stored(env.codec, w.packs, items[0].id)
    ensures exists t :: NextOpen(env, w, t) && items[0].id !in t
  {
    var before, at := EmptyBackup(env);
    var pack := PackBytes(env.codec, items);
    var w1 := Extend(env, CREATED, before, at, BeginBackup);
    run := before + [BeginBackup];
    var w2 := Extend(env, CREATED, run, w1, StorePack(items));
    run := run + [StorePack(items)];
    w := Extend(env, CREATED, run, w2, Kill);
    run := run + [Kill];
    StorableSound(env, items);
    EntriesTile(items, 0);
    assert EntriesOf(items)[0] in EntriesOf(items);
    assert Holds(env.codec, w.packs[env.h(pack)], items[0].id);
    assert NextOpen(env, w, map[]);
  }
}
