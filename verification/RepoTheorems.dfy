/** Safety of every run without a stale kill, and exactly when it is safe to die during garbage
    collection. */
module RepoTheorems {
  import opened Wrappers
  import opened Blob
  import opened PackFormat
  import opened IndexFormat
  import opened RepoModel
  import opened RepoInvariant

  /** Every run without a stale kill keeps the invariant. */
  lemma {:induction false} RunInv(env: Env, w: World, run: seq<Step>)
    requires env.Valid() && Inv(env, w) && After(env, w, run).Some? && NoStaleKill(env, w, run)
    ensures Inv(env, After(env, w, run).value)
  {
    if run != [] {
      RunInv(env, w, run[..|run| - 1]);
      StepInv(env, After(env, w, run[..|run| - 1]).value, run[|run| - 1]);
    }
  }

  /** `t` is an index that the next Open may end up with: the saved one if it is well formed,
      else one rebuilt from the packs in some order. */
  ghost predicate NextOpen(env: Env, w: World, t: Table) {
    if SavedTable(w.index).Some? then
      t == SavedTable(w.index).value
    else
      exists order :: Lists(w.packs, order) && Rebuild(env.codec, w.packs, order) == Some(t)
  }

  /** The index resolves every one of these blobs, to bytes that hash to its address. */
  ghost predicate Serves(env: Env, packs: Packs, t: Table, refs: set<ID>) {
    forall id :: id in refs ==>
      var data := Resolve(env.h, packs, t, id);
      data.Some? && env.h(data.value) == id && data.value in env.inPlay
  }

  /** Every blob of every stored snapshot is resolved by the next Open, whatever that finds. */
  ghost predicate Safe(env: Env, w: World) {
    forall t :: NextOpen(env, w, t) ==> Serves(env, w.packs, t, References(w.snaps))
  }

  lemma InvSafe(env: Env, w: World)
    requires Inv(env, w)
    ensures Safe(env, w)
    ensures forall order :: SavedTable(w.index).None? && Lists(w.packs, order) ==>
      Rebuild(env.codec, w.packs, order).Some?
  {
    forall order | Lists(w.packs, order)
      ensures Rebuild(env.codec, w.packs, order).Some?
    {
      RebuildSound(env, w.packs, order);
    }
    forall t, id | NextOpen(env, w, t) && id in References(w.snaps)
      ensures id in t && Located(env.codec, w.packs, id, t[id])
    {
      if SavedTable(w.index).None? {
        var order :| Lists(w.packs, order) && Rebuild(env.codec, w.packs, order) == Some(t);
        RebuildCovers(env, w.packs, order, References(w.snaps));
      }
    }
    forall t | NextOpen(env, w, t)
      ensures Serves(env, w.packs, t, References(w.snaps))
    {
      LocatedServes(env, w.packs, t, References(w.snaps));
    }
  }

  lemma LocatedServes(env: Env, packs: Packs, t: Table, refs: set<ID>)
    requires PacksSound(env, packs)
    requires forall id :: id in refs ==> id in t && Located(env.codec, packs, id, t[id])
    ensures Serves(env, packs, t, refs)
  {
    forall id | id in refs
      ensures Resolve(env.h, packs, t, id).Some? && env.h(Resolve(env.h, packs, t, id).value) == id
      ensures Resolve(env.h, packs, t, id).value in env.inPlay
    {
      LocatedResolves(env, packs, t, id);
    }
  }

  /** Between operations the live index, too, resolves every blob of every snapshot. */
  lemma LiveSafety(env: Env, w: World)
    requires Inv(env, w) && In(w, Idle)
    ensures Serves(env, w.packs, w.proc.idx, References(w.snaps))
  {
    LocatedServes(env, w.packs, w.proc.idx, References(w.snaps));
  }

  /** The saved index is stale only inside a collection: between its first deletion and the
      moment it saves the rebuilt index. */
  lemma StaleOnlyInCollection(env: Env, w: World)
    requires Inv(env, w) && Stale(w)
    ensures w.proc.Live? && (w.proc.phase.Collecting? || w.proc.phase.Rebuilt?)
  {
    var t := SavedTable(w.index).value;
    var id :| id in t && t[id].packID !in w.packs;
    assert !Located(env.codec, w.packs, id, t[id]);
  }

  /** However runs go on after the process is killed here, snapshots stay safe. */
  ghost predicate KillSafe(env: Env, w: World) {
    forall run :: After(env, Run(env, w, Kill), run).Some? && NoStaleKill(env, Run(env, w, Kill), run) ==>
      Safe(env, After(env, Run(env, w, Kill), run).value)
  }

  /** Dying in a reachable state is safe if and only if the saved index is not stale. */
  lemma KillSafeIff(env: Env, w: World)
    requires env.Valid() && Inv(env, w)
    ensures KillSafe(env, w) <==> !Stale(w)
  {
    if Stale(w) {
      var run := StaleKillLoses(env, w);
    } else {
      KillInv(env, w);
      forall run | After(env, Run(env, w, Kill), run).Some? && NoStaleKill(env, Run(env, w, Kill), run)
        ensures Safe(env, After(env, Run(env, w, Kill), run).value)
      {
        RunInv(env, Run(env, w, Kill), run);
        InvSafe(env, After(env, Run(env, w, Kill), run).value);
      }
    }
  }

  lemma Extend(env: Env, w: World, run: seq<Step>, at: World, e: Step) returns (to: World)
    requires After(env, w, run) == Some(at) && CanRun(env, at, e) && NoStaleKill(env, w, run)
    requires e.Kill? ==> !Stale(at)
    ensures to == Run(env, at, e) && After(env, w, run + [e]) == Some(to) && NoStaleKill(env, w, run + [e])
  {
    to := Run(env, at, e);
    assert (run + [e])[..|run|] == run;
  }

  /** The bad run: a stale index is loaded, the next backup trusts it for a blob whose pack is
      gone, and the snapshot it commits cannot be restored. */
  lemma StaleKillLoses(env: Env, w: World) returns (run: seq<Step>)
    requires Inv(env, w) && Stale(w)
    ensures var dead := Run(env, w, Kill);
      After(env, dead, run).Some? && NoStaleKill(env, dead, run) && !Safe(env, After(env, dead, run).value)
  {
    var dead := Run(env, w, Kill);
    var t := SavedTable(w.index).value;
    var id :| id in t && t[id].packID !in w.packs;
    var before, at := BackUpNothing(env, dead);
    RoundTrip(t, w.index.value);
    var snap := Snapshot([FileEntry("f", t[id].length, [id])]);
    assert forall x :: x in BlobIDs(snap) ==> x == id;
    var w4 := Extend(env, dead, before, at, SaveSnapshot(snap));
    run := before + [SaveSnapshot(snap)];
    assert id in snap.files[0].chunks && id in BlobIDs(snap) && id in References(w4.snaps);
    assert NextOpen(env, w4, t) && Resolve(env.h, w4.packs, t, id).None?;
    assert !Serves(env, w4.packs, t, References(w4.snaps));
  }

  /** Open with the saved index, start a backup and save the index again, as it was. */
  lemma BackUpNothing(env: Env, dead: World) returns (run: seq<Step>, at: World)
    requires dead.proc.Dead? && SavedTable(dead.index).Some?
    requires IsEncoding(SavedTable(dead.index).value, dead.index.value)
    ensures After(env, dead, run) == Some(at) && NoStaleKill(env, dead, run)
    ensures at == dead.(proc := Live(SavedTable(dead.index).value, Indexed))
  {
    var w1 := Extend(env, dead, [], dead, OpenLoad);
    run := [] + [OpenLoad];
    var w2 := Extend(env, dead, run, w1, BeginBackup);
    run := run + [BeginBackup];
    at := Extend(env, dead, run, w2, SaveIndex(dead.index.value));
    run := run + [SaveIndex(dead.index.value)];
  }

  /** Storing a pack of one blob and indexing it. */
  lemma UploadOne(env: Env, items: seq<Item>) returns (run: seq<Step>, at: World)
    requires env.Valid() && Storable(env, items) && |items| == 1
    ensures After(env, CREATED, run) == Some(at) && NoStaleKill(env, CREATED, run)
    ensures var pack := PackBytes(env.codec, items);
      && at.packs == map[env.h(pack) := pack] && at.snaps == {} && In(at, Uploading)
      && exists loc :: at.proc.idx == map[items[0].id := loc] && loc.packID == env.h(pack) && NonNegative(loc)
  {
    var pack := PackBytes(env.codec, items);
    StorableSound(env, items);
    EntriesTile(items, 0);
    var w1 := Extend(env, CREATED, [], CREATED, BeginBackup);
    run := [] + [BeginBackup];
    var w2 := Extend(env, CREATED, run, w1, StorePack(items));
    run := run + [StorePack(items)];
    at := Extend(env, CREATED, run, w2, InsertEntry(env.h(pack), 0));
    run := run + [InsertEntry(env.h(pack), 0)];
    assert at.proc.idx == map[items[0].id := LocationIn(env.h(pack), EntriesOf(items)[0])];
  }

  /** After that, saving the index and giving up. */
  lemma AbandonedBackup(env: Env, items: seq<Item>) returns (run: seq<Step>, at: World)
    requires env.Valid() && Storable(env, items) && |items| == 1
    ensures After(env, CREATED, run) == Some(at) && NoStaleKill(env, CREATED, run)
    ensures var pack := PackBytes(env.codec, items);
      && at.packs == map[env.h(pack) := pack] && at.snaps == {} && In(at, Idle)
      && SavedTable(at.index) == Some(at.proc.idx) && items[0].id in at.proc.idx
      && at.proc.idx[items[0].id].packID == env.h(pack)
  {
    var before, w3 := UploadOne(env, items);
    var m := w3.proc.idx;
    var loc :| m == map[items[0].id := loc] && loc.packID == env.h(PackBytes(env.codec, items)) && NonNegative(loc);
    var bytes := OneEntry(m, items[0].id, loc);
    var w4 := Extend(env, CREATED, before, w3, SaveIndex(bytes));
    run := before + [SaveIndex(bytes)];
    at := Extend(env, CREATED, run, w4, AbortBackup);
    run := run + [AbortBackup];
    RoundTrip(m, bytes);
  }

  lemma OneEntry(m: Table, id: ID, loc: Location) returns (bytes: Bytes)
    requires m == map[id := loc]
    ensures IsEncoding(m, bytes)
  {
    assert IsOrder(m, [id]);
    bytes := IndexFormat.EncodeHeader(|m|) + EncodeRecords(m, [id]);
  }

  /** A stale index is reachable: an interrupted backup, and then a collection that deletes what
      it left behind. A kill at this moment is the one that loses data. */
  lemma StaleReachable(env: Env, items: seq<Item>) returns (run: seq<Step>, w: World)
    requires env.Valid() && Storable(env, items) && |items| == 1
    ensures After(env, CREATED, run) == Some(w) && NoStaleKill(env, CREATED, run)
    ensures Stale(w) && !KillSafe(env, w)
  {
    var before, at := AbandonedBackup(env, items);
    var packID := env.h(PackBytes(env.codec, items));
    assert References(at.snaps) == {} && UsedPacks(at.proc.idx, {}) == {};
    assert Orphans(at.packs, at.proc.idx, {}) == at.packs.Keys == {packID};
    var w1 := Extend(env, CREATED, before, at, StartGC);
    run := before + [StartGC];
    w := Extend(env, CREATED, run, w1, DeletePack(packID));
    run := run + [DeletePack(packID)];
    CreatedInv(env);
    RunInv(env, CREATED, run);
    KillSafeIff(env, w);
  }

  /** Snapshots are never lost. */
  lemma {:induction false} SnapshotsStay(env: Env, w: World, run: seq<Step>)
    requires After(env, w, run).Some?
    ensures w.snaps <= After(env, w, run).value.snaps
  {
    if run != [] {
      SnapshotsStay(env, w, run[..|run| - 1]);
    }
  }
}
