/** The repository object's operations as runs of the machine: what the contracts of Open, PutPack,
    SaveIndex and CollectGarbage say they do, the machine can do, step by step. */
module RepoRefinement {
  import opened Wrappers
  import opened Blob
  import opened PackFormat
  import opened IndexFormat
  import opened RepoModel
  import opened RepoInvariant

  lemma Further(env: Env, w: World, run: seq<Step>, at: World, e: Step) returns (to: World)
    requires After(env, w, run) == Some(at) && CanRun(env, at, e)
    ensures to == Run(env, at, e) && After(env, w, run + [e]) == Some(to)
  {
    to := Run(env, at, e);
    assert (run + [e])[..|run|] == run;
  }

  /** Open loads the saved index if there is a good one, and else rebuilds it. */
  lemma OpenIsStep(env: Env, w: World, order: seq<ID>, t: Table)
    requires w.proc.Dead?
    requires if SavedTable(w.index).Some? then SavedTable(w.index) == Some(t)
             else Lists(w.packs, order) && Rebuild(env.codec, w.packs, order) == Some(t)
    ensures exists e :: After(env, w, [e]) == Some(World(w.packs, w.index, w.snaps, Live(t, Idle)))
  {
    var e := if SavedTable(w.index).Some? then OpenLoad else OpenRebuild(order);
    var _ := Further(env, w, [], w, e);
    assert [] + [e] == [e];
  }

  /** The world with the first k blobs of a stored pack indexed. */
  function Indexing(w: World, packID: ID, es: seq<Entry>, k: nat): World
    requires w.proc.Live? && k <= |es|
  {
    w.(proc := Live(InsertEntries(w.proc.idx, packID, es[..k]), Uploading))
  }

  lemma {:induction false} InsertNext(env: Env, w: World, packID: ID, es: seq<Entry>, k: nat)
    requires In(w, Uploading) && packID in w.packs && PackEntries(env.codec, w.packs[packID]) == Some(es) && k < |es|
    ensures CanRun(env, Indexing(w, packID, es, k), InsertEntry(packID, k))
    ensures Run(env, Indexing(w, packID, es, k), InsertEntry(packID, k)) == Indexing(w, packID, es, k + 1)
  {
    assert es[..k + 1][..k] == es[..k];
    assert InsertEntries(w.proc.idx, packID, es[..k + 1])
        == InsertInto(InsertEntries(w.proc.idx, packID, es[..k]), es[k].id, LocationIn(packID, es[k]));
  }

  lemma IndexingNone(w: World, packID: ID, es: seq<Entry>)
    requires In(w, Uploading)
    ensures Indexing(w, packID, es, 0) == w
  {
    assert es[..0] == [];
  }

  lemma InsertStep(env: Env, w: World, packID: ID, es: seq<Entry>, k: nat, before: seq<Step>) returns (run: seq<Step>)
    requires In(w, Uploading) && packID in w.packs && PackEntries(env.codec, w.packs[packID]) == Some(es) && k < |es|
    requires After(env, w, before) == Some(Indexing(w, packID, es, k))
    ensures After(env, w, run) == Some(Indexing(w, packID, es, k + 1))
  {
    var from, e := Indexing(w, packID, es, k), InsertEntry(packID, k);
    InsertNext(env, w, packID, es, k);
    var to := Further(env, w, before, from, e);
    run := before + [e];
  }

  /** The machine can index them one by one. */
  lemma {:induction false} InsertRun(env: Env, w: World, packID: ID, es: seq<Entry>, k: nat) returns (run: seq<Step>)
    requires In(w, Uploading) && packID in w.packs && PackEntries(env.codec, w.packs[packID]) == Some(es) && k <= |es|
    ensures After(env, w, run) == Some(Indexing(w, packID, es, k))
  {
    if k == 0 {
      run := [];
      IndexingNone(w, packID, es);
    } else {
      var before := InsertRun(env, w, packID, es, k - 1);
      run := InsertStep(env, w, packID, es, k - 1, before);
    }
  }

  /** PutPack of a finished pack is a run that stores it and indexes its blobs one by one. */
  lemma PutPackRun(env: Env, w: World, items: seq<Item>) returns (run: seq<Step>)
    requires env.Valid() && Inv(env, w) && In(w, Uploading) && Storable(env, items)
    ensures var bytes := PackBytes(env.codec, items);
      After(env, w, run) == Some(World(w.packs[env.h(bytes) := bytes], w.index, w.snaps,
                                       Live(InsertEntries(w.proc.idx, env.h(bytes), EntriesOf(items)), Uploading)))
  {
    var bytes := PackBytes(env.codec, items);
    var id := env.h(bytes);
    StorableSound(env, items);
    if id in w.packs {
      assert SoundPack(env, id, w.packs[id]);
    }
    var stored := Further(env, w, [], w, StorePack(items));
    assert [] + [StorePack(items)] == [StorePack(items)];
    assert stored.packs == w.packs[id := bytes];
    var es := EntriesOf(items);
    var inserts := InsertRun(env, stored, id, es, |es|);
    assert es[..|es|] == es;
    run := [StorePack(items)] + inserts;
    Then(env, w, [StorePack(items)], stored, inserts);
  }

  lemma {:induction false} Then(env: Env, w: World, a: seq<Step>, m: World, b: seq<Step>)
    requires After(env, w, a) == Some(m)
    ensures After(env, w, a + b) == After(env, m, b)
  {
    if b == [] {
      assert a + b == a;
    } else {
      Then(env, w, a, m, b[..|b| - 1]);
      assert (a + b)[..|a + b| - 1] == a + b[..|b| - 1];
    }
  }

  /** Saving the index and then the snapshot. */
  lemma CommitRun(env: Env, w: World, bytes: Bytes, snap: Snapshot)
    requires In(w, Uploading) && IsEncoding(w.proc.idx, bytes) && BlobIDs(snap) <= w.proc.idx.Keys
    ensures After(env, w, [SaveIndex(bytes), SaveSnapshot(snap)])
         == Some(World(w.packs, Some(bytes), w.snaps + {snap}, Live(w.proc.idx, Idle)))
  {
    var saved := Further(env, w, [], w, SaveIndex(bytes));
    assert [] + [SaveIndex(bytes)] == [SaveIndex(bytes)];
    var _ := Further(env, w, [SaveIndex(bytes)], saved, SaveSnapshot(snap));
    assert [SaveIndex(bytes)] + [SaveSnapshot(snap)] == [SaveIndex(bytes), SaveSnapshot(snap)];
  }

  /** Deleting what is left to delete, in some order. */
  lemma {:induction false} DeleteRun(env: Env, w: World, todo: set<ID>) returns (run: seq<Step>)
    requires In(w, Collecting(todo))
    ensures After(env, w, run) == Some(w.(packs := w.packs - todo, proc := Live(w.proc.idx, Collecting({}))))
    decreases todo
  {
    if todo == {} {
      run := [];
      assert w.packs - todo == w.packs;
    } else {
      var id :| id in todo;
      var next := Further(env, w, [], w, DeletePack(id));
      assert [] + [DeletePack(id)] == [DeletePack(id)];
      var rest := DeleteRun(env, next, todo - {id});
      Then(env, w, [DeletePack(id)], next, rest);
      assert w.packs - {id} - (todo - {id}) == w.packs - todo;
      run := [DeletePack(id)] + rest;
    }
  }

  /** Rebuilding and saving after the last deletion. */
  lemma RefreshRun(env: Env, w: World, before: seq<Step>, at: World, order: seq<ID>, t: Table, bytes: Bytes)
    returns (run: seq<Step>)
    requires After(env, w, before) == Some(at) && In(at, Collecting({}))
    requires Lists(at.packs, order) && Rebuild(env.codec, at.packs, order) == Some(t) && IsEncoding(t, bytes)
    ensures After(env, w, run) == Some(World(at.packs, Some(bytes), at.snaps, Live(t, Idle)))
  {
    var rebuilt := Further(env, w, before, at, RebuildAfterGC(order));
    run := before + [RebuildAfterGC(order)];
    var _ := Further(env, w, run, rebuilt, SaveAfterGC(bytes));
    run := run + [SaveAfterGC(bytes)];
  }

  /** A collection of an undamaged repository: with nothing to delete it changes nothing, not even
      the saved index; else it deletes exactly the orphans, rebuilds and saves. */
  lemma CollectRun(env: Env, w: World, order: seq<ID>, t: Table, bytes: Bytes) returns (run: seq<Step>)
    requires In(w, Idle) && Intact(w.packs, w.proc.idx, References(w.snaps))
    requires var orphans := Orphans(w.packs, w.proc.idx, References(w.snaps));
      orphans != {} ==>
        && Lists(w.packs - orphans, order) && Rebuild(env.codec, w.packs - orphans, order) == Some(t)
        && IsEncoding(t, bytes)
    ensures var orphans := Orphans(w.packs, w.proc.idx, References(w.snaps));
      After(env, w, run) ==
        if orphans == {} then Some(w) else Some(World(w.packs - orphans, Some(bytes), w.snaps, Live(t, Idle)))
  {
    var orphans := Orphans(w.packs, w.proc.idx, References(w.snaps));
    var started := Further(env, w, [], w, StartGC);
    run := [StartGC];
    assert [] + [StartGC] == run;
    if orphans != {} {
      var deletes := DeleteRun(env, started, orphans);
      Then(env, w, run, started, deletes);
      var swept := started.(packs := w.packs - orphans, proc := Live(w.proc.idx, Collecting({})));
      run := RefreshRun(env, w, run + deletes, swept, order, t, bytes);
    }
  }
}
