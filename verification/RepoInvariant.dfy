/** The inductive invariant of the repository: every pack is sound, and the saved index and the
    live one only claim blobs that are there. */
module RepoInvariant {
  import opened Wrappers
  import opened Blob
  import opened PackFormat
  import opened Pack
  import opened IndexFormat
  import opened RepoModel

  function EntryIDs(es: seq<Entry>): set<ID> {
    set e | e in es :: e.id
  }

  /** Each entry names bytes of the pack that hash to its address. */
  ghost predicate SoundPack(env: Env, id: ID, pack: Bytes) {
    && id == env.h(pack) && pack in env.inPlay && PackEntries(env.codec, pack).Some?
    && forall e :: e in PackEntries(env.codec, pack).value ==>
      Slice(pack, e).Some? && env.h(Slice(pack, e).value) == e.id && Slice(pack, e).value in env.inPlay
  }

  ghost predicate PacksSound(env: Env, packs: Packs) {
    forall id :: id in packs ==> SoundPack(env, id, packs[id])
  }

  ghost predicate Holds(c: Codec, pack: Bytes, id: ID) {
    PackEntries(c, pack).Some? && id in EntryIDs(PackEntries(c, pack).value)
  }

  /** Some stored pack lists the blob. */
  ghost predicate Stored(c: Codec, packs: Packs, id: ID) {
    exists p :: p in packs && Holds(c, packs[p], id)
  }

  /** The location is that of an entry for the blob in a stored pack. */
  ghost predicate Located(c: Codec, packs: Packs, id: ID, loc: Location) {
    && loc.packID in packs && PackEntries(c, packs[loc.packID]).Some?
    && Entry(id, loc.offset, loc.length) in PackEntries(c, packs[loc.packID]).value
  }

  ghost predicate Sound(c: Codec, packs: Packs, t: Table) {
    forall id :: id in t ==> Located(c, packs, id, t[id])
  }

  /** Like Sound, but for entries whose pack is gone. */
  ghost predicate Honest(c: Codec, packs: Packs, t: Table) {
    forall id :: id in t && t[id].packID in packs ==> Located(c, packs, id, t[id])
  }

  ghost predicate SavedOk(env: Env, packs: Packs, refs: set<ID>, index: Option<Bytes>) {
    var t := SavedTable(index);
    t.Some? ==> IsEncoding(t.value, index.value) && Honest(env.codec, packs, t.value) && Intact(packs, t.value, refs)
  }

  /** What the process knows: everything referenced, and, until a collection rebuilds the
      index, everything the saved index says. */
  ghost predicate ProcOk(env: Env, packs: Packs, refs: set<ID>, saved: Option<Table>, proc: Proc) {
    match proc
    case Dead => saved.Some? ==> Sound(env.codec, packs, saved.value)
    case Live(idx, Collecting(todo)) =>
      && Honest(env.codec, packs, idx) && Intact(packs, idx, refs)
      && (saved.Some? ==> Within(saved.value, idx))
      && todo <= packs.Keys && todo !! UsedPacks(idx, refs)
    case Live(idx, Rebuilt) => Sound(env.codec, packs, idx) && refs <= idx.Keys
    case Live(idx, Indexed) =>
      && Sound(env.codec, packs, idx) && refs <= idx.Keys
      && (saved.Some? ==> saved.value == idx)
    case Live(idx, _) =>
      && Sound(env.codec, packs, idx) && refs <= idx.Keys
      && (saved.Some? ==> Within(saved.value, idx))
  }

  ghost predicate AllStored(c: Codec, packs: Packs, refs: set<ID>) {
    forall id :: id in refs ==> Stored(c, packs, id)
  }

  ghost predicate Inv(env: Env, w: World) {
    && PacksSound(env, w.packs)
    && AllStored(env.codec, w.packs, References(w.snaps))
    && SavedOk(env, w.packs, References(w.snaps), w.index)
    && ProcOk(env, w.packs, References(w.snaps), SavedTable(w.index), w.proc)
  }

  lemma CreatedInv(env: Env)
    ensures Inv(env, CREATED)
  {
    assert References({}) == {};
  }

  // ---- packs ----

  /** A finished pack is sound under its own address. */
  lemma StorableSound(env: Env, items: seq<Item>)
    requires env.Valid() && Storable(env, items)
    ensures SoundPack(env, env.h(PackBytes(env.codec, items)), PackBytes(env.codec, items))
    ensures PackEntries(env.codec, PackBytes(env.codec, items)) == Some(EntriesOf(items))
  {
    var pack, es := PackBytes(env.codec, items), EntriesOf(items);
    HeaderRecovered(env.codec, items);
    forall k | 0 <= k < |es|
      ensures Slice(pack, es[k]) == Some(items[k].data) && es[k].id == items[k].id
    {
      SliceOf(env.codec, items, k);
    }
  }

  /** A location keeps its meaning when packs are added, and when others are deleted. */
  lemma LocatedKeeps(c: Codec, packs: Packs, more: Packs, id: ID, loc: Location)
    requires Located(c, packs, id, loc) && loc.packID in more && more[loc.packID] == packs[loc.packID]
    ensures Located(c, more, id, loc)
  {
  }

  /** What a sound location resolves to. */
  lemma LocatedResolves(env: Env, packs: Packs, t: Table, id: ID)
    requires PacksSound(env, packs) && id in t && Located(env.codec, packs, id, t[id])
    ensures Resolve(env.h, packs, t, id).Some?
    ensures env.h(Resolve(env.h, packs, t, id).value) == id && Resolve(env.h, packs, t, id).value in env.inPlay
  {
    assert SoundPack(env, t[id].packID, packs[t[id].packID]);
    var e := Entry(id, t[id].offset, t[id].length);
    assert e in PackEntries(env.codec, packs[t[id].packID]).value;
  }

  // ---- rebuilding ----

  lemma {:induction false} InsertEntriesAll(t: Table, packID: ID, es: seq<Entry>)
    ensures var r := InsertEntries(t, packID, es);
      && r.Keys == t.Keys + EntryIDs(es)
      && (forall id :: id in t ==> r[id] == t[id])
      && (forall id :: id in r && id !in t ==> r[id].packID == packID && Entry(id, r[id].offset, r[id].length) in es)
  {
    if es != [] {
      var n := |es| - 1;
      InsertEntriesAll(t, packID, es[..n]);
      assert es == es[..n] + [es[n]];
      assert EntryIDs(es) == EntryIDs(es[..n]) + {es[n].id};
    }
  }

  ghost predicate AllHeld(c: Codec, pack: Bytes, t: Table) {
    forall id :: Holds(c, pack, id) ==> id in t
  }

  /** Recording one more sound pack. */
  lemma InsertPack(env: Env, packs: Packs, t: Table, p: ID)
    requires p in packs && SoundPack(env, p, packs[p]) && Sound(env.codec, packs, t)
    ensures var r := InsertEntries(t, p, PackEntries(env.codec, packs[p]).value);
      && Sound(env.codec, packs, r) && Within(t, r) && AllHeld(env.codec, packs[p], r)
      && (forall id :: id in r && id !in t ==> r[id].packID == p && Holds(env.codec, packs[p], id))
  {
    InsertEntriesAll(t, p, PackEntries(env.codec, packs[p]).value);
    var r := InsertEntries(t, p, PackEntries(env.codec, packs[p]).value);
    forall id | id in r
      ensures Located(env.codec, packs, id, r[id])
    {
      assert id in t ==> Located(env.codec, packs, id, t[id]);
    }
  }

  /** Rebuilding from sound packs succeeds, and the result is sound. */
  lemma {:induction false} RebuildSound(env: Env, packs: Packs, order: seq<ID>)
    requires PacksSound(env, packs) && KeySet(order) <= packs.Keys
    ensures Rebuild(env.codec, packs, order).Some?
    ensures Sound(env.codec, packs, Rebuild(env.codec, packs, order).value)
  {
    if order != [] {
      var n := |order| - 1;
      LastKey(order);
      RebuildSound(env, packs, order[..n]);
      InsertPack(env, packs, Rebuild(env.codec, packs, order[..n]).value, order[n]);
    }
  }

  lemma LastKey(order: seq<ID>)
    requires order != []
    ensures KeySet(order) == KeySet(order[..|order| - 1]) + {order[|order| - 1]}
  {
    assert order == order[..|order| - 1] + [order[|order| - 1]];
  }

  /** Every blob of every pack listed is found. */
  lemma {:induction false} RebuildFinds(env: Env, packs: Packs, order: seq<ID>, p: ID, id: ID)
    requires PacksSound(env, packs) && KeySet(order) <= packs.Keys
    requires p in KeySet(order) && Holds(env.codec, packs[p], id)
    ensures Rebuild(env.codec, packs, order).Some? && id in Rebuild(env.codec, packs, order).value
  {
    var n := |order| - 1;
    LastKey(order);
    RebuildSound(env, packs, order[..n]);
    InsertPack(env, packs, Rebuild(env.codec, packs, order[..n]).value, order[n]);
    if p != order[n] {
      RebuildFinds(env, packs, order[..n], p, id);
    }
  }

  // ---- any packs ----

  predicate Readable(c: Codec, packs: Packs, p: ID) {
    p in packs && PackEntries(c, packs[p]).Some?
  }

  ghost predicate AllReadable(c: Codec, packs: Packs, order: seq<ID>) {
    forall k :: 0 <= k < |order| ==> Readable(c, packs, order[k])
  }

  lemma LastReadable(c: Codec, packs: Packs, order: seq<ID>)
    requires order != []
    ensures AllReadable(c, packs, order) <==>
      AllReadable(c, packs, order[..|order| - 1]) && Readable(c, packs, order[|order| - 1])
  {
    var init := order[..|order| - 1];
    forall k | 0 <= k < |init|
      ensures init[k] == order[k]
    {
    }
    if AllReadable(c, packs, init) && Readable(c, packs, order[|order| - 1]) {
      forall k | 0 <= k < |order|
        ensures Readable(c, packs, order[k])
      {
        assert k < |init| ==> Readable(c, packs, init[k]);
      }
    }
  }

  /** A rebuild succeeds exactly when every pack listed is there and its header can be read. */
  lemma {:induction false} RebuildIff(c: Codec, packs: Packs, order: seq<ID>)
    ensures Rebuild(c, packs, order).Some? <==> AllReadable(c, packs, order)
  {
    if order != [] {
      RebuildIff(c, packs, order[..|order| - 1]);
      LastReadable(c, packs, order);
    }
  }

  ghost predicate Names(es: seq<Entry>, id: ID) {
    exists j :: 0 <= j < |es| && es[j].id == id
  }

  lemma {:induction false} InsertsKnown(t: Table, packID: ID, es: seq<Entry>, id: ID)
    ensures id in InsertEntries(t, packID, es) <==> id in t || Names(es, id)
    ensures id in t ==> InsertEntries(t, packID, es)[id] == t[id]
  {
    if es != [] {
      var n := |es| - 1;
      InsertsKnown(t, packID, es[..n], id);
      if Names(es[..n], id) {
        var j :| 0 <= j < n && es[..n][j].id == id;
        assert es[j].id == id;
      }
      if j :| 0 <= j < |es| && es[j].id == id {
        assert j < n ==> es[..n][j].id == id;
      }
    }
  }

  predicate FirstEntry(es: seq<Entry>, id: ID, j: nat) {
    j < |es| && es[j].id == id && forall i :: 0 <= i < j ==> es[i].id != id
  }

  lemma {:induction false} InsertsFirst(t: Table, packID: ID, es: seq<Entry>, id: ID, j: nat)
    requires id !in t && FirstEntry(es, id, j)
    ensures id in InsertEntries(t, packID, es) && InsertEntries(t, packID, es)[id] == LocationIn(packID, es[j])
  {
    var n := |es| - 1;
    if j < n {
      InsertsFirst(t, packID, es[..n], id, j);
    } else {
      InsertsKnown(t, packID, es[..n], id);
    }
  }

  ghost predicate NamedIn(c: Codec, packs: Packs, p: ID, id: ID) {
    Readable(c, packs, p) && Names(PackEntries(c, packs[p]).value, id)
  }

  ghost predicate NamedBySome(c: Codec, packs: Packs, order: seq<ID>, id: ID) {
    exists k :: 0 <= k < |order| && NamedIn(c, packs, order[k], id)
  }

  lemma LastNames(c: Codec, packs: Packs, order: seq<ID>, id: ID)
    requires order != []
    ensures NamedBySome(c, packs, order, id) <==>
      NamedBySome(c, packs, order[..|order| - 1], id) || NamedIn(c, packs, order[|order| - 1], id)
  {
    var n := |order| - 1;
    if k :| 0 <= k < |order| && NamedIn(c, packs, order[k], id) {
      assert k < n ==> order[..n][k] == order[k];
    }
    if k :| 0 <= k < n && NamedIn(c, packs, order[..n][k], id) {
      assert order[..n][k] == order[k];
    }
  }

  /** And it knows the blobs that some listed pack names, */
  lemma {:induction false} RebuildKnows(c: Codec, packs: Packs, order: seq<ID>, id: ID)
    requires Rebuild(c, packs, order).Some?
    ensures id in Rebuild(c, packs, order).value <==> NamedBySome(c, packs, order, id)
  {
    if order != [] {
      var n := |order| - 1;
      RebuildKnows(c, packs, order[..n], id);
      InsertsKnown(Rebuild(c, packs, order[..n]).value, order[n], PackEntries(c, packs[order[n]]).value, id);
      LastNames(c, packs, order, id);
    }
  }

  /** each where the first of these packs in list order has it. */
  lemma {:induction false} RebuildFirst(c: Codec, packs: Packs, order: seq<ID>, id: ID, k: nat, j: nat)
    requires Rebuild(c, packs, order).Some? && k < |order| && Readable(c, packs, order[k])
    requires FirstEntry(PackEntries(c, packs[order[k]]).value, id, j)
    requires forall i :: 0 <= i < k ==> !NamedIn(c, packs, order[i], id)
    ensures id in Rebuild(c, packs, order).value
    ensures Rebuild(c, packs, order).value[id] == LocationIn(order[k], PackEntries(c, packs[order[k]]).value[j])
  {
    var n := |order| - 1;
    var es := PackEntries(c, packs[order[n]]).value;
    if k < n {
      RebuildFirst(c, packs, order[..n], id, k, j);
      InsertsKnown(Rebuild(c, packs, order[..n]).value, order[n], es, id);
    } else {
      RebuildKnows(c, packs, order[..n], id);
      InsertsFirst(Rebuild(c, packs, order[..n]).value, order[n], es, id, j);
    }
  }

  lemma RebuildCovers(env: Env, packs: Packs, order: seq<ID>, refs: set<ID>)
    requires PacksSound(env, packs) && Lists(packs, order) && AllStored(env.codec, packs, refs)
    ensures Rebuild(env.codec, packs, order).Some? && Sound(env.codec, packs, Rebuild(env.codec, packs, order).value)
    ensures refs <= Rebuild(env.codec, packs, order).value.Keys
  {
    RebuildSound(env, packs, order);
    forall id | id in refs
      ensures id in Rebuild(env.codec, packs, order).value
    {
      assert Stored(env.codec, packs, id);
      var p :| p in packs && Holds(env.codec, packs[p], id);
      RebuildFinds(env, packs, order, p, id);
    }
  }

  // ---- steps ----

  lemma OpenInv(env: Env, w: World, e: Step)
    requires Inv(env, w) && CanRun(env, w, e) && (e.OpenLoad? || e.OpenRebuild?)
    ensures Inv(env, Run(env, w, e))
  {
    if e.OpenRebuild? {
      RebuildCovers(env, w.packs, e.order, References(w.snaps));
    }
  }

  lemma AddPack(env: Env, packs: Packs, refs: set<ID>, index: Option<Bytes>, idx: Table, id: ID, pack: Bytes)
    requires PacksSound(env, packs) && AllStored(env.codec, packs, refs) && SavedOk(env, packs, refs, index)
    requires Sound(env.codec, packs, idx) && id !in packs && SoundPack(env, id, pack)
    requires SavedTable(index).Some? ==> Within(SavedTable(index).value, idx)
    ensures var more := packs[id := pack];
      && PacksSound(env, more) && AllStored(env.codec, more, refs) && SavedOk(env, more, refs, index)
      && Sound(env.codec, more, idx)
  {
    var more := packs[id := pack];
    forall b | b in idx
      ensures Located(env.codec, more, b, idx[b])
    {
      LocatedKeeps(env.codec, packs, more, b, idx[b]);
    }
    forall b | b in refs
      ensures Stored(env.codec, more, b)
    {
      var p :| p in packs && Holds(env.codec, packs[p], b);
      assert more[p] == packs[p];
    }
  }

  lemma StoreInv(env: Env, w: World, items: seq<Item>)
    requires env.Valid() && Inv(env, w) && CanRun(env, w, StorePack(items))
    ensures Inv(env, Run(env, w, StorePack(items)))
  {
    var pack := PackBytes(env.codec, items);
    StorableSound(env, items);
    if env.h(pack) !in w.packs {
      AddPack(env, w.packs, References(w.snaps), w.index, w.proc.idx, env.h(pack), pack);
    }
  }

  lemma InsertEntryInv(env: Env, w: World, packID: ID, k: nat)
    requires Inv(env, w) && CanRun(env, w, InsertEntry(packID, k))
    ensures Inv(env, Run(env, w, InsertEntry(packID, k)))
  {
    var entry := PackEntries(env.codec, w.packs[packID]).value[k];
    assert Entry(entry.id, entry.offset, entry.length) == entry;
    assert Located(env.codec, w.packs, entry.id, LocationIn(packID, entry));
  }

  /** What was just written decodes, if at all, to what was meant. */
  lemma SavedIsLive(env: Env, packs: Packs, refs: set<ID>, idx: Table, bytes: Bytes)
    requires Sound(env.codec, packs, idx) && refs <= idx.Keys && IsEncoding(idx, bytes)
    ensures SavedOk(env, packs, refs, Some(bytes))
    ensures SavedTable(Some(bytes)).Some? ==> SavedTable(Some(bytes)).value == idx
  {
    RoundTrip(idx, bytes);
    forall id | id in refs
      ensures idx[id].packID in packs
    {
      assert Located(env.codec, packs, id, idx[id]);
    }
  }

  lemma SnapshotInv(env: Env, w: World, snap: Snapshot)
    requires Inv(env, w) && CanRun(env, w, SaveSnapshot(snap))
    ensures Inv(env, Run(env, w, SaveSnapshot(snap)))
  {
    var refs := References(w.snaps + {snap});
    assert refs == References(w.snaps) + BlobIDs(snap);
    forall id | id in refs
      ensures Stored(env.codec, w.packs, id) && id in w.proc.idx && w.proc.idx[id].packID in w.packs
    {
      var loc := w.proc.idx[id];
      assert Located(env.codec, w.packs, id, loc);
      var e := Entry(id, loc.offset, loc.length);
      assert e.id in EntryIDs(PackEntries(env.codec, w.packs[loc.packID]).value);
      assert Holds(env.codec, w.packs[loc.packID], id);
    }
  }

  lemma DeleteInv(env: Env, w: World, packID: ID)
    requires Inv(env, w) && CanRun(env, w, DeletePack(packID))
    ensures Inv(env, Run(env, w, DeletePack(packID)))
  {
    var refs, idx, fewer := References(w.snaps), w.proc.idx, w.packs - {packID};
    forall id | id in refs
      ensures idx[id].packID in fewer && Stored(env.codec, fewer, id)
    {
      assert idx[id].packID in UsedPacks(idx, refs);
      assert Located(env.codec, w.packs, id, idx[id]);
      var e := Entry(id, idx[id].offset, idx[id].length);
      assert e.id in EntryIDs(PackEntries(env.codec, fewer[idx[id].packID]).value);
      assert Holds(env.codec, fewer[idx[id].packID], id);
    }
    forall id | id in idx && idx[id].packID in fewer
      ensures Located(env.codec, fewer, id, idx[id])
    {
      LocatedKeeps(env.codec, w.packs, fewer, id, idx[id]);
    }
    var t := SavedTable(w.index);
    if t.Some? {
      assert forall id :: id in refs ==> t.value[id] == idx[id];
      forall id | id in t.value && t.value[id].packID in fewer
        ensures Located(env.codec, fewer, id, t.value[id])
      {
        LocatedKeeps(env.codec, w.packs, fewer, id, t.value[id]);
      }
    }
  }

  lemma StartGCInv(env: Env, w: World)
    requires Inv(env, w) && CanRun(env, w, StartGC)
    ensures Inv(env, Run(env, w, StartGC))
  {
  }

  lemma KillInv(env: Env, w: World)
    requires Inv(env, w) && !Stale(w)
    ensures Inv(env, Run(env, w, Kill))
  {
  }

  lemma RebuildInv(env: Env, w: World, order: seq<ID>)
    requires Inv(env, w) && CanRun(env, w, RebuildAfterGC(order))
    ensures Inv(env, Run(env, w, RebuildAfterGC(order)))
  {
    RebuildCovers(env, w.packs, order, References(w.snaps));
  }

  /** Every step keeps the invariant, but for a kill while the saved index is stale. */
  lemma StepInv(env: Env, w: World, e: Step)
    requires env.Valid() && Inv(env, w) && CanRun(env, w, e) && (e.Kill? ==> !Stale(w))
    ensures Inv(env, Run(env, w, e))
  {
    match e {
      case OpenLoad => OpenInv(env, w, e);
      case OpenRebuild(_) => OpenInv(env, w, e);
      case BeginBackup =>
      case StorePack(items) => StoreInv(env, w, items);
      case InsertEntry(packID, k) => InsertEntryInv(env, w, packID, k);
      case AbortBackup =>
      case SaveIndex(bytes) => SavedIsLive(env, w.packs, References(w.snaps), w.proc.idx, bytes);
      case SaveSnapshot(snap) => SnapshotInv(env, w, snap);
      case StartGC => StartGCInv(env, w);
      case DeletePack(packID) => DeleteInv(env, w, packID);
      case RebuildAfterGC(order) => RebuildInv(env, w, order);
      case SaveAfterGC(bytes) => SavedIsLive(env, w.packs, References(w.snaps), w.proc.idx, bytes);
      case SpoilIndex(_) =>
      case Kill => KillInv(env, w);
    }
  }
}
