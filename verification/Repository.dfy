/** The repository object over an object store, proved against the functions of the model. */
module Repository {
  import opened Wrappers
  import opened Blob
  import opened PackFormat
  import opened Pack
  import opened IndexFormat
  import opened Index
  import IndexLoad
  import Readers
  import opened RepoModel

  /** The object store, by kind of key. Each operation takes effect at once. */
  class Store {
    var packs: Packs
    var index: Option<Bytes>
    var snaps: set<Snapshot>

    constructor ()
      ensures packs == map[] && index == None && snaps == {}
    {
      packs, index, snaps := map[], None, {};
    }

    /** The saved index as a reader that reports its end in a call of its own. */
    method OpenIndex() returns (rd: Readers.Reader)
      requires index.Some?
      ensures fresh(rd) && rd.s.Valid() && rd.s.rest == index.value && IndexLoad.Steady(rd.s)
    {
      rd := new Readers.Reader(Readers.Stream(index.value, [], Readers.EndOfFile, false));
    }

    method PutPackIfAbsent(id: ID, data: Bytes) returns (created: bool)
      modifies this`packs
      ensures created <==> id !in old(packs)
      ensures packs == if created then old(packs)[id := data] else old(packs)
    {
      created := id !in packs;
      if created {
        packs := packs[id := data];
      }
    }

    /** Every pack key once, in any order. */
    method ListPacks() returns (order: seq<ID>)
      ensures Lists(packs, order)
    {
      var left := packs.Keys;
      order := [];
      while left != {}
        invariant left <= packs.Keys && NoRepeats(order) && KeySet(order) == packs.Keys - left
      {
        var id :| id in left;
        PushKey(order, id);
        assert forall k :: 0 <= k < |order| ==> order[k] in KeySet(order);
        order := order + [id];
        left := left - {id};
      }
    }
  }

  // ---- verification, as sets ----

  function Dangling(t: Table, ids: set<ID>): set<ID> {
    set id | id in ids && id !in t
  }

  function Missing(packs: Packs, t: Table, ids: set<ID>): set<ID> {
    set id | id in ids && id in t && t[id].packID !in packs :: t[id].packID
  }

  function Unreadable(h: Digest, packs: Packs, t: Table, ids: set<ID>): set<ID> {
    set id | id in ids && id in t && t[id].packID in packs && Resolve(h, packs, t, id).None?
  }

  function Readable(h: Digest, packs: Packs, t: Table, ids: set<ID>): set<ID> {
    set id | id in ids && Resolve(h, packs, t, id).Some?
  }

  datatype Report = Report(snapshots: nat, packs: nat, orphanPacks: set<ID>, found: Tally)
  {
    predicate OK() {
      found.missingPacks == {} && found.danglingBlobs == {} && found.unreadable == {}
    }
  }

  /** What checking the blobs in `referenced` has found. */
  datatype Tally = Tally(referenced: set<ID>, usedPacks: set<ID>, missingPacks: set<ID>, danglingBlobs: set<ID>,
                         unreadable: set<ID>, blobsRead: nat)

  function TallyOf(h: Digest, packs: Packs, t: Table, full: bool, ids: set<ID>): Tally {
    Tally(ids, UsedPacks(t, ids), Missing(packs, t, ids), Dangling(t, ids),
          if full then Unreadable(h, packs, t, ids) else {}, if full then |Readable(h, packs, t, ids)| else 0)
  }

  function VerifyReport(h: Digest, packs: Packs, t: Table, snaps: set<Snapshot>, full: bool): Report {
    Report(|snaps|, |packs|, Orphans(packs, t, References(snaps)), TallyOf(h, packs, t, full, References(snaps)))
  }

  /** A clean report means that every referenced blob is indexed in a present pack; a clean full
      report, that every one of them reads back and hashes to its address. */
  lemma ReportMeans(h: Digest, packs: Packs, t: Table, snaps: set<Snapshot>, full: bool)
    ensures var r := VerifyReport(h, packs, t, snaps, full);
      r.OK() <==> forall id :: id in References(snaps) ==>
        if full then InPack(packs, t, id) && h(BytesAt(packs, t, id)) == id else id in t && t[id].packID in packs
    ensures VerifyReport(h, packs, t, snaps, false).OK() <==> Intact(packs, t, References(snaps))
  {
    var refs := References(snaps);
    var r := VerifyReport(h, packs, t, snaps, full);
    forall id | id in refs
      ensures id !in t ==> id in r.found.danglingBlobs
      ensures id in t && t[id].packID !in packs ==> t[id].packID in r.found.missingPacks
      ensures full && id in t && t[id].packID in packs && Resolve(h, packs, t, id).None? ==> id in r.found.unreadable
    {
    }
  }

  /** What the report counts and lists. */
  lemma ReportLists(h: Digest, packs: Packs, t: Table, snaps: set<Snapshot>, full: bool)
    ensures var r, refs := VerifyReport(h, packs, t, snaps, full), References(snaps);
      && r.snapshots == |snaps| && r.packs == |packs.Keys| && r.found.referenced == refs
      && (forall p :: p in r.orphanPacks <==> p in packs && forall id :: id in refs && id in t ==> t[id].packID != p)
      && (forall p :: p in r.found.missingPacks <==>
           p !in packs && exists id :: id in refs && id in t && t[id].packID == p)
      && (forall id :: id in r.found.danglingBlobs <==> id in refs && id !in t)
      && (forall id :: id in r.found.unreadable <==>
           full && id in refs && id in t && t[id].packID in packs
           && !(InPack(packs, t, id) && h(BytesAt(packs, t, id)) == id))
    ensures var r, refs := VerifyReport(h, packs, t, snaps, full), References(snaps);
      r.found.blobsRead ==
        if full then |set id | id in refs && InPack(packs, t, id) && h(BytesAt(packs, t, id)) == id| else 0
  {
    var refs := References(snaps);
    assert Readable(h, packs, t, refs) == set id | id in refs && InPack(packs, t, id) && h(BytesAt(packs, t, id)) == id;
    assert |packs| == |packs.Keys|;
  }

  function With(s: set<ID>, c: bool, id: ID): set<ID> {
    if c then s + {id} else s
  }

  /** One more blob checked. */
  lemma CheckOne(h: Digest, packs: Packs, t: Table, ids: set<ID>, id: ID)
    ensures Dangling(t, ids + {id}) == With(Dangling(t, ids), id !in t, id)
    ensures id !in t ==> UsedPacks(t, ids + {id}) == UsedPacks(t, ids)
    ensures id !in t ==> Missing(packs, t, ids + {id}) == Missing(packs, t, ids)
    ensures id in t ==> UsedPacks(t, ids + {id}) == UsedPacks(t, ids) + {t[id].packID}
    ensures id in t ==>
      Missing(packs, t, ids + {id}) == With(Missing(packs, t, ids), t[id].packID !in packs, t[id].packID)
  {
  }

  lemma ReadOne(h: Digest, packs: Packs, t: Table, ids: set<ID>, id: ID)
    ensures Unreadable(h, packs, t, ids + {id})
         == With(Unreadable(h, packs, t, ids), id in t && t[id].packID in packs && Resolve(h, packs, t, id).None?, id)
    ensures Readable(h, packs, t, ids + {id}) == With(Readable(h, packs, t, ids), Resolve(h, packs, t, id).Some?, id)
  {
  }

  lemma TallyStep(h: Digest, packs: Packs, t: Table, full: bool, ids: set<ID>, id: ID)
    requires id !in ids
    ensures var before := TallyOf(h, packs, t, full, ids).(referenced := ids + {id});
      var after := TallyOf(h, packs, t, full, ids + {id});
      if id !in t then
        after == before.(danglingBlobs := before.danglingBlobs + {id})
      else
        var used := before.(usedPacks := before.usedPacks + {t[id].packID});
        if t[id].packID !in packs then
          after == used.(missingPacks := used.missingPacks + {t[id].packID})
        else if !full then
          after == used
        else if Resolve(h, packs, t, id).None? then
          after == used.(unreadable := used.unreadable + {id})
        else
          after == used.(blobsRead := used.blobsRead + 1)
  {
    CheckOne(h, packs, t, ids, id);
    ReadOne(h, packs, t, ids, id);
    assert id !in Readable(h, packs, t, ids);
  }

  lemma LessOne(done: set<ID>, all: set<ID>, ids: set<ID>, id: ID)
    requires id in ids && ids <= all
    ensures done + (all - (ids - {id})) == done + (all - ids) + {id}
    ensures id in done + (all - ids) ==> done + (all - (ids - {id})) == done + (all - ids)
  {
  }

  lemma LessSnapshot(snaps: set<Snapshot>, left: set<Snapshot>, snap: Snapshot)
    requires snap in left && left <= snaps
    ensures References(snaps - (left - {snap})) == References(snaps - left) + BlobIDs(snap)
  {
    assert snaps - (left - {snap}) == (snaps - left) + {snap};
  }

  /** Total size of some packs. */
  ghost function TotalBytes(packs: Packs, ids: set<ID>): nat {
    if ids == {} then 0 else var id := Pick(ids); PackSize(packs, id) + TotalBytes(packs, ids - {id})
  }

  ghost function Pick(ids: set<ID>): (id: ID)
    requires ids != {}
    ensures id in ids
  {
    var id :| id in ids;
    id
  }

  function PackSize(packs: Packs, id: ID): nat {
    if id in packs then |packs[id]| else 0
  }

  lemma {:induction false} BytesWithout(packs: Packs, ids: set<ID>, id: ID)
    requires id in ids
    ensures TotalBytes(packs, ids) == PackSize(packs, id) + TotalBytes(packs, ids - {id})
  {
    var first := Pick(ids);
    if first != id {
      BytesWithout(packs, ids - {first}, id);
      assert ids - {first} - {id} == ids - {id} - {first};
      BytesWithout(packs, ids - {id}, first);
    }
  }

  /** Records the blobs of one pack. */
  method InsertAll(idx: Index, packID: ID, es: seq<Entry>)
    requires idx.Valid()
    modifies idx.shards
    ensures idx.Valid() && idx.Contents() == InsertEntries(old(idx.Contents()), packID, es)
  {
    for i := 0 to |es|
      invariant idx.Valid() && idx.Contents() == InsertEntries(old(idx.Contents()), packID, es[..i])
    {
      assert es[..i + 1][..i] == es[..i];
      var _ := idx.Insert(es[i].id, LocationIn(packID, es[i]));
    }
    assert es[..|es|] == es;
  }

  ghost predicate SmallPacks(packs: Packs) {
    forall id :: id in packs ==> |packs[id]| < TWO_63
  }

  /** The size cache is right about every pack that is present. */
  ghost predicate CachedSizes(sizes: map<ID, nat>, packs: Packs) {
    forall id :: id in sizes && id in packs ==> sizes[id] == |packs[id]|
  }

  datatype GC = Refused | Collected(packsDeleted: nat, bytesReclaimed: nat) | RebuildFailed

  class Repository {
    const h: Digest
    const codec: Codec
    const store: Store
    var idx: Index
    var packSizes: map<ID, nat>

    ghost predicate Valid()
      reads this, store, idx, idx.shards
    {
      && idx.Valid()
      && SmallPacks(store.packs) && CachedSizes(packSizes, store.packs)
    }

    ghost function Known(): Table
      reads this, idx, idx.shards
    {
      idx.Contents()
    }

    constructor (h: Digest, codec: Codec, store: Store)
      requires SmallPacks(store.packs)
      ensures Valid() && Known() == map[] && fresh(idx) && fresh(idx.shards)
      ensures this.h == h && this.codec == codec && this.store == store
    {
      this.h := h;
      this.codec := codec;
      this.store := store;
      var empty := new Index();
      this.idx := empty;
      packSizes := map[];
    }

    /** The pack is stored before any of its blobs is indexed. Pack keys are content addresses,
        so a pack already stored under the key has the same bytes. */
    method PutPack(id: ID, data: Bytes, entries: seq<Entry>)
      requires Valid() && |data| < TWO_63 && (id in store.packs ==> store.packs[id] == data)
      modifies this`packSizes, store`packs, idx.shards
      ensures Valid() && store.packs == old(store.packs)[id := data]
      ensures Known() == InsertEntries(old(Known()), id, entries) && packSizes == old(packSizes)[id := |data|]
    {
      var _ := store.PutPackIfAbsent(id, data);
      assert store.packs == old(store.packs)[id := data];
      packSizes := packSizes[id := |data|];
      InsertAll(idx, id, entries);
    }

    /** One ranged read at the indexed location, verified against the address. */
    method GetBlob(id: ID) returns (r: Option<Bytes>)
      requires Valid()
      ensures r == Resolve(h, store.packs, Known(), id)
      ensures r.Some? <==>
        InPack(store.packs, Known(), id) && h(BytesAt(store.packs, Known(), id)) == id
      ensures r.Some? ==> h(r.value) == id && r.value == BytesAt(store.packs, Known(), id)
    {
      var loc := idx.Lookup(id);
      if loc.None? || loc.value.packID !in store.packs {
        return None;
      }
      var data := Slice(store.packs[loc.value.packID], Entry(id, loc.value.offset, loc.value.length));
      if data.None? || h(data.value) != id {
        return None;
      }
      return data;
    }

    method SaveIndex()
      requires Valid() && |Known()| < TWO_63
      modifies store`index
      ensures Valid() && store.index.Some? && IsEncoding(Known(), store.index.value)
    {
      var bytes := idx.WriteTo();
      store.index := Some(bytes);
    }

    /** Fails, and keeps the index it has, when none is saved or it is corrupt. */
    method LoadIndex() returns (ok: bool)
      requires Valid()
      modifies this`idx
      ensures Valid() && (ok <==> SavedTable(store.index).Some?)
      ensures ok ==> Known() == SavedTable(store.index).value && fresh(idx) && fresh(idx.shards)
      ensures !ok ==> idx == old(idx)
    {
      if store.index.None? {
        return false;
      }
      var rd := store.OpenIndex();
      IndexLoad.SteadyLoads(rd.s);
      var r := Index.ReadFrom(rd);
      if !r.Loaded? {
        return false;
      }
      idx := r.idx;
      return true;
    }

    /** Reads one pack's tail and records its blobs. */
    method ScanPack(rebuilt: Index, id: ID) returns (ok: bool)
      requires SmallPacks(store.packs) && CachedSizes(packSizes, store.packs) && rebuilt.Valid() && id in store.packs
      modifies this`packSizes, rebuilt.shards
      ensures CachedSizes(packSizes, store.packs) && rebuilt.Valid()
      ensures ok <==> PackEntries(codec, store.packs[id]).Some?
      ensures packSizes == if ok then old(packSizes)[id := |store.packs[id]|] else old(packSizes)
      ensures ok ==>
        rebuilt.Contents() == InsertEntries(old(rebuilt.Contents()), id, PackEntries(codec, store.packs[id]).value)
    {
      var hdr, _ := ReadPackHeader(codec, store.packs[id]);
      if !hdr.Found? {
        return false;
      }
      InsertAll(rebuilt, id, hdr.header.entries);
      packSizes := packSizes[id := |store.packs[id]|];
      return true;
    }

    /** Reads every pack's tail, in list order; an unreadable pack abandons the rebuild. */
    method RebuildIndex() returns (ok: bool, ghost order: seq<ID>)
      requires Valid()
      modifies this
      ensures Valid() && Lists(store.packs, order)
      ensures ok <==> Rebuild(codec, store.packs, order).Some?
      ensures ok ==> Rebuild(codec, store.packs, order) == Some(Known()) && fresh(idx) && fresh(idx.shards)
      ensures !ok ==> idx == old(idx)
    {
      var keys := store.ListPacks();
      order := keys;
      var rebuilt := new Index();
      for i := 0 to |keys|
        invariant idx == old(idx) && idx.Valid() && CachedSizes(packSizes, store.packs)
        invariant rebuilt.Valid() && fresh(rebuilt) && fresh(rebuilt.shards)
        invariant Rebuild(codec, store.packs, keys[..i]) == Some(rebuilt.Contents())
      {
        var id := keys[i];
        RebuildStep(codec, store.packs, keys, i);
        var read := ScanPack(rebuilt, id);
        if !read {
          Abandoned(codec, store.packs, keys, i + 1);
          return false, keys;
        }
      }
      assert keys[..|keys|] == keys;
      idx := rebuilt;
      return true, keys;
    }

    /** Checks every blob that a snapshot refers to, once. */
    method Verify(full: bool) returns (report: Report)
      requires Valid()
      ensures report == VerifyReport(h, store.packs, Known(), store.snaps, full)
    {
      var tally := Tally({}, {}, {}, {}, {}, 0);
      var left := store.snaps;
      while left != {}
        invariant left <= store.snaps && tally.referenced == References(store.snaps - left)
        invariant tally == TallyOf(h, store.packs, Known(), full, tally.referenced)
      {
        var snap :| snap in left;
        tally := VerifySnapshot(tally, snap, full);
        LessSnapshot(store.snaps, left, snap);
        left := left - {snap};
      }
      assert store.snaps - left == store.snaps;
      return Report(|store.snaps|, |store.packs|, store.packs.Keys - tally.usedPacks, tally);
    }

    /** Checks the blobs of one snapshot that have not been checked yet. */
    method VerifySnapshot(tally: Tally, snap: Snapshot, full: bool) returns (r: Tally)
      requires Valid() && tally == TallyOf(h, store.packs, Known(), full, tally.referenced)
      ensures r == TallyOf(h, store.packs, Known(), full, tally.referenced + BlobIDs(snap))
    {
      r := tally;
      var ids := BlobIDs(snap);
      while ids != {}
        invariant ids <= BlobIDs(snap) && r.referenced == tally.referenced + (BlobIDs(snap) - ids)
        invariant r == TallyOf(h, store.packs, Known(), full, r.referenced)
      {
        var id :| id in ids;
        LessOne(tally.referenced, BlobIDs(snap), ids, id);
        ids := ids - {id};
        if id !in r.referenced {
          r := VerifyBlob(r, id, full);
        }
      }
      assert r.referenced == tally.referenced + BlobIDs(snap);
    }

    /** Checks one more blob. */
    method VerifyBlob(tally: Tally, id: ID, full: bool) returns (r: Tally)
      requires Valid() && id !in tally.referenced
      requires tally == TallyOf(h, store.packs, Known(), full, tally.referenced)
      ensures r == TallyOf(h, store.packs, Known(), full, tally.referenced + {id})
    {
      TallyStep(h, store.packs, Known(), full, tally.referenced, id);
      r := tally.(referenced := tally.referenced + {id});
      var loc := idx.Lookup(id);
      if loc.None? {
        return r.(danglingBlobs := r.danglingBlobs + {id});
      }
      r := r.(usedPacks := r.usedPacks + {loc.value.packID});
      if loc.value.packID !in store.packs {
        return r.(missingPacks := r.missingPacks + {loc.value.packID});
      }
      if full {
        var data := GetBlob(id);
        if data.None? {
          return r.(unreadable := r.unreadable + {id});
        }
        r := r.(blobsRead := r.blobsRead + 1);
      }
    }

    /** Deletes one pack, or only looks up its size. */
    method ReclaimOne(id: ID, dryRun: bool) returns (size: nat)
      requires Valid() && id in store.packs
      modifies this`packSizes, store`packs
      ensures Valid() && size == |old(store.packs)[id]|
      ensures store.packs == if dryRun then old(store.packs) else old(store.packs) - {id}
      ensures packSizes == if dryRun then old(packSizes)[id := size] else old(packSizes) - {id}
    {
      size := if id in packSizes then packSizes[id] else |store.packs[id]|;
      packSizes := packSizes[id := size];
      if !dryRun {
        store.packs := store.packs - {id};
        packSizes := packSizes - {id};
      }
    }

    /** Deletes packs one by one, or only adds up what would be deleted. */
    method Reclaim(orphans: set<ID>, dryRun: bool) returns (n: nat, bytes: nat)
      requires Valid() && orphans <= store.packs.Keys
      modifies this`packSizes, store`packs
      ensures Valid() && n == |orphans| && bytes == old(TotalBytes(store.packs, orphans))
      ensures store.packs == if dryRun then old(store.packs) else old(store.packs) - orphans
    {
      ghost var packs := store.packs;
      n, bytes := 0, 0;
      var left := orphans;
      while left != {}
        invariant left <= orphans && Valid()
        invariant n + |left| == |orphans| && bytes + TotalBytes(packs, left) == TotalBytes(packs, orphans)
        invariant store.packs == if dryRun then packs else packs - (orphans - left)
      {
        var id :| id in left;
        BytesWithout(packs, left, id);
        var size := ReclaimOne(id, dryRun);
        n := n + 1;
        bytes := bytes + size;
        assert packs - (orphans - left) - {id} == packs - (orphans - (left - {id}));
        left := left - {id};
      }
    }

    /** Rebuilds the index from the packs that are left, of the packs that there were, and saves it. */
    method Refresh(ghost packs: Packs) returns (ok: bool, ghost order: seq<ID>)
      requires Valid() && Countable(codec, packs)
      requires forall id :: id in store.packs ==> id in packs && packs[id] == store.packs[id]
      modifies this, store`index
      ensures Valid() && Lists(store.packs, order) && (ok <==> Rebuild(codec, store.packs, order).Some?)
      ensures ok ==>
        && Rebuild(codec, store.packs, order) == Some(Known())
        && store.index.Some? && IsEncoding(Known(), store.index.value)
    {
      ok, order := RebuildIndex();
      if ok {
        RebuildFewer(codec, packs, store.packs, order);
        SaveIndex();
      }
    }

    /** Deletes exactly the orphans that its dry run counts, and nothing at all from a damaged
        repository; after deleting anything it rebuilds the index and saves it. */
    method CollectGarbage(dryRun: bool) returns (gc: GC, ghost orphans: set<ID>, ghost order: seq<ID>)
      requires Valid() && Countable(codec, store.packs)
      modifies this, store`packs, store`index
      ensures Valid() && orphans == old(Orphans(store.packs, Known(), References(store.snaps)))
      ensures gc.Refused? <==> !old(Intact(store.packs, Known(), References(store.snaps)))
      ensures store.packs == if gc.Refused? || dryRun then old(store.packs) else old(store.packs) - orphans
      ensures gc.Refused? || dryRun || orphans == {} ==> store.index == old(store.index) && idx == old(idx)
      ensures gc.Collected? ==>
        gc.packsDeleted == |orphans| && gc.bytesReclaimed == old(TotalBytes(store.packs, orphans))
      ensures gc.Collected? && !dryRun && orphans != {} ==>
        && Lists(store.packs, order) && Rebuild(codec, store.packs, order) == Some(Known())
        && store.index.Some? && IsEncoding(Known(), store.index.value)
      ensures gc.RebuildFailed? ==> !dryRun && Lists(store.packs, order) && Rebuild(codec, store.packs, order).None?
    {
      order := [];
      var report := Verify(false);
      orphans := report.orphanPacks;
      ReportMeans(h, store.packs, Known(), store.snaps, false);
      if !report.OK() {
        return Refused, orphans, order;
      }
      ghost var packs := store.packs;
      var n, bytes := Reclaim(report.orphanPacks, dryRun);
      if !dryRun && n > 0 {
        var ok;
        ok, order := Refresh(packs);
        if !ok {
          return RebuildFailed, orphans, order;
        }
      }
      return Collected(n, bytes), orphans, order;
    }
  }

  /** The number of blobs in any part of the packs is an int. */
  ghost predicate Countable(c: Codec, packs: Packs) {
    forall order :: KeySet(order) <= packs.Keys && Rebuild(c, packs, order).Some? ==>
      |Rebuild(c, packs, order).value| < TWO_63
  }

  lemma {:induction false} RebuildFewer(c: Codec, packs: Packs, fewer: Packs, order: seq<ID>)
    requires KeySet(order) <= fewer.Keys && forall id :: id in fewer ==> id in packs && packs[id] == fewer[id]
    ensures Rebuild(c, packs, order) == Rebuild(c, fewer, order)
  {
    if order != [] {
      var n := |order| - 1;
      assert order == order[..n] + [order[n]];
      assert order[n] in KeySet(order) && KeySet(order[..n]) <= KeySet(order);
      RebuildFewer(c, packs, fewer, order[..n]);
    }
  }

  lemma {:induction false} RebuildStep(c: Codec, packs: Packs, order: seq<ID>, i: nat)
    requires i < |order| && KeySet(order) == packs.Keys && Rebuild(c, packs, order[..i]).Some?
    ensures order[i] in packs
    ensures Rebuild(c, packs, order[..i + 1])
         == match PackEntries(c, packs[order[i]])
            case None => None
            case Some(es) => Some(InsertEntries(Rebuild(c, packs, order[..i]).value, order[i], es))
  {
    assert order[i] in KeySet(order);
    assert order[..i + 1][..i] == order[..i];
  }

  lemma {:induction false} Abandoned(c: Codec, packs: Packs, order: seq<ID>, n: nat)
    requires n <= |order| && Rebuild(c, packs, order[..n]).None?
    ensures Rebuild(c, packs, order).None?
    decreases |order|
  {
    if n < |order| {
      assert order[..|order| - 1][..n] == order[..n];
      Abandoned(c, packs, order[..|order| - 1], n);
    } else {
      assert order[..n] == order;
    }
  }

  /** Open: the saved index if it can be read, else one rebuilt from the packs. */
  method Open(h: Digest, codec: Codec, store: Store) returns (r: Option<Repository>, ghost order: seq<ID>)
    requires SmallPacks(store.packs)
    ensures r.Some? ==> r.value.Valid() && fresh(r.value)
    ensures r.Some? ==> r.value.store == store && r.value.h == h && r.value.codec == codec
    ensures SavedTable(store.index).Some? ==> r.Some? && r.value.Known() == SavedTable(store.index).value
    ensures SavedTable(store.index).None? ==>
      && Lists(store.packs, order) && (r.Some? <==> Rebuild(codec, store.packs, order).Some?)
      && (r.Some? ==> Rebuild(codec, store.packs, order) == Some(r.value.Known()))
  {
    order := [];
    var repo := new Repository(h, codec, store);
    var ok := repo.LoadIndex();
    if !ok {
      ok, order := repo.RebuildIndex();
      if !ok {
        return None, order;
      }
    }
    return Some(repo), order;
  }
}
