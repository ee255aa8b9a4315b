/** A history in which a second collection deletes a pack that the first one kept. */
module CollectingTwice {
  import opened Wrappers
  import opened Blob
  import opened PackFormat
  import opened IndexFormat
  import opened RepoModel
  import opened RepoInvariant
  import opened RepoTheorems
  import opened RepoKept

  /** Three blobs of distinct content, and the packs [x], [x, y] and [z]. */
  datatype Three = Three(x: Item, y: Item, z: Item) {
    function First(): seq<Item> {
      [x]
    }

    function Second(): seq<Item> {
      [x, y]
    }

    function Third(): seq<Item> {
      [z]
    }

    ghost predicate Usable(env: Env) {
      && x.id != y.id && y.id != z.id && x.id != z.id
      && Storable(env, First()) && Storable(env, Second()) && Storable(env, Third())
    }
  }

  function Address(env: Env, items: seq<Item>): ID
    requires Finishable(env.codec, items)
  {
    env.h(PackBytes(env.codec, items))
  }

  lemma EntriesList(items: seq<Item>)
    requires Size(items) < TWO_63
    ensures EntryIDs(EntriesOf(items)) == IdSet(items)
  {
    var es := EntriesOf(items);
    forall k | 0 <= k < |items|
      ensures es[k].id == items[k].id && es[k] in es && items[k] in items
    {
      EntriesTile(items, k);
    }
  }

  /** A pack lists exactly its own blobs. */
  lemma PackLists(env: Env, items: seq<Item>)
    requires env.Valid() && Storable(env, items)
    ensures SoundPack(env, Address(env, items), PackBytes(env.codec, items))
    ensures PackEntries(env.codec, PackBytes(env.codec, items)) == Some(EntriesOf(items))
    ensures EntryIDs(EntriesOf(items)) == IdSet(items)
  {
    StorableSound(env, items);
    EntriesList(items);
  }

  /** Packs of different blobs have different addresses. */
  lemma Apart(env: Env, items: seq<Item>, items': seq<Item>)
    requires env.Valid() && Storable(env, items) && Storable(env, items') && IdSet(items) != IdSet(items')
    ensures Address(env, items) != Address(env, items')
  {
    PackLists(env, items);
    PackLists(env, items');
  }

  /** The pack stored at p lists these blobs. */
  ghost predicate Contains(env: Env, packs: Packs, p: ID, ids: set<ID>) {
    && p in packs && PackEntries(env.codec, packs[p]).Some?
    && EntryIDs(PackEntries(env.codec, packs[p]).value) == ids
  }

  /** Adding a pack to the listing adds its blobs, where they are not known yet. */
  lemma ListMore(env: Env, packs: Packs, order: seq<ID>, p: ID, ids: set<ID>)
    requires PacksSound(env, packs) && KeySet(order) <= packs.Keys && Contains(env, packs, p, ids)
    ensures Rebuild(env.codec, packs, order).Some? && Rebuild(env.codec, packs, order + [p]).Some?
    ensures var t := Rebuild(env.codec, packs, order).value;
      var r := Rebuild(env.codec, packs, order + [p]).value;
      r.Keys == t.Keys + ids && Within(t, r) && forall id :: id in r && id !in t ==> r[id].packID == p
  {
    assert (order + [p])[..|order|] == order;
    RebuildSound(env, packs, order);
    InsertEntriesAll(Rebuild(env.codec, packs, order).value, p, PackEntries(env.codec, packs[p]).value);
  }

  lemma ListTwo(env: Env, packs: Packs, p: ID, ps: set<ID>, q: ID, qs: set<ID>) returns (t: Table)
    requires PacksSound(env, packs) && Contains(env, packs, p, ps) && Contains(env, packs, q, qs)
    ensures Rebuild(env.codec, packs, [p, q]) == Some(t) && t.Keys == ps + qs
    ensures forall id :: id in t ==> t[id].packID == if id in ps then p else q
  {
    ListMore(env, packs, [], p, ps);
    ListMore(env, packs, [] + [p], q, qs);
    assert [] + [p] + [q] == [p, q];
    t := Rebuild(env.codec, packs, [p, q]).value;
  }

  lemma ListThree(env: Env, packs: Packs, p: ID, ps: set<ID>, q: ID, qs: set<ID>, r: ID, rs: set<ID>) returns (t: Table)
    requires PacksSound(env, packs) && Contains(env, packs, p, ps) && Contains(env, packs, q, qs)
    requires Contains(env, packs, r, rs)
    ensures Rebuild(env.codec, packs, [p, q, r]) == Some(t) && t.Keys == ps + qs + rs
    ensures forall id :: id in t ==> t[id].packID == if id in ps then p else if id in qs then q else r
  {
    var before := ListTwo(env, packs, p, ps, q, qs);
    ListMore(env, packs, [p, q], r, rs);
    assert [p, q] + [r] == [p, q, r];
    t := Rebuild(env.codec, packs, [p, q, r]).value;
  }

  lemma Sizes(env: Env, b: Three)
    requires env.Valid() && b.Usable(env)
    ensures IdSet(b.First()) == {b.x.id} && IdSet(b.Second()) == {b.x.id, b.y.id} && IdSet(b.Third()) == {b.z.id}
    ensures Address(env, b.First()) != Address(env, b.Second())
    ensures Address(env, b.Second()) != Address(env, b.Third())
    ensures Address(env, b.First()) != Address(env, b.Third())
  {
    assert b.First()[0] == b.x && b.Second()[0] == b.x && b.Second()[1] == b.y && b.Third()[0] == b.z;
    assert IdSet(b.First()) == {b.x.id} && IdSet(b.Second()) == {b.x.id, b.y.id} && IdSet(b.Third()) == {b.z.id};
    assert b.y.id in IdSet(b.Second()) && b.y.id !in IdSet(b.First()) && b.y.id !in IdSet(b.Third());
    assert b.x.id in IdSet(b.First()) && b.x.id !in IdSet(b.Third());
    Apart(env, b.First(), b.Second());
    Apart(env, b.Second(), b.Third());
    Apart(env, b.First(), b.Third());
  }

  function TwoPacks(env: Env, one: seq<Item>, other: seq<Item>): Packs
    requires Finishable(env.codec, one) && Finishable(env.codec, other)
  {
    map[Address(env, one) := PackBytes(env.codec, one), Address(env, other) := PackBytes(env.codec, other)]
  }

  function AllPacks(env: Env, b: Three): Packs
    requires Finishable(env.codec, b.First()) && Finishable(env.codec, b.Second()) && Finishable(env.codec, b.Third())
  {
    TwoPacks(env, b.First(), b.Third())[Address(env, b.Second()) := PackBytes(env.codec, b.Second())]
  }

  /** A store with the packs [x] at p1, [x, y] at p2 and, if it is still there, [z] at p3. */
  ghost predicate Shelved(env: Env, packs: Packs, p1: ID, p2: ID, p3: ID, x: ID, y: ID, z: ID) {
    && p1 != p2 && p2 != p3 && p1 != p3 && {p1, p2} <= packs.Keys && packs.Keys <= {p1, p2, p3}
    && PacksSound(env, packs)
    && Contains(env, packs, p1, {x}) && Contains(env, packs, p2, {x, y})
    && (p3 in packs ==> Contains(env, packs, p3, {z}))
  }

  ghost predicate PackWith(env: Env, p: ID, pack: Bytes, ids: set<ID>) {
    && SoundPack(env, p, pack) && PackEntries(env.codec, pack).Some?
    && EntryIDs(PackEntries(env.codec, pack).value) == ids
  }

  lemma ShelveThree(env: Env, p1: ID, v1: Bytes, p2: ID, v2: Bytes, p3: ID, v3: Bytes, x: ID, y: ID, z: ID)
    requires p1 != p2 && p2 != p3 && p1 != p3
    requires PackWith(env, p1, v1, {x}) && PackWith(env, p2, v2, {x, y}) && PackWith(env, p3, v3, {z})
    ensures Shelved(env, map[p1 := v1, p3 := v3][p2 := v2], p1, p2, p3, x, y, z)
    ensures map[p1 := v1, p3 := v3][p2 := v2] - {p3} == map[p1 := v1, p2 := v2]
  {
    var packs: Packs := map[p1 := v1, p3 := v3][p2 := v2];
    forall id | id in packs
      ensures SoundPack(env, id, packs[id])
    {
    }
  }

  lemma AllShelved(env: Env, b: Three)
    requires env.Valid() && b.Usable(env)
    ensures var p1, p2, p3 := Address(env, b.First()), Address(env, b.Second()), Address(env, b.Third());
      && Shelved(env, AllPacks(env, b), p1, p2, p3, b.x.id, b.y.id, b.z.id)
      && p3 in AllPacks(env, b) && AllPacks(env, b) - {p3} == TwoPacks(env, b.First(), b.Second())
  {
    Sizes(env, b);
    PackLists(env, b.First());
    PackLists(env, b.Second());
    PackLists(env, b.Third());
    ShelveThree(env, Address(env, b.First()), PackBytes(env.codec, b.First()),
                Address(env, b.Second()), PackBytes(env.codec, b.Second()),
                Address(env, b.Third()), PackBytes(env.codec, b.Third()), b.x.id, b.y.id, b.z.id);
  }

  lemma FewerShelved(env: Env, packs: Packs, p1: ID, p2: ID, p3: ID, x: ID, y: ID, z: ID)
    requires Shelved(env, packs, p1, p2, p3, x, y, z)
    ensures Shelved(env, packs - {p3}, p1, p2, p3, x, y, z)
  {
  }

  lemma ListedOnce(p: ID, q: ID, r: ID)
    requires p != q && q != r && p != r
    ensures KeySet([p, q, r]) == {p, q, r} && NoRepeats([p, q, r])
  {
  }

  /** An index rebuilt from [x], [z] and [x, y], listed in this order. */
  lemma ListAll(env: Env, packs: Packs, p1: ID, p2: ID, p3: ID, x: ID, y: ID, z: ID)
      returns (order: seq<ID>, t: Table)
    requires Shelved(env, packs, p1, p2, p3, x, y, z) && p3 in packs && x != y && y != z && x != z
    ensures Lists(packs, order) && Rebuild(env.codec, packs, order) == Some(t)
    ensures t.Keys == {x, y, z} && t[x].packID == p1 && t[y].packID == p2
  {
    order := [p1, p3, p2];
    ListedOnce(p1, p3, p2);
    assert packs.Keys == {p1, p3, p2};
    t := ListThree(env, packs, p1, {x}, p3, {z}, p2, {x, y});
  }

  /** An index rebuilt from [x, y] and [x], listed in this order. */
  lemma ListSecondFirst(env: Env, packs: Packs, p1: ID, p2: ID, p3: ID, x: ID, y: ID, z: ID)
      returns (order: seq<ID>, t: Table)
    requires Shelved(env, packs, p1, p2, p3, x, y, z) && p3 !in packs
    ensures Lists(packs, order) && Rebuild(env.codec, packs, order) == Some(t)
    ensures t.Keys == {x, y} && t[x].packID == t[y].packID == p2
  {
    order := [p2, p1];
    t := ListTwo(env, packs, p2, {x, y}, p1, {x});
  }

  /** A collection in a world where two referenced blobs lie in these packs. */
  lemma Reclaims(w: World, x: ID, y: ID, used: set<ID>, orphans: set<ID>)
    requires In(w, Idle) && References(w.snaps) == {x, y} && {x, y} <= w.proc.idx.Keys
    requires {w.proc.idx[x].packID, w.proc.idx[y].packID} == used
    requires w.packs.Keys == used + orphans && used !! orphans && orphans != {}
    ensures Intact(w.packs, w.proc.idx, References(w.snaps))
    ensures Orphans(w.packs, w.proc.idx, References(w.snaps)) == orphans
  {
    assert UsedPacks(w.proc.idx, {x, y}) == used;
    assert w.proc.idx[x].packID in used && w.proc.idx[y].packID in used;
  }

  /** After a first, empty backup, a run stores [x] and [z] and is killed. */
  lemma Interrupted(env: Env, b: Three) returns (run: seq<Step>, w: World)
    requires env.Valid() && b.Usable(env)
    ensures After(env, CREATED, run) == Some(w) && NoStaleKill(env, CREATED, run) && w.proc.Dead?
    ensures SavedTable(w.index) == Some(map[]) && w.snaps == {Snapshot([])}
    ensures w.packs == TwoPacks(env, b.First(), b.Third())
  {
    Sizes(env, b);
    var before, at := EmptyBackup(env);
    var w1 := Extend(env, CREATED, before, at, BeginBackup);
    run := before + [BeginBackup];
    var w2 := Extend(env, CREATED, run, w1, StorePack(b.First()));
    run := run + [StorePack(b.First())];
    var w3 := Extend(env, CREATED, run, w2, StorePack(b.Third()));
    run := run + [StorePack(b.Third())];
    w := Extend(env, CREATED, run, w3, Kill);
    run := run + [Kill];
  }

  function Committed(b: Three): Snapshot {
    Snapshot([FileEntry("f", |b.x.data| + |b.y.data|, [b.x.id, b.y.id])])
  }

  lemma CommittedRefs(b: Three)
    ensures BlobIDs(Committed(b)) == {b.x.id, b.y.id}
    ensures References({Snapshot([])} + {Committed(b)}) == {b.x.id, b.y.id}
  {
    var e := Committed(b).files[0];
    assert e in Committed(b).files && e.chunks[0] in e.chunks && e.chunks[1] in e.chunks;
    assert BlobIDs(Snapshot([])) == {};
    assert BlobIDs(Committed(b)) == {b.x.id, b.y.id};
    assert Committed(b) in {Snapshot([])} + {Committed(b)};
  }

  /** The next run does not know x and stores and indexes [x, y]. */
  lemma Restored(env: Env, b: Three) returns (run: seq<Step>, w: World)
    requires env.Valid() && b.Usable(env)
    ensures After(env, CREATED, run) == Some(w) && NoStaleKill(env, CREATED, run) && In(w, Uploading)
    ensures w.snaps == {Snapshot([])} && w.packs == AllPacks(env, b) && w.proc.idx.Keys == {b.x.id, b.y.id}
  {
    Sizes(env, b);
    SecondEntries(env, b);
    var before, at := Interrupted(env, b);
    var mid, w1 := StoreUnknown(env, before, at, b.Second());
    run, w := IndexTwo(env, mid, w1, Address(env, b.Second()), b.x.id, b.y.id);
  }

  /** A process that loads an empty index and stores a pack. */
  lemma StoreUnknown(env: Env, before: seq<Step>, at: World, items: seq<Item>) returns (run: seq<Step>, w: World)
    requires After(env, CREATED, before) == Some(at) && NoStaleKill(env, CREATED, before)
    requires at.proc.Dead? && SavedTable(at.index) == Some(map[]) && Storable(env, items)
    requires Address(env, items) !in at.packs
    ensures After(env, CREATED, run) == Some(w) && NoStaleKill(env, CREATED, run)
    ensures w == at.(packs := at.packs[Address(env, items) := PackBytes(env.codec, items)],
                     proc := Live(map[], Uploading))
  {
    var w1 := Extend(env, CREATED, before, at, OpenLoad);
    run := before + [OpenLoad];
    var w2 := Extend(env, CREATED, run, w1, BeginBackup);
    run := run + [BeginBackup];
    w := Extend(env, CREATED, run, w2, StorePack(items));
    run := run + [StorePack(items)];
  }

  lemma SecondEntries(env: Env, b: Three)
    requires env.Valid() && b.Usable(env)
    ensures var es := PackEntries(env.codec, PackBytes(env.codec, b.Second()));
      es.Some? && |es.value| == 2 && es.value[0].id == b.x.id && es.value[1].id == b.y.id
  {
    PackLists(env, b.Second());
    EntriesTile(b.Second(), 0);
    EntriesTile(b.Second(), 1);
  }

  lemma IndexTwo(env: Env, before: seq<Step>, at: World, p: ID, x: ID, y: ID) returns (run: seq<Step>, w: World)
    requires After(env, CREATED, before) == Some(at) && NoStaleKill(env, CREATED, before)
    requires at.proc == Live(map[], Uploading) && p in at.packs
    requires var es := PackEntries(env.codec, at.packs[p]);
      es.Some? && |es.value| == 2 && es.value[0].id == x && es.value[1].id == y
    ensures After(env, CREATED, run) == Some(w) && NoStaleKill(env, CREATED, run) && In(w, Uploading)
    ensures w.snaps == at.snaps && w.packs == at.packs && w.proc.idx.Keys == {x, y}
  {
    var w1 := Extend(env, CREATED, before, at, InsertEntry(p, 0));
    run := before + [InsertEntry(p, 0)];
    w := Extend(env, CREATED, run, w1, InsertEntry(p, 1));
    run := run + [InsertEntry(p, 1)];
  }

  lemma SmallTable(t: Table, keys: set<ID>) returns (bytes: Bytes)
    requires t.Keys == keys && |keys| <= 2
    ensures IsEncoding(t, bytes)
  {
    assert |t| == |t.Keys|;
    bytes := EncodingExists(t);
  }

  /** It commits a snapshot of both. */
  lemma Repeated(env: Env, b: Three) returns (run: seq<Step>, w: World)
    requires env.Valid() && b.Usable(env)
    ensures After(env, CREATED, run) == Some(w) && NoStaleKill(env, CREATED, run) && In(w, Idle)
    ensures w.snaps == {Snapshot([])} + {Committed(b)} && w.packs == AllPacks(env, b)
  {
    CommittedRefs(b);
    var before, at := Restored(env, b);
    var bytes := SmallTable(at.proc.idx, {b.x.id, b.y.id});
    var w1 := Extend(env, CREATED, before, at, SaveIndex(bytes));
    run := before + [SaveIndex(bytes)];
    w := Extend(env, CREATED, run, w1, SaveSnapshot(Committed(b)));
    run := run + [SaveSnapshot(Committed(b))];
  }

  /** The saved index is lost, and the next Open lists [x], [z] and [x, y] in this order. */
  lemma Reopened(env: Env, b: Three) returns (run: seq<Step>, w: World)
    requires env.Valid() && b.Usable(env)
    ensures After(env, CREATED, run) == Some(w) && NoStaleKill(env, CREATED, run) && In(w, Idle)
    ensures w.snaps == {Snapshot([])} + {Committed(b)} && w.packs == AllPacks(env, b)
    ensures w.proc.idx.Keys == {b.x.id, b.y.id, b.z.id}
    ensures w.proc.idx[b.x.id].packID == Address(env, b.First())
    ensures w.proc.idx[b.y.id].packID == Address(env, b.Second())
  {
    var before, at := Repeated(env, b);
    var w1 := Extend(env, CREATED, before, at, SpoilIndex(None));
    run := before + [SpoilIndex(None)];
    var w2 := Extend(env, CREATED, run, w1, Kill);
    run := run + [Kill];
    var p1, p2, p3 := Address(env, b.First()), Address(env, b.Second()), Address(env, b.Third());
    AllShelved(env, b);
    var order, t := ListAll(env, w2.packs, p1, p2, p3, b.x.id, b.y.id, b.z.id);
    w := Extend(env, CREATED, run, w2, OpenRebuild(order));
    run := run + [OpenRebuild(order)];
  }

  /** A collection deletes [z] and keeps both [x] and [x, y]. */
  lemma FirstCollection(env: Env, b: Three) returns (run: seq<Step>, w: World)
    requires env.Valid() && b.Usable(env)
    ensures After(env, CREATED, run) == Some(w) && NoStaleKill(env, CREATED, run) && In(w, Collecting({}))
    ensures w.snaps == {Snapshot([])} + {Committed(b)} && w.packs == TwoPacks(env, b.First(), b.Second())
  {
    var p1, p2, p3 := Address(env, b.First()), Address(env, b.Second()), Address(env, b.Third());
    AllShelved(env, b);
    CommittedRefs(b);
    var before, at := Reopened(env, b);
    Reclaims(at, b.x.id, b.y.id, {p1, p2}, {p3});
    run, w := DeleteOne(env, before, at, p3);
  }

  lemma DeleteOne(env: Env, before: seq<Step>, at: World, p: ID) returns (run: seq<Step>, w: World)
    requires After(env, CREATED, before) == Some(at) && NoStaleKill(env, CREATED, before) && In(at, Idle)
    requires Intact(at.packs, at.proc.idx, References(at.snaps))
    requires Orphans(at.packs, at.proc.idx, References(at.snaps)) == {p}
    ensures After(env, CREATED, run) == Some(w) && NoStaleKill(env, CREATED, run) && In(w, Collecting({}))
    ensures w.snaps == at.snaps && w.packs == at.packs - {p}
  {
    var w1 := Extend(env, CREATED, before, at, StartGC);
    run := before + [StartGC];
    w := Extend(env, CREATED, run, w1, DeletePack(p));
    run := run + [DeletePack(p)];
    assert {p} - {p} == {};
  }

  lemma FinishCollection(env: Env, before: seq<Step>, at: World, order: seq<ID>, t: Table, keys: set<ID>)
      returns (run: seq<Step>, w: World)
    requires After(env, CREATED, before) == Some(at) && NoStaleKill(env, CREATED, before) && In(at, Collecting({}))
    requires Lists(at.packs, order) && Rebuild(env.codec, at.packs, order) == Some(t) && t.Keys == keys && |keys| <= 2
    ensures After(env, CREATED, run) == Some(w) && NoStaleKill(env, CREATED, run)
    ensures |run| > 0 && run[|run| - 1].SaveAfterGC?
    ensures w.proc == Live(t, Idle) && w.packs == at.packs && w.snaps == at.snaps
  {
    var w1 := Extend(env, CREATED, before, at, RebuildAfterGC(order));
    run := before + [RebuildAfterGC(order)];
    var bytes := SmallTable(t, keys);
    w := Extend(env, CREATED, run, w1, SaveAfterGC(bytes));
    run := run + [SaveAfterGC(bytes)];
  }

  lemma CollectSecondFirst(env: Env, before: seq<Step>, at: World, p1: ID, p2: ID, p3: ID, x: ID, y: ID, z: ID)
      returns (run: seq<Step>, w: World)
    requires After(env, CREATED, before) == Some(at) && NoStaleKill(env, CREATED, before) && In(at, Collecting({}))
    requires Shelved(env, at.packs, p1, p2, p3, x, y, z) && p3 !in at.packs && References(at.snaps) == {x, y}
    ensures After(env, CREATED, run) == Some(w) && NoStaleKill(env, CREATED, run)
    ensures |run| > 0 && run[|run| - 1].SaveAfterGC? && In(w, Idle) && w.packs == at.packs && w.snaps == at.snaps
    ensures Intact(w.packs, w.proc.idx, {x, y}) && Orphans(w.packs, w.proc.idx, {x, y}) == {p1}
  {
    var order, t := ListSecondFirst(env, at.packs, p1, p2, p3, x, y, z);
    run, w := FinishCollection(env, before, at, order, t, {x, y});
    Reclaims(w, x, y, {p2}, {p1});
  }

  /** Two packs share a referenced blob. A collection deletes [z], keeps both of them, and
      rebuilds the index with [x, y] listed first; the pack [x] is then an orphan, and a second
      collection deletes it. */
  lemma SecondCollectionDeletes(env: Env, b: Three) returns (run: seq<Step>, w: World)
    requires env.Valid() && b.Usable(env)
    ensures After(env, CREATED, run) == Some(w) && NoStaleKill(env, CREATED, run)
    ensures |run| > 0 && run[|run| - 1].SaveAfterGC? && In(w, Idle)
    ensures References(w.snaps) == {b.x.id, b.y.id} && w.packs == TwoPacks(env, b.First(), b.Second())
    ensures Intact(w.packs, w.proc.idx, References(w.snaps))
    ensures Orphans(w.packs, w.proc.idx, References(w.snaps)) == {Address(env, b.First())}
  {
    var p1, p2, p3 := Address(env, b.First()), Address(env, b.Second()), Address(env, b.Third());
    AllShelved(env, b);
    FewerShelved(env, AllPacks(env, b), p1, p2, p3, b.x.id, b.y.id, b.z.id);
    CommittedRefs(b);
    var before, at := FirstCollection(env, b);
    run, w := CollectSecondFirst(env, before, at, p1, p2, p3, b.x.id, b.y.id, b.z.id);
  }
}
