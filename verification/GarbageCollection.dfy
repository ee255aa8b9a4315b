/** What garbage collection keeps, and when a second collection has nothing left to do. */
module GarbageCollection {
  import opened Blob
  import opened PackFormat
  import opened IndexFormat
  import opened RepoModel
  import opened RepoInvariant

  lemma UsedStays(env: Env, packs: Packs, t: Table, refs: set<ID>)
    requires PacksSound(env, packs) && Sound(env.codec, packs, t) && refs <= t.Keys
    ensures var kept := packs - Orphans(packs, t, refs);
      && PacksSound(env, kept) && AllStored(env.codec, kept, refs)
      && kept.Keys == UsedPacks(t, refs)
  {
    var kept := packs - Orphans(packs, t, refs);
    forall id | id in refs
      ensures Stored(env.codec, kept, id) && t[id].packID in packs
    {
      assert Located(env.codec, packs, id, t[id]);
      assert t[id].packID in UsedPacks(t, refs);
      LocatedHolds(env.codec, packs, id, t[id]);
      assert Holds(env.codec, kept[t[id].packID], id);
    }
  }

  lemma LocatedHolds(c: Codec, packs: Packs, id: ID, loc: Location)
    requires Located(c, packs, id, loc)
    ensures Holds(c, packs[loc.packID], id)
  {
    var e := Entry(id, loc.offset, loc.length);
    assert e.id in EntryIDs(PackEntries(c, packs[loc.packID]).value);
  }

  /** Collection preserves meaning: after deleting the orphans and rebuilding the index, with the
      packs listed in any order, every referenced blob resolves to the bytes it resolved to
      before, even if its indexed copy is now in another pack. */
  lemma CollectKeepsMeaning(env: Env, packs: Packs, t: Table, refs: set<ID>, order: seq<ID>, id: ID)
    requires env.Valid() && PacksSound(env, packs) && Sound(env.codec, packs, t) && refs <= t.Keys && id in refs
    requires Lists(packs - Orphans(packs, t, refs), order)
    ensures var kept := packs - Orphans(packs, t, refs);
      && Rebuild(env.codec, kept, order).Some?
      && Resolve(env.h, packs, t, id).Some?
      && Resolve(env.h, kept, Rebuild(env.codec, kept, order).value, id) == Resolve(env.h, packs, t, id)
  {
    var kept := packs - Orphans(packs, t, refs);
    UsedStays(env, packs, t, refs);
    RebuildCovers(env, kept, order, refs);
    LocatedResolves(env, packs, t, id);
    LocatedResolves(env, kept, Rebuild(env.codec, kept, order).value, id);
  }

  /** Nothing is left to collect, however the packs were listed when the index was rebuilt. */
  ghost predicate NothingLeft(env: Env, packs: Packs, refs: set<ID>) {
    forall order :: Lists(packs, order) && Rebuild(env.codec, packs, order).Some? ==>
      Orphans(packs, Rebuild(env.codec, packs, order).value, refs) == {}
  }

  ghost predicate OnlyIn(c: Codec, packs: Packs, p: ID, id: ID) {
    forall q :: q in packs && Holds(c, packs[q], id) ==> q == p
  }

  /** The pack holds a referenced blob that no other pack holds. */
  ghost predicate Pinned(c: Codec, packs: Packs, refs: set<ID>, p: ID)
    requires p in packs
  {
    exists id :: id in refs && Holds(c, packs[p], id) && OnlyIn(c, packs, p, id)
  }

  lemma {:induction false} ListOf(s: set<ID>) returns (ids: seq<ID>)
    ensures KeySet(ids) == s && NoRepeats(ids)
  {
    if s == {} {
      ids := [];
    } else {
      var x :| x in s;
      var rest := ListOf(s - {x});
      ids := rest + [x];
      LastKey(ids);
      assert forall k :: 0 <= k < |rest| ==> rest[k] in KeySet(rest);
    }
  }

  /** A location found by a rebuild lies in one of the packs listed. */
  lemma {:induction false} RebuildFrom(env: Env, packs: Packs, order: seq<ID>, id: ID)
    requires PacksSound(env, packs) && KeySet(order) <= packs.Keys
    requires Rebuild(env.codec, packs, order).Some? && id in Rebuild(env.codec, packs, order).value
    ensures Rebuild(env.codec, packs, order).value[id].packID in KeySet(order)
  {
    if order != [] {
      var n := |order| - 1;
      LastKey(order);
      RebuildSound(env, packs, order[..n]);
      InsertPack(env, packs, Rebuild(env.codec, packs, order[..n]).value, order[n]);
      if id in Rebuild(env.codec, packs, order[..n]).value {
        RebuildFrom(env, packs, order[..n], id);
      }
    }
  }

  /** A pack listed last is used only for referenced blobs that no other pack holds. */
  lemma LastIsUnused(env: Env, packs: Packs, refs: set<ID>, order: seq<ID>, p: ID)
    requires PacksSound(env, packs) && Lists(packs, order + [p]) && p in packs
    requires Rebuild(env.codec, packs, order + [p]).Some?
    requires !Pinned(env.codec, packs, refs, p)
    ensures p in Orphans(packs, Rebuild(env.codec, packs, order + [p]).value, refs)
  {
    var all := order + [p];
    var n := |order|;
    LastKey(all);
    assert all[..n] == order;
    var t, before := Rebuild(env.codec, packs, all).value, Rebuild(env.codec, packs, order).value;
    RebuildSound(env, packs, order);
    RebuildSound(env, packs, all);
    InsertPack(env, packs, before, p);
    assert p !in KeySet(order) by {
      assert forall k :: 0 <= k < n ==> all[k] != all[n];
    }
    forall id | id in refs && id in t
      ensures t[id].packID != p
    {
      if id in before {
        RebuildFrom(env, packs, order, id);
      } else {
        assert Holds(env.codec, packs[p], id);
        assert !OnlyIn(env.codec, packs, p, id);
        var q :| q in packs && q != p && Holds(env.codec, packs[q], id);
        RebuildFinds(env, packs, order, q, id);
      }
    }
  }

  lemma {:induction false} UnpinnedIsLeft(env: Env, packs: Packs, refs: set<ID>, p: ID)
    requires PacksSound(env, packs) && p in packs && !Pinned(env.codec, packs, refs, p)
    ensures !NothingLeft(env, packs, refs)
  {
    var order := ListOf(packs.Keys - {p});
    LastKey(order + [p]);
    assert (order + [p])[..|order|] == order;
    assert forall k :: 0 <= k < |order| ==> order[k] in KeySet(order);
    RebuildSound(env, packs, order + [p]);
    LastIsUnused(env, packs, refs, order, p);
  }

  lemma PinnedUsed(c: Codec, packs: Packs, refs: set<ID>, t: Table, p: ID)
    requires Sound(c, packs, t) && refs <= t.Keys && p in packs && Pinned(c, packs, refs, p)
    ensures p in UsedPacks(t, refs)
  {
    var id :| id in refs && Holds(c, packs[p], id) && OnlyIn(c, packs, p, id);
    LocatedHolds(c, packs, id, t[id]);
  }

  lemma AllUsed(env: Env, packs: Packs, refs: set<ID>, order: seq<ID>)
    requires PacksSound(env, packs) && AllStored(env.codec, packs, refs) && Lists(packs, order)
    requires forall p :: p in packs ==> Pinned(env.codec, packs, refs, p)
    ensures Rebuild(env.codec, packs, order).Some?
    ensures Orphans(packs, Rebuild(env.codec, packs, order).value, refs) == {}
  {
    RebuildCovers(env, packs, order, refs);
    var t := Rebuild(env.codec, packs, order).value;
    forall p | p in packs
      ensures p in UsedPacks(t, refs)
    {
      PinnedUsed(env.codec, packs, refs, t, p);
    }
  }

  /** A further collection deletes nothing, whatever order the rebuild listed the packs in, if
      and only if every remaining pack holds a referenced blob that no other one holds. */
  lemma IdempotentIff(env: Env, packs: Packs, refs: set<ID>)
    requires PacksSound(env, packs) && AllStored(env.codec, packs, refs)
    ensures NothingLeft(env, packs, refs) <==> forall p :: p in packs ==> Pinned(env.codec, packs, refs, p)
  {
    forall p | p in packs && !Pinned(env.codec, packs, refs, p)
      ensures !NothingLeft(env, packs, refs)
    {
      UnpinnedIsLeft(env, packs, refs, p);
    }
    forall order | Lists(packs, order) && forall p :: p in packs ==> Pinned(env.codec, packs, refs, p)
      ensures Rebuild(env.codec, packs, order).Some?
      ensures Orphans(packs, Rebuild(env.codec, packs, order).value, refs) == {}
    {
      AllUsed(env, packs, refs, order);
    }
  }

  /** When no referenced blob lies in two packs, collecting twice is collecting once. */
  lemma CollectTwice(env: Env, packs: Packs, t: Table, refs: set<ID>)
    requires PacksSound(env, packs) && Sound(env.codec, packs, t) && refs <= t.Keys
    requires forall id, p :: id in refs && p in packs && Holds(env.codec, packs[p], id) ==>
      OnlyIn(env.codec, packs, p, id)
    ensures NothingLeft(env, packs - Orphans(packs, t, refs), refs)
  {
    var kept := packs - Orphans(packs, t, refs);
    UsedStays(env, packs, t, refs);
    forall p | p in kept
      ensures Pinned(env.codec, kept, refs, p)
    {
      var id :| id in refs && id in t && t[id].packID == p;
      LocatedHolds(env.codec, packs, id, t[id]);
      assert OnlyIn(env.codec, packs, p, id);
    }
    IdempotentIff(env, kept, refs);
  }
}
