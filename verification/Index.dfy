/** The index object: 256 shards, selected by the first byte of the blob's address, proved to
    behave as one map. */
module Index {
  import opened Wrappers
  import opened Blob
  import opened LittleEndian
  import opened IndexFormat
  import opened IndexLoad
  import opened Readers

  const NUM_SHARDS := 256

  /** All shards together. */
  function Union(shards: seq<Table>): Table {
    if shards == [] then map[] else Union(shards[..|shards| - 1]) + shards[|shards| - 1]
  }

  ghost predicate Sharded(shards: seq<Table>) {
    forall i, id :: 0 <= i < |shards| && id in shards[i] ==> id[0] == i
  }

  /** A blob is found by looking in its own shard alone. */
  lemma {:induction false} UnionAt(shards: seq<Table>, id: ID)
    requires Sharded(shards)
    ensures id in Union(shards) <==> id[0] < |shards| && id in shards[id[0]]
    ensures id in Union(shards) ==> Union(shards)[id] == shards[id[0]][id]
  {
    if shards != [] {
      UnionAt(shards[..|shards| - 1], id);
    }
  }

  function Total(shards: seq<Table>): nat {
    if shards == [] then 0 else Total(shards[..|shards| - 1]) + |shards[|shards| - 1]|
  }

  lemma {:induction false} UnionSize(shards: seq<Table>)
    requires Sharded(shards)
    ensures |Union(shards)| == Total(shards)
  {
    if shards != [] {
      var n := |shards| - 1;
      UnionSize(shards[..n]);
      forall id | id in shards[n]
        ensures id !in Union(shards[..n])
      {
        UnionAt(shards[..n], id);
      }
      assert Union(shards).Keys == Union(shards[..n]).Keys + shards[n].Keys;
      DisjointSizes(Union(shards[..n]).Keys, shards[n].Keys);
    }
  }

  lemma DisjointSizes(a: set<ID>, b: set<ID>)
    requires a !! b
    ensures |a + b| == |a| + |b|
  {
  }

  /** Replacing the contents of one shard, for one blob of that shard. */
  lemma UnionUpdate(shards: seq<Table>, i: nat, t: Table, whole: Table)
    requires Sharded(shards) && i < |shards| && Sharded(shards[i := t])
    requires forall id :: id in whole <==> if id[0] == i then id in t else id in Union(shards)
    requires forall id :: id in whole ==> whole[id] == if id[0] == i then t[id] else Union(shards)[id]
    ensures Union(shards[i := t]) == whole
  {
    forall id: ID
      ensures id in Union(shards[i := t]) <==> id in whole
      ensures id in whole ==> Union(shards[i := t])[id] == whole[id]
    {
      UnionAt(shards, id);
      UnionAt(shards[i := t], id);
    }
  }

  class Index {
    const shards: array<Table>

    ghost predicate Valid()
      reads this, shards
    {
      shards.Length == NUM_SHARDS && Sharded(shards[..])
    }

    ghost function Contents(): Table
      reads this, shards
    {
      Union(shards[..])
    }

    constructor ()
      ensures Valid() && Contents() == map[] && fresh(shards)
    {
      shards := new Table[NUM_SHARDS](_ => map[]);
      new;
      EmptyUnion(shards[..]);
    }

    /** True exactly when this call inserted. */
    method Insert(id: ID, loc: Location) returns (inserted: bool)
      requires Valid()
      modifies shards
      ensures Valid() && Contents() == InsertInto(old(Contents()), id, loc)
      ensures inserted <==> id !in old(Contents())
    {
      UnionAt(shards[..], id);
      var s := shards[id[0]];
      if id in s {
        return false;
      }
      ghost var before := shards[..];
      var t: Table := s[id := loc];
      shards[id[0]] := t;
      assert shards[..] == before[id[0] := t];
      ShardOnly(before, id[0]);
      UnionUpdate(before, id[0], t, Union(before)[id := loc]);
      return true;
    }

    method Lookup(id: ID) returns (r: Option<Location>)
      requires Valid()
      ensures r == if id in Contents() then Some(Contents()[id]) else None
    {
      UnionAt(shards[..], id);
      var s := shards[id[0]];
      if id in s {
        return Some(s[id]);
      }
      return None;
    }

    method Len() returns (total: nat)
      requires Valid()
      ensures total == |Contents()|
    {
      total := 0;
      for i := 0 to shards.Length
        invariant total == Total(shards[..i])
      {
        total := total + |shards[i]|;
        assert shards[..i + 1][..i] == shards[..i];
      }
      assert shards[..shards.Length] == shards[..];
      UnionSize(shards[..]);
    }

    method Delete(id: ID) returns (deleted: bool)
      requires Valid()
      modifies shards
      ensures Valid() && Contents() == old(Contents()) - {id}
      ensures deleted <==> id in old(Contents())
    {
      UnionAt(shards[..], id);
      var s := shards[id[0]];
      if id !in s {
        return false;
      }
      ghost var before := shards[..];
      var t: Table := s - {id};
      shards[id[0]] := t;
      assert shards[..] == before[id[0] := t];
      ShardOnly(before, id[0]);
      UnionUpdate(before, id[0], t, Union(before) - {id});
      return true;
    }

    /** Writes the entries of one shard, in any order, after those of `ids`. */
    method WriteShard(i: nat, ghost ids: seq<ID>) returns (out: Bytes, ghost more: seq<ID>)
      requires Valid() && i < NUM_SHARDS && Listed(shards[..][..i], ids, {}) && KeySet(ids) <= Contents().Keys
      ensures Listed(shards[..][..i + 1], more, {}) && KeySet(more) <= Contents().Keys
      ensures EncodeRecords(Contents(), more) == EncodeRecords(Contents(), ids) + out
    {
      ghost var all, m := shards[..], Contents();
      NextShard(all, i, ids);
      out, more := [], ids;
      var left := shards[i].Keys;
      while left != {}
        invariant left <= shards[i].Keys && KeySet(more) <= m.Keys && Listed(all[..i + 1], more, left)
        invariant EncodeRecords(m, more) == EncodeRecords(m, ids) + out
      {
        var id :| id in left;
        ListOne(all, i, more, left, id);
        EncodePush(m, more, id);
        out := out + EncodeRecord(id, shards[i][id]);
        more := more + [id];
        left := left - {id};
      }
    }

    /** Writes the entries shard by shard, each shard in any order. */
    method WriteTo() returns (out: Bytes)
      requires Valid() && |Contents()| < TWO_63
      ensures IsEncoding(Contents(), out)
    {
      var n := Len();
      var header := EncodeHeader(n);
      out := header;
      ghost var ids: seq<ID> := [];
      for i := 0 to NUM_SHARDS
        invariant Listed(shards[..][..i], ids, {}) && KeySet(ids) <= Contents().Keys
        invariant out == header + EncodeRecords(Contents(), ids)
      {
        var records;
        records, ids := WriteShard(i, ids);
        out := out + records;
        assert out == header + EncodeRecords(Contents(), ids);
      }
      AllListed(shards[..], ids, out);
    }

    /** Reads the magic and the entry count. */
    static method ReadHeader(rd: Reader) returns (count: Option<nat>, readable: bool)
      requires rd.s.Valid()
      modifies rd
      ensures rd.s.Valid() && (readable <==> |old(rd.s.rest)| >= HEADER_SIZE || old(rd.s.final) == EndOfFile)
      ensures count.Some? <==> GoodHeader(old(rd.s.rest))
      ensures count.Some? ==>
        count.value == Get(old(rd.s.rest)[8..HEADER_SIZE]) && rd.s == AfterFull(old(rd.s), HEADER_SIZE)
    {
      ghost var start := rd.s;
      var hdr := new byte[HEADER_SIZE];
      var err := rd.ReadFull(hdr);
      if err.Some? {
        return None, err.value == EndOfFile;
      }
      HeaderRead(start, hdr[..]);
      if hdr[..8] != INDEX_MAGIC {
        return None, true;
      }
      var n := Get(hdr[8..]);
      return if n > MAX_ENTRIES then None else Some(n), true;
    }

    /** Reads and inserts the entries. */
    static method ReadRecords(rd: Reader, count: nat) returns (r: Option<Index>)
      requires rd.s.Valid()
      modifies rd
      ensures rd.s.Valid() && (r.Some? <==> RecordsPrefix(map[], old(rd.s.rest), count).Some?)
      ensures r.Some? ==> r.value.Valid() && fresh(r.value) && fresh(r.value.shards)
      ensures r.Some? ==> r.value.Contents() == RecordsPrefix(map[], old(rd.s.rest), count).value.table
      ensures r.Some? ==> ENTRY_SIZE * count <= |old(rd.s.rest)| && rd.s == AfterRecords(old(rd.s), count)
    {
      ghost var first := rd.s;
      var idx := new Index();
      var buf := new byte[ENTRY_SIZE];
      for i := 0 to count
        invariant idx.Valid() && fresh(idx) && fresh(idx.shards) && fresh(buf) && rd.s.Valid()
        invariant SoFar(first, count, i, idx.Contents(), rd.s)
      {
        ghost var m, s := idx.Contents(), rd.s;
        var err := rd.ReadFull(buf);
        if err.Some? {
          RecordCut(first, count, i, m, s);
          return None;
        }
        var record := buf[..];
        RecordRead(first, count, i, m, s, record);
        var loc := RecordLocation(record);
        if loc.offset < 0 || loc.length < 0 {
          return None;
        }
        var _ := idx.Insert(RecordID(record), loc);
      }
      AllRead(first, count, idx.Contents(), rd.s);
      return Some(idx);
    }

    /** Reads an index from a reader. */
    static method ReadFrom(rd: Reader) returns (r: Loading)
      requires rd.s.Valid()
      modifies rd
      ensures r.Loaded? <==> Load(old(rd.s)).Some?
      ensures r.Loaded? ==> r.idx.Valid() && fresh(r.idx) && fresh(r.idx.shards)
      ensures r.Loaded? ==> r.idx.Contents() == Load(old(rd.s)).value
      ensures r.Unreadable? <==> |old(rd.s.rest)| < HEADER_SIZE && old(rd.s.final) != EndOfFile
    {
      ghost var start := rd.s;
      var count, readable := ReadHeader(rd);
      if count.None? {
        NoHeader(start);
        return if readable then Corrupt else Unreadable;
      }
      ghost var first := rd.s;
      var idx := ReadRecords(rd, count.value);
      if idx.None? {
        NoTable(start, count.value, first);
        return Corrupt;
      }
      TableRead(start, count.value, first, rd.s);
      var probe := new byte[1];
      var _, err := rd.Read(probe, 0);
      if err.None? {
        return Corrupt;
      }
      return Loaded(idx.value);
    }
  }

  datatype Loading = Loaded(idx: Index) | Corrupt | Unreadable

  lemma HeaderRead(s: Stream, hdr: Bytes)
    requires s.Valid() && |s.rest| >= HEADER_SIZE && hdr == s.rest[..HEADER_SIZE]
    ensures hdr[..8] == s.rest[..8] && hdr[8..] == s.rest[8..HEADER_SIZE]
  {
  }

  /** After i records the table read so far is m and the reader is at s. */
  ghost predicate SoFar(first: Stream, count: nat, i: nat, m: Table, s: Stream) {
    && first.Valid() && s.Valid() && i <= count
    && RecordsPrefix(map[], first.rest, count) == RecordsPrefix(m, s.rest, count - i)
    && (ENTRY_SIZE * count <= |first.rest| ==>
         ENTRY_SIZE * (count - i) <= |s.rest| && AfterRecords(first, count) == AfterRecords(s, count - i))
  }

  lemma RecordCut(first: Stream, count: nat, i: nat, m: Table, s: Stream)
    requires SoFar(first, count, i, m, s) && i < count && |s.rest| < ENTRY_SIZE
    ensures RecordsPrefix(map[], first.rest, count).None?
  {
  }

  lemma AllRead(first: Stream, count: nat, m: Table, s: Stream)
    requires SoFar(first, count, count, m, s)
    ensures RecordsPrefix(map[], first.rest, count).Some?
    ensures RecordsPrefix(map[], first.rest, count).value.table == m
    ensures ENTRY_SIZE * count <= |first.rest| && AfterRecords(first, count) == s
  {
    PrefixLength(map[], first.rest, count);
  }

  lemma RecordRead(first: Stream, count: nat, i: nat, m: Table, s: Stream, record: Bytes)
    requires SoFar(first, count, i, m, s) && i < count && |s.rest| >= ENTRY_SIZE && record == s.rest[..ENTRY_SIZE]
    ensures !NonNegative(RecordLocation(record)) ==> RecordsPrefix(map[], first.rest, count).None?
    ensures NonNegative(RecordLocation(record)) ==>
      SoFar(first, count, i + 1, InsertInto(m, RecordID(record), RecordLocation(record)), AfterFull(s, ENTRY_SIZE))
  {
  }

  lemma {:induction false} EmptyUnion(shards: seq<Table>)
    requires forall i :: 0 <= i < |shards| ==> shards[i] == map[]
    ensures Union(shards) == map[]
  {
    if shards != [] {
      EmptyUnion(shards[..|shards| - 1]);
    }
  }

  lemma ShardOnly(shards: seq<Table>, i: nat)
    requires Sharded(shards) && i < |shards|
    ensures forall id: ID :: id[0] == i ==> (id in Union(shards) <==> id in shards[i])
    ensures forall id: ID :: id[0] == i && id in shards[i] ==> Union(shards)[id] == shards[i][id]
  {
    forall id: ID | id[0] == i
      ensures id in Union(shards) <==> id in shards[i]
      ensures id in shards[i] ==> Union(shards)[id] == shards[i][id]
    {
      UnionAt(shards, id);
    }
  }

  /** `ids` lists the keys of these shards, but for those in `left`. */
  ghost predicate Listed(shards: seq<Table>, ids: seq<ID>, left: set<ID>) {
    KeySet(ids) == Union(shards).Keys - left && NoRepeats(ids) && ByShard(ids)
  }

  lemma AllListed(shards: seq<Table>, ids: seq<ID>, out: Bytes)
    requires Listed(shards[..|shards|], ids, {}) && |Union(shards)| < TWO_63 && KeySet(ids) <= Union(shards).Keys
    requires out == EncodeHeader(|Union(shards)|) + EncodeRecords(Union(shards), ids)
    ensures IsEncoding(Union(shards), out)
  {
    assert shards[..|shards|] == shards;
  }

  lemma NextShard(shards: seq<Table>, i: nat, ids: seq<ID>)
    requires Sharded(shards) && i < |shards| && Listed(shards[..i], ids, {})
    ensures Listed(shards[..i + 1], ids, shards[i].Keys)
  {
    assert shards[..i + 1][..i] == shards[..i];
    forall id | id in shards[i]
      ensures id !in Union(shards[..i])
    {
      UnionAt(shards[..i], id);
    }
  }

  lemma ListOne(shards: seq<Table>, i: nat, ids: seq<ID>, left: set<ID>, id: ID)
    requires Sharded(shards) && i < |shards| && Listed(shards[..i + 1], ids, left)
    requires left <= shards[i].Keys && id in left
    ensures Listed(shards[..i + 1], ids + [id], left - {id})
    ensures id in Union(shards) && Union(shards)[id] == shards[i][id]
  {
    UnionAt(shards, id);
    UnionAt(shards[..i + 1], id);
    assert id in shards[i];
    PushKey(ids, id);
    forall k | 0 <= k < |ids|
      ensures ids[k] != id && ids[k][0] <= i
    {
      assert ids[k] in KeySet(ids);
      UnionAt(shards[..i + 1], ids[k]);
    }
  }

  lemma PushKey(ids: seq<ID>, id: ID)
    ensures KeySet(ids + [id]) == KeySet(ids) + {id}
  {
  }

  lemma {:induction false} EncodePush(m: Table, ids: seq<ID>, id: ID)
    requires id in m && KeySet(ids) <= m.Keys
    ensures KeySet(ids + [id]) <= m.Keys
    ensures EncodeRecords(m, ids + [id]) == EncodeRecords(m, ids) + EncodeRecord(id, m[id])
  {
    PushKey(ids, id);
    FirstKey(ids);
    if ids == [] {
      assert EncodeRecords(m, []) == [] && [id][1..] == [];
    } else {
      EncodePush(m, ids[1..], id);
      assert (ids + [id])[1..] == ids[1..] + [id];
    }
  }
}
