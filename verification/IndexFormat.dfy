/** The blob index as one map, its binary form, and the accounting of racing insertions. */
module IndexFormat {
  import opened Wrappers
  import opened Blob
  import opened LittleEndian

  datatype Location = Location(packID: ID, offset: Int64, length: Int64)

  type Table = map<ID, Location>

  const INDEX_MAGIC: Bytes := [0x44, 0x42, 0x49, 0x44, 0x58, 0x30, 0x30, 0x31]
  const HEADER_SIZE := 16
  const ENTRY_SIZE := 80
  const MAX_ENTRIES := 0x2000_0000

  /** The first location recorded for a blob stays. */
  function InsertInto(m: Table, id: ID, loc: Location): Table {
    if id in m then m else m[id := loc]
  }

  predicate NonNegative(loc: Location) {
    loc.offset >= 0 && loc.length >= 0
  }

  function EncodeRecord(id: ID, loc: Location): (b: Bytes)
    ensures |b| == ENTRY_SIZE
  {
    id + loc.packID + PutInt64(loc.offset) + PutInt64(loc.length)
  }

  function RecordID(b: Bytes): ID
    requires |b| == ENTRY_SIZE
  {
    b[..32]
  }

  function RecordLocation(b: Bytes): Location
    requires |b| == ENTRY_SIZE
  {
    Location(b[32..64], GetInt64(b[64..72]), GetInt64(b[72..]))
  }

  lemma RecordRoundTrip(id: ID, loc: Location)
    ensures var b := EncodeRecord(id, loc); RecordID(b) == id && RecordLocation(b) == loc
  {
    var b := EncodeRecord(id, loc);
    assert b[32..64] == loc.packID && b[64..72] == PutInt64(loc.offset) && b[72..] == PutInt64(loc.length);
    Int64RoundTrip(loc.offset);
    Int64RoundTrip(loc.length);
  }

  lemma FirstKey(ids: seq<ID>)
    ensures ids != [] ==> ids[0] in KeySet(ids) && KeySet(ids) == {ids[0]} + KeySet(ids[1..])
  {
    assert ids != [] ==> ids == [ids[0]] + ids[1..];
  }

  function EncodeRecords(m: Table, ids: seq<ID>): (b: Bytes)
    requires KeySet(ids) <= m.Keys
    ensures |b| == ENTRY_SIZE * |ids|
  {
    FirstKey(ids);
    if ids == [] then [] else EncodeRecord(ids[0], m[ids[0]]) + EncodeRecords(m, ids[1..])
  }

  function EncodeHeader(count: nat): (b: Bytes)
    requires count < TWO_63
    ensures |b| == HEADER_SIZE
  {
    Widths();
    INDEX_MAGIC + Put(count, 8)
  }

  function KeySet(ids: seq<ID>): set<ID> {
    set id | id in ids
  }

  ghost predicate NoRepeats(ids: seq<ID>) {
    forall i, j :: 0 <= i < j < |ids| ==> ids[i] != ids[j]
  }

  ghost predicate ByShard(ids: seq<ID>) {
    forall i, j :: 0 <= i < j < |ids| ==> ids[i][0] <= ids[j][0]
  }

  /** `ids` lists the keys of m once each, shard by shard, in any order within a shard. */
  ghost predicate IsOrder(m: Table, ids: seq<ID>) {
    KeySet(ids) == m.Keys && NoRepeats(ids) && ByShard(ids)
  }

  /** `b` is one of the byte strings that WriteTo may produce for m. */
  ghost predicate IsEncoding(m: Table, b: Bytes) {
    |m| < TWO_63 && exists ids :: IsOrder(m, ids) && b == EncodeHeader(|m|) + EncodeRecords(m, ids)
  }

  /** ReadFrom; None stands for its corruption error. */
  function Decode(b: Bytes): Option<Table> {
    if |b| < HEADER_SIZE || b[..8] != INDEX_MAGIC || Get(b[8..HEADER_SIZE]) > MAX_ENTRIES then
      None
    else
      DecodeRecords(map[], b[HEADER_SIZE..], Get(b[8..HEADER_SIZE]))
  }

  function DecodeRecords(m: Table, b: Bytes, count: nat): Option<Table>
    decreases count
  {
    if count == 0 then
      if b == [] then Some(m) else None
    else if |b| < ENTRY_SIZE || !NonNegative(RecordLocation(b[..ENTRY_SIZE])) then
      None
    else
      var record := b[..ENTRY_SIZE];
      DecodeRecords(InsertInto(m, RecordID(record), RecordLocation(record)), b[ENTRY_SIZE..], count - 1)
  }

  // ---- round trip ----

  lemma {:induction false} CountKeys(ids: seq<ID>)
    requires NoRepeats(ids)
    ensures |KeySet(ids)| == |ids|
  {
    if ids != [] {
      CountKeys(ids[1..]);
      FirstKey(ids);
      assert ids[0] !in ids[1..];
    }
  }

  ghost predicate AllNonNegative(m: Table) {
    forall id :: id in m ==> NonNegative(m[id])
  }

  predicate Acceptable(m: Table, ids: seq<ID>)
    requires KeySet(ids) <= m.Keys
  {
    FirstKey(ids);
    ids == [] || (NonNegative(m[ids[0]]) && Acceptable(m, ids[1..]))
  }

  lemma {:induction false} AcceptableAll(m: Table, ids: seq<ID>)
    requires KeySet(ids) <= m.Keys
    ensures Acceptable(m, ids) <==> forall id :: id in KeySet(ids) ==> NonNegative(m[id])
  {
    if ids != [] {
      FirstKey(ids);
      AcceptableAll(m, ids[1..]);
    }
  }

  /** Inserting the entries of `ids` one by one. */
  function Fill(done: Table, m: Table, ids: seq<ID>): Table
    requires KeySet(ids) <= m.Keys
    decreases |ids|
  {
    FirstKey(ids);
    if ids == [] then done else Fill(InsertInto(done, ids[0], m[ids[0]]), m, ids[1..])
  }

  lemma {:induction false} DecodeEncoded(m: Table, done: Table, ids: seq<ID>)
    requires KeySet(ids) <= m.Keys
    ensures DecodeRecords(done, EncodeRecords(m, ids), |ids|)
         == if Acceptable(m, ids) then Some(Fill(done, m, ids)) else None
    decreases |ids|
  {
    if ids != [] {
      FirstKey(ids);
      var first, rest := EncodeRecord(ids[0], m[ids[0]]), EncodeRecords(m, ids[1..]);
      assert (first + rest)[..ENTRY_SIZE] == first && (first + rest)[ENTRY_SIZE..] == rest;
      RecordRoundTrip(ids[0], m[ids[0]]);
      DecodeEncoded(m, InsertInto(done, ids[0], m[ids[0]]), ids[1..]);
    }
  }

  ghost predicate Within(a: Table, m: Table) {
    forall id :: id in a ==> id in m && a[id] == m[id]
  }

  lemma {:induction false} FillAll(done: Table, m: Table, ids: seq<ID>)
    requires KeySet(ids) <= m.Keys && Within(done, m)
    ensures Within(Fill(done, m, ids), m) && Fill(done, m, ids).Keys == done.Keys + KeySet(ids)
    decreases |ids|
  {
    if ids != [] {
      FirstKey(ids);
      FillAll(InsertInto(done, ids[0], m[ids[0]]), m, ids[1..]);
    }
  }

  lemma HeaderReads(count: nat, rest: Bytes)
    requires count < TWO_63
    ensures var b := EncodeHeader(count) + rest;
      b[..8] == INDEX_MAGIC && Get(b[8..HEADER_SIZE]) == count && b[HEADER_SIZE..] == rest
  {
    Widths();
    GetPut(count, 8);
    assert (EncodeHeader(count) + rest)[8..HEADER_SIZE] == Put(count, 8);
  }

  lemma RoundTripIn(m: Table, ids: seq<ID>)
    requires |m| < TWO_63 && IsOrder(m, ids)
    ensures |ids| == |m|
    ensures Decode(EncodeHeader(|m|) + EncodeRecords(m, ids))
         == if |m| <= MAX_ENTRIES && AllNonNegative(m) then Some(m) else None
  {
    CountKeys(ids);
    HeaderReads(|m|, EncodeRecords(m, ids));
    if |m| <= MAX_ENTRIES {
      DecodeEncoded(m, map[], ids);
      AcceptableAll(m, ids);
      FillAll(map[], m, ids);
      assert Fill(map[], m, ids) == m;
    }
  }

  /** ReadFrom inverts WriteTo, for every order in which WriteTo may visit each shard, exactly
      when the table is within the reader's limit and holds no negative offset or length;
      otherwise it reports corruption. */
  lemma RoundTrip(m: Table, b: Bytes)
    requires IsEncoding(m, b)
    ensures Decode(b) == if |m| <= MAX_ENTRIES && AllNonNegative(m) then Some(m) else None
  {
    var ids :| IsOrder(m, ids) && b == EncodeHeader(|m|) + EncodeRecords(m, ids);
    RoundTripIn(m, ids);
  }

  /** A record, byte for byte: the two IDs, then offset and length, lowest digits first. */
  ghost predicate IsRecord(r: Bytes, id: ID, loc: Location) {
    && |r| == 80 && r[..32] == id && r[32..64] == loc.packID
    && Spells(r[64..72], if loc.offset < 0 then TWO_64 + loc.offset else loc.offset)
    && Spells(r[72..], if loc.length < 0 then TWO_64 + loc.length else loc.length)
  }

  lemma RecordLayout(id: ID, loc: Location)
    ensures IsRecord(EncodeRecord(id, loc), id, loc)
  {
    var r := EncodeRecord(id, loc);
    Int64Spells(loc.offset);
    Int64Spells(loc.length);
    assert r[..32] == id && r[32..64] == loc.packID;
    assert r[64..72] == PutInt64(loc.offset) && r[72..] == PutInt64(loc.length);
  }

  lemma {:induction false} RecordsLayout(m: Table, ids: seq<ID>, j: nat)
    requires KeySet(ids) <= m.Keys && j < |ids|
    ensures ids[j] in m && IsRecord(EncodeRecords(m, ids)[80 * j..80 * (j + 1)], ids[j], m[ids[j]])
  {
    FirstKey(ids);
    var first, rest := EncodeRecord(ids[0], m[ids[0]]), EncodeRecords(m, ids[1..]);
    if j == 0 {
      RecordLayout(ids[0], m[ids[0]]);
      assert (first + rest)[..80] == first;
    } else {
      RecordsLayout(m, ids[1..], j - 1);
      assert (first + rest)[80 * j..80 * (j + 1)] == rest[80 * (j - 1)..80 * j];
    }
  }

  /** What WriteTo writes, byte for byte: the magic, the number of entries, lowest digit first,
      and a record for each entry. */
  lemma EncodingLayout(m: Table, b: Bytes) returns (ids: seq<ID>)
    requires IsEncoding(m, b)
    ensures IsOrder(m, ids) && |ids| == |m| && |b| == 16 + 80 * |m|
    ensures b[..8] == Ascii("DBIDX001") && Spells(b[8..16], |m|)
    ensures forall j :: 0 <= j < |ids| ==>
      ids[j] in m && IsRecord(b[16..][80 * j..80 * (j + 1)], ids[j], m[ids[j]])
  {
    ids :| IsOrder(m, ids) && b == EncodeHeader(|m|) + EncodeRecords(m, ids);
    CountKeys(ids);
    Widths();
    PutSpells(|m|, 8);
    assert b[..8] == INDEX_MAGIC == Ascii("DBIDX001") && b[8..16] == Put(|m|, 8);
    assert b[16..] == EncodeRecords(m, ids);
    forall j | 0 <= j < |ids|
      ensures ids[j] in m && IsRecord(b[16..][80 * j..80 * (j + 1)], ids[j], m[ids[j]])
    {
      RecordsLayout(m, ids, j);
    }
  }

  lemma PushLast(ids: seq<ID>, id: ID)
    requires NoRepeats(ids) && ByShard(ids) && forall x :: x in KeySet(ids) ==> x != id && x[0] <= id[0]
    ensures NoRepeats(ids + [id]) && ByShard(ids + [id]) && KeySet(ids + [id]) == KeySet(ids) + {id}
  {
    assert forall k :: 0 <= k < |ids| ==> ids[k] in KeySet(ids);
  }

  lemma ShardsUpTo(ids: seq<ID>, x: ID)
    requires ByShard(ids) && x in KeySet(ids)
    ensures x[0] <= ids[|ids| - 1][0]
  {
    var k :| 0 <= k < |ids| && ids[k] == x;
  }

  lemma SplitLast(ids: seq<ID>)
    requires ids != [] && NoRepeats(ids) && ByShard(ids)
    ensures var front, last := ids[..|ids| - 1], ids[|ids| - 1];
      && NoRepeats(front) && ByShard(front) && KeySet(ids) == KeySet(front) + {last} && last !in KeySet(front)
  {
    assert ids == ids[..|ids| - 1] + [ids[|ids| - 1]];
  }

  lemma {:induction false} InsertByShard(ids: seq<ID>, id: ID) returns (r: seq<ID>)
    requires NoRepeats(ids) && ByShard(ids) && id !in KeySet(ids)
    ensures NoRepeats(r) && ByShard(r) && KeySet(r) == KeySet(ids) + {id}
  {
    forall x | x in KeySet(ids)
      ensures x[0] <= ids[|ids| - 1][0]
    {
      ShardsUpTo(ids, x);
    }
    if ids == [] || ids[|ids| - 1][0] <= id[0] {
      r := ids + [id];
      PushLast(ids, id);
    } else {
      var n := |ids| - 1;
      SplitLast(ids);
      var front := InsertByShard(ids[..n], id);
      assert ids[n] in KeySet(ids);
      PushLast(front, ids[n]);
      r := front + [ids[n]];
    }
  }

  lemma {:induction false} OrderExists(keys: set<ID>) returns (ids: seq<ID>)
    ensures NoRepeats(ids) && ByShard(ids) && KeySet(ids) == keys
  {
    if keys == {} {
      ids := [];
    } else {
      var id :| id in keys;
      ids := OrderExists(keys - {id});
      ids := InsertByShard(ids, id);
    }
  }

  /** WriteTo can write every table. */
  lemma EncodingExists(m: Table) returns (b: Bytes)
    requires |m| < TWO_63
    ensures IsEncoding(m, b)
  {
    var ids := OrderExists(m.Keys);
    b := EncodeHeader(|m|) + EncodeRecords(m, ids);
  }

  /** The length is the one that the entry count in the header calls for. */
  predicate ExactLength(b: Bytes) {
    |b| >= HEADER_SIZE && |b| == HEADER_SIZE + ENTRY_SIZE * Get(b[8..HEADER_SIZE])
  }

  lemma {:induction false} RecordsLength(m: Table, b: Bytes, count: nat)
    requires DecodeRecords(m, b, count).Some?
    ensures |b| == ENTRY_SIZE * count
    decreases count
  {
    if count > 0 {
      var record := b[..ENTRY_SIZE];
      RecordsLength(InsertInto(m, RecordID(record), RecordLocation(record)), b[ENTRY_SIZE..], count - 1);
    }
  }

  lemma AcceptedLength(b: Bytes)
    requires Decode(b).Some?
    ensures ExactLength(b)
  {
    RecordsLength(map[], b[HEADER_SIZE..], Get(b[8..HEADER_SIZE]));
  }

  /** Every proper prefix and every proper extension of what WriteTo writes is rejected. */
  lemma NoPrefixNoExtension(m: Table, b: Bytes, other: Bytes)
    requires IsEncoding(m, b) && (other < b || b < other)
    ensures Decode(other) == None
  {
    var ids :| IsOrder(m, ids) && b == EncodeHeader(|m|) + EncodeRecords(m, ids);
    CountKeys(ids);
    HeaderReads(|m|, EncodeRecords(m, ids));
    if |other| >= HEADER_SIZE {
      assert other[8..HEADER_SIZE] == b[8..HEADER_SIZE];
      if Decode(other).Some? {
        AcceptedLength(other);
      }
    }
  }

  // ---- any bytes ----

  /** Record number j of a run of records. */
  function RecordAt(b: Bytes, j: nat): (r: Bytes)
    requires ENTRY_SIZE * (j + 1) <= |b|
    ensures |r| == ENTRY_SIZE
  {
    b[ENTRY_SIZE * j..ENTRY_SIZE * (j + 1)]
  }

  lemma NextRecord(b: Bytes, j: nat)
    requires ENTRY_SIZE * (j + 2) <= |b|
    ensures RecordAt(b, j + 1) == RecordAt(b[ENTRY_SIZE..], j)
  {
  }

  ghost predicate AllAcceptable(b: Bytes, count: nat)
    requires |b| == ENTRY_SIZE * count
  {
    forall j :: 0 <= j < count ==> NonNegative(RecordLocation(RecordAt(b, j)))
  }

  lemma AllNext(b: Bytes, count: nat)
    requires |b| == ENTRY_SIZE * count && count > 0
    ensures AllAcceptable(b, count) <==>
      NonNegative(RecordLocation(b[..ENTRY_SIZE])) && AllAcceptable(b[ENTRY_SIZE..], count - 1)
  {
    assert RecordAt(b, 0) == b[..ENTRY_SIZE];
    forall j | 0 <= j < count - 1
      ensures RecordAt(b[ENTRY_SIZE..], j) == RecordAt(b, j + 1)
    {
      NextRecord(b, j);
    }
    if AllAcceptable(b[ENTRY_SIZE..], count - 1) && NonNegative(RecordLocation(b[..ENTRY_SIZE])) {
      forall j | 0 <= j < count
        ensures NonNegative(RecordLocation(RecordAt(b, j)))
      {
        if j > 0 {
          assert NonNegative(RecordLocation(RecordAt(b[ENTRY_SIZE..], j - 1)));
        }
      }
    }
  }

  lemma {:induction false} RecordsIff(m: Table, b: Bytes, count: nat)
    ensures DecodeRecords(m, b, count).Some? <==> |b| == ENTRY_SIZE * count && AllAcceptable(b, count)
    decreases count
  {
    if count > 0 && |b| >= ENTRY_SIZE {
      var record := b[..ENTRY_SIZE];
      RecordsIff(InsertInto(m, RecordID(record), RecordLocation(record)), b[ENTRY_SIZE..], count - 1);
      if |b| == ENTRY_SIZE * count {
        AllNext(b, count);
      }
    }
  }

  lemma FirstShift(b: Bytes, count: nat, id: ID)
    requires |b| == ENTRY_SIZE * count && count > 0
    ensures (exists j :: 0 <= j < count && RecordID(RecordAt(b, j)) == id) <==>
      RecordID(b[..ENTRY_SIZE]) == id
      || exists j :: 0 <= j < count - 1 && RecordID(RecordAt(b[ENTRY_SIZE..], j)) == id
  {
    assert RecordAt(b, 0) == b[..ENTRY_SIZE];
    forall j | 0 <= j < count - 1
      ensures RecordAt(b[ENTRY_SIZE..], j) == RecordAt(b, j + 1)
    {
      NextRecord(b, j);
    }
    if j :| 0 <= j < count && RecordID(RecordAt(b, j)) == id {
      assert j > 0 ==> RecordAt(b[ENTRY_SIZE..], j - 1) == RecordAt(b, j);
    }
  }

  /** What was known stays, and each blob that has a record is known. */
  lemma {:induction false} KnownAfter(m: Table, b: Bytes, count: nat, id: ID)
    requires DecodeRecords(m, b, count).Some? && |b| == ENTRY_SIZE * count
    ensures var t := DecodeRecords(m, b, count).value;
      && (id in t <==> id in m || exists j :: 0 <= j < count && RecordID(RecordAt(b, j)) == id)
      && (id in m ==> t[id] == m[id])
    decreases count
  {
    if count > 0 {
      var record := b[..ENTRY_SIZE];
      KnownAfter(InsertInto(m, RecordID(record), RecordLocation(record)), b[ENTRY_SIZE..], count - 1, id);
      FirstShift(b, count, id);
    }
  }

  ghost predicate IsFirst(b: Bytes, id: ID, j: nat)
    requires ENTRY_SIZE * (j + 1) <= |b|
  {
    RecordID(RecordAt(b, j)) == id && forall i :: 0 <= i < j ==> RecordID(RecordAt(b, i)) != id
  }

  /** The first record of a blob says where it is, unless it was known before. */
  lemma {:induction false} FirstRecord(m: Table, b: Bytes, count: nat, id: ID, j: nat)
    requires DecodeRecords(m, b, count).Some? && |b| == ENTRY_SIZE * count && j < count && id !in m
    requires IsFirst(b, id, j)
    ensures var t := DecodeRecords(m, b, count).value; id in t && t[id] == RecordLocation(RecordAt(b, j))
    decreases count
  {
    var record, rest := b[..ENTRY_SIZE], b[ENTRY_SIZE..];
    var next := InsertInto(m, RecordID(record), RecordLocation(record));
    assert RecordAt(b, 0) == record;
    if j == 0 {
      KnownAfter(next, rest, count - 1, id);
    } else {
      forall i | 0 <= i < j
        ensures RecordAt(rest, i) == RecordAt(b, i + 1)
      {
        NextRecord(b, i);
      }
      FirstRecord(next, rest, count - 1, id, j - 1);
    }
  }

  /** Which byte strings decode, whoever wrote them: the magic, a count within the limit, exactly
      that many records, and no sign bit in any offset or length. */
  lemma DecodesIff(b: Bytes)
    ensures Decode(b).Some? <==>
      && |b| >= 16 && b[..8] == Ascii("DBIDX001") && Get(b[8..16]) <= 0x2000_0000
      && |b| == 16 + 80 * Get(b[8..16])
      && forall j :: 0 <= j < Get(b[8..16]) ==>
           RecordAt(b[16..], j)[71] < 128 && RecordAt(b[16..], j)[79] < 128
  {
    assert INDEX_MAGIC == Ascii("DBIDX001");
    if |b| >= 16 {
      RecordsIff(map[], b[16..], Get(b[8..16]));
      forall r: Bytes | |r| == ENTRY_SIZE
        ensures NonNegative(RecordLocation(r)) <==> r[71] < 128 && r[79] < 128
      {
        SignBit(r[64..72]);
        SignBit(r[72..]);
      }
    }
  }

  /** And what they decode to: the blobs that have a record, each at the location in its first. */
  lemma DecodesTo(b: Bytes, id: ID)
    requires Decode(b).Some?
    ensures ExactLength(b)
    ensures id in Decode(b).value <==>
      exists j :: 0 <= j < Get(b[8..16]) && RecordID(RecordAt(b[16..], j)) == id
    ensures forall j :: 0 <= j < Get(b[8..16]) && IsFirst(b[16..], id, j) ==>
      id in Decode(b).value && Decode(b).value[id] == RecordLocation(RecordAt(b[16..], j))
  {
    AcceptedLength(b);
    KnownAfter(map[], b[16..], Get(b[8..16]), id);
    forall j | 0 <= j < Get(b[8..16]) && IsFirst(b[16..], id, j)
      ensures id in Decode(b).value && Decode(b).value[id] == RecordLocation(RecordAt(b[16..], j))
    {
      FirstRecord(map[], b[16..], Get(b[8..16]), id, j);
    }
  }

  // ---- racing insertions ----

  /** Operations on the index, in the order in which their shard locks were taken. */
  datatype Op = Insert(id: ID, loc: Location) | Delete(id: ID)

  function Effect(m: Table, op: Op): Table {
    match op
    case Insert(id, loc) => InsertInto(m, id, loc)
    case Delete(id) => m - {id}
  }

  /** What the caller is told: whether this call inserted, or deleted, the blob. */
  predicate Answer(m: Table, op: Op) {
    match op
    case Insert(id, _) => id !in m
    case Delete(id) => id in m
  }

  function AfterOps(m: Table, ops: seq<Op>): Table {
    if ops == [] then m else Effect(AfterOps(m, ops[..|ops| - 1]), ops[|ops| - 1])
  }

  /** How many of the operations on `id` of the given kind were answered true. */
  function TrueAnswers(m: Table, ops: seq<Op>, id: ID, inserts: bool): nat {
    if ops == [] then
      0
    else
      var init, op := ops[..|ops| - 1], ops[|ops| - 1];
      TrueAnswers(m, init, id, inserts)
        + if op.id == id && op.Insert? == inserts && Answer(AfterOps(m, init), op) then 1 else 0
  }

  function Present(m: Table, id: ID): nat {
    if id in m then 1 else 0
  }

  /** However calls interleave, true insertions minus true deletions of a blob is its presence. */
  lemma {:induction false} InsertsMinusDeletes(m: Table, ops: seq<Op>, id: ID)
    ensures Present(m, id) + TrueAnswers(m, ops, id, true) - TrueAnswers(m, ops, id, false)
         == Present(AfterOps(m, ops), id)
  {
    if ops != [] {
      InsertsMinusDeletes(m, ops[..|ops| - 1], id);
    }
  }

  lemma {:induction false} NoDeletions(m: Table, ops: seq<Op>, id: ID)
    requires forall k :: 0 <= k < |ops| ==> ops[k].Delete? ==> ops[k].id != id
    ensures TrueAnswers(m, ops, id, false) == 0
    ensures (id in m || exists k :: 0 <= k < |ops| && ops[k].id == id) ==> id in AfterOps(m, ops)
    ensures id in m ==> AfterOps(m, ops)[id] == m[id]
  {
    if ops != [] {
      NoDeletions(m, ops[..|ops| - 1], id);
    }
  }

  /** Of any number of racing insertions of one absent blob exactly one is told it inserted. */
  lemma OneInserterWins(m: Table, ops: seq<Op>, id: ID)
    requires id !in m && forall k :: 0 <= k < |ops| ==> ops[k].Delete? ==> ops[k].id != id
    requires exists k :: 0 <= k < |ops| && ops[k].id == id
    ensures TrueAnswers(m, ops, id, true) == 1
  {
    NoDeletions(m, ops, id);
    InsertsMinusDeletes(m, ops, id);
  }
}
