/** Loading an index from a reader: what ReadFrom accepts, which is not always what it should. */
module IndexLoad {
  import opened Wrappers
  import opened Blob
  import opened LittleEndian
  import opened IndexFormat
  import opened Readers

  /** The table at the start of these bytes, and what follows it. */
  datatype Prefix = Prefix(table: Table, tail: Bytes)

  function RecordsPrefix(m: Table, b: Bytes, count: nat): Option<Prefix>
    decreases count
  {
    if count == 0 then
      Some(Prefix(m, b))
    else if |b| < ENTRY_SIZE || !NonNegative(RecordLocation(b[..ENTRY_SIZE])) then
      None
    else
      var record := b[..ENTRY_SIZE];
      RecordsPrefix(InsertInto(m, RecordID(record), RecordLocation(record)), b[ENTRY_SIZE..], count - 1)
  }

  predicate GoodHeader(b: Bytes) {
    |b| >= HEADER_SIZE && b[..8] == INDEX_MAGIC && Get(b[8..HEADER_SIZE]) <= MAX_ENTRIES
  }

  function TablePrefix(b: Bytes): Option<Prefix> {
    if GoodHeader(b) then RecordsPrefix(map[], b[HEADER_SIZE..], Get(b[8..HEADER_SIZE])) else None
  }

  lemma {:induction false} DecodeIsWhole(m: Table, b: Bytes, count: nat)
    ensures DecodeRecords(m, b, count) == (var p := RecordsPrefix(m, b, count);
                                           if p.Some? && p.value.tail == [] then Some(p.value.table) else None)
    decreases count
  {
    if count > 0 && |b| >= ENTRY_SIZE {
      var record := b[..ENTRY_SIZE];
      DecodeIsWhole(InsertInto(m, RecordID(record), RecordLocation(record)), b[ENTRY_SIZE..], count - 1);
    }
  }

  /** The reader once that many records have been read. */
  function AfterRecords(s: Stream, count: nat): (t: Stream)
    requires s.Valid() && ENTRY_SIZE * count <= |s.rest|
    ensures t.Valid() && t.final == s.final && t.rest == s.rest[ENTRY_SIZE * count..]
    decreases count
  {
    if count == 0 then s else AfterRecords(AfterFull(s, ENTRY_SIZE), count - 1)
  }

  lemma {:induction false} PrefixLength(m: Table, b: Bytes, count: nat)
    requires RecordsPrefix(m, b, count).Some?
    ensures ENTRY_SIZE * count <= |b| && RecordsPrefix(m, b, count).value.tail == b[ENTRY_SIZE * count..]
    decreases count
  {
    if count > 0 {
      var record := b[..ENTRY_SIZE];
      PrefixLength(InsertInto(m, RecordID(record), RecordLocation(record)), b[ENTRY_SIZE..], count - 1);
    }
  }

  /** The reader when ReadFrom makes its last call, which asks for one byte more. */
  function AtProbe(s: Stream): (t: Stream)
    requires s.Valid() && TablePrefix(s.rest).Some?
    ensures t.Valid() && t.final == s.final && t.rest == TablePrefix(s.rest).value.tail
  {
    PrefixLength(map[], s.rest[HEADER_SIZE..], Get(s.rest[8..HEADER_SIZE]));
    AfterRecords(AfterFull(s, HEADER_SIZE), Get(s.rest[8..HEADER_SIZE]))
  }

  /** What that call returns. */
  function Probe(s: Stream): Delivery
    requires s.Valid() && TablePrefix(s.rest).Some?
  {
    Got(AtProbe(s), 1)
  }

  /** What ReadFrom makes of a reader: it takes an error from the last call, any error, to mean
      that nothing follows the declared entries. */
  function Load(s: Stream): Option<Table>
    requires s.Valid()
  {
    if TablePrefix(s.rest).Some? && Probe(s).err.Some? then Some(TablePrefix(s.rest).value.table) else None
  }

  lemma NoHeader(s: Stream)
    requires s.Valid() && !GoodHeader(s.rest)
    ensures Load(s) == None
  {
  }

  lemma NoTable(s: Stream, count: nat, first: Stream)
    requires s.Valid() && GoodHeader(s.rest) && count == Get(s.rest[8..HEADER_SIZE])
    requires first == AfterFull(s, HEADER_SIZE) && RecordsPrefix(map[], first.rest, count).None?
    ensures Load(s) == None
  {
  }

  lemma TableRead(s: Stream, count: nat, first: Stream, last: Stream)
    requires s.Valid() && GoodHeader(s.rest) && count == Get(s.rest[8..HEADER_SIZE])
    requires first == AfterFull(s, HEADER_SIZE) && RecordsPrefix(map[], first.rest, count).Some?
    requires ENTRY_SIZE * count <= |first.rest| && last == AfterRecords(first, count)
    ensures Load(s) ==
      if Got(last, 1).err.Some? then Some(RecordsPrefix(map[], first.rest, count).value.table) else None
  {
  }

  /** ReadFrom agrees with the decoder of the delivered bytes if and only if its last call neither
      gets a byte together with an error, nor gets nothing and no error when all has been read. */
  lemma LoadIff(s: Stream)
    requires s.Valid()
    ensures Load(s) == Decode(s.rest) <==>
      (TablePrefix(s.rest).Some? ==>
        var d := Probe(s);
        !(d.data != [] && d.err.Some?) && !(TablePrefix(s.rest).value.tail == [] && d.err.None?))
  {
    if GoodHeader(s.rest) {
      DecodeIsWhole(map[], s.rest[HEADER_SIZE..], Get(s.rest[8..HEADER_SIZE]));
    }
  }

  /** A reader that never reports its error together with data, and never returns (0, nil). */
  predicate Steady(s: Stream) {
    forall k :: 0 <= k < |s.plan| ==> s.plan[k].most > 0 && !s.plan[k].eager
  }

  lemma {:induction false} SteadyFull(s: Stream, want: nat)
    requires s.Valid() && Steady(s) && want <= |s.rest|
    ensures Steady(AfterFull(s, want))
    decreases s.Patience()
  {
    if want > 0 && |Got(s, want).data| < want {
      SteadyFull(Left(s, want), want - |Got(s, want).data|);
    }
  }

  lemma {:induction false} SteadyRecords(s: Stream, count: nat)
    requires s.Valid() && Steady(s) && ENTRY_SIZE * count <= |s.rest|
    ensures Steady(AfterRecords(s, count))
    decreases count
  {
    if count > 0 {
      SteadyFull(s, ENTRY_SIZE);
      SteadyRecords(AfterFull(s, ENTRY_SIZE), count - 1);
    }
  }

  /** Such a reader, as a file or a byte buffer is, is read exactly. */
  lemma SteadyLoads(s: Stream)
    requires s.Valid() && Steady(s)
    ensures Load(s) == Decode(s.rest)
  {
    if TablePrefix(s.rest).Some? {
      var count := Get(s.rest[8..HEADER_SIZE]);
      PrefixLength(map[], s.rest[HEADER_SIZE..], count);
      SteadyFull(s, HEADER_SIZE);
      SteadyRecords(AfterFull(s, HEADER_SIZE), count);
    }
    LoadIff(s);
  }

  // ---- what WriteTo wrote, cut short or extended ----

  lemma {:induction false} RecordsThen(m: Table, b: Bytes, count: nat, extra: Bytes)
    requires DecodeRecords(m, b, count).Some?
    ensures RecordsPrefix(m, b + extra, count) == Some(Prefix(DecodeRecords(m, b, count).value, extra))
    decreases count
  {
    if count == 0 {
      assert b + extra == extra;
    } else {
      var record := b[..ENTRY_SIZE];
      assert (b + extra)[..ENTRY_SIZE] == record && (b + extra)[ENTRY_SIZE..] == b[ENTRY_SIZE..] + extra;
      RecordsThen(InsertInto(m, RecordID(record), RecordLocation(record)), b[ENTRY_SIZE..], count - 1, extra);
    }
  }

  lemma TableThen(b: Bytes, extra: Bytes)
    requires Decode(b).Some?
    ensures TablePrefix(b + extra) == Some(Prefix(Decode(b).value, extra))
  {
    var whole := b + extra;
    assert whole[..8] == b[..8] && whole[8..HEADER_SIZE] == b[8..HEADER_SIZE];
    assert whole[HEADER_SIZE..] == b[HEADER_SIZE..] + extra;
    RecordsThen(map[], b[HEADER_SIZE..], Get(b[8..HEADER_SIZE]), extra);
  }

  /** What becomes of the output of WriteTo. Cut short it is never loaded. Whole, it is loaded
      unless the last call returns (0, nil). Extended, it is loaded exactly when one byte follows
      and the last call returns it together with the error. */
  lemma LoadEncoding(m: Table, b: Bytes, s: Stream)
    requires IsEncoding(m, b) && |m| <= MAX_ENTRIES && AllNonNegative(m) && s.Valid()
    ensures s.rest < b ==> Load(s) == None
    ensures b <= s.rest ==> TablePrefix(s.rest) == Some(Prefix(m, s.rest[|b|..]))
    ensures s.rest == b ==> (Load(s) == Some(m) <==> Probe(s).err.Some?) && (Load(s).None? <==> Probe(s).err.None?)
    ensures b < s.rest ==> (Load(s).Some? <==> |s.rest| == |b| + 1 && Probe(s).data != [] && Probe(s).err.Some?)
  {
    RoundTrip(m, b);
    if s.rest < b {
      CutShort(m, b, s.rest);
    } else if b <= s.rest {
      assert s.rest == b + s.rest[|b|..];
      TableThen(b, s.rest[|b|..]);
    }
  }

  lemma CutShort(m: Table, b: Bytes, other: Bytes)
    requires IsEncoding(m, b) && other < b
    ensures TablePrefix(other).None?
  {
    var ids :| IsOrder(m, ids) && b == EncodeHeader(|m|) + EncodeRecords(m, ids);
    CountKeys(ids);
    HeaderReads(|m|, EncodeRecords(m, ids));
    if TablePrefix(other).Some? {
      assert other[8..HEADER_SIZE] == b[8..HEADER_SIZE];
      PrefixLength(map[], other[HEADER_SIZE..], |m|);
    }
  }

  // ---- readers for which it goes wrong ----

  /** A reader that fills each of the first calls, and then answers as given. */
  function Filling(b: Bytes, calls: nat, last: seq<Answer>): (s: Stream)
    ensures s.Valid() && s.rest == b
  {
    Stream(b, seq(calls, _ => Answer(ENTRY_SIZE, false)) + last, EndOfFile, false)
  }

  lemma FillingFull(b: Bytes, calls: nat, last: seq<Answer>, want: nat)
    requires calls > 0 && 0 < want <= ENTRY_SIZE && want <= |b|
    ensures AfterFull(Filling(b, calls, last), want) == Filling(b[want..], calls - 1, last)
  {
    var s := Filling(b, calls, last);
    assert s.plan[1..] == Filling(b[want..], calls - 1, last).plan;
  }

  lemma {:induction false} FillingRecords(b: Bytes, count: nat, last: seq<Answer>)
    requires ENTRY_SIZE * count <= |b|
    ensures AfterRecords(Filling(b, count, last), count) == Filling(b[ENTRY_SIZE * count..], 0, last)
    decreases count
  {
    if count > 0 {
      FillingFull(b, count, last, ENTRY_SIZE);
      FillingRecords(b[ENTRY_SIZE..], count - 1, last);
    }
  }

  lemma FilledProbe(whole: Bytes, last: Answer) returns (s: Stream)
    requires TablePrefix(whole).Some?
    ensures s.Valid() && s.rest == whole
    ensures AtProbe(s) == Stream(TablePrefix(whole).value.tail, [last], EndOfFile, false)
  {
    var count, body := Get(whole[8..HEADER_SIZE]), whole[HEADER_SIZE..];
    PrefixLength(map[], body, count);
    s := Filling(whole, count + 1, [last]);
    FillingFull(whole, count + 1, [last], HEADER_SIZE);
    FillingRecords(body, count, [last]);
    assert Filling(body[ENTRY_SIZE * count..], 0, [last]).plan == [last];
  }

  lemma FillingProbe(m: Table, b: Bytes, extra: Bytes, last: Answer) returns (s: Stream)
    requires IsEncoding(m, b) && |m| <= MAX_ENTRIES && AllNonNegative(m)
    ensures s.Valid() && s.rest == b + extra && TablePrefix(s.rest) == Some(Prefix(m, extra))
    ensures AtProbe(s) == Stream(extra, [last], EndOfFile, false)
  {
    RoundTrip(m, b);
    TableThen(b, extra);
    s := FilledProbe(b + extra, last);
  }

  /** Any table, followed by any one byte, is loaded from a reader that returns that byte together
      with the end of the file. */
  lemma ExtraByteLoads(m: Table, b: Bytes, x: byte) returns (s: Stream)
    requires IsEncoding(m, b) && |m| <= MAX_ENTRIES && AllNonNegative(m)
    ensures s.Valid() && s.rest == b + [x] && Load(s) == Some(m) && Decode(b + [x]) == None
  {
    s := FillingProbe(m, b, [x], Answer(1, true));
    NoPrefixNoExtension(m, b, b + [x]);
  }

  /** Any table is refused from a reader that has delivered it and then returns (0, nil). */
  lemma WholeIndexRefused(m: Table, b: Bytes) returns (s: Stream)
    requires IsEncoding(m, b) && |m| <= MAX_ENTRIES && AllNonNegative(m)
    ensures s.Valid() && s.rest == b && Load(s) == None && Decode(b) == Some(m)
  {
    s := FillingProbe(m, b, [], Answer(0, false));
    assert b + [] == b;
    RoundTrip(m, b);
  }
}
