/** The pack writer and reader as objects, proved against the format. */
module Pack {
  import opened Wrappers
  import opened Blob
  import opened LittleEndian
  import opened PackFormat

  /** ParseTail: the checks in order, then a loop over the entries. */
  method ParseTail(c: Codec, tail: Bytes, packSize: Int64) returns (r: Parsed)
    ensures r == TailResult(c, tail, packSize)
  {
    if |tail| > packSize {
      return Failed(Invalid);
    }
    if |tail| < TRAILER_SIZE {
      return ShortTail(TRAILER_SIZE);
    }
    var trailer := tail[|tail| - TRAILER_SIZE..];
    if trailer[4..] != MAGIC {
      return Failed(Corrupt);
    }
    var headerLen := Get(trailer[..4]);
    if headerLen == 0 || headerLen > MAX_HEADER_SIZE || headerLen + TRAILER_SIZE > packSize {
      return Failed(Corrupt);
    }
    var need := headerLen + TRAILER_SIZE;
    if |tail| < need {
      return ShortTail(need);
    }
    var encoded := tail[|tail| - need..|tail| - TRAILER_SIZE];
    match c.decode(encoded)
    case None => return Failed(Corrupt);
    case Some(hdr) =>
      if hdr.version != FORMAT_VERSION {
        return Failed(Unsupported);
      }
      if |hdr.entries| == 0 {
        return Failed(Corrupt);
      }
      var dataEnd := packSize - need;
      for i := 0 to |hdr.entries|
        invariant EntriesAccepted(hdr.entries[..i], dataEnd)
      {
        var e := hdr.entries[i];
        if e.offset < 0 || e.length < 0 || AddInt64(e.offset, e.length) > dataEnd {
          return Failed(Corrupt);
        }
        assert hdr.entries[..i + 1] == hdr.entries[..i] + [e];
      }
      assert hdr.entries[..|hdr.entries|] == hdr.entries;
      return Found(hdr);
  }

  /** The writer. `out` is what it has written to its buffer; `items` are the blobs added. */
  class Writer {
    const hash: Digest
    const codec: Codec
    var out: Bytes
    var entries: seq<Entry>
    var seen: set<ID>
    var offset: nat
    var done: bool
    ghost var items: seq<Item>

    ghost predicate Valid()
      reads this
    {
      && Describes(hash, items, entries, seen, offset)
      && if done then Finishable(codec, items) && out == PackBytes(codec, items) else out == Region(items)
    }

    constructor (hash: Digest, codec: Codec)
      ensures Valid() && items == [] && !done
      ensures this.hash == hash && this.codec == codec
    {
      this.hash := hash;
      this.codec := codec;
      out, entries, seen, offset, done, items := [], [], {}, 0, false, [];
    }

    /** Adds a blob, unless the writer is finished, the address is the zero ID or not that of
        the bytes, or the blob is already in the pack. The whole pack is held in memory, so its
        size stays an int64. */
    method Add(id: ID, data: Bytes) returns (added: bool, err: Option<Error>)
      requires Valid() && offset + |data| < TWO_63
      modifies this
      ensures Valid() && done == old(done)
      ensures err == (if old(done) || id == ZERO then Some(Invalid)
                      else if hash(data) != id then Some(Corrupt) else None)
      ensures added <==> err.None? && id !in old(IdSet(items))
      ensures items == if added then old(items) + [Item(id, data)] else old(items)
    {
      if done || id == ZERO {
        return false, Some(Invalid);
      }
      if hash(data) != id {
        return false, Some(Corrupt);
      }
      if id in seen {
        return false, None;
      }
      Append(Item(id, data));
      return true, None;
    }

    /** Writes the bytes and records their entry. */
    method Append(it: Item)
      requires Valid() && !done && offset + |it.data| < TWO_63
      requires it.id == hash(it.data) && it.id != ZERO && it.id !in seen
      modifies this
      ensures Valid() && !done && items == old(items) + [it]
    {
      AddedItem(hash, items, entries, seen, offset, it);
      out := out + it.data;
      entries := entries + [Entry(it.id, offset, |it.data|)];
      seen := seen + {it.id};
      offset := offset + |it.data|;
      items := items + [it];
    }

    /** Writes header and trailer, once, if the pack is not empty and its header is not too
        long; the pack's address is the digest of all its bytes. */
    method Finish() returns (r: Option<(ID, Header)>, err: Option<Error>)
      requires Valid() && offset + MAX_HEADER_SIZE + TRAILER_SIZE < TWO_63
      modifies this
      ensures Valid() && items == old(items)
      ensures done == (old(done) || r.Some?)
      ensures r.Some? <==> !old(done) && Finishable(codec, items)
      ensures r.Some? ==> err.None? && r.value.0 == hash(PackBytes(codec, items)) && r.value.1 == HeaderOf(items)
      ensures r.None? ==> err == Some(Invalid)
    {
      if done || |entries| == 0 {
        return None, Some(Invalid);
      }
      var header := Header(FORMAT_VERSION, entries);
      var encoded := codec.encode(header);
      if |encoded| > MAX_HEADER_SIZE {
        return None, Some(Invalid);
      }
      out := out + encoded;
      out := out + Trailer(|encoded|);
      done := true;
      return Some((hash(out), header)), None;
    }
  }

  /** The writer's fields describe the blobs added: distinct, each under its own address. */
  ghost predicate Describes(h: Digest, items: seq<Item>, entries: seq<Entry>, seen: set<ID>, offset: nat) {
    && Authentic(h, items) && Distinct(items) && seen == IdSet(items)
    && offset == Size(items) < TWO_63 && entries == EntriesOf(items)
  }

  lemma AddedItem(h: Digest, items: seq<Item>, entries: seq<Entry>, seen: set<ID>, offset: nat, it: Item)
    requires Describes(h, items, entries, seen, offset) && offset + |it.data| < TWO_63
    requires it.id == h(it.data) && it.id != ZERO && it.id !in seen
    ensures Describes(h, items + [it], entries + [Entry(it.id, offset, |it.data|)], seen + {it.id},
                      offset + |it.data|)
    ensures Region(items + [it]) == Region(items) + it.data
  {
    SizePush(items, it);
    IdSetPush(items, it);
    DistinctPush(items, it);
    FormatPush(items, it);
  }

  lemma FormatPush(items: seq<Item>, it: Item)
    requires Size(items) + |it.data| < TWO_63
    ensures Size(items + [it]) == Size(items) + |it.data|
    ensures EntriesOf(items + [it]) == EntriesOf(items) + [Entry(it.id, Size(items), |it.data|)]
    ensures Region(items + [it]) == Region(items) + it.data
  {
    assert (items + [it])[..|items|] == items;
  }

  /** Header recovery with one sized retry: at most two reads, on any bytes at all; on a
      finished pack, the header that was written. */
  method ReadPackHeader(c: Codec, pack: Bytes) returns (r: Parsed, fetches: nat)
    requires |pack| < TWO_63
    ensures 1 <= fetches <= 2
    ensures r == HeaderResult(c, pack)
  {
    var tailLen: nat := SUGGESTED_TAIL_SIZE;
    if tailLen > |pack| {
      tailLen := |pack|;
    }
    fetches := 0;
    for attempt := 0 to 2
      invariant fetches == attempt && tailLen <= |pack| && attempt < 2
      invariant attempt == 0 ==> tailLen == Guess(pack)
      invariant attempt == 1 ==> TailResult(c, TailOf(pack, Guess(pack)), |pack|) == ShortTail(tailLen)
    {
      var tail := TailOf(pack, tailLen);
      fetches := fetches + 1;
      r := ParseTail(c, tail, |pack|);
      if attempt == 0 && r.ShortTail? && r.need <= |pack| {
        tailLen := r.need;
        continue;
      }
      return;
    }
    // Past two attempts: unreachable.
    assert false;
  }

  function Guess(pack: Bytes): (n: nat)
    ensures n <= |pack| && n <= SUGGESTED_TAIL_SIZE
  {
    if |pack| < SUGGESTED_TAIL_SIZE then |pack| else SUGGESTED_TAIL_SIZE
  }

  function HeaderResult(c: Codec, pack: Bytes): Parsed
    requires |pack| < TWO_63
  {
    var first := TailResult(c, TailOf(pack, Guess(pack)), |pack|);
    if first.ShortTail? && first.need <= |pack| then TailResult(c, TailOf(pack, first.need), |pack|) else first
  }

  /** A tail that is long enough yields what the whole file would. */
  lemma LongEnough(c: Codec, pack: Bytes, t: nat)
    requires |pack| < TWO_63 && t <= |pack| && !TailResult(c, TailOf(pack, t), |pack|).ShortTail?
    ensures TailResult(c, TailOf(pack, t), |pack|) == TailResult(c, pack, |pack|)
  {
    var tail := TailOf(pack, t);
    assert tail[t - TRAILER_SIZE..] == pack[|pack| - TRAILER_SIZE..];
    var need := Get(tail[t - TRAILER_SIZE..][..4]) + TRAILER_SIZE;
    if need <= t {
      assert tail[t - need..t - TRAILER_SIZE] == pack[|pack| - need..|pack| - TRAILER_SIZE];
    }
  }

  lemma ThatIsEnough(c: Codec, pack: Bytes, t: nat)
    requires |pack| < TWO_63 && t <= |pack|
    requires var r := TailResult(c, TailOf(pack, t), |pack|); r.ShortTail? && r.need <= |pack|
    requires t >= TRAILER_SIZE || t == |pack|
    ensures !TailResult(c, TailOf(pack, TailResult(c, TailOf(pack, t), |pack|).need), |pack|).ShortTail?
  {
    var tail, need := TailOf(pack, t), TailResult(c, TailOf(pack, t), |pack|).need;
    assert tail[t - TRAILER_SIZE..] == pack[|pack| - TRAILER_SIZE..];
    assert TailOf(pack, need)[need - TRAILER_SIZE..] == pack[|pack| - TRAILER_SIZE..];
  }

  /** Two reads of the end of any file, at most, yield what reading all of it would. */
  lemma TailIsAsGoodAsWhole(c: Codec, pack: Bytes)
    requires |pack| < TWO_63
    ensures HeaderResult(c, pack) == TailResult(c, pack, |pack|)
  {
    assert TailOf(pack, |pack|) == pack;
    var first := TailResult(c, TailOf(pack, Guess(pack)), |pack|);
    if !first.ShortTail? {
      LongEnough(c, pack, Guess(pack));
    } else if first.need <= |pack| {
      ThatIsEnough(c, pack, Guess(pack));
      LongEnough(c, pack, first.need);
    }
  }

  /** Whatever Finish wrote is read back, for any number of entries. */
  lemma {:induction false} HeaderRecovered(c: Codec, items: seq<Item>)
    requires RoundTrips(c) && Finishable(c, items)
    ensures HeaderResult(c, PackBytes(c, items)) == Found(HeaderOf(items))
  {
    var pack := PackBytes(c, items);
    TailRecovery(c, items, Guess(pack));
    if Guess(pack) < Need(c, items) {
      assert Guess(pack) == SUGGESTED_TAIL_SIZE;
      TailRecovery(c, items, Need(c, items));
    }
  }

  lemma RegionFirst(c: Codec, items: seq<Item>)
    requires Finishable(c, items)
    ensures Size(items) <= |PackBytes(c, items)| && Region(items) == PackBytes(c, items)[..Size(items)]
  {
  }

  lemma {:induction false} SameHeaderSameEnd(items: seq<Item>, items': seq<Item>)
    requires Size(items) < TWO_63 && Size(items') < TWO_63 && EntriesOf(items) == EntriesOf(items') && items != []
    ensures Size(items) == Size(items')
  {
    EntriesTile(items, |items| - 1);
    EntriesTile(items', |items'| - 1);
  }

  /** A finished pack is not mistaken for another: its bytes determine its header. */
  lemma {:induction false} SamePackSameHeader(c: Codec, items: seq<Item>, items': seq<Item>)
    requires RoundTrips(c) && Finishable(c, items) && Finishable(c, items')
    requires PackBytes(c, items) == PackBytes(c, items')
    ensures HeaderOf(items) == HeaderOf(items') && Region(items) == Region(items')
  {
    HeaderRecovered(c, items);
    HeaderRecovered(c, items');
    SameHeaderSameEnd(items, items');
    RegionFirst(c, items);
    RegionFirst(c, items');
  }

  /** NewReader differs from readPackHeader in its errors: a pack below the trailer size, or a
      header longer than the pack, is corrupt. */
  function ReaderResult(c: Codec, pack: Bytes): Parsed
    requires |pack| < TWO_63
  {
    if |pack| < TRAILER_SIZE then
      Failed(Corrupt)
    else
      var r := HeaderResult(c, pack);
      if r.ShortTail? && r.need > |pack| then Failed(Corrupt) else r
  }

  function ByID(entries: seq<Entry>): (m: map<ID, Entry>)
    ensures forall id :: id in m ==> m[id] in entries && m[id].id == id
    ensures forall k :: 0 <= k < |entries| ==> entries[k].id in m
  {
    if entries == [] then
      map[]
    else
      var n := |entries| - 1;
      ByID(entries[..n])[entries[n].id := entries[n]]
  }

  /** The bytes an entry names, if they lie in the pack. */
  function Slice(pack: Bytes, e: Entry): Option<Bytes> {
    if 0 <= e.offset && 0 <= e.length && e.offset + e.length <= |pack| then
      Some(pack[e.offset..e.offset + e.length])
    else
      None
  }

  datatype Read = Data(data: Bytes) | Error(error: Error)

  class Reader {
    const hash: Digest
    const pack: Bytes
    const header: Header
    const byID: map<ID, Entry>

    constructor (hash: Digest, pack: Bytes, header: Header, byID: map<ID, Entry>)
      ensures this.hash == hash && this.pack == pack && this.header == header && this.byID == byID
    {
      this.hash := hash;
      this.pack := pack;
      this.header := header;
      this.byID := byID;
    }

    /** What is returned always hashes to the address asked for. */
    method ReadBlob(id: ID) returns (r: Read)
      ensures r.Data? <==> id in byID && Slice(pack, byID[id]).Some? && hash(Slice(pack, byID[id]).value) == id
      ensures r.Data? ==> Some(r.data) == Slice(pack, byID[id]) && hash(r.data) == id
      ensures id !in byID ==> r == Error(NotFound)
      ensures id in byID && Slice(pack, byID[id]).None? ==> r == Error(Transient)
      ensures id in byID && Slice(pack, byID[id]).Some? && hash(Slice(pack, byID[id]).value) != id ==>
        r == Error(Corrupt)
    {
      if id !in byID {
        return Error(NotFound);
      }
      var e := byID[id];
      if e.offset < 0 || e.length < 0 || e.offset + e.length > |pack| {
        return Error(Transient);
      }
      var data := pack[e.offset..e.offset + e.length];
      if hash(data) != id {
        return Error(Corrupt);
      }
      return Data(data);
    }

    /** Succeeds exactly when every entry reads back and verifies, and counts them. */
    method VerifyAll() returns (n: nat, ok: bool)
      requires byID == ByID(header.entries)
      ensures ok <==> forall k :: 0 <= k < |header.entries| ==> Intact(header.entries[k].id)
      ensures n == if ok then |header.entries| else 0
    {
      for i := 0 to |header.entries|
        invariant forall k :: 0 <= k < i ==> Intact(header.entries[k].id)
      {
        var r := ReadBlob(header.entries[i].id);
        if r.Error? {
          return 0, false;
        }
      }
      return |header.entries|, true;
    }

    predicate Intact(id: ID) {
      id in byID && Slice(pack, byID[id]).Some? && hash(Slice(pack, byID[id]).value) == id
    }
  }

  method IndexEntries(entries: seq<Entry>) returns (byID: map<ID, Entry>)
    ensures byID == ByID(entries)
  {
    byID := map[];
    for i := 0 to |entries|
      invariant byID == ByID(entries[..i])
    {
      byID := byID[entries[i].id := entries[i]];
      assert entries[..i + 1][..i] == entries[..i];
    }
    assert entries[..|entries|] == entries;
  }

  method NewReader(hash: Digest, c: Codec, pack: Bytes) returns (r: Parsed, rd: Option<Reader>, fetches: nat)
    requires |pack| < TWO_63
    ensures r == ReaderResult(c, pack) && fetches <= 2 && (rd.Some? <==> r.Found?)
    ensures r.Found? ==>
      && rd.value.hash == hash && rd.value.pack == pack && rd.value.header == r.header
      && rd.value.byID == ByID(r.header.entries)
  {
    fetches := 0;
    if |pack| < TRAILER_SIZE {
      return Failed(Corrupt), None, fetches;
    }
    var tailLen: nat := SUGGESTED_TAIL_SIZE;
    if tailLen > |pack| {
      tailLen := |pack|;
    }
    r := ParseTail(c, TailOf(pack, tailLen), |pack|);
    fetches := 1;
    if !r.Found? {
      if r.ShortTail? {
        if r.need > |pack| {
          return Failed(Corrupt), None, fetches;
        }
        r := ParseTail(c, TailOf(pack, r.need), |pack|);
        fetches := 2;
      }
      if !r.Found? {
        return r, None, fetches;
      }
    }
    var byID := IndexEntries(r.header.entries);
    var reader := new Reader(hash, pack, r.header, byID);
    rd := Some(reader);
  }

  lemma EntryById(entries: seq<Entry>, k: nat)
    requires k < |entries| && forall i, j :: 0 <= i < j < |entries| ==> entries[i].id != entries[j].id
    ensures entries[k].id in ByID(entries) && ByID(entries)[entries[k].id] == entries[k]
  {
    var e := ByID(entries)[entries[k].id];
    var i :| 0 <= i < |entries| && entries[i] == e;
  }

  lemma {:induction false} SameKeys(items: seq<Item>, es: seq<Entry>)
    requires |es| == |items| && forall k :: 0 <= k < |items| ==> es[k].id == items[k].id
    ensures ByID(es).Keys == IdSet(items)
  {
    forall id | id in ByID(es)
      ensures id in IdSet(items)
    {
      var k :| 0 <= k < |es| && es[k] == ByID(es)[id];
      assert items[k] in items;
    }
  }

  /** The round trip: NewReader accepts a finished pack with its header, and the entry it finds
      for each blob added names exactly that blob's bytes; no other blob is found. */
  lemma {:induction false} PackRoundTrip(h: Digest, c: Codec, items: seq<Item>)
    requires RoundTrips(c) && Finishable(c, items) && Authentic(h, items) && Distinct(items)
    ensures var pack, byID := PackBytes(c, items), ByID(EntriesOf(items));
      && ReaderResult(c, pack) == Found(HeaderOf(items))
      && byID.Keys == IdSet(items)
      && (forall it :: it in items ==> Slice(pack, byID[it.id]) == Some(it.data) && h(it.data) == it.id)
  {
    var pack, es := PackBytes(c, items), EntriesOf(items);
    HeaderRecovered(c, items);
    forall k | 0 <= k < |items|
      ensures es[k].id == items[k].id && es[k].id in ByID(es)
      ensures Slice(pack, ByID(es)[items[k].id]) == Some(items[k].data)
    {
      SliceOf(c, items, k);
      forall i, j | 0 <= i < j < |es|
        ensures es[i].id != es[j].id
      {
        EntriesTile(items, i);
        EntriesTile(items, j);
      }
      EntryById(es, k);
    }
    SameKeys(items, es);
  }

  lemma {:induction false} SliceOf(c: Codec, items: seq<Item>, k: nat)
    requires Finishable(c, items) && k < |items|
    ensures EntriesOf(items)[k].id == items[k].id
    ensures Slice(PackBytes(c, items), EntriesOf(items)[k]) == Some(items[k].data)
  {
    EntriesTile(items, k);
    var e := EntriesOf(items)[k];
    var encoded := c.encode(HeaderOf(items));
    assert PackBytes(c, items) == Region(items) + (encoded + Trailer(|encoded|));
    assert PackBytes(c, items)[e.offset..e.offset + e.length] == Region(items)[e.offset..e.offset + e.length];
  }
}
