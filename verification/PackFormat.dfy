/** The pack file format: blobs, then a header that indexes them, then a 12-byte trailer; and
    how a reader recovers the header from the end of the file. */
module PackFormat {
  import opened Wrappers
  import opened Blob
  import opened LittleEndian

  const MAGIC: Bytes := [0x44, 0x42, 0x50, 0x41, 0x43, 0x4B, 0x30, 0x31]
  const FORMAT_VERSION: Int64 := 1
  const TRAILER_SIZE := 12
  const MAX_HEADER_SIZE := 0x200_0000
  const SUGGESTED_TAIL_SIZE := 0x1_0000

  datatype Entry = Entry(id: ID, offset: Int64, length: Int64)

  datatype Header = Header(version: Int64, entries: seq<Entry>)

  datatype Error = Invalid | Corrupt | Unsupported | Transient | NotFound

  /** The header codec is a parameter; a decoder must undo the encoder. */
  datatype Codec = Codec(encode: Header -> Bytes, decode: Bytes -> Option<Header>)

  ghost predicate RoundTrips(c: Codec) {
    forall h: Header :: c.encode(h) != [] && c.decode(c.encode(h)) == Some(h)
  }

  datatype Parsed = Found(header: Header) | ShortTail(need: nat) | Failed(error: Error)

  /** The bounds check on an entry, as it is computed: the sum may wrap around. */
  predicate EntryAccepted(e: Entry, dataEnd: int) {
    e.offset >= 0 && e.length >= 0 && AddInt64(e.offset, e.length) <= dataEnd
  }

  predicate EntriesAccepted(entries: seq<Entry>, dataEnd: int) {
    forall k :: 0 <= k < |entries| ==> EntryAccepted(entries[k], dataEnd)
  }

  function CheckHeader(c: Codec, encoded: Bytes, dataEnd: int): Parsed {
    match c.decode(encoded)
    case None => Failed(Corrupt)
    case Some(h) =>
      if h.version != FORMAT_VERSION then
        Failed(Unsupported)
      else if h.entries == [] || !EntriesAccepted(h.entries, dataEnd) then
        Failed(Corrupt)
      else
        Found(h)
  }

  /** What the last |tail| bytes of a pack of `packSize` bytes yield. */
  function TailResult(c: Codec, tail: Bytes, packSize: Int64): Parsed {
    if |tail| > packSize then
      Failed(Invalid)
    else if |tail| < TRAILER_SIZE then
      ShortTail(TRAILER_SIZE)
    else
      var trailer := tail[|tail| - TRAILER_SIZE..];
      var need := Get(trailer[..4]) + TRAILER_SIZE;
      if trailer[4..] != MAGIC || need == TRAILER_SIZE || need > MAX_HEADER_SIZE + TRAILER_SIZE || need > packSize then
        Failed(Corrupt)
      else if |tail| < need then
        ShortTail(need)
      else
        CheckHeader(c, tail[|tail| - need..|tail| - TRAILER_SIZE], packSize - need)
  }

  // ---- what a reader accepts, byte for byte ----

  /** The number that the last four bytes before the magic spell, lowest digit first. */
  function LengthField(tail: Bytes): nat
    requires |tail| >= 12
  {
    var t := |tail| - 12;
    tail[t] as int + 0x100 * tail[t + 1] as int + 0x1_0000 * tail[t + 2] as int + 0x100_0000 * tail[t + 3] as int
  }

  /** The end of the tail is a trailer: the magic, and a header length that is not zero, not over
      32 MiB and fits in the pack. */
  predicate GoodTrailer(tail: Bytes, packSize: Int64) {
    && 12 <= |tail| <= packSize && tail[|tail| - 8..] == Ascii("DBPACK01")
    && 0 < LengthField(tail) <= 32 * 1024 * 1024 && LengthField(tail) + 12 <= packSize
  }

  lemma TrailerFields(tail: Bytes)
    requires |tail| >= 12
    ensures var trailer := tail[|tail| - TRAILER_SIZE..];
      Get(trailer[..4]) == LengthField(tail) && (trailer[4..] == MAGIC <==> tail[|tail| - 8..] == Ascii("DBPACK01"))
  {
    GetFour(tail[|tail| - TRAILER_SIZE..][..4]);
    assert tail[|tail| - TRAILER_SIZE..][4..] == tail[|tail| - 8..];
    assert MAGIC == Ascii("DBPACK01");
  }

  /** A header is returned exactly when the tail has a good trailer and covers the header before
      it, which decodes, is of version 1 and has entries, none of which has a negative field or
      ends past the blob region, unless its end is no int64. */
  lemma FoundIff(c: Codec, tail: Bytes, packSize: Int64, h: Header)
    ensures TailResult(c, tail, packSize) == Found(h) <==>
      && GoodTrailer(tail, packSize) && |tail| >= LengthField(tail) + 12
      && c.decode(tail[|tail| - 12 - LengthField(tail)..|tail| - 12]) == Some(h)
      && h.version == 1 && h.entries != []
      && forall k :: 0 <= k < |h.entries| ==>
           var e := h.entries[k];
           && e.offset >= 0 && e.length >= 0
           && (e.offset + e.length <= packSize - LengthField(tail) - 12 || e.offset + e.length >= TWO_63)
  {
    if |tail| >= 12 {
      TrailerFields(tail);
    }
  }

  /** More is asked for exactly when the tail is too short for the trailer, or has a good trailer
      and is too short for the header; and then what is asked for is exactly what is needed. */
  lemma ShortIff(c: Codec, tail: Bytes, packSize: Int64, need: nat)
    ensures TailResult(c, tail, packSize) == ShortTail(need) <==>
      || (|tail| <= packSize && |tail| < 12 && need == 12)
      || (GoodTrailer(tail, packSize) && |tail| < LengthField(tail) + 12 && need == LengthField(tail) + 12)
  {
    if |tail| >= 12 {
      TrailerFields(tail);
    }
  }

  /** Which error a tail gets that is neither too short nor good. */
  lemma WhichError(c: Codec, tail: Bytes, packSize: Int64, error: Error)
    ensures TailResult(c, tail, packSize) == Failed(Invalid) <==> |tail| > packSize
    ensures TailResult(c, tail, packSize) == Failed(Unsupported) <==>
      && GoodTrailer(tail, packSize) && |tail| >= LengthField(tail) + 12
      && var h := c.decode(tail[|tail| - 12 - LengthField(tail)..|tail| - 12]); h.Some? && h.value.version != 1
    ensures TailResult(c, tail, packSize) == Failed(error) ==> error in {Invalid, Unsupported, Corrupt}
  {
    if |tail| >= 12 {
      TrailerFields(tail);
    }
  }

  /** The last `tailLen` bytes. */
  function TailOf(pack: Bytes, tailLen: nat): Bytes
    requires tailLen <= |pack|
  {
    pack[|pack| - tailLen..]
  }

  // ---- what a writer produces ----

  function Region(items: seq<Item>): (r: Bytes)
    ensures |r| == Size(items)
  {
    if items == [] then [] else Region(items[..|items| - 1]) + items[|items| - 1].data
  }

  lemma {:induction false} SizeOfPrefix(items: seq<Item>, k: nat)
    requires k <= |items|
    ensures Size(items[..k]) <= Size(items)
  {
    if k < |items| {
      SizeOfPrefix(items[..|items| - 1], k);
      assert items[..|items| - 1][..k] == items[..k];
    } else {
      assert items[..k] == items;
    }
  }

  /** The entries of a pack holding `items`, in write order. */
  function EntriesOf(items: seq<Item>): (es: seq<Entry>)
    requires Size(items) < TWO_63
    ensures |es| == |items|
  {
    if items == [] then
      []
    else
      var n := |items| - 1;
      EntriesOf(items[..n]) + [Entry(items[n].id, Size(items[..n]), |items[n].data|)]
  }

  function HeaderOf(items: seq<Item>): Header
    requires Size(items) < TWO_63
  {
    Header(FORMAT_VERSION, EntriesOf(items))
  }

  /** Every blob carries the address of its own bytes, and no address is the zero ID. */
  ghost predicate Authentic(h: Digest, items: seq<Item>) {
    forall k :: 0 <= k < |items| ==> items[k].id == h(items[k].data) && items[k].id != ZERO
  }

  /** The contents that Finish accepts. */
  predicate Finishable(c: Codec, items: seq<Item>) {
    && items != [] && Size(items) + MAX_HEADER_SIZE + TRAILER_SIZE < TWO_63
    && |c.encode(HeaderOf(items))| <= MAX_HEADER_SIZE
  }

  function Trailer(headerLen: nat): (t: Bytes)
    requires headerLen <= MAX_HEADER_SIZE
    ensures |t| == TRAILER_SIZE
  {
    Widths();
    Put(headerLen, 4) + MAGIC
  }

  function PackBytes(c: Codec, items: seq<Item>): (b: Bytes)
    requires Finishable(c, items)
    ensures |b| == Size(items) + |c.encode(HeaderOf(items))| + TRAILER_SIZE
  {
    var encoded := c.encode(HeaderOf(items));
    Region(items) + encoded + Trailer(|encoded|)
  }

  lemma SliceOfFront(a: Bytes, b: Bytes, i: nat, j: nat)
    requires i <= j <= |a|
    ensures (a + b)[i..j] == a[i..j]
  {
  }

  lemma SliceOfBack(a: Bytes, b: Bytes)
    ensures (a + b)[|a|..|a| + |b|] == b
  {
  }

  /** Entry k is the k-th blob; entries tile the blob region from 0 without gaps; and each
      names exactly its blob's bytes. */
  lemma {:induction false} EntriesTile(items: seq<Item>, k: nat)
    requires Size(items) < TWO_63 && k < |items|
    ensures var es := EntriesOf(items);
      && es[k].id == items[k].id && es[k].length == |items[k].data|
      && es[k].offset == (if k == 0 then 0 else es[k - 1].offset + es[k - 1].length)
      && (k == |items| - 1 ==> es[k].offset + es[k].length == Size(items))
      && 0 <= es[k].offset && es[k].offset + es[k].length <= Size(items)
      && Region(items)[es[k].offset..es[k].offset + es[k].length] == items[k].data
  {
    var n := |items| - 1;
    var init := items[..n];
    if k < n {
      EntriesTile(init, k);
      var e := EntriesOf(init)[k];
      SliceOfFront(Region(init), items[n].data, e.offset, e.offset + e.length);
    } else {
      SliceOfBack(Region(init), items[n].data);
      if n > 0 {
        EntriesTile(init, n - 1);
      }
    }
  }

  lemma EntriesInside(items: seq<Item>)
    requires Size(items) < TWO_63
    ensures EntriesAccepted(EntriesOf(items), Size(items))
  {
    forall k | 0 <= k < |items|
      ensures EntryAccepted(EntriesOf(items)[k], Size(items))
    {
      EntriesTile(items, k);
    }
  }

  lemma TrailerReads(headerLen: nat)
    requires headerLen <= MAX_HEADER_SIZE
    ensures Get(Trailer(headerLen)[..4]) == headerLen && Trailer(headerLen)[4..] == MAGIC
  {
    Widths();
    GetPut(headerLen, 4);
    assert Trailer(headerLen)[..4] == Put(headerLen, 4);
  }

  lemma SuffixOf(a: Bytes, b: Bytes, t: nat)
    requires |b| <= t <= |a| + |b|
    ensures var s := (a + b)[|a| + |b| - t..]; s[t - |b|..] == b && s[..t - |b|] == a[|a| + |b| - t..]
  {
  }

  /** How far from the end of the pack its header begins. */
  function Need(c: Codec, items: seq<Item>): (n: nat)
    requires Finishable(c, items)
    ensures TRAILER_SIZE <= n <= |PackBytes(c, items)|
  {
    |c.encode(HeaderOf(items))| + TRAILER_SIZE
  }

  /** Tail recovery is exact: the last t bytes of a finished pack yield its header when they
      cover header and trailer; otherwise they yield the number of bytes that will, or, when
      even the trailer is cut short, the size of the trailer. */
  lemma TailRecovery(c: Codec, items: seq<Item>, t: nat)
    requires RoundTrips(c) && Finishable(c, items) && t <= |PackBytes(c, items)|
    ensures var pack := PackBytes(c, items);
      TailResult(c, TailOf(pack, t), |pack|) ==
        if t >= Need(c, items) then Found(HeaderOf(items))
        else ShortTail(if t >= TRAILER_SIZE then Need(c, items) else TRAILER_SIZE)
  {
    var encoded := c.encode(HeaderOf(items));
    var trailer := Trailer(|encoded|);
    var front := Region(items) + encoded;
    TrailerReads(|encoded|);
    if t >= TRAILER_SIZE {
      SuffixOf(front, trailer, t);
      if t >= |encoded| + TRAILER_SIZE {
        HeaderInTail(c, items, t);
      }
    }
  }

  lemma HeaderInTail(c: Codec, items: seq<Item>, t: nat)
    requires RoundTrips(c) && Finishable(c, items)
    requires |c.encode(HeaderOf(items))| + TRAILER_SIZE <= t <= |PackBytes(c, items)|
    ensures var pack := PackBytes(c, items);
      var need := |c.encode(HeaderOf(items))| + TRAILER_SIZE;
      && pack[|pack| - t..][t - need..t - TRAILER_SIZE] == c.encode(HeaderOf(items))
      && CheckHeader(c, c.encode(HeaderOf(items)), |pack| - need) == Found(HeaderOf(items))
  {
    EntriesInside(items);
    assert c.decode(c.encode(HeaderOf(items))) == Some(HeaderOf(items));
  }

  lemma TrailerLayout(headerLen: nat)
    requires headerLen <= MAX_HEADER_SIZE
    ensures Spells(Trailer(headerLen)[..4], headerLen) && Trailer(headerLen)[4..] == Ascii("DBPACK01")
  {
    Widths();
    PutSpells(headerLen, 4);
    assert Trailer(headerLen)[..4] == Put(headerLen, 4);
    assert Trailer(headerLen)[4..] == MAGIC == Ascii("DBPACK01");
  }

  /** A finished pack, byte for byte: the blobs, the header, four bytes with the length of the
      header, lowest digit first, and the magic. */
  lemma PackLayout(c: Codec, items: seq<Item>)
    requires Finishable(c, items)
    ensures var pack, header := PackBytes(c, items), c.encode(HeaderOf(items));
      && |pack| == Size(items) + |header| + 12
      && pack[..Size(items)] == Region(items) && pack[Size(items)..Size(items) + |header|] == header
      && Spells(pack[|pack| - 12..|pack| - 8], |header|)
      && pack[|pack| - 8..] == Ascii("DBPACK01")
  {
    var pack, header := PackBytes(c, items), c.encode(HeaderOf(items));
    TrailerLayout(|header|);
    assert pack[|pack| - 12..|pack| - 8] == Trailer(|header|)[..4];
    assert pack[|pack| - 8..] == Trailer(|header|)[4..];
  }

  // ---- the bounds check ----

  /** An entry that was accepted lies inside the blob region if and only if the sum of its
      offset and length is an int64: when it is not, the check compares a wrapped sum. */
  lemma AcceptedInsideIff(e: Entry, dataEnd: Int64)
    requires EntryAccepted(e, dataEnd)
    ensures e.offset + e.length <= dataEnd <==> e.offset + e.length < TWO_63
  {
  }

  /** A header that the check accepts although its only entry lies outside the pack. */
  lemma WrappedEntryAccepted(c: Codec, id: ID)
    requires RoundTrips(c)
    ensures var e := Entry(id, TWO_63 - 1, 1);
      var h := Header(FORMAT_VERSION, [e]);
      EntryAccepted(e, 0) && CheckHeader(c, c.encode(h), 0) == Found(h)
  {
    var e := Entry(id, TWO_63 - 1, 1);
    var h := Header(FORMAT_VERSION, [e]);
    assert c.decode(c.encode(h)) == Some(h);
    assert AddInt64(TWO_63 - 1, 1) == -TWO_63;
  }

  // ---- a codec that meets the obligation ----

  const ENTRY_RECORD := 48

  function EncodeEntry(e: Entry): (b: Bytes)
    ensures |b| == ENTRY_RECORD
  {
    e.id + PutInt64(e.offset) + PutInt64(e.length)
  }

  function DecodeEntry(b: Bytes): Entry
    requires |b| == ENTRY_RECORD
  {
    Entry(b[..32], GetInt64(b[32..40]), GetInt64(b[40..]))
  }

  lemma EntryRoundTrip(e: Entry)
    ensures DecodeEntry(EncodeEntry(e)) == e
  {
    var b := EncodeEntry(e);
    assert b[..32] == e.id && b[32..40] == PutInt64(e.offset) && b[40..] == PutInt64(e.length);
    Int64RoundTrip(e.offset);
    Int64RoundTrip(e.length);
  }

  function EncodeEntries(es: seq<Entry>): Bytes {
    if es == [] then [] else EncodeEntry(es[0]) + EncodeEntries(es[1..])
  }

  function DecodeEntries(b: Bytes): Option<seq<Entry>> {
    if b == [] then
      Some([])
    else if |b| < ENTRY_RECORD then
      None
    else
      match DecodeEntries(b[ENTRY_RECORD..])
      case None => None
      case Some(rest) => Some([DecodeEntry(b[..ENTRY_RECORD])] + rest)
  }

  lemma {:induction false} EntriesRoundTrip(es: seq<Entry>)
    ensures DecodeEntries(EncodeEntries(es)) == Some(es)
  {
    if es != [] {
      var first, rest := EncodeEntry(es[0]), EncodeEntries(es[1..]);
      EntriesRoundTrip(es[1..]);
      EntryRoundTrip(es[0]);
      assert (first + rest)[..ENTRY_RECORD] == first && (first + rest)[ENTRY_RECORD..] == rest;
      assert [es[0]] + es[1..] == es;
    }
  }

  function EncodeHeader(h: Header): Bytes {
    PutInt64(h.version) + EncodeEntries(h.entries)
  }

  function DecodeHeader(b: Bytes): Option<Header> {
    if |b| < 8 then
      None
    else
      match DecodeEntries(b[8..])
      case None => None
      case Some(es) => Some(Header(GetInt64(b[..8]), es))
  }

  const RECORDS := Codec(EncodeHeader, DecodeHeader)

  /** The obligation can be met: fixed-size records are such a codec. */
  lemma RecordsRoundTrip()
    ensures RoundTrips(RECORDS)
  {
    forall h: Header
      ensures EncodeHeader(h) != [] && DecodeHeader(EncodeHeader(h)) == Some(h)
    {
      var version, rest := PutInt64(h.version), EncodeEntries(h.entries);
      assert (version + rest)[..8] == version && (version + rest)[8..] == rest;
      EntriesRoundTrip(h.entries);
      Int64RoundTrip(h.version);
    }
  }
}
