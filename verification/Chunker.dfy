/** The streaming chunker: a sliding buffer over a reader that returns short reads, which
    refines the split of the whole stream. */
module Chunker {
  import opened Wrappers
  import opened Blob
  import opened FastCdc
  import opened Readers

  /** A chunk with its stream offset; `data` is its own array. */
  datatype Chunk = Chunk(offset: nat, data: array<byte>)

  datatype Outcome = Got(chunk: Chunk) | Ended(err: ReadError)

  class Chunker {
    const p: Params
    const rd: Reader
    const buf: array<byte>
    var pos: nat
    var end: nat
    var offset: nat
    var err: Option<ReadError>

    ghost predicate Valid()
      reads this, rd
    {
      && p.Valid() && buf.Length == 2 * p.maxSize && pos <= end <= buf.Length
      && rd.s.Valid() && (err.Some? ==> rd.s.rest == [] && err.value == rd.s.final)
    }

    /** The bytes of the stream that no chunk has covered yet. */
    ghost function Pending(): Bytes
      requires pos <= end <= buf.Length
      reads this, rd, buf
    {
      buf[pos..end] + rd.s.rest
    }

    constructor (rd: Reader, p: Params)
      requires p.Valid() && rd.s.Valid()
      ensures Valid() && fresh(buf) && this.rd == rd && this.p == p
      ensures Pending() == rd.s.rest && offset == 0
    {
      this.rd := rd;
      this.p := p;
      buf := new byte[2 * p.maxSize];
      pos, end, offset, err := 0, 0, 0, None;
    }

    /** Moves the unconsumed bytes to the front of the buffer. */
    method Slide()
      requires Valid()
      modifies this, buf
      ensures Valid() && pos == 0 && end == old(end - pos) && buf[..end] == old(buf[pos..end])
      ensures offset == old(offset) && err == old(err)
    {
      if pos > 0 {
        forall i | 0 <= i < end - pos {
          buf[i] := buf[pos + i];
        }
        end := end - pos;
        pos := 0;
      }
    }

    /** One call to the reader, into the free part of the buffer. */
    method ReadMore()
      requires Valid() && pos == 0 && end < buf.Length && err.None?
      modifies this, rd, buf
      ensures Valid() && Pending() == old(Pending()) && rd.s.final == old(rd.s.final)
      ensures pos == 0 && end >= old(end) && offset == old(offset)
      ensures err.Some? || rd.s.Patience() < old(rd.s.Patience())
    {
      ghost var head := buf[..end];
      Delivered(head, rd.s, buf.Length - end);
      ghost var data := Readers.Got(rd.s, buf.Length - end).data;
      var n, e := rd.Read(buf, end);
      assert buf[..end + n] == head + data;
      end := end + n;
      err := e;
    }

    /** Tops the buffer up to at least maxSize bytes, or to the end of the stream. */
    method Fill()
      requires Valid()
      modifies this, rd, buf
      ensures Valid() && Pending() == old(Pending()) && offset == old(offset) && rd.s.final == old(rd.s.final)
      ensures end - pos >= p.maxSize || err.Some?
    {
      if end - pos >= p.maxSize || err.Some? {
        return;
      }
      Slide();
      while end < buf.Length
        invariant Valid() && pos == 0 && err.None? && end < p.maxSize
        invariant Pending() == old(Pending()) && offset == old(offset) && rd.s.final == old(rd.s.final)
        decreases rd.s.Patience()
      {
        ReadMore();
        if err.Some? {
          return;
        }
        if end >= p.maxSize {
          return;
        }
      }
    }

    /** The scan: skip minSize bytes, then test with the strict mask up to avgSize and with the
        loose one up to maxSize. */
    method FindBoundary(data: Bytes) returns (n: nat)
      requires p.Valid()
      ensures IsBoundary(p, data, n) && n == Boundary(p, data)
    {
      BoundaryIsBoundary(p, data, |data|);
      if |data| <= p.minSize {
        return |data|;
      }
      var last := if |data| > p.maxSize then p.maxSize else |data|;
      var normal := if p.avgSize > last then last else p.avgSize;
      var h: Word := 0;
      var i := p.minSize;
      while i < normal
        invariant p.minSize <= i <= normal && Scanned(p, data, i, h)
      {
        Scan(p, data, i, h);
        h := p.Next(h, data[i]);
        if Disjoint(h, p.maskS) {
          return i + 1;
        }
        i := i + 1;
      }
      while i < last
        invariant normal <= i <= last && Scanned(p, data, i, h)
      {
        Scan(p, data, i, h);
        h := p.Next(h, data[i]);
        if Disjoint(h, p.maskL) {
          return i + 1;
        }
        i := i + 1;
      }
      NoHit(p, data, h);
      return last;
    }

    /** One chunk of the pending stream, in an array of its own, or, once every byte delivered
        has been chunked, the reader's final error. */
    method Next() returns (r: Outcome)
      requires Valid()
      modifies this, rd, buf
      ensures Valid() && rd.s.final == old(rd.s.final)
      ensures r.Got? ==>
        && old(Pending()) != [] && fresh(r.chunk.data)
        && r.chunk.offset == old(offset) && offset == old(offset) + r.chunk.data.Length
        && r.chunk.data[..] == old(Pending())[..Boundary(p, old(Pending()))]
        && Pending() == old(Pending())[Boundary(p, old(Pending()))..]
      ensures r.Ended? ==> old(Pending()) == [] == Pending() && r.err == rd.s.final && offset == old(offset)
    {
      Fill();
      ghost var pending := Pending();
      var avail := buf[pos..end];
      if |avail| == 0 {
        if err.Some? && err.value != EndOfFile {
          return Ended(err.value);
        }
        return Ended(EndOfFile);
      }
      var n := FindBoundary(avail);
      if |avail| >= p.maxSize {
        BoundaryLocal(p, avail, rd.s.rest);
      } else {
        assert pending == avail;
      }
      SplitFront(avail, rd.s.rest, n);
      var data := new byte[n](i requires 0 <= i < n => avail[i]);
      assert data[..] == avail[..n];
      r := Got(Chunk(offset, data));
      pos := pos + n;
      offset := offset + n;
      assert buf[pos..end] == avail[n..];
    }
  }

  lemma Delivered(head: Bytes, s: Stream, room: nat)
    requires s.Valid() && room > 0
    ensures (head + Readers.Got(s, room).data) + Left(s, room).rest == head + s.rest
  {
  }

  /** The scan has hashed the bytes from minSize up to i and found no hit. */
  ghost predicate Scanned(p: Params, data: Bytes, i: nat, h: Word) {
    && p.minSize <= i <= |data| && h == Roll(p, 0, data[p.minSize..i])
    && forall k :: p.minSize <= k < i ==> !Hit(p, data, k)
  }

  lemma Scan(p: Params, data: Bytes, i: nat, h: Word)
    requires p.Valid() && Scanned(p, data, i, h) && i < Min(|data|, p.maxSize)
    ensures var next := p.Next(h, data[i]);
      if Disjoint(next, p.Mask(i)) then
        IsBoundary(p, data, i + 1) && i + 1 == Boundary(p, data)
      else
        Scanned(p, data, i + 1, next)
  {
    RollPush(p, data, i);
    if Hit(p, data, i) {
      BoundaryIsBoundary(p, data, i + 1);
    }
  }

  lemma NoHit(p: Params, data: Bytes, h: Word)
    requires p.Valid() && |data| > p.minSize && Scanned(p, data, Min(|data|, p.maxSize), h)
    ensures IsBoundary(p, data, Min(|data|, p.maxSize)) && Min(|data|, p.maxSize) == Boundary(p, data)
  {
    BoundaryIsBoundary(p, data, Min(|data|, p.maxSize));
  }

  lemma RollPush(p: Params, data: Bytes, i: nat)
    requires p.minSize <= i < |data|
    ensures Roll(p, 0, data[p.minSize..i + 1]) == p.Next(Roll(p, 0, data[p.minSize..i]), data[i])
  {
    assert data[p.minSize..i + 1][..i - p.minSize] == data[p.minSize..i];
  }

  function End(c: Chunk): nat {
    c.offset + c.data.Length
  }

  /** Each chunk starts where the one before it ended. */
  ghost predicate Contiguous(chunks: seq<Chunk>, from: nat) {
    && (chunks != [] ==> chunks[0].offset == from)
    && forall i, j :: 0 <= i && j == i + 1 && j < |chunks| ==> chunks[j].offset == End(chunks[i])
  }

  /** The chunks hold these bytes, in this order. */
  ghost predicate Copies(chunks: seq<Chunk>, datas: seq<Bytes>)
    reads set c | c in chunks :: c.data
  {
    |datas| == |chunks| && forall i :: 0 <= i < |chunks| ==> chunks[i].data[..] == datas[i]
  }

  /** No two chunks share an array. */
  ghost predicate Unshared(chunks: seq<Chunk>) {
    forall i, j :: 0 <= i < j < |chunks| ==> chunks[i].data != chunks[j].data
  }

  /** The chunks taken so far, with the contents `datas`, up to the offset `to`. */
  ghost predicate Taken(chunks: seq<Chunk>, datas: seq<Bytes>, from: nat, to: nat)
    reads set c | c in chunks :: c.data
  {
    && Copies(chunks, datas) && Unshared(chunks) && Contiguous(chunks, from)
    && to == if chunks == [] then from else End(chunks[|chunks| - 1])
  }

  lemma Collect(chunks: seq<Chunk>, datas: seq<Bytes>, from: nat, c: Chunk)
    requires Taken(chunks, datas, from, c.offset) && forall i :: 0 <= i < |chunks| ==> chunks[i].data != c.data
    ensures Taken(chunks + [c], datas + [c.data[..]], from, End(c))
  {
  }

  lemma Shift(got: seq<Bytes>, x: Bytes, rest: seq<Bytes>)
    ensures got + ([x] + rest) == (got + [x]) + rest
  {
  }

  /** Takes the next chunk, if there is one, and adds it to `out`. */
  method TakeNext(c: Chunker, out: seq<Chunk>, ghost got: seq<Bytes>, ghost from: nat)
      returns (next: seq<Chunk>, ghost more: seq<Bytes>, err: Option<ReadError>)
    requires c.Valid() && Taken(out, got, from, c.offset) && forall i :: 0 <= i < |out| ==> out[i].data != c.buf
    modifies c, c.rd, c.buf
    ensures c.Valid() && c.rd.s.final == old(c.rd.s.final) && Taken(next, more, from, c.offset)
    ensures more + Split(c.p, c.Pending()) == got + Split(c.p, old(c.Pending()))
    ensures err.Some? ==> next == out && c.Pending() == [] && err.value == c.rd.s.final
    ensures err.None? ==> |c.Pending()| < |old(c.Pending())|
    ensures err.None? ==> |next| == |out| + 1 && fresh(next[|out|].data)
    ensures forall i :: 0 <= i < |out| ==> next[i] == out[i]
    ensures forall i :: 0 <= i < |next| ==> next[i].data != c.buf
  {
    var r := c.Next();
    if r.Ended? {
      return out, got, Some(r.err);
    }
    Shift(got, r.chunk.data[..], Split(c.p, c.Pending()));
    assert Taken(out, got, from, r.chunk.offset);
    Collect(out, got, from, r.chunk);
    return out + [r.chunk], got + [r.chunk.data[..]], None;
  }

  /** Chunking a reader to its end: whatever the sizes of its reads, the chunks are the split of
      the bytes it delivers before its first error, at contiguous offsets; each is in a fresh
      array that no other chunk shares; then that error is returned. */
  method ChunkAll(c: Chunker) returns (out: seq<Chunk>, err: ReadError)
    requires c.Valid()
    modifies c, c.rd, c.buf
    ensures Copies(out, Split(c.p, old(c.Pending()))) && Contiguous(out, old(c.offset)) && Unshared(out)
    ensures forall i :: 0 <= i < |out| ==> fresh(out[i].data)
    ensures err == old(c.rd.s.final) && c.Valid() && c.Pending() == []
  {
    out := [];
    ghost var whole, from, got := Split(c.p, c.Pending()), c.offset, [];
    while true
      invariant c.Valid() && c.rd.s.final == old(c.rd.s.final) && got + Split(c.p, c.Pending()) == whole
      invariant forall i :: 0 <= i < |out| ==> fresh(out[i].data) && out[i].data != c.buf
      invariant Taken(out, got, from, c.offset)
      decreases |c.Pending()|
    {
      var last;
      out, got, last := TakeNext(c, out, got, from);
      if last.Some? {
        assert got == whole;
        return out, last.value;
      }
    }
  }
}
