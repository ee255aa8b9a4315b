/** Go's io.Reader and io.ReadFull. A reader may deliver its bytes in pieces of any size, may
    return (0, nil), and may report its final error together with its last bytes or after them. */
module Readers {
  import opened Wrappers
  import opened Blob

  datatype ReadError = EndOfFile | ReadFailed(code: int)

  /** How a reader answers one call: with how many bytes at most; and whether, if it then has no
      more, it reports its final error at once. */
  datatype Answer = Answer(most: nat, eager: bool)

  /** What a reader has left to deliver, and how. After its plan it is a plain reader: it delivers
      all there is room for, and reports its final error in a call of its own. A reader that has
      reported its error goes on reporting it. */
  datatype Stream = Stream(rest: Bytes, plan: seq<Answer>, final: ReadError, ended: bool)
  {
    predicate Valid() {
      ended ==> rest == []
    }

    /** No plain reader takes longer than this to report its error. */
    function Patience(): nat {
      |rest| + |plan| + if ended then 0 else 1
    }
  }

  datatype Delivery = Delivery(data: Bytes, err: Option<ReadError>)

  function NextAnswer(s: Stream): Answer {
    if s.plan == [] then Answer(|s.rest| + 1, false) else s.plan[0]
  }

  function Least(a: nat, b: nat, c: nat): nat {
    if a <= b && a <= c then a else if b <= c then b else c
  }

  /** What one call with room for that many bytes returns. */
  function Got(s: Stream, room: nat): (d: Delivery)
    requires s.Valid() && room > 0
    ensures |d.data| <= room && d.data <= s.rest
    ensures d.err.Some? ==> d.data == s.rest && d.err.value == s.final
  {
    var a := NextAnswer(s);
    var n := Least(a.most, room, |s.rest|);
    if s.ended then
      Delivery([], Some(s.final))
    else
      Delivery(s.rest[..n], if n == |s.rest| && (a.eager || (n == 0 && a.most > 0)) then Some(s.final) else None)
  }

  /** The reader after that call. */
  function Left(s: Stream, room: nat): (t: Stream)
    requires s.Valid() && room > 0
    ensures t.Valid() && t.final == s.final && s.rest == Got(s, room).data + t.rest
    ensures t.Patience() < s.Patience() || s.ended
  {
    var d := Got(s, room);
    if s.ended then s
    else Stream(s.rest[|d.data|..], if s.plan == [] then [] else s.plan[1..], s.final, d.err.Some?)
  }

  /** The reader after io.ReadFull has read that many bytes. */
  function AfterFull(s: Stream, want: nat): (t: Stream)
    requires s.Valid() && want <= |s.rest|
    ensures t.Valid() && t.final == s.final && t.rest == s.rest[want..]
    decreases s.Patience()
  {
    if want == 0 then s else
      var n := |Got(s, want).data|;
      if n == want then Left(s, want) else AfterFull(Left(s, want), want - n)
  }

  /** io.ReadFull, asked for `want` bytes of `first`, has read `got` so far. */
  ghost predicate PartRead(first: Stream, want: nat, got: Bytes, s: Stream) {
    && first.Valid() && s.Valid() && s.final == first.final && |got| <= want && first.rest == got + s.rest
    && (want <= |first.rest| ==> AfterFull(first, want) == if |got| == want then s else AfterFull(s, want - |got|))
  }

  /** An error ends the stream, and is the final one. */
  ghost predicate Ends(s: Stream, err: Option<ReadError>) {
    err.Some? ==> s.rest == [] && err.value == s.final
  }

  lemma PartMore(first: Stream, want: nat, got: Bytes, s: Stream)
    requires PartRead(first, want, got, s) && |got| < want
    ensures PartRead(first, want, got + Got(s, want - |got|).data, Left(s, want - |got|))
    ensures Ends(Left(s, want - |got|), Got(s, want - |got|).err)
  {
  }

  /** Either all is read or the stream has ended. */
  lemma PartDone(first: Stream, want: nat, got: Bytes, s: Stream)
    requires PartRead(first, want, got, s) && (|got| == want || s.rest == [])
    ensures |got| == want <==> want <= |first.rest|
    ensures |got| == want ==> got == first.rest[..want] && s == AfterFull(first, want)
  {
  }

  class Reader {
    var s: Stream

    constructor (s: Stream)
      requires s.Valid()
      ensures this.s == s
    {
      this.s := s;
    }

    /** One call, into the buffer from lo on. The buffer behind the bytes delivered is scratch
        space: nothing is said about it. */
    method Read(buf: array<byte>, lo: nat) returns (n: nat, err: Option<ReadError>)
      requires s.Valid() && lo < buf.Length
      modifies this, buf
      ensures s == Left(old(s), buf.Length - lo) && n == |Got(old(s), buf.Length - lo).data| <= buf.Length - lo
      ensures err == Got(old(s), buf.Length - lo).err
      ensures buf[..lo] == old(buf[..lo]) && buf[lo..lo + n] == Got(old(s), buf.Length - lo).data
    {
      var d := Got(s, buf.Length - lo);
      forall i | 0 <= i < |d.data| {
        buf[lo + i] := d.data[i];
      }
      s := Left(s, buf.Length - lo);
      return |d.data|, d.err;
    }

    /** io.ReadFull: fills the buffer, or fails because the stream ends first. An error that comes
        with the last byte needed is dropped. */
    method ReadFull(buf: array<byte>) returns (err: Option<ReadError>)
      requires s.Valid() && buf.Length > 0
      modifies this, buf
      ensures s.Valid() && s.final == old(s.final)
      ensures err == if |old(s.rest)| >= buf.Length then None else Some(old(s.final))
      ensures err.None? ==> buf[..] == old(s.rest)[..buf.Length] && s == AfterFull(old(s), buf.Length)
    {
      var n: nat := 0;
      var e: Option<ReadError> := None;
      ghost var first, got := s, [];
      while n < buf.Length && e.None?
        invariant n == |got| <= buf.Length && buf[..n] == got && PartRead(first, buf.Length, got, s)
        invariant Ends(s, e)
        decreases s.Patience(), if e.None? then 1 else 0
      {
        PartMore(first, buf.Length, got, s);
        got := got + Got(s, buf.Length - n).data;
        var m;
        m, e := Read(buf, n);
        n := n + m;
      }
      PartDone(first, buf.Length, got, s);
      if n < buf.Length {
        return e;
      }
      assert buf[..] == buf[..n];
      return None;
    }
  }
}
