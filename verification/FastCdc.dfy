/** FastCDC as a function of the byte stream: where the next boundary falls, the split it
    induces, and the content-defined claims made for it. */
module FastCdc {
  import opened Arithmetic
  import opened Blob

  /** A uint64; sums and shifts wrap around. */
  type Word = w: int | 0 <= w < TWO_64

  function Pow2(n: nat): (r: nat)
    ensures r > 0
  {
    if n == 0 then 1 else 2 * Pow2(n - 1)
  }

  predicate Bit(w: Word, k: nat) {
    (w / Pow2(k)) % 2 == 1
  }

  /** `a & b == 0`. */
  predicate Disjoint(a: Word, b: Word) {
    forall k :: 0 <= k < 64 ==> !(Bit(a, k) && Bit(b, k))
  }

  /** Sizes, both masks and the Gear table are parameters; the masks and the table are
      arbitrary 64-bit words. */
  datatype Params = Params(minSize: nat, avgSize: nat, maxSize: nat, maskS: Word, maskL: Word, gear: byte -> Word) {
    predicate Valid() {
      0 < minSize < avgSize <= maxSize
    }

    /** The strict mask applies below avgSize, the loose one from there on. */
    function Mask(i: nat): Word {
      if i < avgSize then maskS else maskL
    }

    /** h = (h << 1) + gear[b]. */
    function Next(h: Word, b: byte): Word {
      (2 * h + gear(b)) % TWO_64
    }
  }

  /** The rolling hash after hashing the bytes of `s`, starting from `h`. */
  function Roll(p: Params, h: Word, s: Bytes): Word {
    if s == [] then h else p.Next(Roll(p, h, s[..|s| - 1]), s[|s| - 1])
  }

  /** The hash test succeeds at index i: the bytes from minSize to i have been hashed. */
  predicate Hit(p: Params, data: Bytes, i: nat)
    requires p.minSize <= i < |data|
  {
    Disjoint(Roll(p, 0, data[p.minSize..i + 1]), p.Mask(i))
  }

  function Min(a: nat, b: nat): nat {
    if a <= b then a else b
  }

  /** `n` is where the next chunk of `data` ends: just after the first hit, or, when there is
      none, at maxSize or at the end of the data. A short tail is one chunk. */
  ghost predicate IsBoundary(p: Params, data: Bytes, n: nat) {
    if |data| <= p.minSize then
      n == |data|
    else
      && p.minSize < n <= Min(|data|, p.maxSize)
      && (forall i :: p.minSize <= i < n - 1 ==> !Hit(p, data, i))
      && (n < Min(|data|, p.maxSize) ==> Hit(p, data, n - 1))
  }

  function FirstHit(p: Params, data: Bytes, i: nat, end: nat): (n: nat)
    requires p.minSize <= i <= end <= |data|
    ensures i <= n <= end && (i < end ==> i < n)
    decreases end - i
  {
    if i == end then end else if Hit(p, data, i) then i + 1 else FirstHit(p, data, i + 1, end)
  }

  function Boundary(p: Params, data: Bytes): (n: nat)
    requires p.Valid()
    ensures n <= |data| && (data != [] ==> n > 0)
  {
    if |data| <= p.minSize then |data| else FirstHit(p, data, p.minSize, Min(|data|, p.maxSize))
  }

  lemma {:induction false} FirstHitIsFirst(p: Params, data: Bytes, i: nat, end: nat)
    requires p.minSize <= i < end <= |data|
    ensures var n := FirstHit(p, data, i, end);
      i < n <= end && (forall k :: i <= k < n - 1 ==> !Hit(p, data, k)) && (n < end ==> Hit(p, data, n - 1))
    decreases end - i
  {
    if !Hit(p, data, i) && i + 1 < end {
      FirstHitIsFirst(p, data, i + 1, end);
    }
  }

  /** Boundary is the one length that meets the description above. */
  lemma BoundaryIsBoundary(p: Params, data: Bytes, n: nat)
    requires p.Valid()
    ensures IsBoundary(p, data, Boundary(p, data))
    ensures IsBoundary(p, data, n) ==> n == Boundary(p, data)
  {
    if |data| > p.minSize {
      var end := Min(|data|, p.maxSize);
      FirstHitIsFirst(p, data, p.minSize, end);
    }
  }

  /** The hash that is tested at index i: that of the bytes from minSize to i. */
  function HashAt(p: Params, data: Bytes, i: nat): Word
    requires p.minSize <= i < |data|
  {
    Roll(p, 0, data[p.minSize..i + 1])
  }

  /** Which mask applies where. No hash before the last byte of the chunk meets the strict mask
      below avgSize, or the loose one from there on; and if the chunk ends before maxSize and
      before the end of the data, the hash at its last byte does. */
  lemma BoundaryMasks(p: Params, data: Bytes, n: nat)
    requires p.Valid() && |data| > p.minSize
    ensures n == Boundary(p, data) <==>
      && p.minSize < n <= |data| && n <= p.maxSize
      && (forall i :: p.minSize <= i < n - 1 && i < p.avgSize ==> !Disjoint(HashAt(p, data, i), p.maskS))
      && (forall i :: p.minSize <= i < n - 1 && p.avgSize <= i ==> !Disjoint(HashAt(p, data, i), p.maskL))
      && (n < |data| && n < p.maxSize ==>
           Disjoint(HashAt(p, data, n - 1), if n - 1 < p.avgSize then p.maskS else p.maskL))
  {
    BoundaryIsBoundary(p, data, n);
    var b := Boundary(p, data);
    assert forall i :: p.minSize <= i < |data| ==>
      (Hit(p, data, i) <==> Disjoint(HashAt(p, data, i), if i < p.avgSize then p.maskS else p.maskL));
    assert n != b && p.minSize < n <= Min(|data|, p.maxSize) ==> !IsBoundary(p, data, n);
  }

  lemma {:induction false} RollAlike(p: Params, q: Params, h: Word, s: Bytes)
    requires q.gear == p.gear
    ensures Roll(q, h, s) == Roll(p, h, s)
  {
    if s != [] {
      RollAlike(p, q, h, s[..|s| - 1]);
    }
  }

  /** The loose mask has no say in a chunk that ends at avgSize or before. */
  lemma LooseMaskIrrelevant(p: Params, loose: Word, data: Bytes)
    requires p.Valid() && Boundary(p, data) <= p.avgSize
    ensures Boundary(p.(maskL := loose), data) == Boundary(p, data)
  {
    var q, n := p.(maskL := loose), Boundary(p, data);
    if |data| > p.minSize {
      BoundaryMasks(p, data, n);
      forall i | p.minSize <= i < |data|
        ensures HashAt(q, data, i) == HashAt(p, data, i)
      {
        RollAlike(p, q, 0, data[p.minSize..i + 1]);
      }
      BoundaryMasks(q, data, n);
    }
  }

  /** The strict mask has no say in where a chunk ends once it has reached avgSize. */
  lemma StrictMaskIrrelevant(p: Params, strict: Word, data: Bytes)
    requires p.Valid() && Boundary(p, data) > p.avgSize && Boundary(p.(maskS := strict), data) > p.avgSize
    ensures Boundary(p.(maskS := strict), data) == Boundary(p, data)
  {
    var q, n := p.(maskS := strict), Boundary(p, data);
    if |data| > p.minSize {
      BoundaryMasks(p, data, n);
      BoundaryMasks(q, data, Boundary(q, data));
      forall i | p.minSize <= i < |data|
        ensures HashAt(q, data, i) == HashAt(p, data, i)
      {
        RollAlike(p, q, 0, data[p.minSize..i + 1]);
      }
      BoundaryMasks(q, data, n);
    }
  }

  /** The chunks of a whole stream. */
  function Split(p: Params, data: Bytes): seq<Bytes>
    requires p.Valid()
    decreases |data|
  {
    if data == [] then
      []
    else
      [data[..Boundary(p, data)]] + Split(p, data[Boundary(p, data)..])
  }

  /** No hash below avgSize meets the strict mask, in any chunk of the stream. */
  ghost predicate StrictMisses(p: Params, data: Bytes)
    requires p.Valid()
    decreases |data|
  {
    data == [] || (
      && (forall i :: p.minSize <= i < |data| && i < p.avgSize ==> !Disjoint(HashAt(p, data, i), p.maskS))
      && StrictMisses(p, data[Boundary(p, data)..]))
  }

  /** Then no chunk but the last is shorter than avgSize. */
  lemma {:induction false} NormalChunks(p: Params, data: Bytes)
    requires p.Valid() && StrictMisses(p, data)
    ensures forall k :: 0 <= k < |Split(p, data)| - 1 ==> |Split(p, data)[k]| >= p.avgSize
    decreases |data|
  {
    if data != [] {
      var n := Boundary(p, data);
      NormalChunks(p, data[n..]);
      if |data| > p.minSize {
        BoundaryMasks(p, data, n);
      }
      assert n < p.avgSize ==> n == |data| && data[n..] == [];
    }
  }

  lemma {:induction false} RollSame(p: Params, data: Bytes, other: Bytes, i: nat)
    requires p.minSize <= i < |data| && i < |other| && data[..i + 1] == other[..i + 1]
    ensures Hit(p, data, i) == Hit(p, other, i)
  {
    assert data[p.minSize..i + 1] == data[..i + 1][p.minSize..];
    assert other[p.minSize..i + 1] == other[..i + 1][p.minSize..];
  }

  /** The next boundary depends on the first maxSize bytes alone, and on nothing after itself
      when it is not the end of the data. */
  lemma BoundaryLocal(p: Params, data: Bytes, more: Bytes)
    requires p.Valid()
    requires |data| >= p.maxSize || Boundary(p, data) < |data|
    ensures Boundary(p, data + more) == Boundary(p, data)
  {
    var n := Boundary(p, data);
    BoundaryIsBoundary(p, data, 0);
    forall i | p.minSize <= i < n
      ensures Hit(p, data + more, i) == Hit(p, data, i)
    {
      assert (data + more)[..i + 1] == data[..i + 1];
      RollSame(p, data, data + more, i);
    }
    BoundaryIsBoundary(p, data + more, n);
  }

  // ---- the split ----

  ghost predicate ChunkSizes(p: Params, chunks: seq<Bytes>) {
    && (forall k :: 0 <= k < |chunks| ==> 0 < |chunks[k]| <= p.maxSize)
    && (forall k :: 0 <= k < |chunks| - 1 ==> p.minSize < |chunks[k]|)
  }

  lemma SizesCons(p: Params, x: Bytes, chunks: seq<Bytes>)
    requires ChunkSizes(p, chunks) && 0 < |x| <= p.maxSize && (chunks != [] ==> p.minSize < |x|)
    ensures ChunkSizes(p, [x] + chunks)
  {
  }

  lemma DropAcross(data: Bytes, n: nat, c: nat)
    requires n <= c <= |data|
    ensures data[n..][c - n..] == data[c..] && data[..n] + data[n..][..c - n] == data[..c]
  {
  }

  lemma ConsTakeDrop(x: Bytes, rest: seq<Bytes>, i: nat)
    requires i <= |rest|
    ensures ([x] + rest)[..i + 1] == [x] + rest[..i] && ([x] + rest)[i + 1..] == rest[i..]
  {
  }

  lemma SplitStep(p: Params, data: Bytes)
    requires p.Valid() && data != []
    ensures var n := Boundary(p, data);
      && Split(p, data) == [data[..n]] + Split(p, data[n..])
      && 0 < n <= |data| && n <= p.maxSize && (n < |data| ==> n > p.minSize)
  {
    BoundaryIsBoundary(p, data, 0);
  }

  /** Chunking is lossless; only the last chunk may be short, and none exceeds maxSize. */
  lemma {:induction false} SplitLossless(p: Params, data: Bytes)
    requires p.Valid()
    ensures Concat(Split(p, data)) == data
    ensures ChunkSizes(p, Split(p, data))
    decreases |data|
  {
    if data != [] {
      var n := Boundary(p, data);
      SplitStep(p, data);
      SplitLossless(p, data[n..]);
      ConcatCons(data[..n], Split(p, data[n..]));
      assert Concat(Split(p, data)) == data[..n] + data[n..] == data;
      SizesCons(p, data[..n], Split(p, data[n..]));
    }
  }

  /** c is a position at which the split of `data` cuts, 0 and |data| included. */
  ghost predicate IsCut(p: Params, data: Bytes, c: nat)
    requires p.Valid()
    decreases |data|
  {
    c == 0 || (data != [] && Boundary(p, data) <= c && IsCut(p, data[Boundary(p, data)..], c - Boundary(p, data)))
  }

  lemma {:induction false} CutInRange(p: Params, data: Bytes, c: nat)
    requires p.Valid() && IsCut(p, data, c)
    ensures c <= |data|
    decreases |data|
  {
    if c != 0 {
      CutInRange(p, data[Boundary(p, data)..], c - Boundary(p, data));
    }
  }

  /** After a cut, the split goes on as if the stream began there. */
  lemma {:induction false} CutsAfterCut(p: Params, data: Bytes, c: nat, d: nat)
    requires p.Valid() && IsCut(p, data, c) && c <= |data| && c <= d
    ensures IsCut(p, data, d) <==> IsCut(p, data[c..], d - c)
    decreases |data|
  {
    if c != 0 {
      var n := Boundary(p, data);
      CutsAfterCut(p, data[n..], c - n, d - n);
      DropAcross(data, n, c);
    } else {
      assert data[0..] == data;
    }
  }

  /** The cuts are the ends of the chunks: at a cut, the split falls into the chunks before it
      and the split of what follows. */
  lemma {:induction false} CutSplits(p: Params, data: Bytes, c: nat) returns (k: nat)
    requires p.Valid() && IsCut(p, data, c) && c <= |data|
    ensures k <= |Split(p, data)| && Concat(Split(p, data)[..k]) == data[..c]
    ensures Split(p, data)[k..] == Split(p, data[c..])
    decreases |data|
  {
    if c == 0 {
      k := 0;
      assert data[0..] == data;
    } else {
      var n := Boundary(p, data);
      var rest := Split(p, data[n..]);
      var i := CutSplits(p, data[n..], c - n);
      k := i + 1;
      ConsTakeDrop(data[..n], rest, i);
      ConcatCons(data[..n], rest[..i]);
      DropAcross(data, n, c);
    }
  }

  lemma {:induction false} ChunkEndsAreCuts(p: Params, data: Bytes, k: nat)
    requires p.Valid() && k <= |Split(p, data)|
    ensures IsCut(p, data, |Concat(Split(p, data)[..k])|)
    decreases |data|
  {
    if k > 0 {
      var n := Boundary(p, data);
      var rest := Split(p, data[n..]);
      ChunkEndsAreCuts(p, data[n..], k - 1);
      ConsTakeDrop(data[..n], rest, k - 1);
      ConcatCons(data[..n], rest[..k - 1]);
    }
  }

  lemma DropFront(a: Bytes, b: Bytes, k: nat)
    requires k <= |b|
    ensures (a + b)[|a| + k..] == b[k..]
  {
  }

  lemma SplitFront(a: Bytes, b: Bytes, n: nat)
    requires n <= |a|
    ensures (a + b)[..n] == a[..n] && (a + b)[n..] == a[n..] + b
  {
  }

  /** Resynchronisation: once two streams that end in the same bytes have one cut in common
      inside them, all their later cuts coincide. */
  lemma Resynchronise(p: Params, before: Bytes, before': Bytes, tail: Bytes, k: nat, j: nat)
    requires p.Valid() && k <= j <= |tail|
    requires IsCut(p, before + tail, |before| + k) && IsCut(p, before' + tail, |before'| + k)
    ensures IsCut(p, before + tail, |before| + j) <==> IsCut(p, before' + tail, |before'| + j)
  {
    CutsInTail(p, before, tail, k, j);
    CutsInTail(p, before', tail, k, j);
  }

  /** From a common cut on, the two streams have the same chunks. */
  lemma SameChunksFromCut(p: Params, before: Bytes, before': Bytes, tail: Bytes, k: nat) returns (i: nat, i': nat)
    requires p.Valid() && k <= |tail|
    requires IsCut(p, before + tail, |before| + k) && IsCut(p, before' + tail, |before'| + k)
    ensures i <= |Split(p, before + tail)| && i' <= |Split(p, before' + tail)|
    ensures Concat(Split(p, before + tail)[..i]) == (before + tail)[..|before| + k]
    ensures Concat(Split(p, before' + tail)[..i']) == (before' + tail)[..|before'| + k]
    ensures Split(p, before + tail)[i..] == Split(p, before' + tail)[i'..]
  {
    i := ChunksInTail(p, before + tail, |before|, tail, k);
    i' := ChunksInTail(p, before' + tail, |before'|, tail, k);
  }

  lemma ChunksInTail(p: Params, data: Bytes, n: nat, tail: Bytes, k: nat) returns (i: nat)
    requires p.Valid() && n <= |data| && data[n..] == tail && k <= |tail| && IsCut(p, data, n + k)
    ensures i <= |Split(p, data)| && Concat(Split(p, data)[..i]) == data[..n + k]
    ensures Split(p, data)[i..] == Split(p, tail[k..])
  {
    i := CutSplits(p, data, n + k);
    assert data[n + k..] == tail[k..];
  }

  lemma CutsInTail(p: Params, before: Bytes, tail: Bytes, k: nat, j: nat)
    requires p.Valid() && k <= j <= |tail| && IsCut(p, before + tail, |before| + k)
    ensures IsCut(p, before + tail, |before| + j) <==> IsCut(p, tail[k..], j - k)
  {
    DropFront(before, tail, k);
    CutsAfter(p, before + tail, |before| + k, |before| + j, tail[k..], j - k);
  }

  lemma {:induction false} CutsAfter(p: Params, data: Bytes, c: nat, d: nat, rest: Bytes, e: nat)
    requires p.Valid() && IsCut(p, data, c) && c <= |data| && c <= d
    requires rest == data[c..] && e == d - c
    ensures IsCut(p, data, d) <==> IsCut(p, rest, e)
  {
    CutsAfterCut(p, data, c, d);
  }

  /** Append stability: all chunks but the last are kept when data is appended. */
  lemma {:induction false} AppendStable(p: Params, data: Bytes, more: Bytes)
    requires p.Valid()
    ensures var s := Split(p, data); s != [] ==> s[..|s| - 1] <= Split(p, data + more)
    decreases |data|
  {
    if data != [] {
      var n := Boundary(p, data);
      if n < |data| {
        BoundaryLocal(p, data, more);
        AppendStable(p, data[n..], more);
        SplitFront(data, more, n);
        PrefixCons(data[..n], Split(p, data[n..]), Split(p, data[n..] + more));
      } else {
        assert data[..n] == data && data[n..] == [];
        assert Split(p, data) == [data] + Split(p, data[n..]);
      }
    }
  }

  lemma PrefixCons(x: Bytes, s: seq<Bytes>, t: seq<Bytes>)
    requires s != [] && s[..|s| - 1] <= t
    ensures ([x] + s)[..|[x] + s| - 1] <= [x] + t
  {
    assert ([x] + s)[..|[x] + s| - 1] == [x] + s[..|s| - 1];
  }

  // ---- locality of the rolling hash ----

  /** a and b agree on their low n bits: they differ by a multiple of 2^n. */
  ghost predicate LowAgree(a: int, b: int, n: nat) {
    exists q: int :: a == b + q * Pow2(n)
  }

  lemma LowAgreeBy(a: int, b: int, n: nat, q: int)
    requires a == b + q * Pow2(n)
    ensures LowAgree(a, b, n)
  {
  }

  lemma {:induction false} Pow2Plus(m: nat, n: nat)
    ensures Pow2(m + n) == Pow2(m) * Pow2(n)
  {
    if m > 0 {
      Pow2Plus(m - 1, n);
      assert Pow2(m + n) == 2 * (Pow2(m - 1) * Pow2(n)) == (2 * Pow2(m - 1)) * Pow2(n);
    }
  }

  lemma Pow2Of64()
    ensures Pow2(64) == TWO_64
  {
    assert Pow2(8) == 256;
    Pow2Plus(8, 8);
    Pow2Plus(16, 16);
    Pow2Plus(32, 32);
  }

  lemma Associate(a: int, b: int, c: int)
    ensures a * (b * c) == (a * b) * c
  {
  }

  /** Agreement on the low n bits implies agreement on fewer. */
  lemma {:induction false} LowAgreeFewer(a: int, b: int, n: nat, k: nat)
    requires LowAgree(a, b, n) && k <= n
    ensures LowAgree(a, b, k)
  {
    var q: int :| a == b + q * Pow2(n);
    Pow2Plus(n - k, k);
    Associate(q, Pow2(n - k), Pow2(k));
    LowAgreeBy(a, b, k, q * Pow2(n - k));
  }

  lemma Collect(q: int, m: int, i: int, j: int, r: int)
    ensures q * m - i * (r * m) + j * (r * m) == (q - (i - j) * r) * m
  {
    assert (q - (i - j) * r) * m == q * m - ((i - j) * r) * m;
    assert ((i - j) * r) * m == (i - j) * (r * m);
  }

  /** Wrapping around at a multiple of m keeps congruence modulo m. */
  lemma WrapKeeps(x: int, y: int, q: int, m: nat, r: nat) returns (t: int)
    requires r * m > 0 && x == y + q * m
    ensures x % (r * m) == y % (r * m) + t * m
  {
    var i, j := x / (r * m), y / (r * m);
    Quotient(x, r * m);
    Quotient(y, r * m);
    Collect(q, m, i, j, r);
    t := q - (i - j) * r;
  }

  /** One more common byte makes one more low bit agree. */
  lemma NextAgrees(p: Params, a: Word, b: Word, x: byte, n: nat)
    requires n < 64 && LowAgree(a, b, n)
    ensures LowAgree(p.Next(a, x), p.Next(b, x), n + 1)
  {
    var q: int :| a == b + q * Pow2(n);
    var w := p.gear(x);
    assert Pow2(63 - n) * Pow2(n + 1) == TWO_64 by {
      Pow2Of64();
      Pow2Plus(63 - n, n + 1);
    }
    assert 2 * (q * Pow2(n)) == q * Pow2(n + 1);
    var t := WrapKeeps(2 * a + w, 2 * b + w, q, Pow2(n + 1), Pow2(63 - n));
    LowAgreeBy(p.Next(a, x), p.Next(b, x), n + 1, t);
  }

  /** After n common bytes, min(n, 64) low bits agree, whatever was hashed before. */
  lemma {:induction false} RollAgrees(p: Params, h: Word, g: Word, s: Bytes)
    ensures LowAgree(Roll(p, h, s), Roll(p, g, s), Min(|s|, 64))
  {
    if s == [] {
      LowAgreeBy(h, g, 0, h - g);
    } else {
      var init := s[..|s| - 1];
      RollAgrees(p, h, g, init);
      if |init| < 64 {
        NextAgrees(p, Roll(p, h, init), Roll(p, g, init), s[|s| - 1], |init|);
      } else {
        LowAgreeFewer(Roll(p, h, init), Roll(p, g, init), 64, 63);
        NextAgrees(p, Roll(p, h, init), Roll(p, g, init), s[|s| - 1], 63);
      }
    }
  }

  lemma SameBit(a: Word, b: Word, k: nat)
    requires LowAgree(a, b, k + 1)
    ensures Bit(a, k) == Bit(b, k)
  {
    var q: int :| a == b + q * Pow2(k + 1);
    assert q * Pow2(k + 1) == (2 * q) * Pow2(k);
    QuotientShift(a, b, Pow2(k), 2 * q);
    assert (b / Pow2(k) + 2 * q) % 2 == (b / Pow2(k)) % 2;
  }

  /** Bit k of the hash is a function of the last k+1 bytes hashed, whatever came before. */
  lemma BitLocality(p: Params, h: Word, g: Word, s: Bytes, k: nat)
    requires k < 64 && k < |s|
    ensures Bit(Roll(p, h, s), k) == Bit(Roll(p, g, s), k)
  {
    RollAgrees(p, h, g, s);
    LowAgreeFewer(Roll(p, h, s), Roll(p, g, s), Min(|s|, 64), k + 1);
    SameBit(Roll(p, h, s), Roll(p, g, s), k);
  }

  lemma QuotientShift(a: int, b: int, m: nat, t: int)
    requires m > 0 && a == b + t * m
    ensures a / m == b / m + t
  {
    Quotient(a, m);
    Quotient(b, m);
    var e := a / m - b / m - t;
    assert e * m == b % m - a % m;
    if e != 0 {
      SmallMultiple(e, m);
    }
  }

  lemma {:induction false} RollAppend(p: Params, h: Word, s: Bytes, t: Bytes)
    ensures Roll(p, h, s + t) == Roll(p, Roll(p, h, s), t)
  {
    if t == [] {
      assert s + t == s;
    } else {
      assert (s + t)[..|s + t| - 1] == s + t[..|t| - 1];
      RollAppend(p, h, s, t[..|t| - 1]);
    }
  }

  /** From 63 bytes past minSize on, the hash tested at index i is a function of the last 64
      bytes alone: it does not depend on where the chunk began. */
  lemma WindowLocality(p: Params, data: Bytes, i: nat)
    requires p.minSize + 63 <= i < |data|
    ensures Roll(p, 0, data[p.minSize..i + 1]) == Roll(p, 0, data[i - 63..i + 1])
  {
    var window := data[i - 63..i + 1];
    var before := data[p.minSize..i - 63];
    assert data[p.minSize..i + 1] == before + window;
    RollAppend(p, 0, before, window);
    var a, b := Roll(p, Roll(p, 0, before), window), Roll(p, 0, window);
    RollAgrees(p, Roll(p, 0, before), 0, window);
    Pow2Of64();
    var q: int :| a == b + q * Pow2(64);
    if q != 0 {
      SmallMultiple(q, TWO_64);
    }
  }

  /** Two streams that agree on the 64 bytes ending at i and at j make the same cut decision
      there, wherever their current chunks began, when the same mask applies. */
  lemma CutDecisionLocal(p: Params, data: Bytes, i: nat, other: Bytes, j: nat)
    requires p.minSize + 63 <= i < |data| && p.minSize + 63 <= j < |other|
    requires data[i - 63..i + 1] == other[j - 63..j + 1] && p.Mask(i) == p.Mask(j)
    ensures Hit(p, data, i) <==> Hit(p, other, j)
  {
    WindowLocality(p, data, i);
    WindowLocality(p, other, j);
  }

  // ---- the hash and the mask test, computed otherwise ----

  /** `a & b`, bit by bit from the lowest. */
  function And(a: nat, b: nat): nat {
    if a == 0 || b == 0 then 0 else (a % 2) * (b % 2) + 2 * And(a / 2, b / 2)
  }

  lemma BitHalf(w: Word, k: nat)
    requires k > 0
    ensures Bit(w, k) == Bit(w / 2, k - 1)
  {
    HalfOf(w, Pow2(k - 1));
  }

  lemma HalfOf(w: nat, m: nat)
    requires m > 0
    ensures w / (2 * m) == (w / 2) / m
  {
    var q, r := (w / 2) / m, (w / 2) % m;
    assert w == 2 * (q * m + r) + w % 2;
    assert 2 * (q * m) == q * (2 * m);
    assert w == q * (2 * m) + (2 * r + w % 2) && 0 <= 2 * r + w % 2 < 2 * m;
    QuotientIs(w, 2 * m, q, 2 * r + w % 2);
  }

  lemma QuotientIs(w: nat, m: nat, q: nat, r: nat)
    requires m > 0 && w == q * m + r && r < m
    ensures w / m == q
  {
    Quotient(w, m);
    var d := w / m - q;
    assert d * m == (w / m) * m - q * m;
    if d != 0 {
      SmallMultiple(d, m);
    }
  }

  lemma NoBits(k: nat)
    ensures !Bit(0, k)
  {
    QuotientIs(0, Pow2(k), 0, 0);
  }

  lemma {:induction false} AndBits(a: Word, b: Word, n: nat)
    requires a < Pow2(n)
    ensures And(a, b) == 0 <==> forall k :: 0 <= k < n ==> !(Bit(a, k) && Bit(b, k))
    decreases n
  {
    forall k | 0 <= k < n
      ensures !Bit(0, k)
    {
      NoBits(k);
    }
    if a != 0 && b != 0 {
      assert Pow2(n) == 2 * Pow2(n - 1);
      AndBits(a / 2, b / 2, n - 1);
      forall k | 0 < k < n
        ensures Bit(a, k) == Bit(a / 2, k - 1) && Bit(b, k) == Bit(b / 2, k - 1)
      {
        BitHalf(a, k);
        BitHalf(b, k);
      }
      assert forall k :: 0 <= k < n - 1 ==> Bit(a, k + 1) == Bit(a / 2, k) && Bit(b, k + 1) == Bit(b / 2, k);
      assert Pow2(0) == 1 && (Bit(a, 0) <==> a % 2 == 1) && (Bit(b, 0) <==> b % 2 == 1);
    }
  }

  /** The test of a hash against a mask is that no bit of their conjunction is set. */
  lemma DisjointIsAnd(a: Word, b: Word)
    ensures Disjoint(a, b) <==> And(a, b) == 0
  {
    Pow2Of64();
    AndBits(a, b, 64);
  }

  /** The sum of the Gear words of the bytes, each shifted once for every byte after it. */
  function GearSum(p: Params, s: Bytes): nat {
    if s == [] then 0 else p.gear(s[0]) * Pow2(|s| - 1) + GearSum(p, s[1..])
  }

  lemma {:induction false} GearSumPush(p: Params, s: Bytes, b: byte)
    ensures GearSum(p, s + [b]) == 2 * GearSum(p, s) + p.gear(b)
  {
    if s == [] {
      assert (s + [b])[1..] == [] && Pow2(0) == 1;
    } else {
      GearSumPush(p, s[1..], b);
      assert (s + [b])[1..] == s[1..] + [b];
      assert Pow2(|s|) == 2 * Pow2(|s| - 1);
      assert p.gear(s[0]) * (2 * Pow2(|s| - 1)) == 2 * (p.gear(s[0]) * Pow2(|s| - 1));
    }
  }

  lemma DoubleRemainder(x: nat, g: nat, m: nat)
    requires m > 0
    ensures (2 * (x % m) + g) % m == (2 * x + g) % m
  {
    Quotient(x, m);
    Quotient(2 * (x % m) + g, m);
    var q, r := (2 * (x % m) + g) / m, (2 * (x % m) + g) % m;
    assert 2 * x + g == (q + 2 * (x / m)) * m + r;
    QuotientIs(2 * x + g, m, q + 2 * (x / m), r);
    Quotient(2 * x + g, m);
  }

  /** The rolling hash is that sum modulo 2^64. */
  lemma {:induction false} RollIsSum(p: Params, s: Bytes)
    ensures Roll(p, 0, s) == GearSum(p, s) % TWO_64
  {
    if s != [] {
      var init, b := s[..|s| - 1], s[|s| - 1];
      RollIsSum(p, init);
      assert s == init + [b];
      GearSumPush(p, init, b);
      DoubleRemainder(GearSum(p, init), p.gear(b), TWO_64);
    }
  }
}
