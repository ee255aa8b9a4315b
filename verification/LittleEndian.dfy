/** Fixed-width little-endian integers, as encoding/binary writes them. */
module LittleEndian {
  import opened Blob

  function Bound(width: nat): (b: nat)
    ensures b > 0
  {
    if width == 0 then 1 else 256 * Bound(width - 1)
  }

  function Put(n: nat, width: nat): (b: Bytes)
    requires n < Bound(width)
    ensures |b| == width
  {
    if width == 0 then [] else [n % 256] + Put(n / 256, width - 1)
  }

  function Get(b: Bytes): (n: nat)
    ensures n < Bound(|b|)
  {
    if b == [] then 0 else b[0] + 256 * Get(b[1..])
  }

  lemma {:induction false} GetPut(n: nat, width: nat)
    requires n < Bound(width)
    ensures Get(Put(n, width)) == n
  {
    if width > 0 {
      GetPut(n / 256, width - 1);
      assert Put(n, width)[1..] == Put(n / 256, width - 1);
    }
  }

  /** Digit k of n in base 256, the lowest being number 0. */
  function Digit(n: nat, k: nat): byte {
    if k == 0 then n % 256 else Digit(n / 256, k - 1)
  }

  /** The order of the bytes: byte k is digit k, so the lowest comes first. */
  lemma {:induction false} PutDigit(n: nat, width: nat, k: nat)
    requires n < Bound(width) && k < width
    ensures Put(n, width)[k] == Digit(n, k)
  {
    if k > 0 {
      PutDigit(n / 256, width - 1, k - 1);
    }
  }

  /** Reading back takes byte k for digit k. */
  lemma {:induction false} GetDigit(b: Bytes, k: nat)
    requires k < |b|
    ensures Digit(Get(b), k) == b[k]
  {
    if k > 0 {
      GetDigit(b[1..], k - 1);
    }
  }

  /** Four bytes, written out. */
  lemma GetFour(b: Bytes)
    requires |b| == 4
    ensures Get(b) == b[0] as int + 0x100 * b[1] as int + 0x1_0000 * b[2] as int + 0x100_0000 * b[3] as int
  {
    var b1, b2, b3, b4 := b[1..], b[1..][1..], b[1..][1..][1..], b[1..][1..][1..][1..];
    assert b1[0] == b[1] && b2[0] == b[2] && b3[0] == b[3] && b4 == [];
    assert Get(b3) == b[3] as int + 256 * Get(b4);
    assert Get(b2) == b[2] as int + 256 * Get(b3);
    assert Get(b1) == b[1] as int + 256 * Get(b2);
  }

  lemma Widths()
    ensures Bound(4) == 0x1_0000_0000 && Bound(8) == TWO_64
  {
    assert Bound(4) == 0x1_0000_0000;
    assert Bound(8) == 256 * Bound(7) == 65536 * Bound(6) == 0x100_0000 * Bound(5);
  }

  /** An int64 travels as the uint64 with the same bits. */
  function PutInt64(i: Int64): (b: Bytes)
    ensures |b| == 8
  {
    Widths();
    Put(if i < 0 then i + TWO_64 else i, 8)
  }

  function GetInt64(b: Bytes): Int64
    requires |b| == 8
  {
    Widths();
    var n := Get(b);
    if n >= TWO_63 then n - TWO_64 else n
  }

  /** The bytes are the digits of n, lowest first. */
  ghost predicate Spells(b: Bytes, n: nat) {
    forall k :: 0 <= k < |b| ==> b[k] == Digit(n, k)
  }

  lemma PutSpells(n: nat, width: nat)
    requires n < Bound(width)
    ensures Spells(Put(n, width), n)
  {
    forall k | 0 <= k < width
      ensures Put(n, width)[k] == Digit(n, k)
    {
      PutDigit(n, width, k);
    }
  }

  /** The bytes of an int64: the digits of the number, or of its two's complement. */
  lemma Int64Spells(i: Int64)
    ensures Spells(PutInt64(i), if i < 0 then TWO_64 + i else i)
  {
    Widths();
    PutSpells(if i < 0 then i + TWO_64 else i, 8);
  }

  /** The characters of a file format's magic number. */
  function Ascii(s: string): (b: Bytes)
    requires forall k :: 0 <= k < |s| ==> s[k] as int < 128
    ensures |b| == |s| && forall k :: 0 <= k < |b| ==> b[k] == s[k] as int
  {
    seq(|s|, k requires 0 <= k < |s| => s[k] as int)
  }

  lemma Int64RoundTrip(i: Int64)
    ensures GetInt64(PutInt64(i)) == i
  {
    Widths();
    GetPut(if i < 0 then i + TWO_64 else i, 8);
  }

  /** The sign of an int64 is the top bit of its last byte. */
  lemma SignBit(b: Bytes)
    requires |b| == 8
    ensures GetInt64(b) >= 0 <==> b[7] < 128
  {
    Widths();
    var b4 := b[1..][1..][1..][1..];
    assert b4[0] == b[4] && b4[1] == b[5] && b4[2] == b[6] && b4[3] == b[7];
    GetFour(b4);
    var _ := LowFour(b);
  }

  lemma LowFour(b: Bytes) returns (low: nat)
    requires |b| >= 4
    ensures low < 0x1_0000_0000 && Get(b) == low + 0x1_0000_0000 * Get(b[1..][1..][1..][1..])
  {
    var b1, b2, b3, b4 := b[1..], b[1..][1..], b[1..][1..][1..], b[1..][1..][1..][1..];
    assert Get(b3) == b3[0] as int + 256 * Get(b4);
    assert Get(b2) == b2[0] as int + 256 * Get(b3);
    assert Get(b1) == b1[0] as int + 256 * Get(b2);
    low := b[0] as int + 0x100 * b1[0] as int + 0x1_0000 * b2[0] as int + 0x100_0000 * b3[0] as int;
    assert Get(b) == low + 0x1_0000_0000 * Get(b4);
  }
}
