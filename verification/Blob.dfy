/** Content addresses, blobs and the few collection lemmas every component uses. */
module Wrappers {
  datatype Option<+T> = None | Some(value: T)
}

module Blob {
  type byte = b: int | 0 <= b < 256

  type Bytes = seq<byte>

  const TWO_63 := 0x8000_0000_0000_0000
  const TWO_64 := 0x1_0000_0000_0000_0000

  /** Go's int64; sums wrap around. */
  type Int64 = i: int | -TWO_63 <= i < TWO_63

  function AddInt64(a: Int64, b: Int64): (r: Int64)
    ensures r == a + b <==> -TWO_63 <= a + b < TWO_63
  {
    var s := a + b;
    if s >= TWO_63 then s - TWO_64 else if s < -TWO_63 then s + TWO_64 else s
  }

  const ID_SIZE := 32

  /** The content address of a blob: a 32-byte digest. */
  type ID = d: Bytes | |d| == ID_SIZE witness seq(ID_SIZE, _ => 0)

  const ZERO: ID := seq(ID_SIZE, _ => 0)

  predicate IsZero(id: ID) {
    forall k :: 0 <= k < ID_SIZE ==> id[k] == 0
  }

  /** The digest function is a parameter of everything that hashes. Nothing is assumed of it
      here: it need not be injective, and cannot be on all byte strings. */
  type Digest = Bytes -> ID

  /** A chunk together with its content address. */
  datatype Item = Item(id: ID, data: Bytes)

  function Ids(items: seq<Item>): (ids: seq<ID>)
    ensures |ids| == |items|
    ensures forall k :: 0 <= k < |ids| ==> ids[k] == items[k].id
  {
    seq(|items|, k requires 0 <= k < |items| => items[k].id)
  }

  function IdSet(items: seq<Item>): set<ID> {
    set it | it in items :: it.id
  }

  ghost predicate Distinct(items: seq<Item>) {
    forall i, j :: 0 <= i < j < |items| ==> items[i].id != items[j].id
  }

  /** Total number of bytes in a list of chunks. */
  function Size(items: seq<Item>): nat {
    if items == [] then 0 else Size(items[..|items| - 1]) + |items[|items| - 1].data|
  }

  function Concat<T>(parts: seq<seq<T>>): seq<T> {
    if parts == [] then [] else Concat(parts[..|parts| - 1]) + parts[|parts| - 1]
  }

  lemma IdSetPush(items: seq<Item>, it: Item)
    ensures IdSet(items + [it]) == IdSet(items) + {it.id}
  {
    assert forall x :: x in items + [it] <==> x in items || x == it;
  }

  lemma DistinctPush(items: seq<Item>, it: Item)
    requires Distinct(items) && it.id !in IdSet(items)
    ensures Distinct(items + [it])
  {
  }

  lemma SizePush(items: seq<Item>, it: Item)
    ensures Size(items + [it]) == Size(items) + |it.data|
  {
    assert (items + [it])[..|items|] == items;
  }

  lemma {:induction false} SizeAppend(a: seq<Item>, b: seq<Item>)
    ensures Size(a + b) == Size(a) + Size(b)
  {
    if b == [] {
      assert a + b == a;
    } else {
      var n := |b| - 1;
      SizeAppend(a, b[..n]);
      assert (a + b)[..|a + b| - 1] == a + b[..n];
    }
  }

  lemma ConcatPush<T>(parts: seq<seq<T>>, p: seq<T>)
    ensures Concat(parts + [p]) == Concat(parts) + p
  {
    assert (parts + [p])[..|parts|] == parts;
  }

  lemma {:induction false} ConcatCons<T>(p: seq<T>, parts: seq<seq<T>>)
    ensures Concat([p] + parts) == p + Concat(parts)
  {
    var whole := [p] + parts;
    if parts == [] {
      assert whole[..0] == [] && Concat(whole) == Concat(whole[..0]) + p;
    } else {
      var n := |parts| - 1;
      assert whole[..n + 1] == [p] + parts[..n];
      ConcatCons(p, parts[..n]);
    }
  }

  lemma {:induction false} InConcat<T>(parts: seq<seq<T>>, t: nat, x: T)
    requires t < |parts| && x in parts[t]
    ensures x in Concat(parts)
  {
    if t < |parts| - 1 {
      InConcat(parts[..|parts| - 1], t, x);
    }
  }

  lemma {:induction false} ConcatMember<T>(parts: seq<seq<T>>, x: T) returns (t: nat)
    requires x in Concat(parts)
    ensures t < |parts| && x in parts[t]
  {
    var n := |parts| - 1;
    if x in parts[n] {
      t := n;
    } else {
      t := ConcatMember(parts[..n], x);
    }
  }

  /** Taking out one chunk. */
  lemma SizeWithout(b: seq<Item>, k: nat)
    requires k < |b|
    ensures Size(b) == Size(b[..k] + b[k + 1..]) + |b[k].data|
  {
    assert b == (b[..k] + [b[k]]) + b[k + 1..];
    SizeAppend(b[..k] + [b[k]], b[k + 1..]);
    SizePush(b[..k], b[k]);
    SizeAppend(b[..k], b[k + 1..]);
  }

  lemma MultisetWithout<T>(b: seq<T>, k: nat)
    requires k < |b|
    ensures multiset(b[..k] + b[k + 1..]) == multiset(b) - multiset{b[k]}
  {
    assert b == b[..k] + ([b[k]] + b[k + 1..]);
  }

  /** Equal multisets of chunks hold the same number of bytes. */
  lemma {:induction false} SizeOfPermutation(a: seq<Item>, b: seq<Item>)
    requires multiset(a) == multiset(b)
    ensures Size(a) == Size(b)
    decreases |a|
  {
    if a == [] {
      assert |multiset(b)| == |b|;
    } else {
      var n := |a| - 1;
      assert a[n] in multiset(b);
      var k :| 0 <= k < |b| && b[k] == a[n];
      MultisetWithout(a, n);
      assert a[..n] + a[n + 1..] == a[..n];
      MultisetWithout(b, k);
      SizeOfPermutation(a[..n], b[..k] + b[k + 1..]);
      SizeWithout(b, k);
    }
  }

  /** Sum of a measure over a sequence. */
  function Sum<T>(s: seq<T>, f: T -> nat): nat {
    if s == [] then 0 else Sum(s[..|s| - 1], f) + f(s[|s| - 1])
  }

  lemma SumPush<T>(s: seq<T>, x: T, f: T -> nat)
    ensures Sum(s + [x], f) == Sum(s, f) + f(x)
  {
    assert (s + [x])[..|s|] == s;
  }

  lemma {:induction false} SumUpdate<T>(s: seq<T>, i: nat, x: T, f: T -> nat)
    requires i < |s|
    ensures Sum(s[i := x], f) + f(s[i]) == Sum(s, f) + f(x)
  {
    var n := |s| - 1;
    if i < n {
      SumUpdate(s[..n], i, x, f);
      assert s[i := x][..n] == s[..n][i := x];
    } else {
      assert s[i := x][..n] == s[..n];
    }
  }

  lemma {:induction false} SumPop<T>(s: seq<T>, f: T -> nat)
    requires s != []
    ensures Sum(s, f) == f(s[0]) + Sum(s[1..], f)
  {
    var n := |s| - 1;
    if n > 0 {
      SumPop(s[..n], f);
      assert s[1..][..n - 1] == s[..n][1..];
    } else {
      assert s[..n] == [] && s[1..] == [];
    }
  }

  lemma {:induction false} SumAtMost<T>(s: seq<T>, f: T -> nat, bound: nat)
    requires forall i :: 0 <= i < |s| ==> f(s[i]) <= bound
    ensures Sum(s, f) <= |s| * bound
  {
    if s != [] {
      SumAtMost(s[..|s| - 1], f, bound);
    }
  }

  /** All elements but one. */
  lemma {:induction false} SumOthers<T>(s: seq<T>, i: nat, f: T -> nat, bound: nat)
    requires i < |s| && forall k :: 0 <= k < |s| ==> f(s[k]) <= bound
    ensures Sum(s, f) <= f(s[i]) + (|s| - 1) * bound
  {
    var n := |s| - 1;
    if i < n {
      SumOthers(s[..n], i, f, bound);
    } else {
      SumAtMost(s[..n], f, bound);
    }
  }

  lemma {:induction false} SumSame<T>(s: seq<T>, f: T -> nat, g: T -> nat)
    requires forall k :: 0 <= k < |s| ==> f(s[k]) == g(s[k])
    ensures Sum(s, f) == Sum(s, g)
  {
    if s != [] {
      SumSame(s[..|s| - 1], f, g);
    }
  }
}
