/** The object server that the S3 client is proved against: conditional writes with conflicts,
    throttling, and paged listings in key order. */
module S3Fake {
  import opened Blob
  import opened Retry

  type Key = string

  /** Lexicographic order. */
  predicate Less(a: Key, b: Key) {
    b != [] && (a == [] || a[0] < b[0] || (a[0] == b[0] && Less(a[1..], b[1..])))
  }

  lemma {:induction false} LessTransitive(a: Key, b: Key, c: Key)
    requires Less(a, b) && Less(b, c)
    ensures Less(a, c)
  {
    if a != [] && a[0] == b[0] && b[0] == c[0] {
      LessTransitive(a[1..], b[1..], c[1..]);
    }
  }

  lemma {:induction false} LessIrreflexive(a: Key)
    ensures !Less(a, a)
  {
    if a != [] {
      LessIrreflexive(a[1..]);
    }
  }

  lemma {:induction false} LessTotal(a: Key, b: Key)
    ensures Less(a, b) || a == b || Less(b, a)
    ensures !(Less(a, b) && Less(b, a)) && !Less(a, a)
  {
    LessIrreflexive(a);
    if a != [] && b != [] && a[0] == b[0] {
      LessTotal(a[1..], b[1..]);
      assert a == [a[0]] + a[1..] && b == [b[0]] + b[1..];
    }
  }

  ghost predicate Increasing(keys: seq<Key>) {
    forall i, j :: 0 <= i < j < |keys| ==> Less(keys[i], keys[j])
  }

  type Bucket = map<Key, Bytes>

  function WithPrefix(b: Bucket, prefix: Key): set<Key> {
    set k | k in b && prefix <= k
  }

  function KeysOf(keys: seq<Key>): set<Key> {
    set k | k in keys
  }

  ghost predicate FollowsPage(b: Bucket, prefix: Key, token: Key, page: seq<Key>, k: Key) {
    k in WithPrefix(b, prefix) && (token == "" || Less(token, k)) && k !in page
  }

  /** A page: the next `limit` keys after the token, in order; `next` is the last of them when
      more follow, and empty otherwise. */
  ghost predicate IsPage(b: Bucket, prefix: Key, token: Key, limit: nat, page: seq<Key>, next: Key) {
    && |page| <= limit && Increasing(page)
    && (forall k :: k in page ==> k in WithPrefix(b, prefix) && (token == "" || Less(token, k)))
    && (next == "" ==> forall k :: k in WithPrefix(b, prefix) && (token == "" || Less(token, k)) ==> k in page)
    && (next != "" ==>
         && |page| == limit > 0 && next == page[|page| - 1] && (exists k :: FollowsPage(b, prefix, token, page, k))
         && forall k :: k in WithPrefix(b, prefix) && (token == "" || Less(token, k)) && k !in page ==> Less(next, k))
  }

  /** HTTP status of a response. */
  datatype Response = OK | SlowDown503 | Conflict409 | PreconditionFailed412

  /** classify, for the statuses that the server returns. */
  function Classify(r: Response): Outcome {
    match r
    case OK => Success
    case SlowDown503 => Retryable
    case Conflict409 => Retryable
    case PreconditionFailed412 => Fatal
  }

  /** Call number `call` is one of the throttled ones; the calls of all clients are counted. */
  predicate Throttled(every: nat, call: nat) {
    every > 0 && call % every == 0
  }

  /** How a put is answered: call number `calls`, with this many conflicts still to be injected,
      for a key that is present or not. */
  function PutResponse(throttleEvery: nat, calls: nat, conflicts: nat, present: bool, ifNoneMatch: bool): Response {
    if Throttled(throttleEvery, calls) then SlowDown503
    else if ifNoneMatch && conflicts > 0 then Conflict409
    else if ifNoneMatch && present then PreconditionFailed412
    else OK
  }

  class Fake {
    var objects: Bucket
    var conflictsRemaining: nat
    var callCount: nat
    const throttleEvery: nat
    const pageSize: nat

    constructor (conflicts: nat, throttleEvery: nat, pageSize: nat)
      ensures objects == map[] && conflictsRemaining == conflicts && callCount == 0
      ensures this.throttleEvery == throttleEvery && this.pageSize == pageSize
    {
      objects, conflictsRemaining, callCount := map[], conflicts, 0;
      this.throttleEvery := throttleEvery;
      this.pageSize := pageSize;
    }

    /** Every throttleEvery-th call, whoever makes it, is throttled. */
    method ThrottleIfDue() returns (due: bool)
      modifies this`callCount
      ensures callCount == old(callCount) + 1
      ensures due <==> Throttled(throttleEvery, callCount)
    {
      callCount := callCount + 1;
      due := throttleEvery > 0 && callCount % throttleEvery == 0;
    }

    /** Writes if the response is OK, and only then: unless the call is throttled, always for an
        unconditional put, and for a conditional one when no conflict is left and the key is free. */
    method PutObject(key: Key, body: Bytes, ifNoneMatch: bool) returns (r: Response)
      modifies this`callCount, this`conflictsRemaining, this`objects
      ensures callCount == old(callCount) + 1
      ensures r == PutResponse(throttleEvery, callCount, old(conflictsRemaining), key in old(objects), ifNoneMatch)
      ensures r == SlowDown503 <==> throttleEvery > 0 && callCount % throttleEvery == 0
      ensures r == Conflict409 <==> r != SlowDown503 && ifNoneMatch && old(conflictsRemaining) > 0
      ensures r == PreconditionFailed412 <==>
        r != SlowDown503 && ifNoneMatch && old(conflictsRemaining) == 0 && key in old(objects)
      ensures objects == if r == OK then old(objects)[key := body] else old(objects)
      ensures conflictsRemaining == old(conflictsRemaining) - (if r == Conflict409 then 1 else 0)
    {
      var due := ThrottleIfDue();
      if due {
        return SlowDown503;
      }
      if ifNoneMatch {
        if conflictsRemaining > 0 {
          conflictsRemaining := conflictsRemaining - 1;
          return Conflict409;
        }
        if key in objects {
          return PreconditionFailed412;
        }
      }
      objects := objects[key := body];
      return OK;
    }

    /** Collects and sorts the matching keys. */
    method SortedKeys(prefix: Key) returns (keys: seq<Key>)
      ensures Increasing(keys) && KeysOf(keys) == WithPrefix(objects, prefix)
    {
      keys := [];
      var left := WithPrefix(objects, prefix);
      while left != {}
        invariant left <= WithPrefix(objects, prefix) && Increasing(keys)
        invariant KeysOf(keys) == WithPrefix(objects, prefix) - left
      {
        var k :| k in left;
        assert k !in KeysOf(keys);
        keys := Insert(keys, k);
        left := left - {k};
      }
    }

    /** One page of at most min(pageSize, maxKeys) keys. */
    method ListObjects(prefix: Key, token: Key, maxKeys: nat) returns (r: Response, page: seq<Key>, next: Key)
      requires pageSize >= 1 && maxKeys >= 1 && "" !in objects
      modifies this`callCount
      ensures callCount == old(callCount) + 1
      ensures r == if Throttled(throttleEvery, callCount) then SlowDown503 else OK
      ensures r == OK ==> IsPage(objects, prefix, token, if maxKeys < pageSize then maxKeys else pageSize, page, next)
    {
      page, next := [], "";
      var due := ThrottleIfDue();
      if due {
        return SlowDown503, page, next;
      }
      var keys := SortedKeys(prefix);
      var start := 0;
      if token != "" {
        while start < |keys| && !Less(token, keys[start])
          invariant start <= |keys| && forall i :: 0 <= i < start ==> !Less(token, keys[i])
        {
          start := start + 1;
        }
      }
      var limit := if maxKeys < pageSize then maxKeys else pageSize;
      var end := if |keys| - start < limit then |keys| else start + limit;
      page := keys[start..end];
      if end < |keys| {
        next := page[|page| - 1];
      }
      PageOf(objects, prefix, token, limit, keys, start, end);
      return OK, page, next;
    }
  }

  function Insert(keys: seq<Key>, k: Key): (r: seq<Key>)
    requires Increasing(keys) && k !in KeysOf(keys)
    ensures Increasing(r) && KeysOf(r) == KeysOf(keys) + {k}
  {
    if keys == [] then
      [k]
    else
      var n := |keys| - 1;
      LessTotal(keys[n], k);
      assert keys == keys[..n] + [keys[n]];
      if Less(keys[n], k) then
        LastIsGreatest(keys, k);
        keys + [k]
      else
        var r := Insert(keys[..n], k);
        LastIsGreater(r, keys, k);
        r + [keys[n]]
  }

  lemma LastIsGreatest(keys: seq<Key>, k: Key)
    requires Increasing(keys) && keys != [] && Less(keys[|keys| - 1], k)
    ensures Increasing(keys + [k]) && KeysOf(keys + [k]) == KeysOf(keys) + {k}
  {
    forall i | 0 <= i < |keys| - 1
      ensures Less(keys[i], k)
    {
      LessTransitive(keys[i], keys[|keys| - 1], k);
    }
  }

  lemma LastKey(keys: seq<Key>)
    requires keys != []
    ensures KeysOf(keys) == KeysOf(keys[..|keys| - 1]) + {keys[|keys| - 1]}
  {
    assert keys == keys[..|keys| - 1] + [keys[|keys| - 1]];
  }

  lemma LastIsGreater(r: seq<Key>, keys: seq<Key>, k: Key)
    requires Increasing(keys) && keys != [] && Less(k, keys[|keys| - 1])
    requires Increasing(r) && KeysOf(r) == KeysOf(keys[..|keys| - 1]) + {k}
    ensures Increasing(r + [keys[|keys| - 1]]) && KeysOf(r + [keys[|keys| - 1]]) == KeysOf(keys) + {k}
  {
    var last := keys[|keys| - 1];
    LastKey(keys);
    LastKey(r + [last]);
    assert (r + [last])[..|r|] == r;
    forall i | 0 <= i < |r|
      ensures Less(r[i], last)
    {
      assert r[i] in KeysOf(r);
    }
  }

  lemma PageOf(b: Bucket, prefix: Key, token: Key, limit: nat, keys: seq<Key>, start: nat, end: nat)
    requires Increasing(keys) && KeysOf(keys) == WithPrefix(b, prefix) && "" !in b
    requires start <= end <= |keys| && limit >= 1
    requires end == if |keys| - start < limit then |keys| else start + limit
    requires token == "" ==> start == 0
    requires token != "" ==>
      (forall i :: 0 <= i < start ==> !Less(token, keys[i])) && (start < |keys| ==> Less(token, keys[start]))
    ensures IsPage(b, prefix, token, limit, keys[start..end], if end < |keys| then keys[end - 1] else "")
  {
    forall i | start <= i < |keys|
      ensures token == "" || Less(token, keys[i])
    {
      if token != "" && i > start {
        LessTransitive(token, keys[start], keys[i]);
      }
    }
    forall k | k in WithPrefix(b, prefix) && (token == "" || Less(token, k)) && k !in keys[start..end]
      ensures end < |keys| && Less(keys[end - 1], k)
    {
      After(keys, start, end, k);
    }
    assert forall i :: 0 <= i < |keys| ==> keys[i] in KeysOf(keys);
    if end < |keys| {
      LessIrreflexive(keys[end]);
      assert FollowsPage(b, prefix, token, keys[start..end], keys[end]);
    }
  }

  lemma After(keys: seq<Key>, start: nat, end: nat, k: Key)
    requires Increasing(keys) && start <= end <= |keys| && k in KeysOf(keys) && k !in keys[start..end]
    requires (end < |keys| ==> start < end) && forall i :: 0 <= i < start ==> keys[i] != k
    ensures end < |keys| && Less(keys[end - 1], k)
  {
    var i :| 0 <= i < |keys| && keys[i] == k;
    assert forall j :: start <= j < end ==> keys[start..end][j - start] == keys[j];
  }
}
