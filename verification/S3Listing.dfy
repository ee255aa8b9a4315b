/** The paging client: exact listings although others change the bucket between pages. */
module S3Listing {
  import opened Arithmetic
  import opened Retry
  import opened S3Fake

  const MAX_KEYS := 1000

  /** The configured key prefix of the repository within the bucket, with its separator. */
  function Root(prefix: Key): Key {
    if prefix == "" then "" else prefix + "/"
  }

  /** One bucket can hold several repositories: two of them share an object only if they have the
      same prefix, one of them has none, or the prefix of one lies below that of the other. */
  lemma Confined(a: Key, b: Key, k: Key, j: Key)
    requires Root(a) + k == Root(b) + j
    ensures a == b || a == "" || b == "" || a + "/" <= b || b + "/" <= a
  {
    if |a| == |b| {
      assert a == (Root(a) + k)[..|a|] && b == (Root(b) + j)[..|b|];
    } else if |a| < |b| {
      NestedRoot(a, b, k, j);
    } else {
      NestedRoot(b, a, j, k);
    }
  }

  lemma NestedRoot(a: Key, b: Key, k: Key, j: Key)
    requires Root(a) + k == Root(b) + j && |a| < |b|
    ensures a == "" || a + "/" <= b
  {
    if a != "" {
      assert a + "/" == (Root(a) + k)[..|a| + 1];
      assert b[..|a| + 1] == (Root(b) + j)[..|a| + 1];
    }
  }

  function Trim(root: Key, keys: seq<Key>): (r: seq<Key>)
    requires forall i :: 0 <= i < |keys| ==> root <= keys[i]
    ensures |r| == |keys| && forall i :: 0 <= i < |keys| ==> keys[i] == root + r[i]
  {
    seq(|keys|, i requires 0 <= i < |keys| => keys[i][|root|..])
  }

  lemma {:induction false} LessUnder(root: Key, a: Key, b: Key)
    ensures Less(root + a, root + b) <==> Less(a, b)
  {
    if root == "" {
      assert root + a == a && root + b == b;
    } else {
      LessUnder(root[1..], a, b);
      assert (root + a)[1..] == root[1..] + a && (root + b)[1..] == root[1..] + b;
    }
  }

  lemma TrimIncreasing(root: Key, keys: seq<Key>)
    requires Increasing(keys) && forall i :: 0 <= i < |keys| ==> root <= keys[i]
    ensures Increasing(Trim(root, keys))
  {
    var r := Trim(root, keys);
    forall i, j | 0 <= i < j < |r|
      ensures Less(r[i], r[j])
    {
      LessUnder(root, r[i], r[j]);
    }
  }

  /** What other clients do before one of our calls: the bucket as they leave it, and how many
      calls of their own the server counts. */
  datatype Others = Others(bucket: Bucket, calls: nat)

  ghost predicate NoEmptyKey(future: seq<Others>) {
    forall i :: 0 <= i < |future| ==> "" !in future[i].bucket
  }

  /** The number of our next call, after `calls` calls by anyone. */
  function NextCall(calls: nat, future: seq<Others>): nat {
    calls + (if future == [] then 0 else future[0].calls) + 1
  }

  function Later(future: seq<Others>): seq<Others> {
    if future == [] then [] else future[1..]
  }

  /** One of our next `budget` calls is not throttled. */
  predicate Served(every: nat, calls: nat, future: seq<Others>, budget: nat)
    decreases budget
  {
    && budget > 0
    && var call := NextCall(calls, future);
      !Throttled(every, call) || Served(every, call, Later(future), budget - 1)
  }

  /** Throttling stays within the retry budget: at no point are `budget` of our calls in a row
      throttled, and once others rest it takes at most a second attempt. */
  predicate WithinBudget(every: nat, calls: nat, future: seq<Others>, budget: nat)
    decreases |future|
  {
    if future == [] then
      every == 0 || (every > 1 && budget > 1)
    else
      && Served(every, calls, future, budget)
      && WithinBudget(every, NextCall(calls, future), future[1..], budget)
  }

  lemma WithinIsServed(every: nat, calls: nat, future: seq<Others>, budget: nat)
    requires WithinBudget(every, calls, future, budget) && budget > 0
    ensures Served(every, calls, future, budget)
    ensures WithinBudget(every, NextCall(calls, future), Later(future), budget)
  {
    if future == [] && every > 1 {
      if Throttled(every, calls + 1) {
        NotTwice(calls + 1, every);
      }
      assert Served(every, calls + 1, [], budget - 1) || !Throttled(every, calls + 1);
    }
  }

  /** It does so if nothing is ever throttled, and also if others only change the bucket, not every
      call is throttled and two attempts are allowed. */
  lemma {:induction false} QuietIsWithin(every: nat, calls: nat, future: seq<Others>, budget: nat)
    requires budget > 0 && (every == 0 || (every > 1 && budget > 1 && forall o :: o in future ==> o.calls == 0))
    ensures WithinBudget(every, calls, future, budget)
    decreases |future|
  {
    if future != [] {
      var call := NextCall(calls, future);
      if Throttled(every, call) {
        NotTwice(call, every);
        assert Later(future) != [] ==> Later(future)[0] in future;
        assert Served(every, call, Later(future), budget - 1);
      }
      QuietIsWithin(every, call, future[1..], budget);
    }
  }

  /** If every call is throttled, no budget is enough. */
  lemma {:induction false} NeverWithin(calls: nat, future: seq<Others>, budget: nat)
    ensures !WithinBudget(1, calls, future, budget) && !Served(1, calls, future, budget)
    decreases budget, |future|
  {
    if budget > 0 {
      NeverWithin(NextCall(calls, future), Later(future), budget - 1);
      assert Throttled(1, NextCall(calls, future));
    }
  }

  ghost predicate Suffix(rest: seq<Others>, future: seq<Others>) {
    |rest| <= |future| && rest == future[|future| - |rest|..]
  }

  /** The bucket when all but `rest` of the future has happened. */
  ghost function BucketAt(start: Bucket, future: seq<Others>, rest: seq<Others>): Bucket
    requires Suffix(rest, future)
  {
    if |rest| == |future| then start else future[|future| - |rest| - 1].bucket
  }

  /** Fetches one page, retrying when throttled. `future` is what other clients will do before
      each further call; once it is used up they rest. A page is fetched if and only if one of
      the calls in the budget is not throttled. */
  method ListPage(f: Fake, maxAttempts: int, prefix: Key, token: Key, future: seq<Others>)
      returns (ok: bool, page: seq<Key>, next: Key, rest: seq<Others>)
    requires f.pageSize >= 1 && NoEmptyKey(future) && "" !in f.objects
    modifies f`objects, f`callCount
    ensures "" !in f.objects && NoEmptyKey(rest)
    ensures Suffix(rest, future) && f.objects == BucketAt(old(f.objects), future, rest)
    ensures future != [] ==> |rest| < |future|
    ensures ok ==> exists limit :: IsPage(f.objects, prefix, token, limit, page, next)
    ensures ok <==> Served(f.throttleEvery, old(f.callCount), future, Budget(maxAttempts))
    ensures WithinBudget(f.throttleEvery, old(f.callCount), future, Budget(maxAttempts)) ==>
      WithinBudget(f.throttleEvery, f.callCount, rest, Budget(maxAttempts))
  {
    rest, page, next := future, [], "";
    ghost var budget := Budget(maxAttempts);
    for attempt := 0 to Budget(maxAttempts)
      invariant attempt < budget
      invariant "" !in f.objects && NoEmptyKey(rest)
      invariant Suffix(rest, future) && f.objects == BucketAt(old(f.objects), future, rest)
      invariant future != [] && attempt > 0 ==> |rest| < |future|
      invariant Served(f.throttleEvery, old(f.callCount), future, budget)
           <==> Served(f.throttleEvery, f.callCount, rest, budget - attempt)
      invariant WithinBudget(f.throttleEvery, old(f.callCount), future, budget) ==>
        WithinBudget(f.throttleEvery, f.callCount, rest, budget)
    {
      if WithinBudget(f.throttleEvery, f.callCount, rest, Budget(maxAttempts)) {
        WithinIsServed(f.throttleEvery, f.callCount, rest, budget);
      }
      if rest != [] {
        f.objects := rest[0].bucket;
        f.callCount := f.callCount + rest[0].calls;
        rest := rest[1..];
      }
      var r;
      r, page, next := f.ListObjects(prefix, token, MAX_KEYS);
      var verdict := AfterAttempt(maxAttempts, attempt, Classify(r));
      if verdict.Some? {
        return verdict.value == Succeeded, page, next, rest;
      }
    }
    assert false;
  }

  /** Keys at or before the token have been listed. */
  ghost predicate Beyond(token: Key, k: Key) {
    token == "" || Less(token, k)
  }

  /** What has been listed when the token is `token`, over the bucket states `views`. */
  ghost predicate Covered(prefix: Key, listed: seq<Key>, token: Key, views: seq<Bucket>) {
    && Increasing(listed)
    && (if listed == [] then token == "" else token == listed[|listed| - 1] != "")
    && (forall k :: k in listed ==> prefix <= k && exists v :: v in views && k in v)
    && (forall k :: prefix <= k && (forall v :: v in views ==> k in v) ==> k in listed || Beyond(token, k))
  }

  /** One more page, which is not the last. */
  lemma NextPage(prefix: Key, listed: seq<Key>, token: Key, views: seq<Bucket>, b: Bucket, limit: nat, page: seq<Key>,
                 next: Key)
    requires Covered(prefix, listed, token, views) && IsPage(b, prefix, token, limit, page, next) && "" !in b
    ensures Increasing(listed + page)
    ensures forall k :: k in listed + page ==> prefix <= k && exists v :: v in views + [b] && k in v
    ensures next != "" ==> Covered(prefix, listed + page, next, views + [b])
    ensures next == "" ==> forall k :: prefix <= k && (forall v :: v in views + [b] ==> k in v) ==> k in listed + page
  {
    Join(listed, page, token);
    assert b in views + [b] && forall v :: v in views ==> v in views + [b];
    forall k | k in listed + page
      ensures prefix <= k && exists v :: v in views + [b] && k in v
    {
      if k in listed {
        var v :| v in views && k in v;
        assert v in views + [b];
      } else {
        assert k in page;
      }
    }
    forall k | prefix <= k && (forall v :: v in views + [b] ==> k in v)
      ensures k in listed + page || (next != "" && Less(next, k))
    {
      assert k in b && k in WithPrefix(b, prefix);
    }
  }

  lemma Join(listed: seq<Key>, page: seq<Key>, token: Key)
    requires Increasing(listed) && Increasing(page)
    requires if listed == [] then token == "" else token == listed[|listed| - 1]
    requires forall k :: k in page ==> token == "" || Less(token, k)
    requires listed != [] ==> token != ""
    ensures Increasing(listed + page)
  {
    forall i, j | 0 <= i < |listed| && 0 <= j < |page|
      ensures Less(listed[i], page[j])
    {
      if i < |listed| - 1 {
        LessTransitive(listed[i], token, page[j]);
      }
    }
  }

  /** How many matching keys are still to come. */
  ghost function Left(b: Bucket, prefix: Key, token: Key): set<Key> {
    set k | k in WithPrefix(b, prefix) && Beyond(token, k)
  }

  lemma FewerLeft(b: Bucket, prefix: Key, token: Key, limit: nat, page: seq<Key>, next: Key)
    requires IsPage(b, prefix, token, limit, page, next) && next != ""
    ensures Left(b, prefix, next) < Left(b, prefix, token)
  {
    assert next in page;
    LessIrreflexive(next);
    forall k | k in Left(b, prefix, next)
      ensures k in Left(b, prefix, token)
    {
      if token != "" {
        LessTransitive(token, next, k);
      }
    }
    assert next in Left(b, prefix, token) && next !in Left(b, prefix, next);
  }

  /** The bucket was like this when the listing began, or others left it like this later. */
  ghost predicate Seen(start: Bucket, future: seq<Others>, v: Bucket) {
    v == start || exists o :: o in future && o.bucket == v
  }

  ghost predicate Throughout(start: Bucket, future: seq<Others>, k: Key) {
    k in start && forall o :: o in future ==> k in o.bucket
  }

  lemma SeenAt(start: Bucket, future: seq<Others>, rest: seq<Others>)
    requires Suffix(rest, future)
    ensures Seen(start, future, BucketAt(start, future, rest))
  {
    if |rest| < |future| {
      assert future[|future| - |rest| - 1] in future;
    }
  }

  lemma SuffixOfSuffix(rest: seq<Others>, mid: seq<Others>, future: seq<Others>, start: Bucket)
    requires Suffix(mid, future) && Suffix(rest, mid)
    ensures Suffix(rest, future)
    ensures BucketAt(BucketAt(start, future, mid), mid, rest) == BucketAt(start, future, rest)
  {
  }

  /** Store.List. However others change the bucket between calls, and whatever the page size,
      keys come in strictly increasing order, so none comes twice; each was in the bucket when
      its page was fetched; and each key that was there all along is among them. A bucket at
      rest is listed exactly. Throttling within the retry budget never makes it fail. */
  method List(f: Fake, maxAttempts: int, root: Key, prefix: Key, future: seq<Others>)
      returns (ok: bool, visited: seq<Key>, ghost views: seq<Bucket>)
    requires f.pageSize >= 1 && NoEmptyKey(future) && "" !in f.objects
    modifies f`objects, f`callCount
    ensures Increasing(visited)
    ensures forall v :: v in views ==> Seen(old(f.objects), future, v)
    ensures forall k :: k in visited ==> prefix <= k && exists v :: v in views && Root(root) + k in v
    ensures ok ==> views != []
    ensures ok ==> forall k :: prefix <= k && (forall v :: v in views ==> Root(root) + k in v) ==> k in visited
    ensures ok ==> forall k :: prefix <= k && Throughout(old(f.objects), future, Root(root) + k) ==> k in visited
    ensures future == [] ==> f.objects == old(f.objects)
    ensures future == [] && ok ==> forall k :: k in visited <==> prefix <= k && Root(root) + k in f.objects
    ensures WithinBudget(f.throttleEvery, old(f.callCount), future, Budget(maxAttempts)) ==> ok
  {
    var searchPrefix := Root(root) + prefix;
    var token: Key := "";
    var listed: seq<Key> := [];
    var rest := future;
    ghost var start := f.objects;
    views := [];
    while true
      invariant "" !in f.objects && NoEmptyKey(rest) && Covered(searchPrefix, listed, token, views)
      invariant Suffix(rest, future) && f.objects == BucketAt(start, future, rest)
      invariant forall v :: v in views ==> Seen(start, future, v)
      invariant WithinBudget(f.throttleEvery, old(f.callCount), future, Budget(maxAttempts)) ==>
        WithinBudget(f.throttleEvery, f.callCount, rest, Budget(maxAttempts))
      decreases |rest|, Left(f.objects, searchPrefix, token)
    {
      ghost var mid, calls := rest, f.callCount;
      var page, next;
      ok, page, next, rest := ListPage(f, maxAttempts, searchPrefix, token, rest);
      SuffixOfSuffix(rest, mid, future, start);
      if WithinBudget(f.throttleEvery, calls, mid, Budget(maxAttempts)) {
        WithinIsServed(f.throttleEvery, calls, mid, Budget(maxAttempts));
      }
      if !ok {
        visited := Trimmed(root, prefix, listed, views);
        return;
      }
      ghost var limit :| IsPage(f.objects, searchPrefix, token, limit, page, next);
      NextPage(searchPrefix, listed, token, views, f.objects, limit, page, next);
      SeenAt(start, future, rest);
      listed := listed + page;
      views := views + [f.objects];
      if next == "" {
        visited := Trimmed(root, prefix, listed, views);
        return;
      }
      FewerLeft(f.objects, searchPrefix, token, limit, page, next);
      token := next;
    }
  }

  /** Keys are reported without the repository's own prefix. */
  method Trimmed(root: Key, prefix: Key, listed: seq<Key>, ghost views: seq<Bucket>) returns (visited: seq<Key>)
    requires Increasing(listed)
    requires forall k :: k in listed ==> Root(root) + prefix <= k && exists v :: v in views && k in v
    ensures Increasing(visited)
    ensures forall k :: k in visited ==> prefix <= k && exists v :: v in views && Root(root) + k in v
    ensures forall k :: Root(root) + k in listed ==> k in visited
  {
    forall i | 0 <= i < |listed|
      ensures Root(root) <= listed[i]
    {
      assert listed[i] in listed;
    }
    visited := Trim(Root(root), listed);
    TrimIncreasing(Root(root), listed);
    forall k | k in visited
      ensures prefix <= k && exists v :: v in views && Root(root) + k in v
    {
      var i :| 0 <= i < |visited| && visited[i] == k;
      assert listed[i] in listed && listed[i] == Root(root) + k;
      assert listed[i][|Root(root)|..] == k;
    }
    forall k | Root(root) + k in listed
      ensures k in visited
    {
      var i :| 0 <= i < |listed| && listed[i] == Root(root) + k;
      assert visited[i] == listed[i][|Root(root)|..] == k;
    }
  }
}
