/** Which restores can go wrong when several workers restore files of one path, and which
    restores can succeed. */
module RestoreRaces {
  import opened Wrappers
  import opened Blob
  import opened IndexFormat
  import Repo = RepoModel
  import opened Restore
  import opened RestorePool

  lemma {:induction false} Compose(c: Plan, s: State, a: seq<Move>, m: State, b: seq<Move>)
    requires Replay(c, s, a) == Some(m)
    ensures Replay(c, s, a + b) == Replay(c, m, b)
  {
    if b == [] {
      assert a + b == a;
    } else {
      Compose(c, s, a, m, b[..|b| - 1]);
      assert (a + b)[..|a + b| - 1] == a + b[..|b| - 1];
    }
  }

  lemma Extend(c: Plan, s: State, run: seq<Move>, m: State, w: nat, a: Act) returns (more: seq<Move>, t: State)
    requires Replay(c, s, run) == Some(m) && CanDo(c, m, w, a)
    ensures t == DoAct(c, m, w, a) && Replay(c, s, more) == Some(t)
  {
    more := run + [Do(w, a)];
    t := DoAct(c, m, w, a);
    assert more[..|run|] == run;
  }

  /** Worker w has file f open, alone, and has written k chunks. */
  ghost predicate Alone(c: Plan, s: State, w: nat, f: nat, k: nat) {
    && w < |s.hands| && f < |c.files| == |s.stage| && Unlinked(s.dir, s.inodes) && Path(c, f) in s.dir
    && k <= |c.files[f].chunks|
    && var inode := s.dir[Path(c, f)];
      && s.hands[w] == Writing(f, inode, k, |s.inodes[inode]|)
      && Contents(c.h, c.packs, c.t, c.files[f].chunks[..k]) == Some(s.inodes[inode])
  }

  /** What stays the same while worker w restores file f by itself. */
  ghost predicate OthersSame(s: State, t: State, w: nat) {
    && t.canceled == s.canceled && t.failed == s.failed && t.owner == s.owner && |t.stage| == |s.stage|
    && |t.hands| == |s.hands| && forall x :: 0 <= x < |s.hands| && x != w ==> t.hands[x] == s.hands[x]
  }

  lemma WriteAlone(c: Plan, s: State, w: nat, f: nat, k: nat)
    requires Alone(c, s, w, f, k) && k < |c.files[f].chunks| && Contents(c.h, c.packs, c.t, c.files[f].chunks).Some?
    ensures CanDo(c, s, w, WriteChunk)
    ensures var t := DoWrite(c, s, w);
      && Alone(c, t, w, f, k + 1) && OthersSame(s, t, w)
      && View(t.dir, t.inodes) - {Path(c, f)} == View(s.dir, s.inodes) - {Path(c, f)}
  {
    var inode := s.dir[Path(c, f)];
    OneMoreChunk(c.h, c.packs, c.t, c.files[f].chunks, k, s.inodes[inode]);
    var data := NextBlob(c, s.hands[w]).value;
    Appended(s.inodes[inode], data);
    ViewWrite(s.dir, s.inodes, Path(c, f), s.inodes[inode] + data);
  }

  lemma {:induction false} WriteOut(c: Plan, s: State, w: nat, f: nat, k: nat) returns (run: seq<Move>, t: State)
    requires Alone(c, s, w, f, k) && Contents(c.h, c.packs, c.t, c.files[f].chunks).Some?
    ensures Replay(c, s, run) == Some(t) && Alone(c, t, w, f, |c.files[f].chunks|) && OthersSame(s, t, w)
    ensures View(t.dir, t.inodes) - {Path(c, f)} == View(s.dir, s.inodes) - {Path(c, f)}
    decreases |c.files[f].chunks| - k
  {
    if k == |c.files[f].chunks| {
      run, t := [], s;
    } else {
      WriteAlone(c, s, w, f, k);
      var one, m := Extend(c, s, [], s, w, WriteChunk);
      var rest;
      rest, t := WriteOut(c, m, w, f, k + 1);
      Compose(c, s, one, m, rest);
      run := one + rest;
    }
  }

  lemma OpenAlone(c: Plan, s: State, w: nat, f: nat)
    requires CanDo(c, s, w, OpenFile) && s.hands[w].file == f && Unlinked(s.dir, s.inodes)
    ensures Alone(c, DoOpen(c, s, w), w, f, 0) && OthersSame(s, DoOpen(c, s, w), w)
  {
    assert c.files[f].chunks[..0] == [];
  }

  lemma OpenView(c: Plan, s: State, w: nat, f: nat)
    requires CanDo(c, s, w, OpenFile) && s.hands[w].file == f && Unlinked(s.dir, s.inodes)
    ensures var t := DoOpen(c, s, w);
      View(t.dir, t.inodes) - {Path(c, f)} == View(s.dir, s.inodes) - {Path(c, f)}
  {
    if Path(c, f) in s.dir {
      ViewWrite(s.dir, s.inodes, Path(c, f), []);
    } else {
      ViewCreate(s.dir, s.inodes, Path(c, f));
    }
  }

  lemma WithoutOne(a: map<string, Bytes>, b: map<string, Bytes>, p: string, content: Bytes)
    requires a - {p} == b - {p} && p in a && a[p] == content
    ensures a == b[p := content]
  {
    forall q | q != p
      ensures (q in a <==> q in b) && (q in a ==> a[q] == b[q])
    {
      assert q in a <==> q in a - {p};
      assert q in b <==> q in b - {p};
    }
  }

  lemma CloseWritten(c: Plan, s: State, w: nat, f: nat) returns (run: seq<Move>, t: State)
    requires f < |c.files| && Alone(c, s, w, f, |c.files[f].chunks|)
    requires Wanted(c.h, c.packs, c.t, c.files[f]).Some?
    ensures Replay(c, s, run) == Some(t) && OthersSame(s, t, w) && t.hands[w] == Hand.Idle
    ensures t.dir == s.dir && t.inodes == s.inodes && Path(c, f) in View(s.dir, s.inodes)
    ensures View(s.dir, s.inodes)[Path(c, f)] == Wanted(c.h, c.packs, c.t, c.files[f]).value
  {
    assert c.files[f].chunks[..|c.files[f].chunks|] == c.files[f].chunks;
    var m;
    run, m := Extend(c, s, [], s, w, Close);
    run, t := Extend(c, s, run, m, w, CheckSize);
  }

  /** A worker that has taken a file can restore it, if nobody gets in its way. */
  lemma RestoreTaken(c: Plan, s: State, w: nat, f: nat) returns (run: seq<Move>, t: State)
    requires w < |s.hands| && s.hands[w] == Opening(f) && f < |c.files| == |s.stage| && Unlinked(s.dir, s.inodes)
    requires c.overwrite || Path(c, f) !in View(s.dir, s.inodes)
    requires Wanted(c.h, c.packs, c.t, c.files[f]).Some?
    ensures Replay(c, s, run) == Some(t) && OthersSame(s, t, w) && t.hands[w] == Hand.Idle
    ensures Unlinked(t.dir, t.inodes)
    ensures View(t.dir, t.inodes) == View(s.dir, s.inodes)[Path(c, f) := Wanted(c.h, c.packs, c.t, c.files[f]).value]
  {
    var open, m := Extend(c, s, [], s, w, OpenFile);
    OpenAlone(c, s, w, f);
    OpenView(c, s, w, f);
    var writes, written := WriteOut(c, m, w, f, 0);
    Compose(c, s, open, m, writes);
    var closing;
    closing, t := CloseWritten(c, written, w, f);
    Compose(c, s, open + writes, written, closing);
    run := open + writes + closing;
    WithoutOne(View(t.dir, t.inodes), View(s.dir, s.inodes), Path(c, f),
               Wanted(c.h, c.packs, c.t, c.files[f]).value);
  }

  /** All workers are waiting and nothing has failed. */
  ghost predicate Resting(c: Plan, s: State) {
    && !s.failed && !s.canceled && |s.stage| == |c.files| && |s.owner| <= |c.files| && |s.hands| == c.workers
    && Unlinked(s.dir, s.inodes)
  }

  lemma RestoreNext(c: Plan, s: State, w: nat) returns (run: seq<Move>, t: State)
    requires Resting(c, s) && w < |s.hands| && s.hands[w].Idle? && |s.owner| < |c.files|
    requires var f := |s.owner|;
      && (c.overwrite || Path(c, f) !in View(s.dir, s.inodes)) && Wanted(c.h, c.packs, c.t, c.files[f]).Some?
    ensures Replay(c, s, run) == Some(t) && Resting(c, t) && |t.owner| == |s.owner| + 1 && t.hands[w].Idle?
    ensures forall x :: 0 <= x < |s.hands| && x != w ==> t.hands[x] == s.hands[x]
    ensures var f := |s.owner|;
      View(t.dir, t.inodes) == View(s.dir, s.inodes)[Path(c, f) := Wanted(c.h, c.packs, c.t, c.files[f]).value]
  {
    var taking, taken := Extend(c, s, [], s, w, Take);
    var rest;
    rest, t := RestoreTaken(c, taken, w, |s.owner|);
    Compose(c, s, taking, taken, rest);
    run := taking + rest;
  }

  /** The last of a stretch of entries. */
  lemma AfterLast(c: Plan, m: nat, n: nat, before: map<string, Bytes>)
    requires m < n <= |c.files|
    requires AfterFiles(c.h, c.packs, c.t, c.files[m..n], c.overwrite, before).Some?
    ensures var prev := AfterFiles(c.h, c.packs, c.t, c.files[m..n - 1], c.overwrite, before);
      var wanted := Wanted(c.h, c.packs, c.t, c.files[n - 1]);
      && prev.Some? && (c.overwrite || Path(c, n - 1) !in prev.value) && wanted.Some?
      && AfterFiles(c.h, c.packs, c.t, c.files[m..n], c.overwrite, before)
      == Some(prev.value[Path(c, n - 1) := wanted.value])
  {
    assert c.files[m..n][..n - m - 1] == c.files[m..n - 1];
  }

  /** One worker can restore the next files, up to number n, by itself. */
  lemma {:induction false} RestoreUpTo(c: Plan, s: State, w: nat, n: nat) returns (run: seq<Move>, t: State)
    requires Resting(c, s) && w < |s.hands| && s.hands[w].Idle? && |s.owner| <= n <= |c.files|
    requires AfterFiles(c.h, c.packs, c.t, c.files[|s.owner|..n], c.overwrite, View(s.dir, s.inodes)).Some?
    ensures Replay(c, s, run) == Some(t) && Resting(c, t) && |t.owner| == n && t.hands[w].Idle?
    ensures forall x :: 0 <= x < |s.hands| && x != w ==> t.hands[x] == s.hands[x]
    ensures AfterFiles(c.h, c.packs, c.t, c.files[|s.owner|..n], c.overwrite, View(s.dir, s.inodes))
         == Some(View(t.dir, t.inodes))
  {
    var start := |s.owner|;
    if n == start {
      run, t := [], s;
    } else {
      AfterLast(c, start, n, View(s.dir, s.inodes));
      var before, m := RestoreUpTo(c, s, w, n - 1);
      var rest;
      rest, t := RestoreNext(c, m, w);
      Compose(c, s, before, m, rest);
      run := before + rest;
    }
  }

  /** When all files have been taken, the waiting workers can leave. */
  lemma {:induction false} LeaveAll(c: Plan, s: State, n: nat) returns (run: seq<Move>, t: State)
    requires Resting(c, s) && |s.owner| == |c.files| && n <= |s.hands|
    requires forall w :: 0 <= w < n ==> s.hands[w].Idle?
    requires forall w :: n <= w < |s.hands| ==> s.hands[w].Gone?
    ensures Replay(c, s, run) == Some(t) && Passes(t) && t.dir == s.dir && t.inodes == s.inodes
    decreases n
  {
    if n == 0 {
      run, t := [], s;
    } else {
      var one, m := Extend(c, s, [], s, n - 1, Leave);
      var rest;
      rest, t := LeaveAll(c, m, n - 1);
      Compose(c, s, one, m, rest);
      run := one + rest;
    }
  }

  /** A restore can succeed whenever its entries can be restored in turn. */
  lemma CanRestore(c: Plan, dir: map<string, nat>, inodes: seq<Bytes>) returns (run: seq<Move>)
    requires c.workers >= 1 && Unlinked(dir, inodes)
    requires AfterFiles(c.h, c.packs, c.t, c.files, c.overwrite, View(dir, inodes)).Some?
    ensures Replay(c, Start(c, dir, inodes), run).Some? && Passes(Replay(c, Start(c, dir, inodes), run).value)
  {
    var s := Start(c, dir, inodes);
    assert c.files[0..|c.files|] == c.files;
    var first, m := RestoreUpTo(c, s, 0, |c.files|);
    var rest, t := LeaveAll(c, m, |m.hands|);
    Compose(c, s, first, m, rest);
    run := first + rest;
  }

  // ---- two workers and one path ----

  /** The last entry of the path that entry i names. */
  lemma {:induction false} LastEntry(files: seq<Repo.FileEntry>, i: nat) returns (k: nat)
    requires i < |files|
    ensures i <= k < |files| && files[k].path == files[i].path && LastOfItsPath(files, k)
    decreases |files| - i
  {
    if j :| i < j < |files| && files[j].path == files[i].path {
      k := LastEntry(files, j);
    } else {
      k := i;
    }
  }

  /** Every entry is an empty file, but entry i, whose one chunk is the byte 1. */
  ghost predicate OneByteAt(files: seq<Repo.FileEntry>, i: nat, id: ID) {
    i < |files| && forall f :: 0 <= f < |files| ==>
      if f == i then files[f].size == 1 && files[f].chunks == [id] else files[f].size == 0 && files[f].chunks == []
  }

  ghost predicate Serving(c: Plan, id: ID) {
    Repo.Resolve(c.h, c.packs, c.t, id) == Some([1])
  }

  lemma OneByteWanted(c: Plan, i: nat, id: ID)
    requires OneByteAt(c.files, i, id) && Serving(c, id)
    ensures forall f :: 0 <= f < |c.files| ==>
      Wanted(c.h, c.packs, c.t, c.files[f]) == Some(if f == i then [1] else [])
  {
    assert [id][..0] == [] && [] + [1] == [1];
    assert Contents(c.h, c.packs, c.t, [id]) == Some([1]) by {
      OneMoreChunk(c.h, c.packs, c.t, [id], 0, []);
      assert [id][..1] == [id];
    }
  }

  lemma {:induction false} AllRestored(h: Digest, packs: Repo.Packs, t: Table, files: seq<Repo.FileEntry>,
                                       before: map<string, Bytes>)
    requires forall f :: 0 <= f < |files| ==> Wanted(h, packs, t, files[f]).Some?
    ensures AfterFiles(h, packs, t, files, true, before).Some?
  {
    if files != [] {
      AllRestored(h, packs, t, files[..|files| - 1], before);
    }
  }

  /** Worker 0 restores the entries before i and takes entry i; worker 1 restores the rest. */
  lemma TakeAndPass(c: Plan, s: State, i: nat) returns (run: seq<Move>, t: State)
    requires Resting(c, s) && c.workers >= 2 && c.overwrite && s.owner == [] && i < |c.files|
    requires forall w :: 0 <= w < |s.hands| ==> s.hands[w].Idle?
    requires forall f :: 0 <= f < |c.files| ==> Wanted(c.h, c.packs, c.t, c.files[f]).Some?
    ensures Replay(c, s, run) == Some(t) && Resting(c, t) && |t.owner| == |c.files| && t.hands[0] == Opening(i)
    ensures forall w :: 1 <= w < |t.hands| ==> t.hands[w].Idle?
  {
    AllRestored(c.h, c.packs, c.t, c.files[0..i], View(s.dir, s.inodes));
    var front, m := RestoreUpTo(c, s, 0, i);
    var taking, taken := Extend(c, s, front, m, 0, Take);
    AllRestored(c.h, c.packs, c.t, c.files[i + 1..|c.files|], View(taken.dir, taken.inodes));
    var back;
    back, t := RestoreUpTo(c, taken, 1, |c.files|);
    Compose(c, s, taking, taken, back);
    run := taking + back;
  }

  /** One worker takes entry i; another restores everything after it, entry j of the same path
      included; then the first goes on, and entry i has replaced entry j. */
  lemma FirstEntryWins(c: Plan, dir: map<string, nat>, inodes: seq<Bytes>, i: nat, j: nat, id: ID)
      returns (run: seq<Move>, t: State)
    requires c.workers >= 2 && c.overwrite && Unlinked(dir, inodes) && i < j < |c.files| && Path(c, i) == Path(c, j)
    requires OneByteAt(c.files, i, id) && Serving(c, id)
    ensures Replay(c, Start(c, dir, inodes), run) == Some(t) && Passes(t)
    ensures AfterFiles(c.h, c.packs, c.t, c.files, c.overwrite, View(dir, inodes)).Some?
    ensures AfterFiles(c.h, c.packs, c.t, c.files, c.overwrite, View(dir, inodes)) != Some(View(t.dir, t.inodes))
  {
    var s := Start(c, dir, inodes);
    OneByteWanted(c, i, id);
    var first, m := TakeAndPass(c, s, i);
    var own, mine := RestoreTaken(c, m, 0, i);
    Compose(c, s, first, m, own);
    var leaving;
    leaving, t := LeaveAll(c, mine, |mine.hands|);
    Compose(c, s, first + own, mine, leaving);
    run := first + own + leaving;
    AllRestored(c.h, c.packs, c.t, c.files, View(dir, inodes));
    var k := LastEntry(c.files, j);
    LastWins(c.h, c.packs, c.t, c.files, c.overwrite, View(dir, inodes), k);
  }

  /** A manifest with these paths, all files empty but file i, and a store that serves it. */
  function OneByteAtPath(h: Digest, paths: seq<string>, i: nat, workers: nat): (c: Plan)
    ensures |c.files| == |paths| && forall f :: 0 <= f < |paths| ==> c.files[f].path == paths[f]
    ensures i < |paths| ==> OneByteAt(c.files, i, h([1]))
    ensures c.h == h && c.workers == workers && c.overwrite
  {
    Plan(h, map[ZERO := [1]], map[h([1]) := Location(ZERO, 0, 1)],
         seq(|paths|, f requires 0 <= f < |paths| =>
           if f == i then Repo.FileEntry(paths[f], 1, [h([1])]) else Repo.FileEntry(paths[f], 0, [])),
         workers, true)
  }

  lemma OneByteServed(h: Digest, paths: seq<string>, i: nat, workers: nat)
    ensures Serving(OneByteAtPath(h, paths, i, workers), h([1]))
  {
    var pack: Bytes := [1];
    assert pack[0..1] == pack;
  }

  ghost predicate NoRepeats(paths: seq<string>) {
    forall f, g :: 0 <= f < g < |paths| ==> paths[f] != paths[g]
  }

  ghost predicate HasPaths(c: Plan, paths: seq<string>) {
    |c.files| == |paths| && forall f :: 0 <= f < |paths| ==> c.files[f].path == paths[f]
  }

  /** A schedule that RestoreFiles reports as a success. */
  ghost predicate Successful(c: Plan, dir: map<string, nat>, inodes: seq<Bytes>, run: seq<Move>) {
    && Unlinked(dir, inodes) && Replay(c, Start(c, dir, inodes), run).Some?
    && Passes(Replay(c, Start(c, dir, inodes), run).value)
  }

  /** The files after a successful schedule. */
  function Result(c: Plan, dir: map<string, nat>, inodes: seq<Bytes>, run: seq<Move>): map<string, Bytes>
    requires Replay(c, Start(c, dir, inodes), run).Some?
  {
    var s := Replay(c, Start(c, dir, inodes), run).value;
    View(s.dir, s.inodes)
  }

  /** Every successful schedule ends as if the entries were restored in turn. */
  ghost predicate AlwaysInTurn(c: Plan) {
    forall dir, inodes, run :: Successful(c, dir, inodes, run) ==>
      AfterFiles(c.h, c.packs, c.t, c.files, c.overwrite, View(dir, inodes)) == Some(Result(c, dir, inodes, run))
  }

  /** Exactly when a restore is sure to end as if its entries were restored in turn: for manifests
      with these paths, whatever the files contain and whatever the store, every schedule that
      RestoreFiles reports as a success does so, if and only if no path is listed twice, or
      overwriting is off, or there is one worker. */
  lemma InTurnIff(h: Digest, paths: seq<string>, workers: nat, overwrite: bool)
    requires workers >= 1
    ensures (forall c: Plan ::
               c.h == h && HasPaths(c, paths) && c.workers == workers && c.overwrite == overwrite ==> AlwaysInTurn(c))
      <==> NoRepeats(paths) || !overwrite || workers == 1
  {
    if NoRepeats(paths) || !overwrite || workers == 1 {
      forall c: Plan | c.h == h && HasPaths(c, paths) && c.workers == workers && c.overwrite == overwrite
        ensures AlwaysInTurn(c)
      {
        SureInTurn(c);
      }
    } else {
      var i, j :| 0 <= i < j < |paths| && paths[i] == paths[j];
      var c := OneByteAtPath(h, paths, i, workers);
      OneByteServed(h, paths, i, workers);
      var run, t := FirstEntryWins(c, map[], [], i, j, h([1]));
      assert Successful(c, map[], [], run) && Result(c, map[], [], run) == View(t.dir, t.inodes);
      assert HasPaths(c, paths) && !AlwaysInTurn(c);
    }
  }

  lemma SureInTurn(c: Plan)
    requires c.workers >= 1 && (DistinctPaths(c.files) || !c.overwrite || c.workers == 1)
    ensures AlwaysInTurn(c)
  {
    forall dir, inodes, run | Successful(c, dir, inodes, run)
      ensures AfterFiles(c.h, c.packs, c.t, c.files, c.overwrite, View(dir, inodes))
           == Some(Result(c, dir, inodes, run))
    {
      PassingRestores(c, dir, inodes, run);
    }
  }

  /** For restores in which no path can be written by two workers: one can succeed if and only if
      its entries can be restored in turn. */
  lemma CanRestoreIff(c: Plan, dir: map<string, nat>, inodes: seq<Bytes>)
    requires c.workers >= 1 && Unlinked(dir, inodes)
    requires DistinctPaths(c.files) || !c.overwrite || c.workers == 1
    ensures (exists run :: Successful(c, dir, inodes, run))
      <==> AfterFiles(c.h, c.packs, c.t, c.files, c.overwrite, View(dir, inodes)).Some?
  {
    if run :| Successful(c, dir, inodes, run) {
      PassingRestores(c, dir, inodes, run);
    }
    if AfterFiles(c.h, c.packs, c.t, c.files, c.overwrite, View(dir, inodes)).Some? {
      var run := CanRestore(c, dir, inodes);
      assert Successful(c, dir, inodes, run);
    }
  }

  // ---- a file that is neither entry's ----

  const A: Bytes := [0x61]
  const B: Bytes := [0x62]
  const C: Bytes := [0x63]

  /** Two entries for one path: the file "ab" and the file "c". */
  function TwoEntries(h: Digest, path: string): Plan {
    Plan(h, map[ZERO := A + B + C],
         map[h(A) := Location(ZERO, 0, 1), h(B) := Location(ZERO, 1, 1), h(C) := Location(ZERO, 2, 1)],
         [Repo.FileEntry(path, 2, [h(A), h(B)]), Repo.FileEntry(path, 1, [h(C)])], 2, true)
  }

  lemma EntriesServed(h: Digest, path: string)
    requires h(A) != h(B) && h(B) != h(C) && h(A) != h(C)
    ensures var c := TwoEntries(h, path);
      && Repo.Resolve(h, c.packs, c.t, h(A)) == Some(A) && Repo.Resolve(h, c.packs, c.t, h(B)) == Some(B)
      && Repo.Resolve(h, c.packs, c.t, h(C)) == Some(C)
  {
    var pack := A + B + C;
    assert pack[0..1] == A && pack[1..2] == B && pack[2..3] == C;
  }

  /** Two workers overwrite one path with these two entries. */
  ghost predicate TwoAtOnce(c: Plan, path: string) {
    && c.workers == 2 && c.overwrite && |c.files| == 2
    && c.files[0] == Repo.FileEntry(path, 2, [c.h(A), c.h(B)]) && c.files[1] == Repo.FileEntry(path, 1, [c.h(C)])
    && Repo.Resolve(c.h, c.packs, c.t, c.h(A)) == Some(A) && Repo.Resolve(c.h, c.packs, c.t, c.h(B)) == Some(B)
    && Repo.Resolve(c.h, c.packs, c.t, c.h(C)) == Some(C)
  }

  ghost predicate At(s: State, dir: map<string, nat>, inodes: seq<Bytes>, hands: seq<Hand>, taken: nat) {
    && !s.canceled && !s.failed && s.dir == dir && s.inodes == inodes && s.hands == hands
    && |s.owner| == taken && |s.stage| == 2
  }

  /** Worker 0 has written "a". */
  lemma WriteA(c: Plan, path: string, s: State) returns (run: seq<Move>, t: State)
    requires TwoAtOnce(c, path) && s == Start(c, map[], [])
    ensures Replay(c, s, run) == Some(t) && At(t, map[path := 0], [A], [Writing(0, 0, 1, 1), Hand.Idle], 1)
  {
    assert s.hands == [Hand.Idle, Hand.Idle];
    var m;
    run, m := Extend(c, s, [], s, 0, Take);
    run, m := Extend(c, s, run, m, 0, OpenFile);
    assert At(m, map[path := 0], [[]], [Writing(0, 0, 0, 0), Hand.Idle], 1);
    assert WriteAt([], 0, A) == A;
    run, t := Extend(c, s, run, m, 0, WriteChunk);
  }

  /** Worker 1 truncates the file, writes "c" and is done. */
  lemma WriteC(c: Plan, path: string, s: State) returns (run: seq<Move>, t: State)
    requires TwoAtOnce(c, path) && At(s, map[path := 0], [A], [Writing(0, 0, 1, 1), Hand.Idle], 1)
    ensures Replay(c, s, run) == Some(t) && At(t, map[path := 0], [C], [Writing(0, 0, 1, 1), Hand.Idle], 2)
  {
    var m;
    run, m := Extend(c, s, [], s, 1, Take);
    run, m := Extend(c, s, run, m, 1, OpenFile);
    assert At(m, map[path := 0], [[]], [Writing(0, 0, 1, 1), Writing(1, 0, 0, 0)], 2);
    assert WriteAt([], 0, C) == C;
    run, m := Extend(c, s, run, m, 1, WriteChunk);
    assert At(m, map[path := 0], [C], [Writing(0, 0, 1, 1), Writing(1, 0, 1, 1)], 2);
    run, m := Extend(c, s, run, m, 1, Close);
    run, t := Extend(c, s, run, m, 1, CheckSize);
  }

  /** Worker 0 writes "b" at its own offset. */
  lemma WriteB(c: Plan, path: string, s: State) returns (run: seq<Move>, t: State)
    requires TwoAtOnce(c, path) && At(s, map[path := 0], [C], [Writing(0, 0, 1, 1), Hand.Idle], 2)
    ensures Replay(c, s, run) == Some(t) && At(t, map[path := 0], [C + B], [Hand.Gone, Hand.Gone], 2)
  {
    var m;
    assert WriteAt(C, 1, B) == C + B;
    run, m := Extend(c, s, [], s, 0, WriteChunk);
    assert At(m, map[path := 0], [C + B], [Writing(0, 0, 2, 2), Hand.Idle], 2);
    run, m := Extend(c, s, run, m, 0, Close);
    run, m := Extend(c, s, run, m, 0, CheckSize);
    run, m := Extend(c, s, run, m, 0, Leave);
    run, t := Extend(c, s, run, m, 1, Leave);
  }

  /** Both entries are restored without an error, and the file holds "cb": worker 1 truncates the
      file while worker 0 is writing it, and each writes at its own offset. */
  lemma MixedFile(h: Digest, path: string) returns (run: seq<Move>)
    requires h(A) != h(B) && h(B) != h(C) && h(A) != h(C)
    ensures var c := TwoEntries(h, path);
      && Successful(c, map[], [], run) && Result(c, map[], [], run) == map[path := C + B]
      && Wanted(h, c.packs, c.t, c.files[0]) == Some(A + B) && Wanted(h, c.packs, c.t, c.files[1]) == Some(C)
  {
    var c := TwoEntries(h, path);
    EntriesServed(h, path);
    TwoWanted(c);
    var s := Start(c, map[], []);
    var first, m := WriteA(c, path, s);
    var second, k := WriteC(c, path, m);
    Compose(c, s, first, m, second);
    var third, t := WriteB(c, path, k);
    Compose(c, s, first + second, k, third);
    run := first + second + third;
  }

  lemma TwoWanted(c: Plan)
    requires |c.files| == 2 && c.files[0].size == 2 && c.files[1].size == 1
    requires c.files[0].chunks == [c.h(A), c.h(B)] && c.files[1].chunks == [c.h(C)]
    requires Repo.Resolve(c.h, c.packs, c.t, c.h(A)) == Some(A)
    requires Repo.Resolve(c.h, c.packs, c.t, c.h(B)) == Some(B)
    requires Repo.Resolve(c.h, c.packs, c.t, c.h(C)) == Some(C)
    ensures Wanted(c.h, c.packs, c.t, c.files[0]) == Some(A + B) && Wanted(c.h, c.packs, c.t, c.files[1]) == Some(C)
  {
    var ab, one := c.files[0].chunks, c.files[1].chunks;
    assert ab[..1] == [c.h(A)] && ab[..1][..0] == [] && one[..0] == [];
    assert Contents(c.h, c.packs, c.t, ab[..1]) == Some(A) by {
      assert [] + A == A;
    }
    assert [] + C == C;
  }
}
