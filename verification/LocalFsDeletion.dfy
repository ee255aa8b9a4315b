/** What Delete promises on the local backend: a deleted key stays away, through power losses too,
    unless it is put again; and when that is not so. */
module LocalFsDeletion {
  import opened Wrappers
  import opened Blob
  import opened LocalFs
  import opened LocalFsTheorems
  import opened LocalFsDurability

  /** A put of the key has been published, as publication number `from` or later. */
  ghost predicate PutSince(c: Config, published: seq<nat>, key: Key, from: nat) {
    exists q :: from <= q < |published| && Puts(c, published[q], key)
  }

  ghost predicate Puts(c: Config, i: nat, key: Key) {
    i < |c.ops| && !c.ops[i].Delete? && c.ops[i].key == key
  }

  ghost predicate AbsentUnlessPut(c: Config, dir: map<Name, nat>, published: seq<nat>, key: Key, from: nat) {
    Entry(key) in dir ==> PutSince(c, published, key, from)
  }

  const DELETED := Returned(Result(false, true))

  /** After caller i has removed the key, or found it absent, when `from` publications had been
      made: the key is only there if it has been put since. If it removed the key itself, that
      is so across power losses once it has synced the directory. */
  ghost predicate Removed(c: Config, s: State, i: nat, key: Key, from: nat, own: bool, quiet: bool) {
    && i < |s.callers| && from <= |s.published| && !s.callers[i].Start? && !s.callers[i].Cleaning?
    && (quiet || (own && c.fsync && (s.callers[i].Published? || s.callers[i] == DELETED)) ==>
         AbsentUnlessPut(c, s.dir, s.published, key, from))
    && (own && c.fsync && s.callers[i] == DELETED ==> AbsentUnlessPut(c, s.disk, s.published, key, from))
  }

  lemma StillAbsent(c: Config, dir: map<Name, nat>, published: seq<nat>, key: Key, from: nat,
                    dir': map<Name, nat>, published': seq<nat>)
    requires AbsentUnlessPut(c, dir, published, key, from) && published <= published'
    requires Entry(key) in dir' && Entry(key) !in dir ==> PutSince(c, published', key, from)
    ensures AbsentUnlessPut(c, dir', published', key, from)
  {
    if Entry(key) in dir' && Entry(key) in dir {
      var q :| from <= q < |published| && Puts(c, published[q], key);
      assert published'[q] == published[q];
    }
  }

  /** What a step of one caller does to the objects: nothing, but for its own key. */
  lemma TouchesOwnKey(c: Config, s: State, i: nat, n: NameStep, name: Name)
    requires CanName(c, s, i, n) && name.Entry? && name.key != c.ops[i].key
    ensures var t := DoName(c, s, i, n);
      (name in t.dir <==> name in s.dir) && (name in t.dir ==> t.dir[name] == s.dir[name])
    ensures DoName(c, s, i, n).inodes == s.inodes
  {
  }

  /** A step of Delete changes no other name at all. */
  lemma DeleteTouches(c: Config, s: State, i: nat, n: NameStep)
    requires Inv(c, s) && CanName(c, s, i, n) && c.ops[i].Delete? && !s.callers[i].Cleaning?
    ensures DoName(c, s, i, n).dir - {Entry(c.ops[i].key)} == s.dir - {Entry(c.ops[i].key)}
    ensures n == Publish ==> Entry(c.ops[i].key) !in DoName(c, s, i, n).dir
    ensures n != Publish ==> DoName(c, s, i, n).dir == s.dir
  {
  }

  lemma NewlyThere(c: Config, s: State, e: Step, key: Key, from: nat)
    requires Enabled(c, s, e) && !e.LosePower? && from <= |s.published|
    ensures s.published <= Apply(c, s, e).published
    ensures Entry(key) in Apply(c, s, e).dir && Entry(key) !in s.dir ==>
      PutSince(c, Apply(c, s, e).published, key, from)
  {
    var t := Apply(c, s, e);
    if Entry(key) in t.dir && Entry(key) !in s.dir {
      assert e.Named? && e.n == Publish && Puts(c, e.i, key) && t.published[|s.published|] == e.i;
    }
  }

  /** A Delete that is past its removal stays there. */
  lemma PastRemoval(c: Config, s: State, e: Step, i: nat, key: Key)
    requires Enabled(c, s, e) && i < |c.ops| && i < |s.callers| && c.ops[i] == Delete(key)
    requires !s.callers[i].Start? && !s.callers[i].Cleaning?
    ensures var t := Apply(c, s, e);
      && !t.callers[i].Start? && !t.callers[i].Cleaning? && (t.callers[i].Published? ==> s.callers[i].Published?)
      && (t.callers[i] == DELETED && s.callers[i] != DELETED ==>
           s.callers[i].Published? && (c.fsync ==> t.disk == s.dir))
  {
    match e {
      case File(_, _) =>
      case Named(_, _) =>
      case _ =>
    }
  }

  lemma StepRemoved(c: Config, s: State, e: Step, i: nat, key: Key, from: nat, own: bool, quiet: bool)
    requires Enabled(c, s, e) && Removed(c, s, i, key, from, own, quiet)
    requires i < |c.ops| && c.ops[i] == Delete(key)
    ensures Removed(c, Apply(c, s, e), i, key, from, own, quiet && !e.LosePower?)
  {
    var t := Apply(c, s, e);
    PastRemoval(c, s, e, i, key);
    if !e.LosePower? {
      NewlyThere(c, s, e, key, from);
      if quiet || (own && c.fsync && (t.callers[i].Published? || t.callers[i] == DELETED)) {
        StillAbsent(c, s.dir, s.published, key, from, t.dir, t.published);
      }
      if own && c.fsync && t.callers[i] == DELETED {
        if s.callers[i] == DELETED {
          DiskFollows(c, s, e, key, from);
        } else {
          StillAbsent(c, s.dir, s.published, key, from, t.disk, t.published);
        }
      }
    }
  }

  lemma DiskFollows(c: Config, s: State, e: Step, key: Key, from: nat)
    requires Enabled(c, s, e) && !e.LosePower? && from <= |s.published|
    requires AbsentUnlessPut(c, s.disk, s.published, key, from)
    requires AbsentUnlessPut(c, s.dir, s.published, key, from)
    ensures AbsentUnlessPut(c, Apply(c, s, e).disk, Apply(c, s, e).published, key, from)
  {
    var t := Apply(c, s, e);
    NewlyThere(c, s, e, key, from);
    assert t.disk != s.disk && t.disk != s.dir ==> e.FlushEntry?;
    StillAbsent(c, s.disk, s.published, key, from, s.disk, t.published);
    StillAbsent(c, s.dir, s.published, key, from, s.dir, t.published);
  }

  ghost predicate HasRemoved(pc: Caller) {
    pc.Published? || pc.Cleaning? || pc == DELETED
  }

  lemma StepToRemoved(c: Config, s: State, e: Step, i: nat)
    requires Enabled(c, s, e) && i < |s.callers| && i < |c.ops| && c.ops[i].Delete?
    requires |Apply(c, s, e).callers| == |s.callers| && HasRemoved(Apply(c, s, e).callers[i]) && e != Named(i, Publish)
    ensures HasRemoved(s.callers[i])
  {
    match e {
      case File(_, _) =>
      case Named(_, n) =>
      case _ =>
    }
  }

  lemma StepCallers(c: Config, s: State, e: Step)
    requires Enabled(c, s, e)
    ensures |Apply(c, s, e).callers| == |s.callers|
  {
    match e {
      case File(_, f) =>
      case Named(_, n) =>
      case _ =>
    }
  }

  lemma {:induction false} SameCallers(c: Config, run: seq<Step>)
    requires Replay(c, run).Some?
    ensures |Replay(c, run).value.callers| == |c.ops|
  {
    if run != [] {
      SameCallers(c, run[..|run| - 1]);
      StepCallers(c, Replay(c, run[..|run| - 1]).value, run[|run| - 1]);
    }
  }

  /** The step in which a Delete that has returned without an error removed the key, or found it
      absent. */
  lemma {:induction false} RemovalStep(c: Config, run: seq<Step>, i: nat) returns (k: nat)
    requires Replay(c, run).Some? && i < |c.ops| && c.ops[i].Delete?
    requires i < |Replay(c, run).value.callers| && HasRemoved(Replay(c, run).value.callers[i])
    ensures k < |run| && run[k] == Named(i, Publish)
  {
    var n := |run| - 1;
    if run[n] == Named(i, Publish) {
      k := n;
    } else {
      SameCallers(c, run[..n]);
      StepCallers(c, Replay(c, run[..n]).value, run[n]);
      StepToRemoved(c, Replay(c, run[..n]).value, run[n], i);
      k := RemovalStep(c, run[..n], i);
    }
  }

  lemma {:induction false} PrefixReplays(c: Config, run: seq<Step>, k: nat)
    requires Replay(c, run).Some? && k <= |run|
    ensures Replay(c, run[..k]).Some?
    decreases |run|
  {
    if k < |run| {
      PrefixReplays(c, run[..|run| - 1], k);
      assert run[..|run| - 1][..k] == run[..k];
    } else {
      assert run[..k] == run;
    }
  }

  /** The state before step k. */
  ghost function Before(c: Config, run: seq<Step>, k: nat): State
    requires Replay(c, run).Some? && k < |run|
  {
    PrefixReplays(c, run, k);
    Replay(c, run[..k]).value
  }

  lemma QuietPrefix(run: seq<Step>, e: Step)
    ensures NoPowerLoss(run + [e]) ==> NoPowerLoss(run) && !e.LosePower?
  {
    assert (run + [e])[|run|] == e;
    assert forall j :: 0 <= j < |run| ==> run[j] == (run + [e])[j];
  }

  lemma {:induction false} RunRemoved(c: Config, run: seq<Step>, i: nat, key: Key, k: nat)
    requires Replay(c, run).Some? && k < |run| && run[k] == Named(i, Publish) && i < |c.ops| && c.ops[i] == Delete(key)
    ensures Removed(c, Replay(c, run).value, i, key, |Before(c, run, k).published|,
                    Entry(key) in Before(c, run, k).dir, NoPowerLoss(run[k + 1..]))
    decreases |run|
  {
    var n := |run| - 1;
    if k == n {
      assert run[..k] == run[..n];
    } else {
      var init := run[..n];
      RunRemoved(c, init, i, key, k);
      assert init[..k] == run[..k] && run[k + 1..] == init[k + 1..] + [run[n]];
      StepRemoved(c, Replay(c, init).value, run[n], i, key, |Before(c, run, k).published|,
                  Entry(key) in Before(c, run, k).dir, NoPowerLoss(init[k + 1..]));
      QuietPrefix(init[k + 1..], run[n]);
    }
  }

  /** Deletion. Once a Delete has returned without an error, the key is there only if a put of it
      was published after the removal: as long as the power stays on; and through any power
      losses, if it was this call that removed the key. */
  lemma DeletedStaysAway(c: Config, run: seq<Step>, i: nat, key: Key, garbage: nat -> Bytes) returns (k: nat)
    requires Replay(c, run).Some? && i < |c.ops| && c.ops[i] == Delete(key)
    requires i < |Replay(c, run).value.callers| && Replay(c, run).value.callers[i] == DELETED
    ensures k < |run| && run[k] == Named(i, Publish)
    ensures var s, before := Replay(c, run).value, Before(c, run, k);
      && (NoPowerLoss(run[k + 1..]) || (c.fsync && Entry(key) in before.dir) ==>
           AbsentUnlessPut(c, s.dir, s.published, key, |before.published|))
      && (c.fsync && Entry(key) in before.dir ==>
           AbsentUnlessPut(c, AfterPowerLoss(s, garbage).dir, s.published, key, |before.published|))
  {
    k := RemovalStep(c, run, i);
    RunRemoved(c, run, i, key, k);
  }

  // ---- a key that was found absent ----

  /** The key stays away, however the run goes on, until it is put again. */
  ghost predicate AwayForever(c: Config, run: seq<Step>, key: Key) {
    Replay(c, run).Some? &&
    forall more :: Replay(c, run + more).Some? ==>
      var s := Replay(c, run + more).value;
      AbsentUnlessPut(c, s.dir, s.published, key, |Replay(c, run).value.published|)
  }

  lemma {:induction false} AwayAlways(c: Config, run: seq<Step>, more: seq<Step>, key: Key)
    requires Replay(c, run).Some? && Replay(c, run + more).Some?
    requires Entry(key) !in Replay(c, run).value.dir && Entry(key) !in Replay(c, run).value.disk
    ensures var from, s := |Replay(c, run).value.published|, Replay(c, run + more).value;
      && from <= |s.published| && AbsentUnlessPut(c, s.dir, s.published, key, from)
      && AbsentUnlessPut(c, s.disk, s.published, key, from)
  {
    if more == [] {
      assert run + more == run;
    } else {
      var n := |more| - 1;
      assert (run + more)[..|run + more| - 1] == run + more[..n];
      AwayAlways(c, run, more[..n], key);
      var s, from := Replay(c, run + more[..n]).value, |Replay(c, run).value.published|;
      if !more[n].LosePower? {
        NewlyThere(c, s, more[n], key, from);
        StillAbsent(c, s.dir, s.published, key, from, Apply(c, s, more[n]).dir, Apply(c, s, more[n]).published);
        DiskFollows(c, s, more[n], key, from);
      }
    }
  }

  /** A key that is absent now stays so until it is put again if and only if it is not on disk
      either: told that there is nothing to delete, a caller must sync the directory. */
  lemma AwayForeverIff(c: Config, run: seq<Step>, key: Key)
    requires Replay(c, run).Some? && Entry(key) !in Replay(c, run).value.dir
    ensures AwayForever(c, run, key) <==> Entry(key) !in Replay(c, run).value.disk
  {
    var s := Replay(c, run).value;
    if Entry(key) in s.disk {
      var t := Extend(c, run, s, LosePower(_ => []));
      assert Entry(key) in t.dir && t.published == s.published;
    } else {
      forall more | Replay(c, run + more).Some?
        ensures AbsentUnlessPut(c, Replay(c, run + more).value.dir, Replay(c, run + more).value.published, key,
                                |s.published|)
      {
        AwayAlways(c, run, more, key);
      }
    }
  }

  lemma Further(c: Config, run: seq<Step>, s: State, e: Step) returns (more: seq<Step>, t: State)
    requires Replay(c, run) == Some(s) && Enabled(c, s, e)
    ensures more == run + [e] && t == Apply(c, s, e) && Replay(c, more) == Some(t)
  {
    t := Extend(c, run, s, e);
    more := run + [e];
  }

  /** The first caller's put, to its end. */
  lemma PutOut(c: Config, key: Key, data: Bytes) returns (run: seq<Step>, s: State)
    requires |c.ops| == 3 && c.ops[0] == Put(key, data) && c.fsync
    ensures Replay(c, run) == Some(s) && s.callers == [DELETED, Start, Start]
    ensures Entry(key) in s.dir && s.disk == s.dir && |s.published| == 1
  {
    run, s := [], Init(c);
    assert s.callers == [Start, Start, Start];
    run, s := Further(c, run, s, File(0, CreateTemp));
    run, s := Further(c, run, s, File(0, WriteSome(|data|)));
    run, s := Further(c, run, s, File(0, SyncFile));
    run, s := Further(c, run, s, File(0, CloseFile));
    assert s.callers == [Ready(0), Start, Start];
    run, s := Further(c, run, s, Named(0, Publish));
    run, s := Further(c, run, s, Named(0, SyncDir));
  }

  /** A run in which a Delete that found the key absent has returned without an error, and the key
      comes back with a power loss: the call that removed it had not synced the directory yet. */
  lemma DeletedMayReturn(key: Key, data: Bytes, garbage: nat -> Bytes)
    ensures var c := Config([Put(key, data), Delete(key), Delete(key)], true);
      exists run :: Replay(c, run).Some? && |Replay(c, run).value.callers| == 3
                    && Replay(c, run).value.callers[2] == DELETED && |Replay(c, run).value.published| == 1
                    && Entry(key) !in Replay(c, run).value.dir
                    && Entry(key) in AfterPowerLoss(Replay(c, run).value, garbage).dir
  {
    var c := Config([Put(key, data), Delete(key), Delete(key)], true);
    var run, s := PutOut(c, key, data);
    run, s := Further(c, run, s, Named(1, Publish));
    run, s := Further(c, run, s, Named(2, Publish));
    assert s.callers[2] == DELETED;
  }
}
