/** What survives a power loss: what a successful put promises, and exactly when an object that a
    caller was merely told exists is safe. */
module LocalFsDurability {
  import opened Wrappers
  import opened Blob
  import opened LocalFs
  import opened LocalFsTheorems

  ghost predicate NeverDeleted(c: Config, key: Key) {
    forall j :: 0 <= j < |c.ops| && c.ops[j].key == key ==> !c.ops[j].Delete?
  }

  /** The entry for the key is the complete object of publication number p or of a later one. */
  ghost predicate NoOlder(c: Config, dir: map<Name, nat>, inodes: seq<Inode>, published: seq<nat>, key: Key, p: nat) {
    && Entry(key) in dir && dir[Entry(key)] < |inodes|
    && exists q :: p <= q < |published| && PublishedAs(c, published[q], key, inodes[dir[Entry(key)]].content)
  }

  ghost predicate PublishedAs(c: Config, i: nat, key: Key, content: Bytes) {
    i < |c.ops| && !c.ops[i].Delete? && c.ops[i].key == key && content == c.ops[i].data
  }

  /** The caller has put its file under the key, and has not reported an error. */
  ghost predicate Wrote(c: Config, s: State, i: nat, key: Key) {
    && i < |s.callers| && i < |c.ops| && !c.ops[i].Delete? && c.ops[i].key == key
    && (s.callers[i].Published? || Reports(s.callers[i], Success(c.ops[i])))
  }

  /** The caller's publication is number p, and nothing older is under the key; nor on disk, once
      the caller has synced the directory. */
  ghost predicate Current(c: Config, s: State, i: nat, key: Key, p: nat) {
    && p < |s.published| && s.published[p] == i
    && NoOlder(c, s.dir, s.inodes, s.published, key, p)
    && (Secured(c, s, i) ==> NoOlder(c, s.disk, s.inodes, s.published, key, p))
  }

  ghost predicate AllCurrent(c: Config, s: State, key: Key) {
    forall i :: Wrote(c, s, i, key) ==> exists p :: Current(c, s, i, key, p)
  }

  lemma StaysNoOlder(c: Config, dir: map<Name, nat>, inodes: seq<Inode>, published: seq<nat>, key: Key, p: nat,
                     dir': map<Name, nat>, inodes': seq<Inode>, published': seq<nat>)
    requires NoOlder(c, dir, inodes, published, key, p) && published <= published'
    requires Entry(key) in dir' && dir'[Entry(key)] == dir[Entry(key)]
    requires dir[Entry(key)] < |inodes'| && inodes'[dir[Entry(key)]].content == inodes[dir[Entry(key)]].content
    ensures NoOlder(c, dir', inodes', published', key, p)
  {
    var q :| p <= q < |published| && PublishedAs(c, published[q], key, inodes[dir[Entry(key)]].content);
    assert published'[q] == published[q];
  }

  /** Steps that leave published objects alone and make no caller claim more than before. */
  lemma KeepsCurrent(c: Config, s: State, t: State, key: Key)
    requires AllCurrent(c, s, key) && SameObjects(s, t) && t.published == s.published
    requires forall i :: Wrote(c, t, i, key) ==> Wrote(c, s, i, key) && (Secured(c, t, i) ==> Secured(c, s, i))
    ensures AllCurrent(c, t, key)
  {
    forall i | Wrote(c, t, i, key)
      ensures exists p :: Current(c, t, i, key, p)
    {
      var p :| Current(c, s, i, key, p);
      StaysNoOlder(c, s.dir, s.inodes, s.published, key, p, t.dir, t.inodes, t.published);
      if Secured(c, s, i) {
        StaysNoOlder(c, s.disk, s.inodes, s.published, key, p, t.disk, t.inodes, t.published);
      }
      assert Current(c, t, i, key, p);
    }
  }

  lemma FileCurrent(c: Config, s: State, i: nat, f: FileStep, key: Key)
    requires Inv(c, s) && AllCurrent(c, s, key) && CanFile(c, s, i, f)
    ensures AllCurrent(c, DoFile(c, s, i, f), key)
  {
    FileKeeps(c, s, i, f);
    KeepsCurrent(c, s, DoFile(c, s, i, f), key);
  }

  /** A publication under the key is the newest there is. */
  lemma PublishCurrent(c: Config, s: State, i: nat, key: Key)
    requires Inv(c, s) && NeverDeleted(c, key) && AllCurrent(c, s, key) && CanName(c, s, i, Publish)
    ensures AllCurrent(c, DoPublish(c, s, i), key)
  {
    var t := DoPublish(c, s, i);
    assert CallerOk(c, s.dir, s.disk, s.inodes, c.ops[i], s.callers[i]);
    forall j | Wrote(c, t, j, key)
      ensures exists p :: Current(c, t, j, key, p)
    {
      var last := |s.published|;
      if j == i {
        assert t.published[last] == i && PublishedAs(c, i, key, t.inodes[t.dir[Entry(key)]].content);
        assert Current(c, t, i, key, last);
      } else {
        assert Wrote(c, s, j, key);
        var p :| Current(c, s, j, key, p);
        PublishKeeps(c, s, i, key, p);
        assert Current(c, t, j, key, p);
      }
    }
  }

  lemma PublishKeeps(c: Config, s: State, i: nat, key: Key, p: nat)
    requires Inv(c, s) && NeverDeleted(c, key) && CanName(c, s, i, Publish) && p < |s.published|
    requires NoOlder(c, s.dir, s.inodes, s.published, key, p)
    ensures var t := DoPublish(c, s, i);
      && t.published[p] == s.published[p] && NoOlder(c, t.dir, t.inodes, t.published, key, p)
      && (NoOlder(c, s.disk, s.inodes, s.published, key, p) ==> NoOlder(c, t.disk, t.inodes, t.published, key, p))
  {
    var t := DoPublish(c, s, i);
    assert CallerOk(c, s.dir, s.disk, s.inodes, c.ops[i], s.callers[i]);
    if t.dir[Entry(key)] == s.dir[Entry(key)] {
      StaysNoOlder(c, s.dir, s.inodes, s.published, key, p, t.dir, t.inodes, t.published);
    } else {
      assert t.published[|s.published|] == i && PublishedAs(c, i, key, t.inodes[t.dir[Entry(key)]].content);
    }
    if NoOlder(c, s.disk, s.inodes, s.published, key, p) {
      StaysNoOlder(c, s.disk, s.inodes, s.published, key, p, t.disk, t.inodes, t.published);
    }
  }

  /** The directory goes to disk as it is, or one entry of it does. */
  lemma DiskCatchesUp(c: Config, s: State, t: State, key: Key)
    requires AllCurrent(c, s, key) && t.dir == s.dir && t.inodes == s.inodes && t.published == s.published
    requires Entry(key) in s.dir ==> Entry(key) in t.disk
    requires Entry(key) in t.disk && Entry(key) in s.dir && t.disk[Entry(key)] != s.dir[Entry(key)] ==>
      Entry(key) in s.disk && t.disk[Entry(key)] == s.disk[Entry(key)]
    requires forall i :: Wrote(c, t, i, key) ==> Wrote(c, s, i, key)
    requires forall i :: Wrote(c, t, i, key) && Secured(c, t, i) && !Secured(c, s, i) ==> t.disk == s.dir
    ensures AllCurrent(c, t, key)
  {
    forall i | Wrote(c, t, i, key)
      ensures exists p :: Current(c, t, i, key, p)
    {
      var p :| Current(c, s, i, key, p);
      assert Current(c, t, i, key, p);
    }
  }

  lemma NameCurrent(c: Config, s: State, i: nat, n: NameStep, key: Key)
    requires c.fsync && Inv(c, s) && NeverDeleted(c, key) && AllCurrent(c, s, key) && CanName(c, s, i, n)
    ensures AllCurrent(c, DoName(c, s, i, n), key)
  {
    var t := DoName(c, s, i, n);
    if n == Publish {
      PublishCurrent(c, s, i, key);
    } else if n == SyncDir {
      DiskCatchesUp(c, s, t, key);
    } else {
      forall j | Wrote(c, t, j, key)
        ensures Wrote(c, s, j, key) && (Secured(c, t, j) ==> Secured(c, s, j))
      {
      }
      KeepsCurrent(c, s, t, key);
    }
  }

  lemma FlushCurrent(c: Config, s: State, name: Name, key: Key)
    requires AllCurrent(c, s, key)
    ensures AllCurrent(c, Apply(c, s, FlushEntry(name)), key)
  {
    var t := Apply(c, s, FlushEntry(name));
    forall i | Wrote(c, t, i, key)
      ensures exists p :: Current(c, t, i, key, p)
    {
      assert Wrote(c, s, i, key);
      var p :| Current(c, s, i, key, p);
      assert Current(c, t, i, key, p);
    }
  }

  lemma LossCurrent(c: Config, s: State, garbage: nat -> Bytes, key: Key)
    requires c.fsync && Inv(c, s) && AllCurrent(c, s, key)
    ensures AllCurrent(c, AfterPowerLoss(s, garbage), key)
  {
    var t := AfterPowerLoss(s, garbage);
    forall i | Wrote(c, t, i, key)
      ensures exists p :: Current(c, t, i, key, p)
    {
      assert Wrote(c, s, i, key) && Secured(c, s, i);
      var p :| Current(c, s, i, key, p);
      StaysNoOlder(c, s.disk, s.inodes, s.published, key, p, t.disk, t.inodes, t.published);
      assert Current(c, t, i, key, p);
    }
  }

  lemma KillCurrent(c: Config, s: State, i: nat, key: Key)
    requires AllCurrent(c, s, key) && i < |s.callers|
    ensures AllCurrent(c, Apply(c, s, Kill(i)), key)
  {
    var t := Apply(c, s, Kill(i));
    forall j | Wrote(c, t, j, key)
      ensures Wrote(c, s, j, key) && (Secured(c, t, j) ==> Secured(c, s, j))
    {
    }
    KeepsCurrent(c, s, t, key);
  }

  lemma StepCurrent(c: Config, s: State, e: Step, key: Key)
    requires c.fsync && Inv(c, s) && NeverDeleted(c, key) && AllCurrent(c, s, key) && Enabled(c, s, e)
    ensures AllCurrent(c, Apply(c, s, e), key)
  {
    match e {
      case File(i, f) => FileCurrent(c, s, i, f, key);
      case Named(i, n) => NameCurrent(c, s, i, n, key);
      case Kill(i) => KillCurrent(c, s, i, key);
      case FlushEntry(name) => FlushCurrent(c, s, name, key);
      case LosePower(garbage) => LossCurrent(c, s, garbage, key);
    }
  }

  lemma {:induction false} RunCurrent(c: Config, run: seq<Step>, key: Key)
    requires c.fsync && NeverDeleted(c, key) && Replay(c, run).Some?
    ensures AllCurrent(c, Replay(c, run).value, key)
  {
    if run != [] {
      RunInv(c, run[..|run| - 1]);
      RunCurrent(c, run[..|run| - 1], key);
      StepCurrent(c, Replay(c, run[..|run| - 1]).value, run[|run| - 1], key);
    }
  }

  /** The caller has returned without an error from a put that wrote its object. */
  ghost predicate WroteBy(c: Config, s: State, i: nat, key: Key) {
    && i < |s.callers| && i < |c.ops| && !c.ops[i].Delete? && c.ops[i].key == key
    && s.callers[i] == Returned(Success(c.ops[i]))
  }

  /** Success means durable. Once a put, or a conditional put that created, has returned without
      an error, and unless the key is deleted, after every power loss the key is there with all
      the bytes of that put or of one that published the key after it; with exactly its own if
      no other put replaces the key. */
  lemma CreatedSurvives(c: Config, run: seq<Step>, key: Key, i: nat, garbage: nat -> Bytes)
    requires c.fsync && Replay(c, run).Some? && NeverDeleted(c, key) && WroteBy(c, Replay(c, run).value, i, key)
    ensures var s := AfterPowerLoss(Replay(c, run).value, garbage);
      exists p: nat :: p < |s.published| && s.published[p] == i && NoOlder(c, s.dir, s.inodes, s.published, key, p)
    ensures var s := AfterPowerLoss(Replay(c, run).value, garbage);
      Undisturbed(c, key) ==> s.inodes[s.dir[Entry(key)]].content == c.ops[i].data
  {
    RunCurrent(c, run, key);
    var s := Replay(c, run).value;
    assert Wrote(c, s, i, key) && Secured(c, s, i);
    var p :| Current(c, s, i, key, p);
    var t := AfterPowerLoss(s, garbage);
    RunInv(c, run);
    StaysNoOlder(c, s.disk, s.inodes, s.published, key, p, t.dir, t.inodes, t.published);
    if Undisturbed(c, key) {
      RunOneCreator(c, run, key);
      assert LocalFsTheorems.Holds(c, s, i, key);
    }
  }

  // ---- objects that a caller was told exist ----

  lemma StepListed(c: Config, s: State, e: Step, key: Key)
    requires NeverDeleted(c, key) && Enabled(c, s, e) && Entry(key) in s.dir && Entry(key) in s.disk
    ensures Entry(key) in Apply(c, s, e).dir && Entry(key) in Apply(c, s, e).disk
  {
  }

  lemma {:induction false} ListedAlways(c: Config, run: seq<Step>, more: seq<Step>, key: Key)
    requires NeverDeleted(c, key) && Replay(c, run).Some? && Replay(c, run + more).Some?
    requires Entry(key) in Replay(c, run).value.dir && Entry(key) in Replay(c, run).value.disk
    ensures Entry(key) in Replay(c, run + more).value.dir && Entry(key) in Replay(c, run + more).value.disk
  {
    if more == [] {
      assert run + more == run;
    } else {
      var n := |more| - 1;
      assert (run + more)[..|run + more| - 1] == run + more[..n];
      ListedAlways(c, run, more[..n], key);
      StepListed(c, Replay(c, run + more[..n]).value, more[n], key);
    }
  }

  /** The key stays listed however the run goes on, power losses included. */
  ghost predicate ListedForever(c: Config, run: seq<Step>, key: Key) {
    forall more :: Replay(c, run + more).Some? ==> Entry(key) in Replay(c, run + more).value.dir
  }

  /** An object that is visible now, whoever published it, is safe from every later power loss if
      and only if its entry is on disk: told "it exists", a caller must sync the directory. */
  lemma ListedForeverIff(c: Config, run: seq<Step>, key: Key)
    requires NeverDeleted(c, key) && Replay(c, run).Some? && Entry(key) in Replay(c, run).value.dir
    ensures ListedForever(c, run, key) <==> Entry(key) in Replay(c, run).value.disk
  {
    var s := Replay(c, run).value;
    if Entry(key) in s.disk {
      forall more | Replay(c, run + more).Some?
        ensures Entry(key) in Replay(c, run + more).value.dir
      {
        ListedAlways(c, run, more, key);
      }
    } else {
      var t := Extend(c, run, s, LosePower(_ => []));
      assert Entry(key) !in t.dir;
    }
  }

  lemma Extend(c: Config, run: seq<Step>, s: State, e: Step) returns (t: State)
    requires Replay(c, run) == Some(s) && Enabled(c, s, e)
    ensures t == Apply(c, s, e) && Replay(c, run + [e]) == Some(t)
  {
    t := Apply(c, s, e);
    assert (run + [e])[..|run|] == run;
  }

  /** One caller's steps up to the point where it publishes. */
  lemma WriteOut(c: Config, run: seq<Step>, s: State, i: nat) returns (more: seq<Step>, t: State)
    requires Replay(c, run) == Some(s) && i < |s.callers| == |c.ops| && c.ops[i].PutIfAbsent? && s.callers[i].Start?
    ensures Replay(c, more) == Some(t) && t.callers == s.callers[i := Ready(|s.inodes|)]
    ensures t.disk == s.disk && t.dir == s.dir[Temp(|s.inodes|) := |s.inodes|] && |t.inodes| == |s.inodes| + 1
  {
    var s1 := Extend(c, run, s, File(i, CreateTemp));
    var r1 := run + [File(i, CreateTemp)];
    var s2 := Extend(c, r1, s1, File(i, WriteSome(|c.ops[i].data|)));
    var r2 := r1 + [File(i, WriteSome(|c.ops[i].data|))];
    var s3 := Extend(c, r2, s2, File(i, SyncFile));
    var r3 := r2 + [File(i, SyncFile)];
    t := Extend(c, r3, s3, File(i, CloseFile));
    more := r3 + [File(i, CloseFile)];
  }

  /** What is not guaranteed: a caller that is told, without an error, that the object exists
      may lose it. The directory is synced by the caller that linked the object, not by the
      one that found it. */
  lemma ExistsMayBeLost(key: Key, data: Bytes, garbage: nat -> Bytes)
    ensures var c := Config([PutIfAbsent(key, data), PutIfAbsent(key, data)], true);
      exists run :: Replay(c, run).Some? && |Replay(c, run).value.callers| == 2
                    && Replay(c, run).value.callers[1] == Returned(Result(false, true))
                    && Entry(key) in Replay(c, run).value.dir
                    && Entry(key) !in AfterPowerLoss(Replay(c, run).value, garbage).dir
  {
    var c := Config([PutIfAbsent(key, data), PutIfAbsent(key, data)], true);
    var r1, s1 := WriteOut(c, [], Init(c), 0);
    var s2 := Extend(c, r1, s1, Named(0, Publish));
    var r2 := r1 + [Named(0, Publish)];
    assert s2.callers[1] == Start && |s2.callers| == 2;
    var r3, s3 := WriteOut(c, r2, s2, 1);
    var s4 := Extend(c, r3, s3, Named(1, Publish));
    var r4 := r3 + [Named(1, Publish)];
    var s5 := Extend(c, r4, s4, Named(1, RemoveTemp));
    assert Replay(c, r4 + [Named(1, RemoveTemp)]) == Some(s5);
  }
}
