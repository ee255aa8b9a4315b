/** What the local backend guarantees: complete objects, one creator, and survival of a power
    loss; and what it does not. */
module LocalFsTheorems {
  import opened Blob
  import opened LocalFs

  /** The inode holds all the bytes that some put of this key was given, on disk if files are
      synced. */
  ghost predicate Complete(c: Config, key: Key, node: Inode) {
    && (c.fsync ==> node.synced)
    && exists j :: 0 <= j < |c.ops| && !c.ops[j].Delete? && c.ops[j].key == key && node.content == c.ops[j].data
  }

  /** Every key in the directory names a complete object; a temporary name names its own inode. */
  ghost predicate WholeDir(c: Config, dir: map<Name, nat>, inodes: seq<Inode>) {
    forall name :: name in dir ==>
      && dir[name] < |inodes|
      && (name.Entry? ==> Complete(c, name.key, inodes[dir[name]]))
      && (name.Temp? ==> dir[name] == name.ino)
  }

  ghost predicate Private(dir: map<Name, nat>, ino: nat) {
    forall name :: name in dir && dir[name] == ino ==> name.Temp?
  }

  /** A caller that is writing is alone in its inode; one that has written has written it all. */
  ghost predicate CallerOk(c: Config, dir: map<Name, nat>, disk: map<Name, nat>, inodes: seq<Inode>, op: Op,
                           pc: Caller) {
    match pc
    case Writing(ino, n) =>
      && !op.Delete? && ino < |inodes| && n <= |op.data| && inodes[ino].content == op.data[..n]
      && Private(dir, ino) && Private(disk, ino)
    case Written(ino) =>
      !op.Delete? && ino < |inodes| && inodes[ino].content == op.data && (c.fsync ==> inodes[ino].synced)
    case Ready(ino) =>
      !op.Delete? && ino < |inodes| && inodes[ino].content == op.data && (c.fsync ==> inodes[ino].synced)
    case _ => true
  }

  ghost predicate Busy(pc: Caller) {
    pc.Writing? || pc.Written? || pc.Ready?
  }

  ghost predicate Separate(callers: seq<Caller>) {
    forall i, j :: 0 <= i < |callers| && 0 <= j < |callers| && i != j && Busy(callers[i]) && Busy(callers[j]) ==>
      callers[i].ino != callers[j].ino
  }

  ghost predicate CallersOk(c: Config, dir: map<Name, nat>, disk: map<Name, nat>, inodes: seq<Inode>,
                            callers: seq<Caller>) {
    && |callers| == |c.ops|
    && (forall i :: 0 <= i < |callers| ==> CallerOk(c, dir, disk, inodes, c.ops[i], callers[i]))
    && Separate(callers)
  }

  ghost predicate Inv(c: Config, s: State) {
    && WholeDir(c, s.dir, s.inodes) && WholeDir(c, s.disk, s.inodes)
    && CallersOk(c, s.dir, s.disk, s.inodes, s.callers)
  }

  /** A caller that moves on to a state that makes no claim, or keeps its inode. */
  lemma MoveOn(c: Config, dir: map<Name, nat>, disk: map<Name, nat>, inodes: seq<Inode>, callers: seq<Caller>, i: nat,
               next: Caller)
    requires CallersOk(c, dir, disk, inodes, callers) && i < |callers|
    requires CallerOk(c, dir, disk, inodes, c.ops[i], next)
    requires Busy(next) ==> Busy(callers[i]) && callers[i].ino == next.ino
    ensures CallersOk(c, dir, disk, inodes, callers[i := next])
  {
  }

  lemma CreateInv(c: Config, s: State, i: nat)
    requires Inv(c, s) && CanFile(c, s, i, CreateTemp)
    ensures Inv(c, DoFile(c, s, i, CreateTemp))
  {
    var t := DoFile(c, s, i, CreateTemp);
    forall j | 0 <= j < |s.callers| && j != i
      ensures CallerOk(c, t.dir, t.disk, t.inodes, c.ops[j], t.callers[j])
    {
      assert CallerOk(c, s.dir, s.disk, s.inodes, c.ops[j], s.callers[j]);
    }
  }

  lemma WriteInv(c: Config, s: State, i: nat, n: nat)
    requires Inv(c, s) && CanFile(c, s, i, WriteSome(n))
    ensures Inv(c, DoFile(c, s, i, WriteSome(n)))
  {
    var t := DoFile(c, s, i, WriteSome(n));
    assert CallerOk(c, s.dir, s.disk, s.inodes, c.ops[i], s.callers[i]);
    forall j | 0 <= j < |s.callers| && j != i
      ensures CallerOk(c, t.dir, t.disk, t.inodes, c.ops[j], t.callers[j])
    {
      assert CallerOk(c, s.dir, s.disk, s.inodes, c.ops[j], s.callers[j]);
    }
  }

  lemma SyncInv(c: Config, s: State, i: nat)
    requires Inv(c, s) && CanFile(c, s, i, SyncFile)
    ensures Inv(c, DoFile(c, s, i, SyncFile))
  {
    var t := DoFile(c, s, i, SyncFile);
    assert CallerOk(c, s.dir, s.disk, s.inodes, c.ops[i], s.callers[i]);
    assert c.ops[i].data[..s.callers[i].n] == c.ops[i].data;
    forall j | 0 <= j < |s.callers| && j != i
      ensures CallerOk(c, t.dir, t.disk, t.inodes, c.ops[j], t.callers[j])
    {
      assert CallerOk(c, s.dir, s.disk, s.inodes, c.ops[j], s.callers[j]);
    }
  }

  lemma FileInv(c: Config, s: State, i: nat, f: FileStep)
    requires Inv(c, s) && CanFile(c, s, i, f)
    ensures Inv(c, DoFile(c, s, i, f))
  {
    match f {
      case CreateTemp => CreateInv(c, s, i);
      case WriteSome(n) => WriteInv(c, s, i, n);
      case SyncFile => SyncInv(c, s, i);
      case _ =>
        assert CallerOk(c, s.dir, s.disk, s.inodes, c.ops[i], s.callers[i]);
        MoveOn(c, s.dir, s.disk, s.inodes, s.callers, i, DoFile(c, s, i, f).callers[i]);
    }
  }

  /** The directories may gain the name of a finished file, and lose names. */
  lemma DirChange(c: Config, s: State, dir: map<Name, nat>, disk: map<Name, nat>, i: nat, next: Caller)
    requires Inv(c, s) && i < |s.callers| && !Busy(next)
    requires forall name :: name in dir && name.Entry? && !(name in s.dir && s.dir[name] == dir[name]) ==>
      Busy(s.callers[i]) && dir[name] == s.callers[i].ino
    requires forall name :: name in disk && name.Entry? && !(name in s.disk && s.disk[name] == disk[name]) ==>
      name in s.dir && disk[name] == s.dir[name]
    ensures CallersOk(c, dir, disk, s.inodes, s.callers[i := next])
  {
    var callers := s.callers[i := next];
    forall j | 0 <= j < |callers| && j != i
      ensures CallerOk(c, dir, disk, s.inodes, c.ops[j], callers[j])
    {
      assert CallerOk(c, s.dir, s.disk, s.inodes, c.ops[j], s.callers[j]);
    }
  }

  lemma PublishInv(c: Config, s: State, i: nat)
    requires Inv(c, s) && CanName(c, s, i, Publish)
    ensures Inv(c, DoPublish(c, s, i))
  {
    var t := DoPublish(c, s, i);
    assert CallerOk(c, s.dir, s.disk, s.inodes, c.ops[i], s.callers[i]);
    DirChange(c, s, t.dir, t.disk, i, t.callers[i]);
    if s.callers[i].Ready? {
      assert Complete(c, c.ops[i].key, s.inodes[s.callers[i].ino]);
    }
  }

  lemma NameInv(c: Config, s: State, i: nat, n: NameStep)
    requires Inv(c, s) && CanName(c, s, i, n)
    ensures Inv(c, DoName(c, s, i, n))
  {
    if n == Publish {
      PublishInv(c, s, i);
    } else {
      var t := DoName(c, s, i, n);
      DirChange(c, s, t.dir, t.disk, i, t.callers[i]);
    }
  }

  lemma StepInv(c: Config, s: State, e: Step)
    requires Inv(c, s) && Enabled(c, s, e) && (e.LosePower? ==> c.fsync)
    ensures Inv(c, Apply(c, s, e))
  {
    match e {
      case File(i, f) => FileInv(c, s, i, f);
      case Named(i, n) => NameInv(c, s, i, n);
      case Kill(i) =>
      case FlushEntry(_) =>
      case LosePower(_) =>
    }
  }

  lemma {:induction false} RunInv(c: Config, run: seq<Step>)
    requires Replay(c, run).Some? && (c.fsync || NoPowerLoss(run))
    ensures Inv(c, Replay(c, run).value)
  {
    if run != [] {
      RunInv(c, run[..|run| - 1]);
      StepInv(c, Replay(c, run[..|run| - 1]).value, run[|run| - 1]);
    }
  }

  /** Publication is atomic: at every moment, whatever failed and whoever was killed, every key
      that List shows holds a complete object. With files synced that is so through any number
      of power losses. */
  lemma VisibleIsComplete(c: Config, run: seq<Step>, key: Key)
    requires Replay(c, run).Some? && (c.fsync || NoPowerLoss(run)) && Entry(key) in Replay(c, run).value.dir
    ensures var s := Replay(c, run).value;
      && s.dir[Entry(key)] < |s.inodes|
      && exists j :: 0 <= j < |c.ops| && !c.ops[j].Delete? && c.ops[j].key == key
           && s.inodes[s.dir[Entry(key)]].content == c.ops[j].data
  {
    RunInv(c, run);
  }

  // ---- one creator ----

  /** The key is only ever written by conditional puts, or by a single put. */
  ghost predicate Undisturbed(c: Config, key: Key) {
    forall j :: 0 <= j < |c.ops| && c.ops[j].key == key ==>
      c.ops[j].PutIfAbsent? || (c.ops[j].Put? && forall k :: 0 <= k < |c.ops| && c.ops[k].key == key ==> k == j)
  }

  /** What a put that wrote its object reports when nothing fails. */
  function Success(op: Op): Result {
    Result(op.PutIfAbsent?, true)
  }

  /** The caller has published its file under the key and has not reported an error. */
  ghost predicate Holds(c: Config, s: State, i: nat, key: Key) {
    && i < |s.callers| && i < |c.ops| && !c.ops[i].Delete? && c.ops[i].key == key
    && (s.callers[i].Published? || Reports(s.callers[i], Success(c.ops[i]))
        || (!s.powerLost && Reports(s.callers[i], Result(true, false))))
  }

  ghost predicate Reports(pc: Caller, r: Result) {
    (pc.Cleaning? || pc.Returned?) && pc.result == r
  }

  /** Once it has synced the directory, the caller's file is under the key on disk, too. */
  ghost predicate Secured(c: Config, s: State, i: nat) {
    i < |s.callers| && i < |c.ops| && Reports(s.callers[i], Success(c.ops[i]))
  }

  /** The entry for the key is the caller's complete file. */
  ghost predicate Owns(c: Config, dir: map<Name, nat>, inodes: seq<Inode>, key: Key, i: nat) {
    && i < |c.ops| && !c.ops[i].Delete? && Entry(key) in dir && dir[Entry(key)] < |inodes|
    && inodes[dir[Entry(key)]] .content == c.ops[i].data && (c.fsync ==> inodes[dir[Entry(key)]].synced)
  }

  ghost predicate OneCreator(c: Config, s: State, key: Key) {
    && (forall i :: Holds(c, s, i, key) ==> Owns(c, s.dir, s.inodes, key, i))
    && (forall i :: Holds(c, s, i, key) && Secured(c, s, i) && c.fsync ==> Owns(c, s.disk, s.inodes, key, i))
    && (forall i, j :: Holds(c, s, i, key) && Holds(c, s, j, key) ==> i == j)
  }

  /** The published objects are the same in s and t. */
  ghost predicate SameObjects(s: State, t: State) {
    && (forall key :: Entry(key) in s.dir ==> Entry(key) in t.dir && t.dir[Entry(key)] == s.dir[Entry(key)])
    && (forall key :: Entry(key) in s.disk ==> Entry(key) in t.disk && t.disk[Entry(key)] == s.disk[Entry(key)])
    && (forall key :: Entry(key) in s.dir && s.dir[Entry(key)] < |s.inodes| ==>
         s.dir[Entry(key)] < |t.inodes| && t.inodes[s.dir[Entry(key)]] == s.inodes[s.dir[Entry(key)]])
    && (forall key :: Entry(key) in s.disk && s.disk[Entry(key)] < |s.inodes| ==>
         s.disk[Entry(key)] < |t.inodes| && t.inodes[s.disk[Entry(key)]] == s.inodes[s.disk[Entry(key)]])
  }

  lemma FileKeeps(c: Config, s: State, i: nat, f: FileStep)
    requires Inv(c, s) && CanFile(c, s, i, f)
    ensures SameObjects(s, DoFile(c, s, i, f))
    ensures DoFile(c, s, i, f).powerLost == s.powerLost
  {
    assert CallerOk(c, s.dir, s.disk, s.inodes, c.ops[i], s.callers[i]);
  }

  lemma KeepsCreator(c: Config, s: State, t: State, key: Key, i: nat, next: Caller)
    requires OneCreator(c, s, key) && SameObjects(s, t) && t.powerLost == s.powerLost
    requires i < |s.callers| && t.callers == s.callers[i := next]
    requires Holds(c, t, i, key) ==> Holds(c, s, i, key)
    requires Secured(c, t, i) && Holds(c, t, i, key) ==> Secured(c, s, i)
    ensures OneCreator(c, t, key)
  {
    forall j | Holds(c, t, j, key)
      ensures Holds(c, s, j, key) && (Secured(c, t, j) ==> Secured(c, s, j))
    {
    }
  }

  lemma FileOneCreator(c: Config, s: State, i: nat, f: FileStep, key: Key)
    requires Inv(c, s) && OneCreator(c, s, key) && CanFile(c, s, i, f)
    ensures OneCreator(c, DoFile(c, s, i, f), key)
  {
    FileKeeps(c, s, i, f);
    var t := DoFile(c, s, i, f);
    KeepsCreator(c, s, t, key, i, t.callers[i]);
  }

  lemma PublishOneCreator(c: Config, s: State, i: nat, key: Key)
    requires Inv(c, s) && Undisturbed(c, key) && OneCreator(c, s, key) && CanName(c, s, i, Publish)
    ensures OneCreator(c, DoPublish(c, s, i), key)
  {
    var t := DoPublish(c, s, i);
    assert CallerOk(c, s.dir, s.disk, s.inodes, c.ops[i], s.callers[i]);
    forall j | j != i && Holds(c, t, j, key)
      ensures Holds(c, s, j, key) && (Secured(c, t, j) ==> Secured(c, s, j))
    {
    }
  }

  lemma NameOneCreator(c: Config, s: State, i: nat, n: NameStep, key: Key)
    requires Inv(c, s) && Undisturbed(c, key) && OneCreator(c, s, key) && CanName(c, s, i, n)
    ensures OneCreator(c, DoName(c, s, i, n), key)
  {
    if n == Publish {
      PublishOneCreator(c, s, i, key);
    } else {
      var t := DoName(c, s, i, n);
      forall j | Holds(c, t, j, key)
        ensures Holds(c, s, j, key)
      {
      }
      forall j | Holds(c, t, j, key) && Secured(c, t, j)
        ensures Secured(c, s, j) || (j == i && n == SyncDir)
      {
      }
    }
  }

  lemma LossOneCreator(c: Config, s: State, garbage: nat -> Bytes, key: Key)
    requires Inv(c, s) && OneCreator(c, s, key) && c.fsync
    ensures OneCreator(c, AfterPowerLoss(s, garbage), key)
  {
    var t := AfterPowerLoss(s, garbage);
    forall j | Holds(c, t, j, key)
      ensures Holds(c, s, j, key) && Secured(c, s, j)
    {
    }
  }

  lemma KillOneCreator(c: Config, s: State, i: nat, key: Key)
    requires OneCreator(c, s, key) && i < |s.callers|
    ensures OneCreator(c, Apply(c, s, Kill(i)), key)
  {
    if !s.callers[i].Returned? {
      KeepsCreator(c, s, Apply(c, s, Kill(i)), key, i, Gone);
    }
  }

  lemma FlushOneCreator(c: Config, s: State, name: Name, key: Key)
    requires OneCreator(c, s, key)
    ensures OneCreator(c, Apply(c, s, FlushEntry(name)), key)
  {
    var t := Apply(c, s, FlushEntry(name));
    forall j | Holds(c, t, j, key)
      ensures Holds(c, s, j, key) && (Secured(c, t, j) ==> Secured(c, s, j))
    {
    }
  }

  lemma StepOneCreator(c: Config, s: State, e: Step, key: Key)
    requires Inv(c, s) && Undisturbed(c, key) && OneCreator(c, s, key) && Enabled(c, s, e) && (e.LosePower? ==> c.fsync)
    ensures OneCreator(c, Apply(c, s, e), key)
  {
    match e {
      case File(i, f) => FileOneCreator(c, s, i, f, key);
      case Named(i, n) => NameOneCreator(c, s, i, n, key);
      case Kill(i) => KillOneCreator(c, s, i, key);
      case FlushEntry(name) => FlushOneCreator(c, s, name, key);
      case LosePower(garbage) => LossOneCreator(c, s, garbage, key);
    }
  }

  lemma {:induction false} RunOneCreator(c: Config, run: seq<Step>, key: Key)
    requires Replay(c, run).Some? && Undisturbed(c, key) && (c.fsync || NoPowerLoss(run))
    ensures OneCreator(c, Replay(c, run).value, key)
  {
    if run != [] {
      RunInv(c, run[..|run| - 1]);
      RunOneCreator(c, run[..|run| - 1], key);
      StepOneCreator(c, Replay(c, run[..|run| - 1]).value, run[|run| - 1], key);
    }
  }

  ghost predicate CreatedBy(c: Config, s: State, i: nat, key: Key) {
    && i < |s.callers| && i < |c.ops| && c.ops[i].PutIfAbsent? && c.ops[i].key == key
    && s.callers[i].Returned? && s.callers[i].result.created
  }

  /** Of any number of racing conditional puts on a free key at most one returns created, even
      if some fail and some are killed; across power losses, too, at most one returns created
      without an error. */
  lemma AtMostOneCreated(c: Config, run: seq<Step>, key: Key, i: nat, j: nat)
    requires Replay(c, run).Some? && Undisturbed(c, key) && (c.fsync || NoPowerLoss(run))
    requires CreatedBy(c, Replay(c, run).value, i, key) && CreatedBy(c, Replay(c, run).value, j, key)
    requires var callers := Replay(c, run).value.callers;
      NoPowerLoss(run) || (callers[i].result.ok && callers[j].result.ok)
    ensures i == j
  {
    RunOneCreator(c, run, key);
    PowerKept(c, run);
    var s := Replay(c, run).value;
    assert s.callers[i].result == Result(true, s.callers[i].result.ok);
    assert s.callers[j].result == Result(true, s.callers[j].result.ok);
    assert Holds(c, s, i, key) && Holds(c, s, j, key);
  }

  lemma {:induction false} PowerKept(c: Config, run: seq<Step>)
    requires Replay(c, run).Some?
    ensures NoPowerLoss(run) ==> !Replay(c, run).value.powerLost
  {
    if run != [] {
      PowerKept(c, run[..|run| - 1]);
      if !run[|run| - 1].LosePower? {
        PowerStays(c, Replay(c, run[..|run| - 1]).value, run[|run| - 1]);
      } else {
        assert !NoPowerLoss(run);
      }
    }
  }

  lemma PowerStays(c: Config, s: State, e: Step)
    requires Enabled(c, s, e) && !e.LosePower?
    ensures Apply(c, s, e).powerLost == s.powerLost
  {
  }
}
