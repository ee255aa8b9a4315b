/** What a call on the local backend tells its caller, what it leaves behind when nothing hits it,
    and what fsync is for. */
module LocalFsResults {
  import opened Wrappers
  import opened Blob
  import opened LocalFs
  import LocalFsDeletion

  /** A system call of caller i fails, other than the removal of its temporary name, whose failure
      is ignored. */
  predicate Fault(e: Step, i: nat) {
    || (e.File? && e.i == i && (e.f.CreateFail? || e.f.WriteFail? || e.f.SyncFail? || e.f.CloseFail?))
    || (e.Named? && e.i == i && (e.n.PublishFail? || e.n.SyncDirFail?))
  }

  ghost predicate Faulted(run: seq<Step>, i: nat) {
    exists k :: 0 <= k < |run| && Fault(run[k], i)
  }

  /** The history, in the terms of where the caller stands; `hit` is whether a fault has hit it. */
  predicate Account(op: Op, pc: Caller, wrote: bool, hit: bool) {
    && (op.Delete? ==> !wrote)
    && match pc
       case Published(_) => !hit && (wrote <==> !op.Delete?)
       case Cleaning(_, r) => Told(op, r, wrote, hit)
       case Returned(r) => Told(op, r, wrote, hit)
       case Gone => true
       case _ => !hit && !wrote
  }

  /** The answer is ok unless something failed, and `created` only of a conditional put that wrote. */
  predicate Told(op: Op, r: Result, wrote: bool, hit: bool) {
    && (r.ok <==> !hit)
    && (r.created <==> op.PutIfAbsent? && wrote)
    && (op.Put? && r.ok ==> wrote)
  }

  ghost predicate OnceEach(published: seq<nat>) {
    forall p, q :: 0 <= p < q < |published| ==> published[p] != published[q]
  }

  ghost predicate Accounts(c: Config, s: State, i: nat, hit: bool) {
    && |s.callers| == |c.ops| && i < |c.ops| && Account(c.ops[i], s.callers[i], i in s.published, hit)
    && OnceEach(s.published)
  }

  lemma FileAccounts(c: Config, s: State, j: nat, f: FileStep, i: nat, hit: bool)
    requires CanFile(c, s, j, f) && Accounts(c, s, i, hit)
    ensures Accounts(c, DoFile(c, s, j, f), i, hit || Fault(File(j, f), i))
  {
    match f {
      case CreateTemp =>
      case _ =>
    }
  }

  lemma NameAccounts(c: Config, s: State, j: nat, n: NameStep, i: nat, hit: bool, other: bool)
    requires CanName(c, s, j, n) && Accounts(c, s, i, hit) && Accounts(c, s, j, other)
    ensures Accounts(c, DoName(c, s, j, n), i, hit || Fault(Named(j, n), i))
  {
    match n {
      case Publish =>
        assert !c.ops[j].Delete? ==> j !in s.published;
      case _ =>
    }
  }

  lemma StepAccounts(c: Config, s: State, e: Step, i: nat, hit: bool, other: bool)
    requires Enabled(c, s, e) && Accounts(c, s, i, hit) && (e.Named? ==> Accounts(c, s, e.i, other))
    ensures Accounts(c, Apply(c, s, e), i, hit || Fault(e, i))
  {
    match e {
      case File(j, f) => FileAccounts(c, s, j, f, i, hit);
      case Named(j, n) => NameAccounts(c, s, j, n, i, hit, other);
      case _ =>
    }
  }

  lemma {:induction false} RunAccounts(c: Config, run: seq<Step>, i: nat)
    requires Replay(c, run).Some? && i < |c.ops|
    ensures Accounts(c, Replay(c, run).value, i, Faulted(run, i))
  {
    if run != [] {
      var n := |run| - 1;
      var s, e := Replay(c, run[..n]).value, run[n];
      RunAccounts(c, run[..n], i);
      if e.Named? {
        RunAccounts(c, run[..n], e.i);
        StepAccounts(c, s, e, i, Faulted(run[..n], i), Faulted(run[..n], e.i));
      } else {
        StepAccounts(c, s, e, i, Faulted(run[..n], i), false);
      }
      FaultedNext(run, i);
    }
  }

  lemma FaultedNext(run: seq<Step>, i: nat)
    requires run != []
    ensures Faulted(run, i) <==> Faulted(run[..|run| - 1], i) || Fault(run[|run| - 1], i)
  {
    var n := |run| - 1;
    if Faulted(run[..n], i) {
      var k :| 0 <= k < n && Fault(run[..n][k], i);
      assert Fault(run[k], i);
    }
    if Faulted(run, i) {
      var k :| 0 <= k < |run| && Fault(run[k], i);
      assert k < n ==> Fault(run[..n][k], i);
    }
  }

  /** The truth of every answer, however callers interleave, fail, are killed or lose power. A call
      has put its file under the key at most once. It returns ok exactly when none of its system
      calls failed; a conditional put says `created` exactly when it put its file under the key,
      and a plain put that returns ok has. */
  lemma AnswersAreTrue(c: Config, run: seq<Step>, i: nat)
    requires Replay(c, run).Some? && i < |c.ops|
    ensures var s := Replay(c, run).value; |s.callers| == |c.ops| && OnceEach(s.published)
    ensures var s := Replay(c, run).value;
      s.callers[i].Returned? ==>
        && (s.callers[i].result.ok <==> !Faulted(run, i))
        && (s.callers[i].result.created <==> c.ops[i].PutIfAbsent? && i in s.published)
        && (c.ops[i].Put? && s.callers[i].result.ok ==> i in s.published)
  {
    RunAccounts(c, run, i);
  }

  // ---- an answer is final ----

  ghost predicate Ended(pc: Caller) {
    pc.Returned? || pc.Gone?
  }

  lemma StepEnded(c: Config, s: State, e: Step, i: nat)
    requires Enabled(c, s, e) && i < |s.callers| && Ended(s.callers[i])
    ensures i < |Apply(c, s, e).callers| && Apply(c, s, e).callers[i] == s.callers[i]
  {
    match e {
      case File(_, f) =>
      case Named(_, n) =>
      case _ =>
    }
  }

  /** Neither a later step nor a power loss changes what a caller has been told, and a dead caller
      stays dead. */
  lemma {:induction false} AnswersStay(c: Config, run: seq<Step>, more: seq<Step>, i: nat)
    requires Replay(c, run).Some? && Replay(c, run + more).Some?
    requires i < |Replay(c, run).value.callers| && Ended(Replay(c, run).value.callers[i])
    ensures i < |Replay(c, run + more).value.callers|
    ensures Replay(c, run + more).value.callers[i] == Replay(c, run).value.callers[i]
  {
    if more == [] {
      assert run + more == run;
    } else {
      var n := |more| - 1;
      assert (run + more)[..|run + more| - 1] == run + more[..n];
      AnswersStay(c, run, more[..n], i);
      StepEnded(c, Replay(c, run + more[..n]).value, more[n], i);
    }
  }

  /** A power loss ends every caller; a kill ends its own. */
  lemma LossEnds(c: Config, s: State, e: Step, i: nat)
    requires Enabled(c, s, e) && i < |s.callers| && (e.LosePower? || e == Kill(i))
    ensures i < |Apply(c, s, e).callers| && Ended(Apply(c, s, e).callers[i])
  {
  }

  // ---- calls that nothing hits ----

  lemma Further(c: Config, run: seq<Step>, s: State, e: Step) returns (more: seq<Step>, t: State)
    requires Replay(c, run) == Some(s) && Enabled(c, s, e)
    ensures more == run + [e] && t == Apply(c, s, e) && Replay(c, more) == Some(t)
  {
    more, t := LocalFsDeletion.Further(c, run, s, e);
  }

  /** Temporary names are never used again, not even after a power loss. */
  ghost predicate TempsUsed(s: State) {
    forall k: nat :: Temp(k) in s.dir || Temp(k) in s.disk ==> k < |s.inodes|
  }

  lemma StepTempsUsed(c: Config, s: State, e: Step)
    requires Enabled(c, s, e) && TempsUsed(s)
    ensures TempsUsed(Apply(c, s, e))
  {
    match e {
      case File(_, f) =>
      case Named(_, n) =>
      case _ =>
    }
  }

  lemma {:induction false} RunTempsUsed(c: Config, run: seq<Step>)
    requires Replay(c, run).Some?
    ensures TempsUsed(Replay(c, run).value)
  {
    if run != [] {
      RunTempsUsed(c, run[..|run| - 1]);
      StepTempsUsed(c, Replay(c, run[..|run| - 1]).value, run[|run| - 1]);
    }
  }

  /** The caller's temporary file, complete and closed. */
  lemma WritesAlone(c: Config, run: seq<Step>, s: State, i: nat) returns (more: seq<Step>, t: State)
    requires Replay(c, run) == Some(s) && i < |s.callers| == |c.ops| && !c.ops[i].Delete? && s.callers[i].Start?
    ensures run <= more && Replay(c, more) == Some(t)
    ensures var ino := |s.inodes|;
      t == s.(inodes := s.inodes + [Inode(c.ops[i].data, c.fsync)], dir := s.dir[Temp(ino) := ino],
              callers := s.callers[i := Ready(ino)])
  {
    var data := c.ops[i].data;
    more, t := Further(c, run, s, File(i, CreateTemp));
    more, t := Further(c, more, t, File(i, WriteSome(|data|)));
    assert data[..|data|] == data;
    assert t.inodes == s.inodes + [Inode(data, false)];
    more, t := Further(c, more, t, File(i, SyncFile));
    assert t.inodes == s.inodes + [Inode(data, c.fsync)];
    more, t := Further(c, more, t, File(i, CloseFile));
    assert t.callers == s.callers[i := Ready(|s.inodes|)];
  }

  /** From wherever the others stand, a put that runs to its end unhindered replaces the key with
      its bytes, in the directory and on disk. */
  lemma PutAlone(c: Config, run: seq<Step>, s: State, i: nat, key: Key, data: Bytes)
    returns (more: seq<Step>, t: State)
    requires Replay(c, run) == Some(s)
    requires i < |s.callers| == |c.ops| && c.ops[i] == Put(key, data) && s.callers[i].Start?
    ensures run <= more && Replay(c, more) == Some(t) && t.callers == s.callers[i := Returned(Result(false, true))]
    ensures t.dir == s.dir[Entry(key) := |s.inodes|] && t.inodes == s.inodes + [Inode(data, c.fsync)]
    ensures t.disk == if c.fsync then t.dir else s.disk
    ensures t.published == s.published + [i]
  {
    RunTempsUsed(c, run);
    more, t := WritesAlone(c, run, s, i);
    more, t := Further(c, more, t, Named(i, Publish));
    assert t.dir == s.dir[Entry(key) := |s.inodes|];
    more, t := Further(c, more, t, Named(i, SyncDir));
    assert t.callers == s.callers[i := Returned(Result(false, true))];
  }

  /** A conditional put of a free key creates it, in the directory and on disk. */
  lemma PutIfAbsentFree(c: Config, run: seq<Step>, s: State, i: nat, key: Key, data: Bytes)
    returns (more: seq<Step>, t: State)
    requires Replay(c, run) == Some(s) && Entry(key) !in s.dir
    requires i < |s.callers| == |c.ops| && c.ops[i] == PutIfAbsent(key, data) && s.callers[i].Start?
    ensures run <= more && Replay(c, more) == Some(t) && t.callers == s.callers[i := Returned(Result(true, true))]
    ensures t.dir == s.dir[Entry(key) := |s.inodes|] && t.inodes == s.inodes + [Inode(data, c.fsync)]
    ensures if c.fsync then Entry(key) in t.disk && t.disk[Entry(key)] == |s.inodes| else t.disk == s.disk
    ensures t.published == s.published + [i]
  {
    RunTempsUsed(c, run);
    more, t := WritesAlone(c, run, s, i);
    more, t := Further(c, more, t, Named(i, Publish));
    more, t := Further(c, more, t, Named(i, SyncDir));
    var kept := t.dir;
    more, t := Further(c, more, t, Named(i, RemoveTemp));
    assert t.dir == kept - {Temp(|s.inodes|)};
    assert t.callers == s.callers[i := Returned(Result(true, true))];
  }

  /** Of a taken key it says that it has not created it, and changes no entry. */
  lemma PutIfAbsentTaken(c: Config, run: seq<Step>, s: State, i: nat, key: Key, data: Bytes)
    returns (more: seq<Step>, t: State)
    requires Replay(c, run) == Some(s) && Entry(key) in s.dir
    requires i < |s.callers| == |c.ops| && c.ops[i] == PutIfAbsent(key, data) && s.callers[i].Start?
    ensures run <= more && Replay(c, more) == Some(t) && t.callers == s.callers[i := Returned(Result(false, true))]
    ensures t.dir == s.dir && t.disk == s.disk && t.published == s.published
    ensures t.inodes == s.inodes + [Inode(data, c.fsync)]
  {
    RunTempsUsed(c, run);
    more, t := WritesAlone(c, run, s, i);
    more, t := Further(c, more, t, Named(i, Publish));
    var kept := t.dir;
    more, t := Further(c, more, t, Named(i, RemoveTemp));
    assert t.dir == kept - {Temp(|s.inodes|)};
    assert t.callers == s.callers[i := Returned(Result(false, true))];
  }

  /** Delete removes the key, and succeeds too if it is not there. */
  lemma DeleteAlone(c: Config, run: seq<Step>, s: State, i: nat, key: Key) returns (more: seq<Step>, t: State)
    requires Replay(c, run) == Some(s)
    requires i < |s.callers| == |c.ops| && c.ops[i] == Delete(key) && s.callers[i].Start?
    ensures run <= more && Replay(c, more) == Some(t) && t.callers == s.callers[i := Returned(Result(false, true))]
    ensures t.dir == s.dir - {Entry(key)} && t.inodes == s.inodes && t.published == s.published
    ensures t.disk == if c.fsync && Entry(key) in s.dir then t.dir else s.disk
  {
    more, t := Further(c, run, s, Named(i, Publish));
    if Entry(key) in s.dir {
      more, t := Further(c, more, t, Named(i, SyncDir));
    }
    assert t.dir == s.dir - {Entry(key)};
    assert t.callers == s.callers[i := Returned(Result(false, true))];
  }

  /** Any call may fail at its first system call, and then changes nothing. */
  lemma MayFail(c: Config, run: seq<Step>, s: State, i: nat) returns (more: seq<Step>, t: State)
    requires Replay(c, run) == Some(s) && i < |s.callers| == |c.ops| && s.callers[i].Start?
    ensures run <= more && Replay(c, more) == Some(t) && t == s.(callers := s.callers[i := Returned(FAILED)])
  {
    more, t := Further(c, run, s, if c.ops[i].Delete? then Named(i, PublishFail) else File(i, CreateFail));
  }

  /** So may every later one: the write, the two syncs where files are synced, the close, and the
      rename or link. */
  lemma EachMayFail(c: Config, s: State, i: nat)
    requires i < |s.callers| == |c.ops|
    ensures var pc, op := s.callers[i], c.ops[i];
      && (pc.Writing? && !op.Delete? ==> CanFile(c, s, i, WriteFail))
      && (pc.Writing? && !op.Delete? && pc.n == |op.data| && c.fsync ==> CanFile(c, s, i, SyncFail))
      && (pc.Written? && !op.Delete? ==> CanFile(c, s, i, CloseFail))
      && (pc.Ready? && !op.Delete? ==> CanName(c, s, i, PublishFail))
      && (pc.Published? && c.fsync ==> CanName(c, s, i, SyncDirFail))
  {
  }

  /** If the removal of its temporary name fails, a call returns what it would have returned. */
  lemma RemovalIgnored(c: Config, run: seq<Step>, s: State, i: nat) returns (more: seq<Step>, t: State)
    requires Replay(c, run) == Some(s) && i < |s.callers| == |c.ops| && s.callers[i].Cleaning?
    ensures run <= more && Replay(c, more) == Some(t)
    ensures t == s.(callers := s.callers[i := Returned(s.callers[i].result)])
  {
    more, t := Further(c, run, s, Named(i, RemoveFail));
  }

  // ---- temporary files ----

  /** The caller still has the temporary name of this inode to rename or remove. */
  predicate HasTemp(op: Op, pc: Caller, k: nat) {
    match pc
    case Writing(ino, _) => ino == k
    case Written(ino) => ino == k
    case Ready(ino) => ino == k
    case Published(ino) => ino == k && op.PutIfAbsent?
    case Cleaning(ino, _) => ino == k
    case _ => false
  }

  ghost predicate TempsHeld(c: Config, s: State) {
    |s.callers| == |c.ops| && forall k: nat :: Temp(k) in s.dir ==> HeldBySome(c, s, k)
  }

  ghost predicate HeldBySome(c: Config, s: State, k: nat) {
    |s.callers| == |c.ops| && exists i :: 0 <= i < |c.ops| && HasTemp(c.ops[i], s.callers[i], k)
  }

  /** No power loss, nobody is killed, and no temporary name fails to be removed. */
  predicate Tidy(e: Step) {
    !e.LosePower? && !e.Kill? && !(e.Named? && e.n == RemoveFail)
  }

  lemma NameKeepsTemp(c: Config, s: State, j: nat, n: NameStep, i: nat, k: nat)
    requires CanName(c, s, j, n) && n != RemoveFail && i < |s.callers| == |c.ops|
    requires HasTemp(c.ops[i], s.callers[i], k) && Temp(k) in DoName(c, s, j, n).dir
    ensures |DoName(c, s, j, n).callers| == |c.ops| && HasTemp(c.ops[i], DoName(c, s, j, n).callers[i], k)
  {
    match n {
      case Publish =>
      case _ =>
    }
  }

  /** A caller keeps a temporary name until the name is gone. */
  lemma KeepsTemp(c: Config, s: State, e: Step, i: nat, k: nat)
    requires Enabled(c, s, e) && Tidy(e) && i < |s.callers| == |c.ops| && HasTemp(c.ops[i], s.callers[i], k)
    requires Temp(k) in Apply(c, s, e).dir
    ensures |Apply(c, s, e).callers| == |c.ops| && HasTemp(c.ops[i], Apply(c, s, e).callers[i], k)
  {
    match e {
      case File(_, f) =>
      case Named(j, n) => NameKeepsTemp(c, s, j, n, i, k);
      case _ =>
    }
  }

  lemma StepTempsHeld(c: Config, s: State, e: Step)
    requires Enabled(c, s, e) && Tidy(e) && TempsHeld(c, s)
    ensures TempsHeld(c, Apply(c, s, e))
  {
    var t := Apply(c, s, e);
    LocalFsDeletion.StepCallers(c, s, e);
    forall k: nat | Temp(k) in t.dir
      ensures HeldBySome(c, t, k)
    {
      if Temp(k) in s.dir {
        var i :| 0 <= i < |c.ops| && HasTemp(c.ops[i], s.callers[i], k);
        KeepsTemp(c, s, e, i, k);
      } else {
        assert e.File? && e.f == CreateTemp && HasTemp(c.ops[e.i], t.callers[e.i], k);
      }
    }
  }

  lemma {:induction false} RunTempsHeld(c: Config, run: seq<Step>)
    requires Replay(c, run).Some? && forall j :: 0 <= j < |run| ==> Tidy(run[j])
    ensures TempsHeld(c, Replay(c, run).value)
  {
    if run != [] {
      RunTempsHeld(c, run[..|run| - 1]);
      StepTempsHeld(c, Replay(c, run[..|run| - 1]).value, run[|run| - 1]);
    }
  }

  /** Whatever else fails: when every call has returned, nobody was killed and the power stayed on,
      no temporary name is left but those whose removal failed. */
  lemma NoLitter(c: Config, run: seq<Step>, k: nat)
    requires Replay(c, run).Some? && forall j :: 0 <= j < |run| ==> Tidy(run[j])
    requires forall i :: 0 <= i < |Replay(c, run).value.callers| ==> Replay(c, run).value.callers[i].Returned?
    ensures Temp(k) !in Replay(c, run).value.dir
  {
    RunTempsHeld(c, run);
    assert !HeldBySome(c, Replay(c, run).value, k);
  }

  // ---- what fsync is for ----

  ghost predicate NothingSynced(inodes: seq<Inode>) {
    forall k :: 0 <= k < |inodes| ==> !inodes[k].synced
  }

  lemma StepNothingSynced(c: Config, s: State, e: Step)
    requires !c.fsync && Enabled(c, s, e) && NothingSynced(s.inodes)
    ensures NothingSynced(Apply(c, s, e).inodes)
  {
    match e {
      case File(_, f) =>
      case Named(_, n) =>
      case _ =>
    }
  }

  lemma {:induction false} RunNothingSynced(c: Config, run: seq<Step>)
    requires !c.fsync && Replay(c, run).Some?
    ensures NothingSynced(Replay(c, run).value.inodes)
  {
    if run != [] {
      RunNothingSynced(c, run[..|run| - 1]);
      StepNothingSynced(c, Replay(c, run[..|run| - 1]).value, run[|run| - 1]);
    }
  }

  /** With fsync off, after any run, a power loss may leave anything at all in every file that was
      ever written, published or not. */
  lemma {:induction false} WithoutSync(c: Config, run: seq<Step>, garbage: nat -> Bytes, k: nat)
    requires !c.fsync && Replay(c, run).Some? && k < |Replay(c, run).value.inodes|
    ensures AfterPowerLoss(Replay(c, run).value, garbage).inodes[k].content == garbage(k)
  {
    RunNothingSynced(c, run);
  }

  /** Without any sync, too, a change to the directory may already have reached the disk: at every
      moment, a power loss may leave any one name as it then is. */
  lemma MayReachDisk(c: Config, run: seq<Step>, name: Name, garbage: nat -> Bytes)
    requires Replay(c, run).Some?
    ensures Replay(c, run + [FlushEntry(name)] + [LosePower(garbage)]).Some?
    ensures var s, t := Replay(c, run).value, Replay(c, run + [FlushEntry(name)] + [LosePower(garbage)]).value;
      (name in t.dir <==> name in s.dir) && (name in t.dir ==> t.dir[name] == s.dir[name])
  {
    var more, t := Further(c, run, Replay(c, run).value, FlushEntry(name));
    more, t := Further(c, more, t, LosePower(garbage));
  }
}
