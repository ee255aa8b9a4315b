/** The local backend at the granularity of system calls: temporary file, write, fsync, close,
    link or rename, directory fsync. Callers interleave freely; each step may fail, any caller
    may be killed between steps, and power may be lost. */
module LocalFs {
  import opened Wrappers
  import opened Blob

  type Key = string

  datatype Op = Put(key: Key, data: Bytes) | PutIfAbsent(key: Key, data: Bytes) | Delete(key: Key)

  /** A directory entry: a temporary name, unique to its inode, or an object's key. */
  datatype Name = Temp(ino: nat) | Entry(key: Key)

  /** `synced`: the content has reached the disk and has not changed since. */
  datatype Inode = Inode(content: Bytes, synced: bool)

  datatype Result = Result(created: bool, ok: bool)

  /** Where a caller stands. `Ready` has a closed, complete temporary file; `Published` has
      changed the directory but not synced it; `Cleaning` has only its temporary name to
      remove before it returns. */
  datatype Caller =
    | Start
    | Writing(ino: nat, n: nat)
    | Written(ino: nat)
    | Ready(ino: nat)
    | Published(ino: nat)
    | Cleaning(ino: nat, result: Result)
    | Returned(result: Result)
    | Gone

  /** `dir` is what processes see, `disk` what would survive a power loss. The directory itself
      is durable. History: whether power was ever lost, and the callers that put a file under
      their key, in this order. */
  datatype State = State(dir: map<Name, nat>, disk: map<Name, nat>, inodes: seq<Inode>, callers: seq<Caller>,
                         powerLost: bool, published: seq<nat>)

  /** `fsync` can be disabled, for tests. */
  datatype Config = Config(ops: seq<Op>, fsync: bool)

  datatype FileStep = CreateTemp | CreateFail | WriteSome(n: nat) | WriteFail
                    | SyncFile | SyncFail | CloseFile | CloseFail

  datatype NameStep = Publish | PublishFail | SyncDir | SyncDirFail | RemoveTemp | RemoveFail

  datatype Step = File(i: nat, f: FileStep) | Named(i: nat, n: NameStep) | Kill(i: nat)
                | FlushEntry(name: Name) | LosePower(garbage: nat -> Bytes)

  function Init(c: Config): State {
    State(map[], map[], [], seq(|c.ops|, _ => Start), false, [])
  }

  const FAILED := Result(false, false)

  // ---- writeTemp ----

  predicate CanFile(c: Config, s: State, i: nat, f: FileStep) {
    && i < |s.callers| && i < |c.ops| && !c.ops[i].Delete?
    && var pc := s.callers[i];
      match f
      case CreateTemp => pc.Start?
      case CreateFail => pc.Start?
      case WriteSome(n) => pc.Writing? && pc.n <= n <= |c.ops[i].data| && pc.ino < |s.inodes|
      case WriteFail => pc.Writing?
      case SyncFile => pc.Writing? && pc.n == |c.ops[i].data| && pc.ino < |s.inodes|
      case SyncFail => pc.Writing? && pc.n == |c.ops[i].data| && c.fsync
      case CloseFile => pc.Written?
      case CloseFail => pc.Written?
  }

  function DoFile(c: Config, s: State, i: nat, f: FileStep): State
    requires CanFile(c, s, i, f)
  {
    var pc := s.callers[i];
    match f
    case CreateTemp =>
      s.(inodes := s.inodes + [Inode([], false)], dir := s.dir[Temp(|s.inodes|) := |s.inodes|],
         callers := s.callers[i := Writing(|s.inodes|, 0)])
    case CreateFail => s.(callers := s.callers[i := Returned(FAILED)])
    case WriteSome(n) =>
      s.(inodes := s.inodes[pc.ino := Inode(c.ops[i].data[..n], false)], callers := s.callers[i := Writing(pc.ino, n)])
    case WriteFail => s.(callers := s.callers[i := Cleaning(pc.ino, FAILED)])
    case SyncFile =>
      s.(inodes := if c.fsync then s.inodes[pc.ino := s.inodes[pc.ino].(synced := true)] else s.inodes,
         callers := s.callers[i := Written(pc.ino)])
    case SyncFail => s.(callers := s.callers[i := Cleaning(pc.ino, FAILED)])
    case CloseFile => s.(callers := s.callers[i := Ready(pc.ino)])
    case CloseFail => s.(callers := s.callers[i := Cleaning(pc.ino, FAILED)])
  }

  // ---- names ----

  predicate CanName(c: Config, s: State, i: nat, n: NameStep) {
    && i < |s.callers| && i < |c.ops|
    && var pc := s.callers[i];
      match n
      case Publish => if c.ops[i].Delete? then pc.Start? else pc.Ready?
      case PublishFail => if c.ops[i].Delete? then pc.Start? else pc.Ready?
      case SyncDir => pc.Published?
      case SyncDirFail => pc.Published? && c.fsync
      case RemoveTemp => pc.Cleaning?
      case RemoveFail => pc.Cleaning?
  }

  /** Rename, link or remove. Linking fails when the key is taken, which is success for the caller;
      so is removing a key that is not there. */
  function DoPublish(c: Config, s: State, i: nat): State
    requires CanName(c, s, i, Publish)
  {
    match c.ops[i]
    case Put(key, _) =>
      var ino := s.callers[i].ino;
      s.(dir := (s.dir - {Temp(ino)})[Entry(key) := ino], callers := s.callers[i := Published(ino)],
         published := s.published + [i])
    case PutIfAbsent(key, _) =>
      var ino := s.callers[i].ino;
      if Entry(key) in s.dir then
        s.(callers := s.callers[i := Cleaning(ino, Result(false, true))])
      else
        s.(dir := s.dir[Entry(key) := ino], callers := s.callers[i := Published(ino)], published := s.published + [i])
    case Delete(key) =>
      if Entry(key) in s.dir then
        s.(dir := s.dir - {Entry(key)}, callers := s.callers[i := Published(0)])
      else
        s.(callers := s.callers[i := Returned(Result(false, true))])
  }

  /** After the directory sync only a linked temporary file is left to remove. */
  function AfterSync(op: Op, ino: nat, ok: bool): Caller {
    if op.PutIfAbsent? then Cleaning(ino, Result(true, ok)) else Returned(Result(false, ok))
  }

  function DoName(c: Config, s: State, i: nat, n: NameStep): State
    requires CanName(c, s, i, n)
  {
    var pc := s.callers[i];
    match n
    case Publish => DoPublish(c, s, i)
    case PublishFail =>
      s.(callers := s.callers[i := if c.ops[i].Delete? then Returned(FAILED) else Cleaning(pc.ino, FAILED)])
    case SyncDir =>
      s.(disk := if c.fsync then s.dir else s.disk, callers := s.callers[i := AfterSync(c.ops[i], pc.ino, true)])
    case SyncDirFail => s.(callers := s.callers[i := AfterSync(c.ops[i], pc.ino, false)])
    case RemoveTemp => s.(dir := s.dir - {Temp(pc.ino)}, callers := s.callers[i := Returned(pc.result)])
    case RemoveFail => s.(callers := s.callers[i := Returned(pc.result)])
  }

  // ---- runs ----

  predicate Enabled(c: Config, s: State, e: Step) {
    match e
    case File(i, f) => CanFile(c, s, i, f)
    case Named(i, n) => CanName(c, s, i, n)
    case Kill(i) => i < |s.callers|
    case FlushEntry(_) => true
    case LosePower(_) => true
  }

  /** Only what has been synced, or flushed by itself, survives; a caller that had returned has
      its result. */
  function AfterPowerLoss(s: State, garbage: nat -> Bytes): State {
    s.(dir := s.disk,
       inodes := seq(|s.inodes|, k requires 0 <= k < |s.inodes| =>
                   if s.inodes[k].synced then s.inodes[k] else Inode(garbage(k), false)),
       callers := seq(|s.callers|, k requires 0 <= k < |s.callers| =>
                    if s.callers[k].Returned? then s.callers[k] else Gone),
       powerLost := true)
  }

  function Apply(c: Config, s: State, e: Step): State
    requires Enabled(c, s, e)
  {
    match e
    case File(i, f) => DoFile(c, s, i, f)
    case Named(i, n) => DoName(c, s, i, n)
    case Kill(i) => if s.callers[i].Returned? then s else s.(callers := s.callers[i := Gone])
    case FlushEntry(name) => s.(disk := if name in s.dir then s.disk[name := s.dir[name]] else s.disk - {name})
    case LosePower(garbage) => AfterPowerLoss(s, garbage)
  }

  function Replay(c: Config, run: seq<Step>): Option<State> {
    if run == [] then
      Some(Init(c))
    else
      var p := Replay(c, run[..|run| - 1]);
      if p.Some? && Enabled(c, p.value, run[|run| - 1]) then Some(Apply(c, p.value, run[|run| - 1])) else None
  }

  ghost predicate NoPowerLoss(run: seq<Step>) {
    forall k :: 0 <= k < |run| ==> !run[k].LosePower?
  }
}
