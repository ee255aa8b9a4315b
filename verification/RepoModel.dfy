/** The repository as a state machine over its store: packs, the saved index and snapshots,
    written by one process at a time, which may be killed between any two store writes. */
module RepoModel {
  import opened Wrappers
  import opened Blob
  import opened PackFormat
  import opened Pack
  import opened IndexFormat

  /** The digest, the header codec and the byte strings in play: every blob and pack that a run
      handles. The digest is assumed free of collisions among these alone. */
  datatype Env = Env(h: Digest, codec: Codec, ghost inPlay: iset<Bytes>) {
    ghost predicate Valid() {
      && RoundTrips(codec)
      && forall a, b :: a in inPlay && b in inPlay && h(a) == h(b) ==> a == b
    }
  }

  datatype FileEntry = FileEntry(path: string, size: nat, chunks: seq<ID>)

  datatype Snapshot = Snapshot(files: seq<FileEntry>)

  function BlobIDs(s: Snapshot): set<ID> {
    set f, id | f in s.files && id in f.chunks :: id
  }

  /** All blobs that snapshots refer to. */
  function References(snaps: set<Snapshot>): set<ID> {
    set s, id | s in snaps && id in BlobIDs(s) :: id
  }

  type Packs = map<ID, Bytes>

  /** The entries of a stored pack, if its header can be read back. */
  function PackEntries(c: Codec, pack: Bytes): Option<seq<Entry>> {
    if |pack| >= TWO_63 then
      None
    else
      match HeaderResult(c, pack)
      case Found(header) => Some(header.entries)
      case _ => None
  }

  function LocationIn(packID: ID, e: Entry): Location {
    Location(packID, e.offset, e.length)
  }

  function InsertEntries(t: Table, packID: ID, es: seq<Entry>): Table {
    if es == [] then
      t
    else
      var n := |es| - 1;
      InsertInto(InsertEntries(t, packID, es[..n]), es[n].id, LocationIn(packID, es[n]))
  }

  /** RebuildIndex, with the packs listed in the given order. */
  function Rebuild(c: Codec, packs: Packs, order: seq<ID>): Option<Table> {
    if order == [] then
      Some(map[])
    else
      var n := |order| - 1;
      var before := Rebuild(c, packs, order[..n]);
      if before.None? || order[n] !in packs || PackEntries(c, packs[order[n]]).None? then
        None
      else
        Some(InsertEntries(before.value, order[n], PackEntries(c, packs[order[n]]).value))
  }

  ghost predicate Lists(packs: Packs, order: seq<ID>) {
    KeySet(order) == packs.Keys && NoRepeats(order)
  }

  /** GetBlob: the bytes at the indexed location, if they are there and hash to the address. */
  function Resolve(h: Digest, packs: Packs, t: Table, id: ID): Option<Bytes> {
    if id !in t || t[id].packID !in packs then
      None
    else
      match Slice(packs[t[id].packID], Entry(id, t[id].offset, t[id].length))
      case None => None
      case Some(data) => if h(data) == id then Some(data) else None
  }

  /** The index names a pack that is present, and a range inside it. */
  predicate InPack(packs: Packs, t: Table, id: ID) {
    && id in t && t[id].packID in packs
    && 0 <= t[id].offset && 0 <= t[id].length && t[id].offset + t[id].length <= |packs[t[id].packID]|
  }

  /** The bytes in that range. */
  function BytesAt(packs: Packs, t: Table, id: ID): Bytes
    requires InPack(packs, t, id)
  {
    packs[t[id].packID][t[id].offset..t[id].offset + t[id].length]
  }

  /** Whatever is stored, rotten bytes included: a blob is returned exactly when the bytes at its
      location hash to its address, and then it is those bytes. */
  lemma ResolveIff(h: Digest, packs: Packs, t: Table, id: ID, data: Bytes)
    ensures Resolve(h, packs, t, id) == Some(data) <==>
      InPack(packs, t, id) && data == BytesAt(packs, t, id) && h(data) == id
  {
  }

  /** Verify without reading blobs: every referenced blob is indexed, in a pack that is present. */
  predicate Intact(packs: Packs, t: Table, refs: set<ID>) {
    forall id :: id in refs ==> id in t && t[id].packID in packs
  }

  /** The packs that hold the indexed copy of some referenced blob. */
  function UsedPacks(t: Table, refs: set<ID>): set<ID> {
    set id | id in refs && id in t :: t[id].packID
  }

  function Orphans(packs: Packs, t: Table, refs: set<ID>): set<ID> {
    packs.Keys - UsedPacks(t, refs)
  }

  // ---- the machine ----

  /** Collecting holds the orphans still to be deleted. */
  datatype Phase = Idle | Uploading | Indexed | Collecting(todo: set<ID>) | Rebuilt

  datatype Proc = Dead | Live(idx: Table, phase: Phase)

  datatype World = World(packs: Packs, index: Option<Bytes>, snaps: set<Snapshot>, proc: Proc)

  /** What Create leaves behind. */
  const CREATED := World(map[], None, {}, Live(map[], Idle))

  function SavedTable(index: Option<Bytes>): Option<Table> {
    if index.Some? then Decode(index.value) else None
  }

  /** The saved index is well formed but names a pack that is gone. */
  predicate Stale(w: World) {
    var t := SavedTable(w.index);
    t.Some? && exists id :: id in t.value && t.value[id].packID !in w.packs
  }

  datatype Step =
    | OpenLoad
    | OpenRebuild(order: seq<ID>)
    | BeginBackup
    | StorePack(items: seq<Item>)
    | InsertEntry(packID: ID, k: nat)
    | AbortBackup
    | SaveIndex(bytes: Bytes)
    | SaveSnapshot(snap: Snapshot)
    | StartGC
    | DeletePack(packID: ID)
    | RebuildAfterGC(order: seq<ID>)
    | SaveAfterGC(bytes: Bytes)
    | SpoilIndex(left: Option<Bytes>)
    | Kill

  /** What PutPack is given by the pipeline: a finished pack of authentic, distinct blobs. */
  ghost predicate Storable(env: Env, items: seq<Item>) {
    && Finishable(env.codec, items) && Authentic(env.h, items) && Distinct(items)
    && PackBytes(env.codec, items) in env.inPlay
    && forall k :: 0 <= k < |items| ==> items[k].data in env.inPlay
  }

  predicate In(w: World, phase: Phase) {
    w.proc.Live? && w.proc.phase == phase
  }

  ghost predicate CanRun(env: Env, w: World, e: Step) {
    match e
    case OpenLoad => w.proc.Dead? && SavedTable(w.index).Some?
    case OpenRebuild(order) =>
      w.proc.Dead? && SavedTable(w.index).None? && Lists(w.packs, order) && Rebuild(env.codec, w.packs, order).Some?
    case BeginBackup => In(w, Idle)
    case StorePack(items) => In(w, Uploading) && Storable(env, items)
    case InsertEntry(packID, k) =>
      In(w, Uploading) && packID in w.packs && PackEntries(env.codec, w.packs[packID]).Some?
      && k < |PackEntries(env.codec, w.packs[packID]).value|
    case AbortBackup => In(w, Uploading) || In(w, Indexed)
    case SaveIndex(bytes) => In(w, Uploading) && IsEncoding(w.proc.idx, bytes)
    case SaveSnapshot(snap) => In(w, Indexed) && BlobIDs(snap) <= w.proc.idx.Keys
    case StartGC => In(w, Idle) && Intact(w.packs, w.proc.idx, References(w.snaps))
    case DeletePack(packID) => w.proc.Live? && w.proc.phase.Collecting? && packID in w.proc.phase.todo
    case RebuildAfterGC(order) =>
      In(w, Collecting({})) && Lists(w.packs, order) && Rebuild(env.codec, w.packs, order).Some?
    case SaveAfterGC(bytes) => In(w, Rebuilt) && IsEncoding(w.proc.idx, bytes)
    case SpoilIndex(left) => SavedTable(left).None?
    case Kill => true
  }

  ghost function Run(env: Env, w: World, e: Step): World
    requires CanRun(env, w, e)
  {
    match e
    case OpenLoad => w.(proc := Live(SavedTable(w.index).value, Idle))
    case OpenRebuild(order) => w.(proc := Live(Rebuild(env.codec, w.packs, order).value, Idle))
    case BeginBackup => w.(proc := w.proc.(phase := Uploading))
    case StorePack(items) =>
      // PutIfAbsent under the pack's own address.
      var bytes := PackBytes(env.codec, items);
      if env.h(bytes) in w.packs then w else w.(packs := w.packs[env.h(bytes) := bytes])
    case InsertEntry(packID, k) =>
      var entry := PackEntries(env.codec, w.packs[packID]).value[k];
      w.(proc := w.proc.(idx := InsertInto(w.proc.idx, entry.id, LocationIn(packID, entry))))
    case AbortBackup => w.(proc := w.proc.(phase := Idle))
    case SaveIndex(bytes) => w.(index := Some(bytes), proc := w.proc.(phase := Indexed))
    case SaveSnapshot(snap) => w.(snaps := w.snaps + {snap}, proc := w.proc.(phase := Idle))
    case StartGC =>
      // With nothing to delete, the index is neither rebuilt nor saved.
      var orphans := Orphans(w.packs, w.proc.idx, References(w.snaps));
      w.(proc := w.proc.(phase := if orphans == {} then Idle else Collecting(orphans)))
    case DeletePack(packID) =>
      w.(packs := w.packs - {packID}, proc := w.proc.(phase := Collecting(w.proc.phase.todo - {packID})))
    case RebuildAfterGC(order) => w.(proc := Live(Rebuild(env.codec, w.packs, order).value, Rebuilt))
    case SaveAfterGC(bytes) => w.(index := Some(bytes), proc := w.proc.(phase := Idle))
    case SpoilIndex(left) => w.(index := left)
    case Kill => w.(proc := Dead)
  }

  /** The world a run leads to, or None if one of its steps cannot be taken. */
  ghost function After(env: Env, w: World, run: seq<Step>): Option<World> {
    if run == [] then
      Some(w)
    else
      var p := After(env, w, run[..|run| - 1]);
      if p.Some? && CanRun(env, p.value, run[|run| - 1]) then Some(Run(env, p.value, run[|run| - 1])) else None
  }

  /** No process dies while the saved index is stale. */
  ghost predicate NoStaleKill(env: Env, w: World, run: seq<Step>) {
    run == [] || (
      && NoStaleKill(env, w, run[..|run| - 1])
      && (run[|run| - 1].Kill? && After(env, w, run[..|run| - 1]).Some? ==>
           !Stale(After(env, w, run[..|run| - 1]).value)))
  }
}
