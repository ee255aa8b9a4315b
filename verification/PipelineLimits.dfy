/** Which sources keep every pack header within the limit: a bound that can be checked before the
    run, the exact condition for one worker, and a source of small files that no run can back up. */
module PipelineLimits {
  import opened Blob
  import opened PackFormat
  import opened Pipeline
  import opened PipelineFiles
  import opened PipelineBounds
  import opened PipelineTheorems
  import opened PipelineArrivals
  import opened PipelineCap
  import opened PipelineSuccess

  // ---- a bound that is enough ----

  /** A pack that some order of arrival could lead to: distinct new chunks of the source, and
      without the last of them below the target. */
  ghost predicate Possible(c: Config, pack: seq<Item>) {
    && pack != [] && Distinct(pack) && Size(pack[..|pack| - 1]) < c.packTarget
    && (forall it :: it in pack ==> it in AllChunks(c.files) && it.id !in c.known)
  }

  ghost predicate PossibleOpen(c: Config, open: seq<Item>, claimed: set<ID>) {
    && Distinct(open) && Size(open) < c.packTarget && IdSet(open) <= claimed
    && (forall it :: it in open ==> it in AllChunks(c.files) && it.id !in c.known)
  }

  lemma OneMorePossible(c: Config, cut: Cut, it: Item)
    requires c.Valid() && PossibleOpen(c, cut.open, cut.claimed) && it in AllChunks(c.files)
    ensures var next := Gather(c, cut, it);
      && PossibleOpen(c, next.open, next.claimed)
      && (next.packs == cut.packs || (next.packs == cut.packs + [cut.open + [it]] && Possible(c, cut.open + [it])))
  {
    IdSetPush(cut.open, it);
    assert (cut.open + [it])[..|cut.open|] == cut.open;
    if it.id !in cut.claimed {
      DistinctPush(cut.open, it);
    }
  }

  lemma {:induction false} CutIsPossible(c: Config, items: seq<Item>)
    requires c.Valid() && forall it :: it in items ==> it in AllChunks(c.files)
    ensures var cut := CutOf(c, items);
      PossibleOpen(c, cut.open, cut.claimed) && forall t :: 0 <= t < |cut.packs| ==> Possible(c, cut.packs[t])
  {
    if items != [] {
      var init, it := items[..|items| - 1], items[|items| - 1];
      CutIsPossible(c, init);
      OneMorePossible(c, CutOf(c, init), it);
    }
  }

  lemma PacksArePossible(c: Config, order: seq<nat>)
    requires c.Valid() && Feasible(c, order)
    ensures forall t :: 0 <= t < |PacksOf(c, order)| ==> Possible(c, PacksOf(c, order)[t])
  {
    ArrivalFrom(c, order);
    CutIsPossible(c, Arrival(c, order));
    var open := CutOf(c, Arrival(c, order)).open;
    if open != [] {
      SizePush(open[..|open| - 1], open[|open| - 1]);
      assert open == open[..|open| - 1] + [open[|open| - 1]];
    }
  }

  /** How many chunks of the first n files are still to be sent. */
  function Left(c: Config, order: seq<nat>, n: nat): nat
    requires n <= |c.files|
  {
    if n == 0 then
      0
    else
      var here := if Unsent(c, order, n - 1) then |c.files[n - 1].items| - Count(order, n - 1) else 0;
      Left(c, order, n - 1) + here
  }

  lemma {:induction false} LeftPush(c: Config, order: seq<nat>, f: nat, n: nat)
    requires n <= |c.files| && Unsent(c, order, f)
    ensures Left(c, order + [f], n) == Left(c, order, n) - if f < n then 1 else 0
  {
    if n > 0 {
      LeftPush(c, order, f, n - 1);
      CountPush(order, f, n - 1);
    }
  }

  lemma {:induction false} FirstUnsent(c: Config, order: seq<nat>, f: nat) returns (g: nat)
    requires Unsent(c, order, f)
    ensures Unsent(c, order, g) && Ahead(c, order, g) == {}
    decreases f
  {
    g := f;
    if Ahead(c, order, f) != {} {
      var e :| e in Ahead(c, order, f);
      g := FirstUnsent(c, order, e);
    }
  }

  /** The sends so far can always be completed, one file after another. */
  lemma {:induction false} Completed(c: Config, order: seq<nat>) returns (whole: seq<nat>)
    requires c.Valid() && Feasible(c, order)
    ensures order <= whole && Feasible(c, whole) && SentAll(c, whole)
    decreases Left(c, order, |c.files|)
  {
    whole := order;
    if f: nat :| f < |c.files| && Unsent(c, order, f) {
      var g := FirstUnsent(c, order, f);
      FeasiblePush(c, order, g);
      LeftPush(c, order, g, |c.files|);
      whole := Completed(c, order + [g]);
    }
  }

  /** Finish accepts every pack that could come about. */
  ghost predicate AnyPackFits(c: Config) {
    forall pack :: Possible(c, pack) ==> c.fits(pack)
  }

  /** A backup of a healthy source, any possible pack of which is within the header limit, can
      always still succeed: any run in which nothing has failed so far extends to one that
      BackupFiles reports as a success. */
  lemma CanSucceed(c: Config, run: seq<Step>) returns (whole: seq<Step>)
    requires c.Valid() && Uncapped(c) && Healthy(c) && AnyPackFits(c)
    requires Replay(c, run).Some? && Replay(c, run).value.log.doom == Sound
    ensures Succeeds(c, run, whole)
  {
    RunOrder(c, run);
    var order := Completed(c, Replay(c, run).value.log.origin);
    PacksArePossible(c, order);
    assert Leads(c, Replay(c, run).value.log.origin, order);
    CanSucceedIff(c, run);
    whole :| Succeeds(c, run, whole);
  }

  lemma PossibleSize(c: Config, maxChunk: nat, pack: seq<Item>)
    requires Small(c, maxChunk) && Possible(c, pack)
    ensures Size(pack) <= c.packTarget - 1 + maxChunk
    ensures |pack| <= |IdSet(AllChunks(c.files)) - c.known|
  {
    var n := |pack| - 1;
    assert pack == pack[..n] + [pack[n]];
    SizePush(pack[..n], pack[n]);
    assert pack[n] in AllChunks(c.files);
    ChunkIsSmall(c.files, maxChunk, pack[n]);
    DistinctCount(pack);
    assert forall id :: id in IdSet(pack) ==> id in IdSet(AllChunks(c.files)) - c.known;
    SubsetSize(IdSet(pack), IdSet(AllChunks(c.files)) - c.known);
  }

  lemma {:induction false} ChunkIsSmall(files: seq<Stream>, maxChunk: nat, it: Item)
    requires forall f :: 0 <= f < |files| ==> SmallChunks(files[f].items, maxChunk)
    requires it in AllChunks(files)
    ensures |it.data| <= maxChunk
  {
    if it !in files[|files| - 1].items {
      ChunkIsSmall(files[..|files| - 1], maxChunk, it);
    }
  }

  lemma {:induction false} SubsetSize(a: set<ID>, b: set<ID>)
    requires a <= b
    ensures |a| <= |b|
  {
    if a != {} {
      var x :| x in a;
      SubsetSize(a - {x}, b - {x});
    }
  }

  /** Finish judges packs by this codec. */
  ghost predicate UsesCodec(c: Config, codec: Codec) {
    forall pack :: c.fits(pack) <==> Finishable(codec, pack)
  }

  ghost predicate HeadersWithin(codec: Codec, base: nat, perEntry: nat) {
    forall h: Header :: |codec.encode(h)| <= base + perEntry * |h.entries|
  }

  lemma {:induction false} HeaderWithin(codec: Codec, base: nat, perEntry: nat, pack: seq<Item>, limit: nat)
    requires HeadersWithin(codec, base, perEntry) && base + perEntry * limit <= MAX_HEADER_SIZE
    requires pack != [] && |pack| <= limit && Size(pack) + MAX_HEADER_SIZE + TRAILER_SIZE < TWO_63
    ensures Finishable(codec, pack)
  {
    assert |codec.encode(HeaderOf(pack))| <= base + perEntry * |HeaderOf(pack).entries|;
    assert perEntry * |pack| <= perEntry * limit;
  }

  /** It is enough that a single header has room for all new chunks of the source. */
  lemma FewNewChunks(c: Config, codec: Codec, maxChunk: nat, base: nat, perEntry: nat)
    requires UsesCodec(c, codec) && HeadersWithin(codec, base, perEntry) && Small(c, maxChunk)
    requires base + perEntry * |IdSet(AllChunks(c.files)) - c.known| <= MAX_HEADER_SIZE
    requires c.packTarget + maxChunk + MAX_HEADER_SIZE + TRAILER_SIZE < TWO_63
    ensures AnyPackFits(c)
  {
    forall pack | Possible(c, pack)
      ensures c.fits(pack)
    {
      PossibleSize(c, maxChunk, pack);
      HeaderWithin(codec, base, perEntry, pack, |IdSet(AllChunks(c.files)) - c.known|);
    }
  }

  // ---- one worker ----

  /** Walk order: the chunks of the first n files, file by file, and k chunks of the next. */
  function WalkOrder(c: Config, n: nat, k: nat): seq<nat>
    requires n <= |c.files|
    decreases n, k
  {
    if k > 0 then WalkOrder(c, n, k - 1) + [n]
    else if n > 0 then WalkOrder(c, n - 1, |c.files[n - 1].items|)
    else []
  }

  /** The first n files, and k chunks of the next. */
  ghost predicate Reaches(c: Config, n: nat, k: nat) {
    n <= |c.files| && k <= if n < |c.files| then |c.files[n].items| else 0
  }

  lemma {:induction false} WalkCounts(c: Config, n: nat, k: nat, f: nat)
    requires Reaches(c, n, k)
    ensures Count(WalkOrder(c, n, k), f) == if f < n then |c.files[f].items| else if f == n then k else 0
    decreases n, k
  {
    if k > 0 {
      WalkCounts(c, n, k - 1, f);
      CountPush(WalkOrder(c, n, k - 1), n, f);
    } else if n > 0 {
      WalkCounts(c, n - 1, |c.files[n - 1].items|, f);
    }
  }

  lemma WalkSends(c: Config, n: nat, k: nat)
    requires c.Valid() && Reaches(c, n, k + 1)
    ensures Unsent(c, WalkOrder(c, n, k), n) && Count(WalkOrder(c, n, k), n) == k
    ensures MaySend(c, WalkOrder(c, n, k), n)
  {
    WalkCounts(c, n, k, n);
    forall f: nat | f < n
      ensures !Unsent(c, WalkOrder(c, n, k), f)
    {
      WalkCounts(c, n, k, f);
    }
    assert Ahead(c, WalkOrder(c, n, k), n) == {};
  }

  /** The chunks of the first n files and k chunks of the next, in walk order. */
  function Walked(c: Config, n: nat, k: nat): seq<Item>
    requires Reaches(c, n, k)
  {
    AllChunks(c.files[..n]) + if k == 0 then [] else c.files[n].items[..k]
  }

  lemma WalkedMore(c: Config, n: nat, k: nat)
    requires Reaches(c, n, k + 1)
    ensures Walked(c, n, k + 1) == Walked(c, n, k) + [c.files[n].items[k]]
  {
    assert c.files[n].items[..k + 1] == c.files[n].items[..k] + [c.files[n].items[k]];
  }

  lemma WalkedOn(c: Config, n: nat)
    requires n < |c.files|
    ensures Walked(c, n + 1, 0) == Walked(c, n, |c.files[n].items|)
  {
    assert c.files[..n + 1][..n] == c.files[..n];
    assert c.files[n].items[..|c.files[n].items|] == c.files[n].items;
  }

  lemma {:induction false} WalkArrives(c: Config, n: nat, k: nat)
    requires c.Valid() && Reaches(c, n, k)
    ensures Feasible(c, WalkOrder(c, n, k)) && Arrival(c, WalkOrder(c, n, k)) == Walked(c, n, k)
    decreases n, k
  {
    if k > 0 {
      WalkArrives(c, n, k - 1);
      WalkSends(c, n, k - 1);
      FeasiblePush(c, WalkOrder(c, n, k - 1), n);
      WalkedMore(c, n, k - 1);
    } else if n > 0 {
      WalkArrives(c, n - 1, |c.files[n - 1].items|);
      WalkedOn(c, n - 1);
    }
  }

  lemma WholeWalk(c: Config) returns (order: seq<nat>)
    requires c.Valid()
    ensures Feasible(c, order) && SentAll(c, order) && Arrival(c, order) == AllChunks(c.files)
  {
    var n := |c.files|;
    order := WalkOrder(c, n, 0);
    WalkArrives(c, n, 0);
    assert c.files[..n] == c.files && AllChunks(c.files) + [] == AllChunks(c.files);
    forall f: nat | f < n
      ensures !Unsent(c, order, f)
    {
      WalkCounts(c, n, 0, f);
    }
  }

  /** The packs that the source is gathered into when its files are read one after another. */
  function WalkPacks(c: Config): seq<seq<Item>> {
    AllPacks(CutOf(c, AllChunks(c.files)))
  }

  lemma OneNext(c: Config, order: seq<nat>, f: nat, g: nat)
    requires c.chunkWorkers == 1 && MaySend(c, order, f) && MaySend(c, order, g)
    ensures f == g
  {
    assert f < g ==> f in Ahead(c, order, g);
    assert g < f ==> g in Ahead(c, order, f);
  }

  /** One worker can only follow one order. */
  lemma {:induction false} OneOrder(c: Config, a: seq<nat>, b: seq<nat>)
    requires c.chunkWorkers == 1 && Feasible(c, a) && Feasible(c, b) && SentAll(c, b)
    ensures a <= b
  {
    if a != [] {
      var n := |a| - 1;
      var init, f := a[..n], a[n];
      OneOrder(c, init, b);
      assert b[..n] == init && (n == |b| ==> b == init);
      if n < |b| {
        SendsAt(c, b, n);
        OneNext(c, init, f, b[n]);
      }
    }
  }

  /** A backup can succeed if Finish accepts the packs of the walk order; and with one chunk
      worker it can succeed only then. */
  lemma WalkOrderDecides(c: Config)
    requires c.Valid()
    ensures Healthy(c) && Uncapped(c) && AllFit(c, WalkPacks(c)) ==> exists run :: Succeeds(c, [], run)
    ensures c.chunkWorkers == 1 ==>
      ((exists run :: Succeeds(c, [], run)) <==> Healthy(c) && Uncapped(c) && AllFit(c, WalkPacks(c)))
  {
    var order := WholeWalk(c);
    CanSucceedIff(c, []);
    assert AllFit(c, WalkPacks(c)) ==> Leads(c, [], order);
    if other :| c.chunkWorkers == 1 && Leads(c, [], other) {
      OneOrder(c, order, other);
      OneOrder(c, other, order);
      assert order == other;
    }
  }

  // ---- many small files ----

  lemma {:induction false} CutBelowTarget(c: Config, items: seq<Item>)
    requires Size(items) < c.packTarget
    ensures CutOf(c, items).packs == [] && Size(CutOf(c, items).open) <= Size(items)
  {
    if items != [] {
      var init, it := items[..|items| - 1], items[|items| - 1];
      CutBelowTarget(c, init);
      SizePush(CutOf(c, init).open, it);
    }
  }

  /** When all chunks together stay below the pack target, a successful run makes one pack of
      all that is new. */
  lemma OnePack(c: Config, run: seq<Step>)
    requires c.Valid() && Replay(c, run).Some? && Passes(Replay(c, run).value)
    requires Size(AllChunks(c.files)) < c.packTarget && IdSet(AllChunks(c.files)) - c.known != {}
    ensures var made := Replay(c, run).value.log.made;
      |made| == 1 && |made[0]| == |IdSet(AllChunks(c.files)) - c.known| && c.fits(made[0])
  {
    var s := Replay(c, run).value;
    PassingOrder(c, run);
    Complete(c, run);
    DedupExact(c, run);
    RunOrder(c, run);
    PassingFiles(c, s) by { RunInv(c, run); }
    SizeOfPermutation(s.log.handled, AllChunks(c.files));
    CutBelowTarget(c, s.log.handled);
    DistinctCount(Concat(s.log.taken));
    OneConcat(s.log.made);
  }

  /** If Finish refuses packs of that many blobs, no run of such a backup succeeds. */
  lemma OnePackTooMany(c: Config, n: nat, run: seq<Step>)
    requires c.Valid() && Size(AllChunks(c.files)) < c.packTarget
    requires n > 0 && |IdSet(AllChunks(c.files)) - c.known| >= n && forall pack :: |pack| >= n ==> !c.fits(pack)
    ensures !Succeeds(c, [], run)
  {
    if Succeeds(c, [], run) {
      OnePack(c, run);
    }
  }

  lemma OneConcat(made: seq<seq<Item>>)
    requires |made| <= 1
    ensures Concat(made) == if made == [] then [] else made[0]
  {
    if made != [] {
      assert made[..0] == [];
    }
  }

  const DEFAULT_PACK_TARGET := 0x100_0000
  const SMALL_FILES := 700_000
  const SMALL_FILE := 20

  /** The content of small file number f: no two files have the same. */
  function SmallContent(f: nat): (b: Bytes)
    ensures |b| == SMALL_FILE
    ensures f < 0x100_0000 ==> b[0] as int + 256 * (b[1] as int) + 65536 * (b[2] as int) == f
  {
    [f % 256, f / 256 % 256, f / 65536 % 256] + seq(SMALL_FILE - 3, _ => 1)
  }

  /** A digest that tells them apart. */
  function PadDigest(b: Bytes): ID {
    if |b| == SMALL_FILE then b + seq(ID_SIZE - SMALL_FILE, _ => 1) else seq(ID_SIZE, _ => 2)
  }

  function SmallFile(f: nat): Stream {
    Stream([Item(PadDigest(SmallContent(f)), SmallContent(f))], true)
  }

  function SmallFiles(n: nat): (files: seq<Stream>)
    ensures |files| == n && forall f :: 0 <= f < n ==> files[f] == SmallFile(f)
  {
    seq(n, f requires 0 <= f < n => SmallFile(f))
  }

  lemma {:induction false} SmallChunksOf(n: nat)
    requires n <= SMALL_FILES
    ensures var items := AllChunks(SmallFiles(n));
      && |items| == n && Size(items) == n * SMALL_FILE
      && forall f :: 0 <= f < n ==> items[f] == SmallFile(f).items[0]
  {
    if n > 0 {
      SmallChunksOf(n - 1);
      assert SmallFiles(n)[..n - 1] == SmallFiles(n - 1);
      assert AllChunks(SmallFiles(n)) == AllChunks(SmallFiles(n - 1)) + [SmallFile(n - 1).items[0]];
      SizePush(AllChunks(SmallFiles(n - 1)), SmallFile(n - 1).items[0]);
    }
  }

  lemma {:induction false} RecordsSize(es: seq<Entry>)
    ensures |EncodeEntries(es)| == ENTRY_RECORD * |es|
  {
    if es != [] {
      RecordsSize(es[1..]);
    }
  }

  /** Fixed-size records take 8 bytes and 48 for each entry, so 699,050 entries fit. */
  lemma RecordsHeaders()
    ensures HeadersWithin(RECORDS, 8, ENTRY_RECORD) && RoomPerEntry(RECORDS)
    ensures 8 + ENTRY_RECORD * 699_050 <= MAX_HEADER_SIZE < 8 + ENTRY_RECORD * 699_051
  {
    forall h: Header
      ensures |RECORDS.encode(h)| == 8 + ENTRY_RECORD * |h.entries|
    {
      RecordsSize(h.entries);
    }
  }

  /** A header has at least 48 bytes for each entry: its ID, offset and length. */
  ghost predicate RoomPerEntry(codec: Codec) {
    forall h: Header :: |codec.encode(h)| >= ENTRY_RECORD * |h.entries|
  }

  /** A first backup of 700,000 files of 20 bytes each, with the default pack target. */
  function SmallFilesBackup(codec: Codec, chunkWorkers: nat, uploadWorkers: nat): Config {
    Config(SmallFiles(SMALL_FILES), chunkWorkers, uploadWorkers, DEFAULT_PACK_TARGET, 0, false, {},
           pack => Finishable(codec, pack))
  }

  lemma {:induction false} HeaderTooLarge(codec: Codec, pack: seq<Item>)
    requires RoomPerEntry(codec) && |pack| >= SMALL_FILES
    ensures !Finishable(codec, pack)
  {
    if Size(pack) < TWO_63 {
      assert |codec.encode(HeaderOf(pack))| >= ENTRY_RECORD * |HeaderOf(pack).entries|;
    }
  }

  lemma SmallChunksDiffer()
    ensures Distinct(AllChunks(SmallFiles(SMALL_FILES)))
    ensures forall it :: it in AllChunks(SmallFiles(SMALL_FILES)) ==> it.id == PadDigest(it.data) && !IsZero(it.id)
  {
    SmallChunksOf(SMALL_FILES);
    var items := AllChunks(SmallFiles(SMALL_FILES));
    forall it | it in items
      ensures it.id == PadDigest(it.data) && !IsZero(it.id)
    {
      assert it.id[ID_SIZE - 1] == 1;
    }
    forall i, j | 0 <= i < j < |items|
      ensures items[i].id != items[j].id
    {
      assert SmallContent(i) == items[i].id[..SMALL_FILE] && SmallContent(j) == items[j].id[..SMALL_FILE];
    }
  }

  lemma SmallFilesHealthy(c: Config)
    requires c.files == SmallFiles(SMALL_FILES)
    ensures Healthy(c)
  {
    SmallChunksDiffer();
  }

  lemma SmallFilesFill()
    ensures Size(AllChunks(SmallFiles(SMALL_FILES))) < DEFAULT_PACK_TARGET
    ensures |IdSet(AllChunks(SmallFiles(SMALL_FILES)))| == SMALL_FILES
  {
    SmallChunksOf(SMALL_FILES);
    SmallChunksDiffer();
    DistinctCount(AllChunks(SmallFiles(SMALL_FILES)));
  }

  /** All its files can be read and no chunk is refused, and yet no run of it succeeds, for any
      number of workers and any schedule: its 14 MB stay below the target, so all goes into one
      pack, whose header is over the limit. */
  lemma {:induction false} ManySmallFiles(codec: Codec, chunkWorkers: nat, uploadWorkers: nat, run: seq<Step>)
    requires chunkWorkers >= 1 && uploadWorkers >= 1 && RoomPerEntry(codec)
    ensures Healthy(SmallFilesBackup(codec, chunkWorkers, uploadWorkers))
    ensures !Succeeds(SmallFilesBackup(codec, chunkWorkers, uploadWorkers), [], run)
  {
    var c := SmallFilesBackup(codec, chunkWorkers, uploadWorkers);
    SmallFilesHealthy(c);
    SmallFilesFill();
    assert IdSet(AllChunks(c.files)) - c.known == IdSet(AllChunks(c.files));
    forall pack: seq<Item> | |pack| >= SMALL_FILES
      ensures !c.fits(pack)
    {
      HeaderTooLarge(codec, pack);
    }
    OnePackTooMany(c, SMALL_FILES, run);
  }
}
