/** Restore: the concatenation of a file's blobs, or nothing at all. */
module Restore {
  import opened Wrappers
  import opened Blob
  import opened RepoModel
  import opened IndexFormat
  import opened Repository

  /** The bytes a chunk list stands for, if every chunk resolves. */
  function Contents(h: Digest, packs: Packs, t: Table, chunks: seq<ID>): Option<Bytes> {
    if chunks == [] then
      Some([])
    else
      var n := |chunks| - 1;
      var init := Contents(h, packs, t, chunks[..n]);
      var last := Resolve(h, packs, t, chunks[n]);
      if init.Some? && last.Some? then Some(init.value + last.value) else None
  }

  lemma {:induction false} Unresolved(h: Digest, packs: Packs, t: Table, chunks: seq<ID>, n: nat)
    requires n <= |chunks| && Contents(h, packs, t, chunks[..n]).None?
    ensures Contents(h, packs, t, chunks).None?
    decreases |chunks|
  {
    if n < |chunks| {
      assert chunks[..|chunks| - 1][..n] == chunks[..n];
      Unresolved(h, packs, t, chunks[..|chunks| - 1], n);
    } else {
      assert chunks[..n] == chunks;
    }
  }

  lemma {:induction false} OneMoreChunk(h: Digest, packs: Packs, t: Table, chunks: seq<ID>, i: nat, sofar: Bytes)
    requires i < |chunks| && Contents(h, packs, t, chunks[..i]) == Some(sofar)
    ensures var data := Resolve(h, packs, t, chunks[i]);
      && (data.Some? ==> Contents(h, packs, t, chunks[..i + 1]) == Some(sofar + data.value))
      && (data.None? ==> Contents(h, packs, t, chunks).None?)
  {
    assert chunks[..i + 1][..i] == chunks[..i];
    if Resolve(h, packs, t, chunks[i]).None? {
      Unresolved(h, packs, t, chunks, i + 1);
    }
  }

  /** What restoring this entry should produce: the bytes of its chunks, if they all resolve and
      add up to the size in the manifest. */
  function Wanted(h: Digest, packs: Packs, t: Table, f: FileEntry): Option<Bytes> {
    var c := Contents(h, packs, t, f.chunks);
    if c.Some? && |c.value| == f.size then c else None
  }

  /** These are the bytes stored for the chunks, each of which hashes to its address. */
  ghost predicate Parts(h: Digest, packs: Packs, t: Table, chunks: seq<ID>, parts: seq<Bytes>) {
    && |parts| == |chunks|
    && forall k :: 0 <= k < |chunks| ==>
         InPack(packs, t, chunks[k]) && parts[k] == BytesAt(packs, t, chunks[k]) && h(parts[k]) == chunks[k]
  }

  lemma {:induction false} PartsFound(h: Digest, packs: Packs, t: Table, chunks: seq<ID>) returns (parts: seq<Bytes>)
    requires Contents(h, packs, t, chunks).Some?
    ensures Parts(h, packs, t, chunks, parts) && Contents(h, packs, t, chunks) == Some(Concat(parts))
  {
    if chunks == [] {
      parts := [];
    } else {
      var n := |chunks| - 1;
      var front := PartsFound(h, packs, t, chunks[..n]);
      var last := Resolve(h, packs, t, chunks[n]).value;
      ResolveIff(h, packs, t, chunks[n], last);
      ConcatPush(front, last);
      parts := front + [last];
    }
  }

  lemma {:induction false} PartsSuffice(h: Digest, packs: Packs, t: Table, chunks: seq<ID>, parts: seq<Bytes>)
    requires Parts(h, packs, t, chunks, parts)
    ensures Contents(h, packs, t, chunks) == Some(Concat(parts))
  {
    if chunks != [] {
      var n := |chunks| - 1;
      PartsSuffice(h, packs, t, chunks[..n], parts[..n]);
      ResolveIff(h, packs, t, chunks[n], parts[n]);
    }
  }

  /** What a restore can produce from any store, damaged ones included: the bytes at the indexed
      locations, when each chunk's bytes hash to its address and all together have the size that
      the manifest gives. */
  lemma WantedIff(h: Digest, packs: Packs, t: Table, f: FileEntry, b: Bytes)
    ensures Wanted(h, packs, t, f) == Some(b) <==>
      |b| == f.size && exists parts: seq<Bytes> :: Parts(h, packs, t, f.chunks, parts) && b == Concat(parts)
  {
    if Contents(h, packs, t, f.chunks).Some? {
      var parts := PartsFound(h, packs, t, f.chunks);
    }
    if parts: seq<Bytes> :| Parts(h, packs, t, f.chunks, parts) && b == Concat(parts) {
      PartsSuffice(h, packs, t, f.chunks, parts);
    }
  }

  /** The directory restored into. */
  class Target {
    var files: map<string, Bytes>

    constructor ()
      ensures files == map[]
    {
      files := map[];
    }
  }

  /** What may go wrong while a file is written: opening it, the context ending before a chunk, a
      chunk being written only in part, closing, and removing what was written. */
  datatype Faults = Faults(openFails: bool, doneAt: Option<nat>, writeFailsAt: Option<nat>, partial: nat,
                           closeFails: bool, removeFails: bool)
  {
    predicate StopsAt(i: nat) {
      doneAt == Some(i) || writeFailsAt == Some(i)
    }

    /** A file of n chunks is written without any of this. */
    ghost predicate Spares(n: nat) {
      !openFails && !closeFails && forall i :: 0 <= i < n ==> !StopsAt(i)
    }
  }

  datatype Outcome =
    | Restored(written: nat)
    | AlreadyExists
    | OpenFailed
    | Stopped
    | BlobFailed
    | CloseFailed
    | WrongSize

  /** Nothing but the file at `path` has changed. */
  ghost predicate OnlyPath(path: string, before: map<string, Bytes>, now: map<string, Bytes>) {
    now - {path} == before - {path}
  }

  lemma OnlyThatPath(path: string, before: map<string, Bytes>, content: Bytes)
    ensures OnlyPath(path, before, before[path := content])
    ensures OnlyPath(path, before, before[path := content] - {path})
  {
  }

  /** Writes one file. An existing file is replaced only on request, and is lost if the restore
      then fails. A restore that fails leaves no file, as far as it can be removed; but an error
      from Close leaves the whole file behind. */
  method RestoreOneFile(r: Repository, dst: Target, f: FileEntry, overwrite: bool, faults: Faults) returns (o: Outcome)
    requires r.Valid()
    modifies dst
    ensures o.AlreadyExists? <==> f.path in old(dst.files) && !overwrite
    ensures o.OpenFailed? <==> !o.AlreadyExists? && faults.openFails
    ensures o.AlreadyExists? || o.OpenFailed? ==> dst.files == old(dst.files)
    ensures OnlyPath(f.path, old(dst.files), dst.files)
    ensures o.Restored? <==>
      !o.AlreadyExists? && faults.Spares(|f.chunks|) && Wanted(r.h, r.store.packs, r.Known(), f).Some?
    ensures o.Restored? ==>
      && dst.files == old(dst.files)[f.path := Wanted(r.h, r.store.packs, r.Known(), f).value]
      && o.written == f.size
    ensures o.CloseFailed? ==>
      && faults.closeFails && Contents(r.h, r.store.packs, r.Known(), f.chunks).Some?
      && dst.files == old(dst.files)[f.path := Contents(r.h, r.store.packs, r.Known(), f.chunks).value]
    ensures o.Stopped? || o.BlobFailed? || o.WrongSize? ==> (f.path in dst.files <==> faults.removeFails)
    ensures (o.Stopped? || o.BlobFailed?) && faults.removeFails ==>
      Begun(r.h, r.store.packs, r.Known(), f.chunks, dst.files[f.path])
    ensures o.WrongSize? ==> Contents(r.h, r.store.packs, r.Known(), f.chunks).Some?
    ensures o.BlobFailed? ==> Contents(r.h, r.store.packs, r.Known(), f.chunks).None?
  {
    if f.path in dst.files && !overwrite {
      return AlreadyExists;
    }
    if faults.openFails {
      return OpenFailed;
    }
    dst.files := dst.files[f.path := []];
    var stop, written := WriteChunks(r, dst, f, faults);
    if stop.Some? {
      return stop.value;
    }
    if faults.closeFails {
      return CloseFailed;
    }
    if written != f.size {
      Remove(dst, f.path, faults);
      return WrongSize;
    }
    return Restored(written);
  }

  /** The first i chunks have been written, and nothing has gone wrong. */
  ghost predicate WrittenTo(h: Digest, packs: Packs, t: Table, chunks: seq<ID>, faults: Faults, i: nat, sofar: Bytes) {
    && i <= |chunks| && Contents(h, packs, t, chunks[..i]) == Some(sofar)
    && forall k :: 0 <= k < i ==> !faults.StopsAt(k)
  }

  lemma ChunkStep(h: Digest, packs: Packs, t: Table, chunks: seq<ID>, faults: Faults, i: nat, sofar: Bytes)
    requires WrittenTo(h, packs, t, chunks, faults, i, sofar) && i < |chunks|
    ensures var data := Resolve(h, packs, t, chunks[i]);
      && (data.None? ==> Contents(h, packs, t, chunks).None?)
      && (data.Some? && !faults.StopsAt(i) ==>
           WrittenTo(h, packs, t, chunks, faults, i + 1, sofar + data.value))
  {
    OneMoreChunk(h, packs, t, chunks, i, sofar);
  }

  /** The loop over the chunks of an open, empty file. */
  method WriteChunks(r: Repository, dst: Target, f: FileEntry, faults: Faults)
      returns (stop: Option<Outcome>, written: nat)
    requires r.Valid() && f.path in dst.files && dst.files[f.path] == []
    modifies dst
    ensures OnlyPath(f.path, old(dst.files), dst.files)
    ensures stop.None? <==>
      && Contents(r.h, r.store.packs, r.Known(), f.chunks).Some?
      && forall i :: 0 <= i < |f.chunks| ==> !faults.StopsAt(i)
    ensures stop.None? ==>
      var whole := Contents(r.h, r.store.packs, r.Known(), f.chunks).value;
      dst.files == old(dst.files)[f.path := whole] && written == |whole|
    ensures stop.Some? ==> stop.value.Stopped? || stop.value.BlobFailed?
    ensures stop == Some(BlobFailed) ==> Contents(r.h, r.store.packs, r.Known(), f.chunks).None?
    ensures stop.Some? ==> (f.path in dst.files <==> faults.removeFails)
    ensures stop.Some? && faults.removeFails ==>
      Begun(r.h, r.store.packs, r.Known(), f.chunks, dst.files[f.path])
  {
    written := 0;
    ghost var sofar: Bytes, packs, t := [], r.store.packs, r.Known();
    for i := 0 to |f.chunks|
      invariant dst.files == old(dst.files)[f.path := sofar] && written == |sofar|
      invariant WrittenTo(r.h, packs, t, f.chunks, faults, i, sofar)
    {
      ChunkStep(r.h, packs, t, f.chunks, faults, i, sofar);
      var n;
      stop, n := WriteChunk(r, dst, f.path, f.chunks[i], i, faults);
      if stop.Some? {
        assert faults.removeFails ==> BegunAt(r.h, packs, t, f.chunks, dst.files[f.path], i);
        return;
      }
      sofar := dst.files[f.path];
      written := written + n;
    }
    assert f.chunks[..|f.chunks|] == f.chunks;
    OnlyThatPath(f.path, old(dst.files), sofar);
    return None, written;
  }

  /** What a chunk that was not restored leaves behind: the part of it that a failing write wrote. */
  function Part(faults: Faults, i: nat, data: Option<Bytes>): Bytes {
    if data.None? || faults.doneAt == Some(i) || faults.writeFailsAt != Some(i) then []
    else if faults.partial < |data.value| then data.value[..faults.partial]
    else data.value
  }

  /** Some of the chunks, and perhaps a part of the next. */
  ghost predicate Begun(h: Digest, packs: Packs, t: Table, chunks: seq<ID>, b: Bytes) {
    exists k :: 0 <= k < |chunks| && BegunAt(h, packs, t, chunks, b, k)
  }

  ghost predicate BegunAt(h: Digest, packs: Packs, t: Table, chunks: seq<ID>, b: Bytes, k: nat)
    requires k < |chunks|
  {
    var sofar, next := Contents(h, packs, t, chunks[..k]), Resolve(h, packs, t, chunks[k]);
    && sofar.Some? && sofar.value <= b
    && (b == sofar.value || (next.Some? && b <= sofar.value + next.value))
  }

  /** Fetches chunk number i and appends it to the file. */
  method WriteChunk(r: Repository, dst: Target, path: string, id: ID, i: nat, faults: Faults)
      returns (stop: Option<Outcome>, n: nat)
    requires r.Valid() && path in dst.files
    modifies dst
    ensures stop.None? <==> !faults.StopsAt(i) && Resolve(r.h, r.store.packs, r.Known(), id).Some?
    ensures stop.None? ==>
      var data := Resolve(r.h, r.store.packs, r.Known(), id).value;
      dst.files == old(dst.files)[path := old(dst.files)[path] + data] && n == |data|
    ensures stop.Some? ==> stop.value.Stopped? || stop.value.BlobFailed?
    ensures stop == Some(BlobFailed) ==> Resolve(r.h, r.store.packs, r.Known(), id).None?
    ensures stop == Some(Stopped) ==> faults.StopsAt(i)
    ensures stop.Some? && path in dst.files ==>
      dst.files[path] == old(dst.files)[path] + Part(faults, i, Resolve(r.h, r.store.packs, r.Known(), id))
    ensures stop.Some? ==> n == |Part(faults, i, Resolve(r.h, r.store.packs, r.Known(), id))|
    ensures stop.Some? ==> OnlyPath(path, old(dst.files), dst.files) && (path in dst.files <==> faults.removeFails)
  {
    n := 0;
    if faults.doneAt == Some(i) {
      Remove(dst, path, faults);
      return Some(Stopped), n;
    }
    var data := r.GetBlob(id);
    if data.None? {
      Remove(dst, path, faults);
      return Some(BlobFailed), n;
    }
    if faults.writeFailsAt == Some(i) {
      n := if faults.partial < |data.value| then faults.partial else |data.value|;
      dst.files := dst.files[path := dst.files[path] + data.value[..n]];
      Remove(dst, path, faults);
      return Some(Stopped), n;
    }
    dst.files := dst.files[path := dst.files[path] + data.value];
    return None, |data.value|;
  }

  /** Removal is best effort. */
  method Remove(dst: Target, path: string, faults: Faults)
    requires path in dst.files
    modifies dst
    ensures dst.files == if faults.removeFails then old(dst.files) else old(dst.files) - {path}
  {
    if !faults.removeFails {
      dst.files := dst.files - {path};
    }
  }

  /** The target after restoring these files in order, if all of them can be restored. */
  function AfterFiles(h: Digest, packs: Packs, t: Table, files: seq<FileEntry>, overwrite: bool,
                      before: map<string, Bytes>): Option<map<string, Bytes>> {
    if files == [] then
      Some(before)
    else
      var f := files[|files| - 1];
      var prev := AfterFiles(h, packs, t, files[..|files| - 1], overwrite, before);
      if prev.None? || (f.path in prev.value && !overwrite) || Wanted(h, packs, t, f).None? then
        None
      else
        Some(prev.value[f.path := Wanted(h, packs, t, f).value])
  }

  lemma {:induction false} FilesFail(h: Digest, packs: Packs, t: Table, files: seq<FileEntry>, overwrite: bool,
                                     before: map<string, Bytes>, n: nat)
    requires n <= |files| && AfterFiles(h, packs, t, files[..n], overwrite, before).None?
    ensures AfterFiles(h, packs, t, files, overwrite, before).None?
    decreases |files|
  {
    if n < |files| {
      assert files[..|files| - 1][..n] == files[..n];
      FilesFail(h, packs, t, files[..|files| - 1], overwrite, before, n);
    } else {
      assert files[..n] == files;
    }
  }

  lemma {:induction false} OneMoreFile(h: Digest, packs: Packs, t: Table, files: seq<FileEntry>, overwrite: bool,
                                       before: map<string, Bytes>, i: nat, now: map<string, Bytes>)
    requires i < |files| && AfterFiles(h, packs, t, files[..i], overwrite, before) == Some(now)
    ensures AfterFiles(h, packs, t, files[..i + 1], overwrite, before)
         == if (files[i].path in now && !overwrite) || Wanted(h, packs, t, files[i]).None? then None
            else Some(now[files[i].path := Wanted(h, packs, t, files[i]).value])
  {
    assert files[..i + 1][..i] == files[..i];
  }

  ghost predicate LastOfItsPath(files: seq<FileEntry>, i: nat)
    requires i < |files|
  {
    forall j :: i < j < |files| ==> files[j].path != files[i].path
  }

  lemma {:induction false} LastWins(h: Digest, packs: Packs, t: Table, files: seq<FileEntry>, overwrite: bool,
                                    before: map<string, Bytes>, i: nat)
    requires AfterFiles(h, packs, t, files, overwrite, before).Some? && i < |files| && LastOfItsPath(files, i)
    ensures var m := AfterFiles(h, packs, t, files, overwrite, before).value;
      files[i].path in m && Wanted(h, packs, t, files[i]) == Some(m[files[i].path])
  {
    var n := |files| - 1;
    if i < n {
      assert forall j :: i < j < n ==> files[..n][j] == files[j];
      LastWins(h, packs, t, files[..n], overwrite, before, i);
    }
  }

  lemma {:induction false} OthersKept(h: Digest, packs: Packs, t: Table, files: seq<FileEntry>, overwrite: bool,
                                      before: map<string, Bytes>, path: string)
    requires AfterFiles(h, packs, t, files, overwrite, before).Some?
    requires forall i :: 0 <= i < |files| ==> files[i].path != path
    ensures var m := AfterFiles(h, packs, t, files, overwrite, before).value;
      (path in m <==> path in before) && (path in m ==> m[path] == before[path])
  {
    if files != [] {
      OthersKept(h, packs, t, files[..|files| - 1], overwrite, before, path);
    }
  }

  lemma {:induction false} PathsStay(h: Digest, packs: Packs, t: Table, files: seq<FileEntry>, overwrite: bool,
                                     before: map<string, Bytes>)
    requires AfterFiles(h, packs, t, files, overwrite, before).Some?
    ensures var m := AfterFiles(h, packs, t, files, overwrite, before).value;
      before.Keys <= m.Keys && forall i :: 0 <= i < |files| ==> files[i].path in m
  {
    if files != [] {
      PathsStay(h, packs, t, files[..|files| - 1], overwrite, before);
    }
  }

  lemma {:induction false} NoneReplaced(h: Digest, packs: Packs, t: Table, files: seq<FileEntry>,
                                        before: map<string, Bytes>)
    requires AfterFiles(h, packs, t, files, false, before).Some?
    ensures forall i :: 0 <= i < |files| ==> files[i].path !in before && LastOfItsPath(files, i)
  {
    if files != [] {
      var n := |files| - 1;
      NoneReplaced(h, packs, t, files[..n], before);
      PathsStay(h, packs, t, files[..n], false, before);
      forall i | 0 <= i < n
        ensures LastOfItsPath(files, i)
      {
        assert files[..n][i].path in AfterFiles(h, packs, t, files[..n], false, before).value;
        assert LastOfItsPath(files[..n], i);
      }
    }
  }

  /** Every path of the snapshot then holds exactly the bytes of the last entry for it, and other
      files are as they were. Without the overwrite option no path may occur twice or be taken. */
  lemma AfterFilesMeans(h: Digest, packs: Packs, t: Table, files: seq<FileEntry>, overwrite: bool,
                        before: map<string, Bytes>)
    requires AfterFiles(h, packs, t, files, overwrite, before).Some?
    ensures var m := AfterFiles(h, packs, t, files, overwrite, before).value;
      && (forall i :: 0 <= i < |files| && LastOfItsPath(files, i) ==>
           files[i].path in m && Wanted(h, packs, t, files[i]) == Some(m[files[i].path]))
      && (forall path :: (forall i :: 0 <= i < |files| ==> files[i].path != path) ==>
           (path in m <==> path in before) && (path in m ==> m[path] == before[path]))
    ensures !overwrite ==> forall i :: 0 <= i < |files| ==> files[i].path !in before && LastOfItsPath(files, i)
  {
    forall i | 0 <= i < |files| && LastOfItsPath(files, i)
      ensures var m := AfterFiles(h, packs, t, files, overwrite, before).value;
        files[i].path in m && Wanted(h, packs, t, files[i]) == Some(m[files[i].path])
    {
      LastWins(h, packs, t, files, overwrite, before, i);
    }
    forall path | forall i :: 0 <= i < |files| ==> files[i].path != path
      ensures var m := AfterFiles(h, packs, t, files, overwrite, before).value;
        (path in m <==> path in before) && (path in m ==> m[path] == before[path])
    {
      OthersKept(h, packs, t, files, overwrite, before, path);
    }
    if !overwrite {
      NoneReplaced(h, packs, t, files, before);
    }
  }

  ghost predicate DistinctPaths(files: seq<FileEntry>) {
    forall i, j :: 0 <= i < j < |files| ==> files[i].path != files[j].path
  }

  /** Entries with different paths, none of them taken unless overwriting is allowed, can all be
      restored if each can. */
  lemma {:induction false} DistinctRestore(h: Digest, packs: Packs, t: Table, files: seq<FileEntry>, overwrite: bool,
                                           before: map<string, Bytes>)
    requires DistinctPaths(files) && forall i :: 0 <= i < |files| ==> Wanted(h, packs, t, files[i]).Some?
    requires !overwrite ==> forall i :: 0 <= i < |files| ==> files[i].path !in before
    ensures AfterFiles(h, packs, t, files, overwrite, before).Some?
  {
    if files != [] {
      var n := |files| - 1;
      DistinctRestore(h, packs, t, files[..n], overwrite, before);
      OthersKept(h, packs, t, files[..n], overwrite, before, files[n].path);
    }
  }

  /** The bytes that the manifest gives for these files. */
  function BytesIn(files: seq<FileEntry>): nat {
    if files == [] then 0 else BytesIn(files[..|files| - 1]) + files[|files| - 1].size
  }

  /** A restore with one worker: the files of a snapshot one after another, stopping at the first
      failure. RestorePool has any number of workers. */
  method RestoreInTurn(r: Repository, dst: Target, snap: Snapshot, overwrite: bool, faults: nat -> Faults)
      returns (ok: bool, bytes: nat)
    requires r.Valid()
    modifies dst
    ensures ok <==>
      && AfterFiles(r.h, r.store.packs, r.Known(), snap.files, overwrite, old(dst.files)).Some?
      && forall i :: 0 <= i < |snap.files| ==> faults(i).Spares(|snap.files[i].chunks|)
    ensures ok ==> AfterFiles(r.h, r.store.packs, r.Known(), snap.files, overwrite, old(dst.files)) == Some(dst.files)
    ensures ok ==> bytes == BytesIn(snap.files)
  {
    bytes := 0;
    ghost var packs, t, before := r.store.packs, r.Known(), dst.files;
    for i := 0 to |snap.files|
      invariant AfterFiles(r.h, packs, t, snap.files[..i], overwrite, before) == Some(dst.files)
      invariant forall k :: 0 <= k < i ==> faults(k).Spares(|snap.files[k].chunks|)
      invariant bytes == BytesIn(snap.files[..i])
    {
      OneMoreFile(r.h, packs, t, snap.files, overwrite, before, i, dst.files);
      var o := RestoreOneFile(r, dst, snap.files[i], overwrite, faults(i));
      if !o.Restored? {
        if faults(i).Spares(|snap.files[i].chunks|) {
          FilesFail(r.h, packs, t, snap.files, overwrite, before, i + 1);
        }
        return false, bytes;
      }
      bytes := bytes + o.written;
      assert snap.files[..i + 1][..i] == snap.files[..i];
    }
    assert snap.files[..|snap.files|] == snap.files;
    ok := true;
  }
}
