/**
 * The storage service and its repository in the source's own form: tables
 * changed in place, recursive queries as worklist loops, scans that collect
 * rows one by one. Every call is proved to do what the state machine says.
 */
module StorageService {
  import opened Prelude
  import opened Forest
  import opened Tables
  import opened Drive
  import opened DriveStatements
  import opened DriveRuns
  import TreeInvariants
  import Trash
  import Effects
  import Sums

  function ErrorOf(r: Result<Db>): Option<Error>
  {
    if r.Ok? then None else Some(r.error)
  }

  /** DELETE ... RETURNING object_key: one key per row, in whatever order the rows come. */
  method ScanObjectKeys(blobs: map<Id, Blob>, ids: set<Id>) returns (keys: seq<ObjectKey>)
    requires forall b :: b in ids ==> b in blobs
    requires forall b :: b in ids ==> blobs[b].key.blob == b
    ensures NoDup(keys) && |keys| == |ids|
    ensures forall k :: k in keys <==> k.blob in ids && blobs[k.blob].key == k
  {
    keys := [];
    var todo := ids;
    while todo != {}
      invariant todo <= ids
      invariant NoDup(keys) && |keys| + |todo| == |ids|
      invariant forall k :: k in keys <==> k.blob in ids && k.blob !in todo && blobs[k.blob].key == k
      decreases todo
    {
      var b := AnyOf(todo);
      assert blobs[b].key !in keys;
      keys := keys + [blobs[b].key];
      todo := todo - {b};
    }
  }

  /** What a walk returned, as a set of rows. */
  lemma WalkIsSubtree(fs: map<Id, Folder>, pm: map<Id, Id>, f: Id, walk: seq<Id>)
    requires f in fs && forall x :: x in pm ==> x in fs
    requires forall x :: x in walk <==> Under(pm, x, f)
    ensures (set x | x in walk) == (set x | x in fs && Under(pm, x, f))
  {
    forall x | x in walk ensures x in fs {
      if x != f { UnderStep(pm, x, f); }
    }
  }

  class Service {
    const lim: Limits
    var folders: map<Id, Folder>
    var blobs: map<Id, Blob>
    var objects: set<ObjectKey>
    var now: Time
    ghost var issued: set<Id>
    ghost var confirmed: seq<Id>
    ghost var retired: set<ObjectKey>

    function Rows(): Db
      reads this
    {
      Db(folders, blobs)
    }

    ghost function State(): World
      reads this
    {
      World(Rows(), objects, now, issued, confirmed, retired)
    }

    ghost predicate Valid()
      reads this
    {
      WorldInv(State())
    }

    constructor (lim: Limits)
      ensures State() == Empty && Valid() && this.lim == lim
    {
      this.lim := lim;
      folders, blobs, objects, now := map[], map[], {}, 0;
      issued, confirmed, retired := {}, [], {};
      new;
      EmptyIsGood();
    }

    // ---------- reads ----------

    method IsDescendantOf(ancestor: Id, candidate: Id) returns (found: bool)
      ensures found <==> Tables.IsDescendantOf(Rows(), ancestor, candidate)
    {
      if ancestor !in folders {
        return false;
      }
      found := SearchWithin(LiveParents(folders), ancestor, MAX_SEARCH_DEPTH, candidate);
    }

    method ListTrashedFolders(u: Id) returns (listed: seq<Id>)
      ensures NoDup(listed)
      ensures forall f :: f in listed <==> ListedFolder(Rows(), f, u)
    {
      listed := [];
      var todo := folders.Keys;
      while todo != {}
        invariant todo <= folders.Keys && NoDup(listed)
        invariant forall f :: f in listed <==> f !in todo && ListedFolder(Rows(), f, u)
        decreases todo
      {
        var f := AnyOf(todo);
        todo := todo - {f};
        if ListedFolder(Rows(), f, u) {
          listed := listed + [f];
        }
      }
    }

    method GetUserStorageUsed(u: Id) returns (used: int)
      ensures used == Used(Rows(), u)
    {
      var sizes := Sizes(Rows(), u);
      used := 0;
      var left := sizes;
      while left != map[]
        invariant left.Keys <= sizes.Keys
        invariant used + Sums.Sum(left) == Sums.Sum(sizes)
        decreases left.Keys
      {
        var b := AnyOf(left.Keys);
        Sums.SumAt(left, b);
        used := used + left[b];
        left := left - {b};
      }
    }

    // ---------- folders ----------

    method CreateFolder(id: Id, u: Id, parent: Option<Id>, name: string) returns (err: Option<Error>)
      requires Valid() && id !in issued
      modifies this
      ensures Valid()
      ensures State() == Apply(lim, old(State()), Drive.CreateFolder(id, u, parent, name))
      ensures err == ErrorOf(Tables.CreateFolder(old(Rows()), id, u, parent, name))
    {
      StepKeepsWorld(lim, State(), Drive.CreateFolder(id, u, parent, name));
      if parent.Some? && !Owned(Rows(), parent.value, u) {
        return Some(FolderNotFound);
      }
      issued := issued + {id};
      var r := InsertFolder(Rows(), id, u, parent, name);
      if r.Ok? {
        folders := r.value.folders;
      }
      err := ErrorOf(r);
    }

    method MoveFolder(f: Id, u: Id, parent: Option<Id>) returns (err: Option<Error>)
      requires Valid()
      modifies this
      ensures Valid()
      ensures State() == Apply(lim, old(State()), Drive.MoveFolder(f, u, parent))
      ensures err == ErrorOf(Tables.MoveFolder(old(Rows()), f, u, parent))
    {
      StepKeepsWorld(lim, State(), Drive.MoveFolder(f, u, parent));
      if !Owned(Rows(), f, u) {
        return Some(FolderNotFound);
      }
      if parent.Some? {
        if parent.value == f {
          return Some(FolderCycle);
        }
        if !Owned(Rows(), parent.value, u) {
          return Some(FolderNotFound);
        }
        var below := IsDescendantOf(f, parent.value);
        if below {
          return Some(FolderCycle);
        }
      }
      var r := UpdateParent(Rows(), f, u, parent);
      if r.Ok? {
        folders := r.value.folders;
      }
      err := ErrorOf(r);
    }

    /** TrashFolder: collect the live subtree, then stamp folders and blobs. */
    method DeleteFolder(f: Id, u: Id) returns (err: Option<Error>)
      requires Valid()
      modifies this
      ensures Valid()
      ensures State() == Apply(lim, old(State()), Drive.DeleteFolder(f, u))
      ensures err == ErrorOf(TrashFolder(old(Rows()), f, u, old(now)))
    {
      StepKeepsWorld(lim, State(), Drive.DeleteFolder(f, u));
      if !Owned(Rows(), f, u) {
        return Some(FolderNotFound);
      }
      var walk := Walk(LiveParents(folders), f);
      if walk.None? {
        return Some(DeadlineExceeded);
      }
      var ids := set x | x in walk.value;
      WalkIsSubtree(folders, LiveParents(folders), f, walk.value);
      assert ids == LiveSubtree(folders, f);
      var db := TrashRows(Rows(), ids, now);
      folders, blobs := db.folders, db.blobs;
      err := None;
    }

    method RestoreFolder(f: Id, u: Id) returns (err: Option<Error>)
      requires Valid()
      modifies this
      ensures Valid()
      ensures State() == Apply(lim, old(State()), Drive.RestoreFolder(f, u))
      ensures err == ErrorOf(Tables.RestoreFolder(old(Rows()), f, u))
    {
      StepKeepsWorld(lim, State(), Drive.RestoreFolder(f, u));
      if !OwnedTrash(Rows(), f, u) {
        return Some(FolderNotFound);
      }
      var walk := Walk(Parents(folders), f);
      if walk.None? {
        return Some(DeadlineExceeded);
      }
      var ids := set x | x in walk.value;
      WalkIsSubtree(folders, Parents(folders), f, walk.value);
      assert ids == Subtree(folders, f);
      var db := RestoreRows(Rows(), ids, f, RestoredParent(Rows(), f));
      if !NamesUnique(db.folders) {
        return Some(UniqueViolation);
      }
      folders, blobs := db.folders, db.blobs;
      err := None;
    }

    method HardDeleteFolder(f: Id, u: Id, removed: set<ObjectKey>) returns (err: Option<Error>, keys: seq<ObjectKey>)
      requires Valid()
      modifies this
      ensures Valid()
      ensures State() == Apply(lim, old(State()), Drive.HardDeleteFolder(f, u, removed))
      ensures err == ErrorOf(Tables.HardDeleteFolder(old(Rows()), f, u))
      ensures NoDup(keys)
      ensures err.None? ==> (set k | k in keys) == KeysOf(old(Rows()), BlobsIn(old(Rows()), Subtree(old(folders), f)))
    {
      keys := [];
      StepKeepsWorld(lim, State(), Drive.HardDeleteFolder(f, u, removed));
      if !OwnedTrash(Rows(), f, u) {
        return Some(FolderNotFound), [];
      }
      HardDeleteFolderStep(lim, State(), f, u, removed);
      var walk := Walk(Parents(folders), f);
      if walk.None? {
        return Some(DeadlineExceeded), [];
      }
      var ids := set x | x in walk.value;
      WalkIsSubtree(folders, Parents(folders), f, walk.value);
      assert ids == Subtree(folders, f);
      TreeInvariants.HardDeleteFolderKeepsPlaced(Rows(), f, u, now);
      keys := DeleteRows(BlobsIn(Rows(), ids), ids);
      RemoveObjects(keys, removed);
      err := None;
    }

    // ---------- trash ----------

    /** The two transactions of EmptyTrash; no key is returned twice. */
    method DeleteTrashOf(u: Id) returns (keys: seq<ObjectKey>)
      requires Placed(Rows(), now)
      modifies this`folders, this`blobs, this`retired
      ensures Rows() == Db(old(folders) - FolderTrashOf(old(Rows()), u), old(blobs) - BlobTrashOf(old(Rows()), u))
      ensures NoDup(keys) && (set k | k in keys) == KeysOf(old(Rows()), BlobTrashOf(old(Rows()), u))
      ensures retired == old(retired) + (set k | k in keys)
    {
      Trash.EmptyTrashExact(Rows(), u, now);
      var blobKeys := DeleteBlobRows(BlobTrashOf(Rows(), u));
      assert Rows() == EmptyTrashedBlobs(old(Rows()), u);
      var folderKeys := DeleteRows(BlobsInTrashOf(Rows(), u), FolderTrashOf(Rows(), u));
      keys := blobKeys + folderKeys;
      assert keys == blobKeys;
    }

    /** Two transactions, then one best-effort removal per returned key. */
    method EmptyTrash(u: Id, removed: set<ObjectKey>) returns (keys: seq<ObjectKey>)
      requires Valid()
      modifies this
      ensures Valid()
      ensures State() == Apply(lim, old(State()), Drive.EmptyTrash(u, removed))
      ensures NoDup(keys)
      ensures (set k | k in keys) == KeysOf(old(Rows()), BlobTrashOf(old(Rows()), u))
    {
      StepKeepsWorld(lim, State(), Drive.EmptyTrash(u, removed));
      EmptyTrashStep(lim, State(), u, removed);
      keys := DeleteTrashOf(u);
      RemoveObjects(keys, removed);
    }

    /** The two transactions of the age purge. */
    method DeleteExpired(before: Time) returns (keys: seq<ObjectKey>)
      requires Placed(Rows(), now)
      modifies this`folders, this`blobs, this`retired
      ensures Rows() == Db(old(folders) - ExpiredFolders(old(Rows()), before), old(blobs) - ExpiredBlobs(old(Rows()), before))
      ensures NoDup(keys) && (set k | k in keys) == KeysOf(old(Rows()), ExpiredBlobs(old(Rows()), before))
      ensures retired == old(retired) + (set k | k in keys)
    {
      Trash.CleanExpiredTrashExact(Rows(), before, now);
      var blobKeys := DeleteBlobRows(ExpiredBlobs(Rows(), before));
      assert Rows() == PurgeExpiredBlobs(old(Rows()), before);
      var ids := ExpiredFolders(Rows(), before);
      var folderKeys := DeleteRows(BlobsIn(Rows(), ids), ids);
      keys := blobKeys + folderKeys;
      assert keys == blobKeys;
    }

    method CleanExpiredTrash(ttl: nat, removed: set<ObjectKey>) returns (keys: seq<ObjectKey>)
      requires Valid()
      modifies this
      ensures Valid()
      ensures State() == Apply(lim, old(State()), Drive.CleanExpiredTrash(ttl, removed))
      ensures NoDup(keys)
      ensures (set k | k in keys) == KeysOf(old(Rows()), ExpiredBlobs(old(Rows()), Cutoff(now, ttl)))
    {
      StepKeepsWorld(lim, State(), Drive.CleanExpiredTrash(ttl, removed));
      CleanExpiredTrashStep(lim, State(), ttl, removed);
      keys := DeleteExpired(Cutoff(now, ttl));
      RemoveObjects(keys, removed);
    }

    /** DELETE FROM stored_blobs for a set of rows, returning their keys. */
    method DeleteBlobRows(ids: set<Id>) returns (keys: seq<ObjectKey>)
      requires KeysOwn(Rows()) && forall b :: b in ids ==> b in blobs
      modifies this`blobs, this`retired
      ensures Rows() == DeleteBlobs(old(Rows()), ids) && retired == old(retired) + KeysOf(old(Rows()), ids)
      ensures NoDup(keys) && |keys| == |ids|
      ensures (set k | k in keys) == KeysOf(old(Rows()), ids)
    {
      keys := ScanObjectKeys(blobs, ids);
      retired := retired + KeysOf(Rows(), ids);
      blobs := blobs - ids;
    }

    /** The delete transaction: blob rows, detach, folder rows. */
    method DeleteRows(doomed: set<Id>, ids: set<Id>) returns (keys: seq<ObjectKey>)
      requires KeysOwn(Rows()) && forall b :: b in doomed ==> b in blobs
      requires DeleteTree(Rows(), doomed, ids).Ok?
      modifies this`folders, this`blobs, this`retired
      ensures Rows() == DeleteTree(old(Rows()), doomed, ids).value && retired == old(retired) + KeysOf(old(Rows()), doomed)
      ensures NoDup(keys) && |keys| == |doomed|
      ensures (set k | k in keys) == KeysOf(old(Rows()), doomed)
    {
      keys := DeleteBlobRows(doomed);
      folders := Detach(Rows(), ids).folders;
      var db := DeleteFolders(Rows(), ids).value;
      folders, blobs := db.folders, db.blobs;
    }

    /** `_ = RemoveObject(key)` for each key: the keys in `removed` are those whose removal works. */
    method RemoveObjects(keys: seq<ObjectKey>, removed: set<ObjectKey>)
      modifies this`objects
      ensures objects == old(objects) - (set k | k in keys) * removed
    {
      for i := 0 to |keys|
        invariant objects == old(objects) - (set k | k in keys[..i]) * removed
      {
        assert keys[..i + 1] == keys[..i] + [keys[i]];
        if keys[i] in removed {
          objects := objects - {keys[i]};
        }
      }
      assert keys[..|keys|] == keys;
    }

    // ---------- blobs and uploads ----------

    method HardDeleteBlob(b: Id, u: Id, removeOk: bool, rowOk: bool) returns (err: Option<Error>)
      requires Valid()
      modifies this
      ensures Valid()
      ensures State() == Apply(lim, old(State()), Drive.HardDeleteBlob(b, u, removeOk, rowOk))
      ensures err.None? <==> OwnedTrashBlob(old(Rows()), b, u) && removeOk && rowOk
      ensures err.None? ==> b !in blobs && old(blobs)[b].key !in objects
    {
      StepKeepsWorld(lim, State(), Drive.HardDeleteBlob(b, u, removeOk, rowOk));
      if !OwnedTrashBlob(Rows(), b, u) {
        return Some(NotFound);
      }
      var key := blobs[b].key;
      if !removeOk {
        return Some(StoreFailure);
      }
      objects := objects - {key};
      if !rowOk {
        return Some(StoreFailure);
      }
      DeleteBlobRow(b);
      err := None;
    }

    method DeleteBlobRow(b: Id)
      requires b in blobs
      modifies this`blobs, this`retired
      ensures State() == Drive.DeleteRows(old(State()), DeleteBlobs(old(Rows()), {b}))
    {
      assert blobs.Keys - (blobs - {b}).Keys == {b};
      retired := retired + {blobs[b].key};
      blobs := blobs - {b};
    }

    method AbortUpload(b: Id, u: Id, storeOk: bool, rowOk: bool) returns (err: Option<Error>)
      requires Valid()
      modifies this
      ensures Valid()
      ensures State() == Apply(lim, old(State()), Drive.AbortUpload(b, u, storeOk, rowOk))
      ensures err.None? <==> Pending(old(Rows()), b, u) && storeOk && rowOk
    {
      StepKeepsWorld(lim, State(), Drive.AbortUpload(b, u, storeOk, rowOk));
      if !Pending(Rows(), b, u) {
        return Some(NotFound);
      }
      if !storeOk {
        return Some(StoreFailure);
      }
      if blobs[b].uploadId == "" {
        objects := objects - {blobs[b].key};
      }
      if !rowOk {
        return Some(StoreFailure);
      }
      DeleteBlobRow(b);
      err := None;
    }

    method MoveBlob(b: Id, u: Id, folder: Option<Id>) returns (err: Option<Error>)
      requires Valid()
      modifies this
      ensures Valid()
      ensures State() == Apply(lim, old(State()), Drive.MoveBlob(b, u, folder))
      ensures err == ErrorOf(Tables.MoveBlob(old(Rows()), b, u, folder))
      ensures err.None? && folder.Some? ==> BlobIn(Rows(), b, {folder.value})
      ensures err.None? ==> Tables.MoveBlob(Rows(), b, u, old(blobs)[b].folder) == Ok(old(Rows()))
    {
      StepKeepsWorld(lim, State(), Drive.MoveBlob(b, u, folder));
      if Tables.MoveBlob(Rows(), b, u, folder).Ok? { Effects.MoveBlobUndo(Rows(), b, u, folder, now); }
      if folder.Some? && !Owned(Rows(), folder.value, u) {
        return Some(FolderNotFound);
      }
      if !OwnedBlob(Rows(), b, u) {
        return Some(NotFound);
      }
      blobs := blobs[b := blobs[b].(folder := folder)];
      err := None;
    }

    method InitiateMultipartUpload(id: Id, u: Id, folder: Option<Id>, name: string, size: int, uploadId: string,
                                   storeOk: bool, insertOk: bool) returns (err: Option<Error>)
      requires Valid() && id !in issued
      modifies this
      ensures Valid()
      ensures State() == Apply(lim, old(State()), Drive.Initiate(id, u, folder, name, size, uploadId, storeOk, insertOk))
      ensures err.None? <==> Admitted(lim, old(Rows()), u, folder, size) && storeOk && insertOk
    {
      StepKeepsWorld(lim, State(), Drive.Initiate(id, u, folder, name, size, uploadId, storeOk, insertOk));
      if lim.maxUpload > 0 && size > lim.maxUpload {
        return Some(FileTooLarge);
      }
      if lim.quota > 0 {
        var used := GetUserStorageUsed(u);
        if used > MAX_INT64 {
          return Some(StoreFailure);
        }
        if Wrap64(used + size) > lim.quota {
          return Some(QuotaExceeded);
        }
      }
      if folder.Some? && !Owned(Rows(), folder.value, u) {
        return Some(FolderNotFound);
      }
      if !storeOk || !insertOk {
        return Some(StoreFailure);
      }
      issued := issued + {id};
      blobs := blobs[id := Blob(u, folder, name, ObjectKey(u, id), size, uploadId, now, None, None)];
      err := None;
    }

    method CompleteMultipartUpload(b: Id, u: Id, completeOk: bool, statOk: bool, objectSize: int) returns (err: Option<Error>)
      requires Valid()
      modifies this
      ensures Valid()
      ensures State() == Apply(lim, old(State()), Drive.Complete(b, u, completeOk, statOk, objectSize))
      ensures err.None? <==> confirmed == old(confirmed) + [b]
      ensures err.None? ==> Safe(State(), b) && blobs[b].size == objectSize
    {
      StepKeepsWorld(lim, State(), Drive.Complete(b, u, completeOk, statOk, objectSize));
      assert confirmed != confirmed + [b];
      if !Pending(Rows(), b, u) || blobs[b].uploadId == "" {
        return Some(NotFound);
      }
      if !completeOk {
        return Some(StoreFailure);
      }
      objects := objects + {blobs[b].key};
      if !statOk {
        return Some(StoreFailure);
      }
      blobs := blobs[b := blobs[b].(uploadedAt := Some(now), size := objectSize)];
      confirmed := confirmed + [b];
      err := None;
    }

    /** Rows first; afterwards each multipart upload is aborted and each single-PUT object removed, best effort. */
    method CleanOrphanedBlobs(ttl: nat, removed: set<ObjectKey>)
      requires Valid()
      modifies this
      ensures Valid()
      ensures State() == Apply(lim, old(State()), Drive.CleanOrphanedBlobs(ttl, removed))
    {
      StepKeepsWorld(lim, State(), Drive.CleanOrphanedBlobs(ttl, removed));
      CleanOrphanedBlobsStep(lim, State(), ttl, removed);
      ghost var before := Rows();
      var orphans := OrphanedBlobs(Rows(), Cutoff(now, ttl));
      var plain := PlainUploads(Rows(), orphans);
      var keys := ScanObjectKeys(blobs, plain);
      assert (set k | k in keys) == KeysOf(before, plain);
      var all := DeleteBlobRows(orphans);
      RemoveObjects(keys, removed);
    }
  }
}
