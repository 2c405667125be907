/**
 * The storage service as a state machine: the tables, the object store and the
 * clock, changed by whole service calls. Object-store calls may fail at any
 * point; a failed call leaves the store as it was. History fields record which
 * ids were handed out, which uploads were confirmed and which object keys were
 * given up, so that properties of whole runs can be stated.
 */
module Drive {
  import opened Prelude
  import opened Tables
  import Sums

  datatype World = World(
    db: Db,
    objects: set<ObjectKey>,
    now: Time,
    issued: set<Id>,            // ids ever used in an INSERT
    confirmed: seq<Id>,         // blob ids, one entry per confirmed upload
    retired: set<ObjectKey>)    // keys of deleted rows, handed out for removal

  datatype Limits = Limits(maxUpload: int, quota: int)

  datatype Op =
    | Tick(elapsed: nat)
    | CreateFolder(id: Id, u: Id, parent: Option<Id>, name: string)
    | RenameFolder(f: Id, u: Id, name: string)
    | MoveFolder(f: Id, u: Id, parent: Option<Id>)
    | DeleteFolder(f: Id, u: Id)
    | RestoreFolder(f: Id, u: Id)
    | HardDeleteFolder(f: Id, u: Id, removed: set<ObjectKey>)
    | EmptyTrash(u: Id, removed: set<ObjectKey>)
    | CleanExpiredTrash(ttl: nat, removed: set<ObjectKey>)
    | MoveBlob(b: Id, u: Id, folder: Option<Id>)
    | RenameBlob(b: Id, u: Id, name: string)
    | DeleteBlob(b: Id, u: Id)
    | RestoreBlob(b: Id, u: Id)
    | HardDeleteBlob(b: Id, u: Id, removeOk: bool, rowOk: bool)
    | Initiate(id: Id, u: Id, folder: Option<Id>, name: string, size: int, uploadId: string, storeOk: bool, insertOk: bool)
    | Complete(b: Id, u: Id, completeOk: bool, statOk: bool, objectSize: int)
    | AbortUpload(b: Id, u: Id, storeOk: bool, rowOk: bool)
    | CleanOrphanedBlobs(ttl: nat, removed: set<ObjectKey>)

  const MAX_INT64: int := 0x7FFF_FFFF_FFFF_FFFF
  const TWO_64: int := 0x1_0000_0000_0000_0000

  /** Two's-complement wrap-around of int64 addition. */
  function Wrap64(x: int): int
  {
    (x + MAX_INT64 + 1) % TWO_64 - MAX_INT64 - 1
  }

  // ---------- storage used ----------

  function Sizes(db: Db, u: Id): map<Id, int>
  {
    map b | b in db.blobs && db.blobs[b].owner == u :: db.blobs[b].size
  }

  /** SELECT SUM(file_size): pending and trashed blobs count too. */
  ghost function Used(db: Db, u: Id): int
  {
    Sums.Sum(Sizes(db, u))
  }

  // ---------- the calls ----------

  function Cutoff(now: Time, ttl: nat): Time
  {
    if ttl <= now then now - ttl else 0
  }

  function KeysOf(db: Db, ids: set<Id>): set<ObjectKey>
  {
    set b | b in ids && b in db.blobs :: db.blobs[b].key
  }

  function Commit(w: World, r: Result<Db>): World
  {
    if r.Ok? then w.(db := r.value) else w
  }

  /** The keys of the rows that are gone. */
  function KeysGone(db: Db, db': Db): set<ObjectKey>
  {
    KeysOf(db, db.blobs.Keys - db'.blobs.Keys)
  }

  function DeleteRows(w: World, db': Db): World
  {
    w.(db := db', retired := w.retired + KeysGone(w.db, db'))
  }

  /** Rows are deleted first; then each of their keys is removed, best effort. */
  function DeleteThenRemove(w: World, db': Db, removed: set<ObjectKey>): World
  {
    DeleteRows(w, db').(objects := w.objects - KeysGone(w.db, db') * removed)
  }

  /** Whether InitiateMultipartUpload lets the upload start. */
  ghost predicate Admitted(lim: Limits, db: Db, u: Id, folder: Option<Id>, size: int)
  {
    && !(lim.maxUpload > 0 && size > lim.maxUpload)
    && (lim.quota > 0 ==> Used(db, u) <= MAX_INT64 && !(Wrap64(Used(db, u) + size) > lim.quota))
    && (folder.Some? ==> Owned(db, folder.value, u))
  }

  ghost function Apply(lim: Limits, w: World, op: Op): World
  {
    match op
    case Tick(elapsed) => w.(now := w.now + elapsed)
    case CreateFolder(id, u, parent, name) =>
      if parent.Some? && !Owned(w.db, parent.value, u) then w
      else Commit(w, Tables.CreateFolder(w.db, id, u, parent, name)).(issued := w.issued + {id})
    case RenameFolder(f, u, name) => Commit(w, Tables.RenameFolder(w.db, f, u, name))
    case MoveFolder(f, u, parent) => Commit(w, Tables.MoveFolder(w.db, f, u, parent))
    case DeleteFolder(f, u) => Commit(w, Tables.TrashFolder(w.db, f, u, w.now))
    case RestoreFolder(f, u) => Commit(w, Tables.RestoreFolder(w.db, f, u))
    case HardDeleteFolder(f, u, removed) =>
      var r := Tables.HardDeleteFolder(w.db, f, u);
      if r.Ok? then DeleteThenRemove(w, r.value, removed) else w
    case EmptyTrash(u, removed) =>
      var mid := EmptyTrashedBlobs(w.db, u);
      var r := EmptyTrashedFolders(mid, u);
      if r.Ok? then DeleteThenRemove(w, r.value, removed) else DeleteRows(w, mid)
    case CleanExpiredTrash(ttl, removed) =>
      var mid := PurgeExpiredBlobs(w.db, Cutoff(w.now, ttl));
      var r := PurgeExpiredFolders(mid, Cutoff(w.now, ttl));
      if r.Ok? then DeleteThenRemove(w, r.value, removed) else DeleteRows(w, mid)
    case MoveBlob(b, u, folder) => Commit(w, Tables.MoveBlob(w.db, b, u, folder))
    case RenameBlob(b, u, name) => Commit(w, Tables.RenameBlob(w.db, b, u, name))
    case DeleteBlob(b, u) => Commit(w, Tables.TrashBlob(w.db, b, u, w.now))
    case RestoreBlob(b, u) => Commit(w, Tables.RestoreBlob(w.db, b, u))
    case HardDeleteBlob(b, u, removeOk, rowOk) =>
      if !OwnedTrashBlob(w.db, b, u) || !removeOk then w
      else
        var w' := w.(objects := w.objects - {w.db.blobs[b].key});
        if rowOk then DeleteRows(w', DeleteBlobs(w.db, {b})) else w'
    case Initiate(id, u, folder, name, size, uploadId, storeOk, insertOk) =>
      if !Admitted(lim, w.db, u, folder, size) || !storeOk || !insertOk then w
      else
        var row := Blob(u, folder, name, ObjectKey(u, id), size, uploadId, w.now, None, None);
        Commit(w, RegisterBlob(w.db, id, row)).(issued := w.issued + {id})
    case Complete(b, u, completeOk, statOk, objectSize) =>
      if !Pending(w.db, b, u) || w.db.blobs[b].uploadId == "" || !completeOk then w
      else
        var w' := w.(objects := w.objects + {w.db.blobs[b].key});
        if !statOk then w'
        else Commit(w', ConfirmBlobUpload(w.db, b, u, objectSize, w.now)).(confirmed := w.confirmed + [b])
    case AbortUpload(b, u, storeOk, rowOk) =>
      if !Pending(w.db, b, u) || !storeOk then w
      else
        var w' := if w.db.blobs[b].uploadId != "" then w else w.(objects := w.objects - {w.db.blobs[b].key});
        if rowOk then DeleteRows(w', DeleteBlobs(w.db, {b})) else w'
    case CleanOrphanedBlobs(ttl, removed) =>
      // Only single-PUT uploads have an object to remove; the rest have an upload to abort.
      var orphans := OrphanedBlobs(w.db, Cutoff(w.now, ttl));
      DeleteRows(w, PurgeOrphanedBlobs(w.db, Cutoff(w.now, ttl))).(
        objects := w.objects - KeysOf(w.db, PlainUploads(w.db, orphans)) * removed)
  }

  /** Uploads by a single PUT. */
  function PlainUploads(db: Db, ids: set<Id>): set<Id>
  {
    set b | b in ids && b in db.blobs && db.blobs[b].uploadId == ""
  }

  // ---------- what states can satisfy ----------

  predicate LiveUpload(db: Db, b: Id)
  {
    b in db.blobs && db.blobs[b].uploadedAt.Some? && db.blobs[b].deletedAt.None?
  }

  /** A row marked uploaded has its object in the store. */
  ghost predicate Backed(w: World)
  {
    forall b :: b in w.db.blobs && w.db.blobs[b].uploadedAt.Some? ==> w.db.blobs[b].key in w.objects
  }

  /** Every row carries an id that was handed out. */
  ghost predicate IdsIssued(w: World)
  {
    && (forall x :: x in w.db.folders ==> x in w.issued)
    && (forall b :: b in w.db.blobs ==> b in w.issued)
  }

  /** No upload was confirmed twice, and a confirmed row stays confirmed. */
  ghost predicate ConfirmedOnce(w: World)
  {
    NoDup(w.confirmed) &&
    forall b :: b in w.confirmed ==> b in w.issued && (b in w.db.blobs ==> w.db.blobs[b].uploadedAt.Some?)
  }

  /** A key handed out for removal belongs to no row, now or later. */
  ghost predicate RetiredGone(w: World)
  {
    forall k :: k in w.retired ==> k.blob in w.issued && k.blob !in w.db.blobs
  }

  // ---------- runs ----------

  const Empty: World := World(Db(map[], map[]), {}, 0, {}, [], {})

  /** The one assumption on a call: uuid.New is fresh. */
  predicate Legal(w: World, op: Op)
  {
    op.CreateFolder? || op.Initiate? ==> op.id !in w.issued
  }

  ghost function Run(lim: Limits, w: World, ops: seq<Op>): World
    decreases ops
  {
    if ops == [] then w else Run(lim, Apply(lim, w, ops[0]), ops[1..])
  }

  ghost predicate LegalRun(lim: Limits, w: World, ops: seq<Op>)
    decreases ops
  {
    ops == [] || (Legal(w, ops[0]) && LegalRun(lim, Apply(lim, w, ops[0]), ops[1..]))
  }
}
