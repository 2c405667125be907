/**
 * The folder and blob tables, the SQL statements and transactions that change
 * them, and the invariants those transactions rely on without stating them.
 * Functions named after a repository or service call give the whole effect of
 * one committed call; `Err` means the call failed and nothing changed.
 */
module Tables {
  import opened Prelude
  import opened Forest

  datatype Folder = Folder(owner: Id, parent: Option<Id>, name: string, deletedAt: Option<Time>)

  /** Object keys are "<user id>/<blob id>". */
  datatype ObjectKey = ObjectKey(user: Id, blob: Id)

  datatype Blob = Blob(owner: Id, folder: Option<Id>, name: string, key: ObjectKey, size: int, uploadId: string,
                       createdAt: Time, uploadedAt: Option<Time>, deletedAt: Option<Time>)

  datatype Db = Db(folders: map<Id, Folder>, blobs: map<Id, Blob>)

  datatype Error =
    | NotFound | FolderNotFound | FolderConflict | FolderCycle
    | FileTooLarge | QuotaExceeded
    | ForeignKeyViolation | CheckViolation | UniqueViolation | DeadlineExceeded | StoreFailure

  datatype Result<+T> = Ok(value: T) | Err(error: Error)

  const MAX_SEARCH_DEPTH: nat := 100

  // ---------- views ----------

  /** Every `parent_id` edge, trashed rows included. */
  function Parents(fs: map<Id, Folder>): map<Id, Id>
  {
    map x | x in fs && fs[x].parent.Some? :: fs[x].parent.value
  }

  /** The `parent_id` edges out of live rows. */
  function LiveParents(fs: map<Id, Folder>): map<Id, Id>
  {
    map x | x in fs && fs[x].parent.Some? && fs[x].deletedAt.None? :: fs[x].parent.value
  }

  predicate LiveFolder(db: Db, f: Id)
  {
    f in db.folders && db.folders[f].deletedAt.None?
  }

  predicate TrashedFolder(db: Db, f: Id)
  {
    f in db.folders && db.folders[f].deletedAt.Some?
  }

  /** The row GetFolder finds: present, owned by `u`, not trashed. */
  predicate Owned(db: Db, f: Id, u: Id)
  {
    LiveFolder(db, f) && db.folders[f].owner == u
  }

  predicate OwnedTrash(db: Db, f: Id, u: Id)
  {
    TrashedFolder(db, f) && db.folders[f].owner == u
  }

  predicate OwnedBlob(db: Db, b: Id, u: Id)
  {
    b in db.blobs && db.blobs[b].owner == u && db.blobs[b].deletedAt.None?
  }

  predicate OwnedTrashBlob(db: Db, b: Id, u: Id)
  {
    b in db.blobs && db.blobs[b].owner == u && db.blobs[b].deletedAt.Some?
  }

  predicate Pending(db: Db, b: Id, u: Id)
  {
    OwnedBlob(db, b, u) && db.blobs[b].uploadedAt.None?
  }

  predicate BlobIn(db: Db, b: Id, ids: set<Id>)
  {
    b in db.blobs && db.blobs[b].folder.Some? && db.blobs[b].folder.value in ids
  }

  ghost function Subtree(fs: map<Id, Folder>, root: Id): set<Id>
  {
    set x | x in fs && Under(Parents(fs), x, root)
  }

  ghost function LiveSubtree(fs: map<Id, Folder>, root: Id): set<Id>
  {
    set x | x in fs && Under(LiveParents(fs), x, root)
  }

  // ---------- invariants ----------

  predicate Exists(fs: map<Id, Folder>, holder: Option<Id>)
  {
    holder.Some? ==> holder.value in fs
  }

  ghost predicate ForeignKeys(db: Db)
  {
    && (forall x :: x in db.folders ==> Exists(db.folders, db.folders[x].parent))
    && (forall b :: b in db.blobs ==> Exists(db.folders, db.blobs[b].folder))
  }

  /** Trash order: what sits in a trashed folder is itself trashed, and was trashed no later. */
  predicate NoLater(inner: Option<Time>, outer: Option<Time>)
  {
    outer.Some? ==> inner.Some? && inner.value <= outer.value
  }

  /** A row sits properly in its folder: the folder exists, has the same owner, and was trashed no earlier. */
  predicate Sits(fs: map<Id, Folder>, owner: Id, holder: Option<Id>, deletedAt: Option<Time>)
  {
    holder.Some? ==>
      && holder.value in fs
      && fs[holder.value].owner == owner
      && NoLater(deletedAt, fs[holder.value].deletedAt)
  }

  predicate FolderSits(fs: map<Id, Folder>, f: Folder)
  {
    Sits(fs, f.owner, f.parent, f.deletedAt)
  }

  predicate BlobSits(fs: map<Id, Folder>, b: Blob)
  {
    Sits(fs, b.owner, b.folder, b.deletedAt)
  }

  /** Foreign keys, one owner per tree, trash closed downward, deletion times ordered along the tree. */
  ghost predicate WellPlaced(db: Db)
  {
    && (forall x :: x in db.folders ==> FolderSits(db.folders, db.folders[x]))
    && (forall b :: b in db.blobs ==> BlobSits(db.folders, db.blobs[b]))
  }

  ghost predicate NothingFromTheFuture(db: Db, now: Time)
  {
    && (forall x :: x in db.folders && db.folders[x].deletedAt.Some? ==> db.folders[x].deletedAt.value <= now)
    && (forall b :: b in db.blobs && db.blobs[b].deletedAt.Some? ==> db.blobs[b].deletedAt.value <= now)
  }

  /** The two partial unique indexes on live folders. */
  predicate NamesUnique(fs: map<Id, Folder>)
  {
    forall x, y :: x in fs && y in fs && x != y ==> !Clash(fs[x], fs[y])
  }

  predicate Clash(f: Folder, g: Folder)
  {
    f.deletedAt.None? && g.deletedAt.None? && f.owner == g.owner && f.parent == g.parent && f.name == g.name
  }

  predicate NameOk(name: string)
  {
    1 <= |name| <= 255
  }

  /** The check constraint on folder names. */
  ghost predicate NamesOk(fs: map<Id, Folder>)
  {
    forall x :: x in fs ==> NameOk(fs[x].name)
  }

  ghost predicate KeysOwn(db: Db)
  {
    forall b :: b in db.blobs ==> db.blobs[b].key == ObjectKey(db.blobs[b].owner, b)
  }

  /** No folder on a cycle of parents is in the trash. */
  ghost predicate TrashOffCycles(db: Db)
  {
    forall x :: TrashedFolder(db, x) ==> !OnCycle(Parents(db.folders), x)
  }

  /** What the keys, checks and indexes of the schema, the key format and the clock enforce by themselves. */
  ghost predicate Consistent(db: Db, now: Time)
  {
    ForeignKeys(db) && NamesUnique(db.folders) && NamesOk(db.folders) && KeysOwn(db) && NothingFromTheFuture(db, now)
  }

  /** And what the service has to see to: every row sits properly in its folder. Cycles of live folders are not excluded. */
  ghost predicate Placed(db: Db, now: Time)
  {
    Consistent(db, now) && WellPlaced(db) && TrashOffCycles(db)
  }

  ghost predicate Inv(db: Db, now: Time)
  {
    Placed(db, now) && Acyclic(Parents(db.folders))
  }

  // ---------- SQL statements ----------

  function FolderRow(u: Id, parent: Option<Id>, name: string): Folder
  {
    Folder(u, parent, name, None)
  }

  /** INSERT INTO folders, under the foreign key, the name check and the unique indexes. */
  function InsertFolder(db: Db, id: Id, u: Id, parent: Option<Id>, name: string): Result<Db>
  {
    if !NameOk(name) then Err(CheckViolation)
    else if parent.Some? && parent.value !in db.folders then Err(ForeignKeyViolation)
    else
      var fs := db.folders[id := FolderRow(u, parent, name)];
      if NamesUnique(fs) then Ok(db.(folders := fs)) else Err(FolderConflict)
  }

  /** UPDATE folders SET parent_id, guarded by owner and liveness. */
  function UpdateParent(db: Db, f: Id, u: Id, parent: Option<Id>): Result<Db>
  {
    if !Owned(db, f, u) then Err(FolderNotFound)
    else if parent.Some? && parent.value !in db.folders then Err(ForeignKeyViolation)
    else
      var fs := db.folders[f := db.folders[f].(parent := parent)];
      if NamesUnique(fs) then Ok(db.(folders := fs)) else Err(FolderConflict)
  }

  /** The two UPDATEs of TrashFolder. */
  function TrashRows(db: Db, ids: set<Id>, now: Time): Db
  {
    Db(map x | x in db.folders :: if x in ids then db.folders[x].(deletedAt := Some(now)) else db.folders[x],
       map b | b in db.blobs ::
         if BlobIn(db, b, ids) && db.blobs[b].deletedAt.None? then db.blobs[b].(deletedAt := Some(now))
         else db.blobs[b])
  }

  /** The two UPDATEs of RestoreFolder. */
  function RestoreRows(db: Db, ids: set<Id>, root: Id, parent: Option<Id>): Db
  {
    Db(map x | x in db.folders ::
         if x !in ids then db.folders[x]
         else if x == root then db.folders[x].(deletedAt := None, parent := parent)
         else db.folders[x].(deletedAt := None),
       map b | b in db.blobs ::
         if BlobIn(db, b, ids) then db.blobs[b].(deletedAt := None) else db.blobs[b])
  }

  /** UPDATE folders SET parent_id = NULL for the given rows. */
  function Detach(db: Db, ids: set<Id>): Db
  {
    db.(folders := map x | x in db.folders :: if x in ids then db.folders[x].(parent := None) else db.folders[x])
  }

  /** DELETE FROM stored_blobs for the given rows. */
  function DeleteBlobs(db: Db, ids: set<Id>): Db
  {
    db.(blobs := db.blobs - ids)
  }

  /** A row still names one of `ids` as its parent. */
  predicate Referenced(db: Db, ids: set<Id>)
  {
    exists x :: x in db.folders && db.folders[x].parent.Some? && db.folders[x].parent.value in ids
  }

  /** DELETE FROM folders: RESTRICT on child folders, SET NULL on blobs. */
  function DeleteFolders(db: Db, ids: set<Id>): Result<Db>
  {
    if Referenced(db, ids) then Err(ForeignKeyViolation)
    else Ok(Db(db.folders - ids,
               map b | b in db.blobs :: if BlobIn(db, b, ids) then db.blobs[b].(folder := None) else db.blobs[b]))
  }

  /** Blob rows whose folder is one of `ids`. */
  function BlobsIn(db: Db, ids: set<Id>): set<Id>
  {
    set b | b in db.blobs && BlobIn(db, b, ids)
  }

  /** The common tail of every hard delete: blobs, then detach under the unique root index, then folders. */
  function DeleteTree(db: Db, blobs: set<Id>, folders: set<Id>): Result<Db>
  {
    var detached := Detach(DeleteBlobs(db, blobs), folders);
    if !NamesUnique(detached.folders) then Err(UniqueViolation) else DeleteFolders(detached, folders)
  }

  // ---------- folder calls ----------

  function CreateFolder(db: Db, id: Id, u: Id, parent: Option<Id>, name: string): Result<Db>
  {
    if parent.Some? && !Owned(db, parent.value, u) then Err(FolderNotFound)
    else InsertFolder(db, id, u, parent, name)
  }

  function RenameFolder(db: Db, f: Id, u: Id, name: string): Result<Db>
  {
    if !Owned(db, f, u) then Err(FolderNotFound)
    else if !NameOk(name) then Err(CheckViolation)
    else
      var fs := db.folders[f := db.folders[f].(name := name)];
      if NamesUnique(fs) then Ok(db.(folders := fs)) else Err(FolderConflict)
  }

  /** The recursive search: live rows only, at most 100 levels, no user filter. */
  ghost predicate IsDescendantOf(db: Db, ancestor: Id, candidate: Id)
  {
    ancestor in db.folders && Within(LiveParents(db.folders), candidate, ancestor, MAX_SEARCH_DEPTH)
  }

  ghost function MoveFolder(db: Db, f: Id, u: Id, parent: Option<Id>): Result<Db>
  {
    if !Owned(db, f, u) then Err(FolderNotFound)
    else if parent.Some? && parent.value == f then Err(FolderCycle)
    else if parent.Some? && !Owned(db, parent.value, u) then Err(FolderNotFound)
    else if parent.Some? && IsDescendantOf(db, f, parent.value) then Err(FolderCycle)
    else UpdateParent(db, f, u, parent)
  }

  ghost function TrashFolder(db: Db, f: Id, u: Id, now: Time): Result<Db>
  {
    if !Owned(db, f, u) then Err(FolderNotFound)
    else if OnCycle(LiveParents(db.folders), f) then Err(DeadlineExceeded)  // the walk never ends
    else Ok(TrashRows(db, LiveSubtree(db.folders, f), now))
  }

  /** Where a restored folder goes: its old parent if that row is live, else the top level. */
  function RestoredParent(db: Db, f: Id): Option<Id>
    requires f in db.folders
  {
    var p := db.folders[f].parent;
    if p.Some? && LiveFolder(db, p.value) then p else None
  }

  ghost function RestoreFolder(db: Db, f: Id, u: Id): Result<Db>
  {
    if !OwnedTrash(db, f, u) then Err(FolderNotFound)
    else if OnCycle(Parents(db.folders), f) then Err(DeadlineExceeded)
    else
      var restored := RestoreRows(db, Subtree(db.folders, f), f, RestoredParent(db, f));
      // Unlike the other calls, this one passes the index violation on as it is.
      if NamesUnique(restored.folders) then Ok(restored) else Err(UniqueViolation)
  }

  ghost function HardDeleteFolder(db: Db, f: Id, u: Id): Result<Db>
  {
    if !OwnedTrash(db, f, u) then Err(FolderNotFound)
    else if OnCycle(Parents(db.folders), f) then Err(DeadlineExceeded)
    else
      var ids := Subtree(db.folders, f);
      DeleteTree(db, BlobsIn(db, ids), ids)
  }

  /** Trashed folders of one user. */
  function FolderTrashOf(db: Db, u: Id): set<Id>
  {
    set f | f in db.folders && OwnedTrash(db, f, u)
  }

  /** Trashed blobs of one user, wherever they sit. */
  function BlobTrashOf(db: Db, u: Id): set<Id>
  {
    set b | b in db.blobs && OwnedTrashBlob(db, b, u)
  }

  /** Blobs of user `u` in trashed folders of user `u`, trashed themselves or not. */
  function BlobsInTrashOf(db: Db, u: Id): set<Id>
  {
    set b | b in db.blobs && db.blobs[b].owner == u && BlobIn(db, b, FolderTrashOf(db, u))
  }

  function EmptyTrashedBlobs(db: Db, u: Id): Db
  {
    DeleteBlobs(db, BlobTrashOf(db, u))
  }

  function EmptyTrashedFolders(db: Db, u: Id): Result<Db>
  {
    DeleteTree(db, BlobsInTrashOf(db, u), FolderTrashOf(db, u))
  }

  function EmptyTrash(db: Db, u: Id): Result<Db>
  {
    EmptyTrashedFolders(EmptyTrashedBlobs(db, u), u)
  }

  /** Folders past the age limit, chosen by timestamp alone. */
  function ExpiredFolders(db: Db, before: Time): set<Id>
  {
    set f | f in db.folders && TrashedFolder(db, f) && db.folders[f].deletedAt.value < before
  }

  function ExpiredBlobs(db: Db, before: Time): set<Id>
  {
    set b | b in db.blobs && db.blobs[b].deletedAt.Some? && db.blobs[b].deletedAt.value < before
  }

  function PurgeExpiredBlobs(db: Db, before: Time): Db
  {
    DeleteBlobs(db, ExpiredBlobs(db, before))
  }

  function PurgeExpiredFolders(db: Db, before: Time): Result<Db>
  {
    var ids := ExpiredFolders(db, before);
    DeleteTree(db, BlobsIn(db, ids), ids)
  }

  function CleanExpiredTrash(db: Db, before: Time): Result<Db>
  {
    PurgeExpiredFolders(PurgeExpiredBlobs(db, before), before)
  }

  /** What ListTrashedFolders shows: trashed rows with no trashed parent row. */
  predicate ListedFolder(db: Db, f: Id, u: Id)
  {
    OwnedTrash(db, f, u) &&
    (db.folders[f].parent.None? || !TrashedFolder(db, db.folders[f].parent.value))
  }

  /** What ListTrashedBlobs shows. */
  predicate ListedBlob(db: Db, b: Id, u: Id)
  {
    OwnedTrashBlob(db, b, u) &&
    (db.blobs[b].folder.None? || !TrashedFolder(db, db.blobs[b].folder.value))
  }

  // ---------- blob calls ----------

  function RegisterBlob(db: Db, id: Id, row: Blob): Result<Db>
  {
    if row.folder.Some? && row.folder.value !in db.folders then Err(ForeignKeyViolation)
    else Ok(db.(blobs := db.blobs[id := row]))
  }

  /** UPDATE stored_blobs SET folder_id, guarded by owner and liveness of the blob only. */
  function UpdateBlobFolder(db: Db, b: Id, u: Id, folder: Option<Id>): Result<Db>
  {
    if !OwnedBlob(db, b, u) then Err(NotFound)
    else if folder.Some? && folder.value !in db.folders then Err(ForeignKeyViolation)
    else Ok(db.(blobs := db.blobs[b := db.blobs[b].(folder := folder)]))
  }

  function MoveBlob(db: Db, b: Id, u: Id, folder: Option<Id>): Result<Db>
  {
    if folder.Some? && !Owned(db, folder.value, u) then Err(FolderNotFound) else UpdateBlobFolder(db, b, u, folder)
  }

  function RenameBlob(db: Db, b: Id, u: Id, name: string): Result<Db>
  {
    if !OwnedBlob(db, b, u) then Err(NotFound)
    else Ok(db.(blobs := db.blobs[b := db.blobs[b].(name := name)]))
  }

  function TrashBlob(db: Db, b: Id, u: Id, now: Time): Result<Db>
  {
    if !OwnedBlob(db, b, u) then Err(NotFound)
    else Ok(db.(blobs := db.blobs[b := db.blobs[b].(deletedAt := Some(now))]))
  }

  function RestoreBlob(db: Db, b: Id, u: Id): Result<Db>
  {
    if !OwnedTrashBlob(db, b, u) then Err(NotFound)
    else
      var row := db.blobs[b];
      var folder := if row.folder.Some? && LiveFolder(db, row.folder.value) then row.folder else None;
      Ok(db.(blobs := db.blobs[b := row.(deletedAt := None, folder := folder)]))
  }

  function HardDeleteBlob(db: Db, b: Id, u: Id): Result<Db>
  {
    if !OwnedTrashBlob(db, b, u) then Err(NotFound) else Ok(DeleteBlobs(db, {b}))
  }

  function ConfirmBlobUpload(db: Db, b: Id, u: Id, actualSize: int, now: Time): Result<Db>
  {
    if !Pending(db, b, u) then Err(NotFound)
    else Ok(db.(blobs := db.blobs[b := db.blobs[b].(uploadedAt := Some(now), size := actualSize)]))
  }

  function AbortPendingBlob(db: Db, b: Id, u: Id): Result<Db>
  {
    if !Pending(db, b, u) then Err(NotFound) else Ok(DeleteBlobs(db, {b}))
  }

  /** Uploads never confirmed, not trashed, registered before the cutoff. */
  function OrphanedBlobs(db: Db, before: Time): set<Id>
  {
    set b | b in db.blobs && db.blobs[b].uploadedAt.None? && db.blobs[b].deletedAt.None? && db.blobs[b].createdAt < before
  }

  function PurgeOrphanedBlobs(db: Db, before: Time): Db
  {
    DeleteBlobs(db, OrphanedBlobs(db, before))
  }
}
