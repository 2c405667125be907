/**
 * The storage service under arbitrary interleaving: each step is one SQL
 * transaction or one object-store call, issued by any service call at any time.
 * The checks a service call makes in earlier queries are gone by then; what is
 * left of them is, property by property, the condition under which a statement
 * keeps it.
 */
module DriveStatements {
  import opened Prelude
  import opened Forest
  import opened Tables
  import opened TreeInvariants
  import opened Drive
  import Trash

  datatype Stmt =
    | Elapse(d: nat)
    | InsertFolderRow(id: Id, u: Id, parent: Option<Id>, name: string)
    | RenameFolderRow(f: Id, u: Id, name: string)
    | UpdateParentId(f: Id, u: Id, parent: Option<Id>)
    | TrashTree(f: Id, u: Id)
    | RestoreTree(f: Id, u: Id)
    | DeleteTrashedTree(f: Id, u: Id)
    | EmptyBlobs(u: Id)
    | EmptyFolders(u: Id)
    | PurgeBlobs(before: Time)
    | PurgeFolders(before: Time)
    | InsertBlobRow(id: Id, u: Id, folder: Option<Id>, name: string, size: int, uploadId: string)
    | UpdateFolderId(b: Id, u: Id, folder: Option<Id>)
    | RenameBlobRow(b: Id, u: Id, name: string)
    | TrashBlobRow(b: Id, u: Id)
    | RestoreBlobRow(b: Id, u: Id)
    | DeleteTrashedBlob(b: Id, u: Id)
    | DeletePendingBlob(b: Id, u: Id)
    | DeleteOrphans(before: Time)
    | ConfirmRow(b: Id, u: Id, size: int)
    | PutObject(key: ObjectKey)
    | RemoveObject(key: ObjectKey)

  function Committed(db: Db, r: Result<Db>): Db
  {
    if r.Ok? then r.value else db
  }

  function NewBlob(now: Time, stmt: Stmt): Blob
    requires stmt.InsertBlobRow?
  {
    Blob(stmt.u, stmt.folder, stmt.name, ObjectKey(stmt.u, stmt.id), stmt.size, stmt.uploadId, now, None, None)
  }

  /** What one statement does to the tables; a failed one is rolled back. */
  ghost function OnTables(db: Db, now: Time, stmt: Stmt): Db
  {
    match stmt
    case InsertFolderRow(id, u, parent, name) => Committed(db, InsertFolder(db, id, u, parent, name))
    case RenameFolderRow(f, u, name) => Committed(db, Tables.RenameFolder(db, f, u, name))
    case UpdateParentId(f, u, parent) => Committed(db, UpdateParent(db, f, u, parent))
    case TrashTree(f, u) => Committed(db, TrashFolder(db, f, u, now))
    case RestoreTree(f, u) => Committed(db, Tables.RestoreFolder(db, f, u))
    case DeleteTrashedTree(f, u) => Committed(db, Tables.HardDeleteFolder(db, f, u))
    case EmptyBlobs(u) => EmptyTrashedBlobs(db, u)
    case EmptyFolders(u) => Committed(db, EmptyTrashedFolders(db, u))
    case PurgeBlobs(before) => PurgeExpiredBlobs(db, before)
    case PurgeFolders(before) => Committed(db, PurgeExpiredFolders(db, before))
    case InsertBlobRow(id, _, _, _, _, _) => Committed(db, RegisterBlob(db, id, NewBlob(now, stmt)))
    case UpdateFolderId(b, u, folder) => Committed(db, UpdateBlobFolder(db, b, u, folder))
    case RenameBlobRow(b, u, name) => Committed(db, Tables.RenameBlob(db, b, u, name))
    case TrashBlobRow(b, u) => Committed(db, TrashBlob(db, b, u, now))
    case RestoreBlobRow(b, u) => Committed(db, Tables.RestoreBlob(db, b, u))
    case DeleteTrashedBlob(b, u) => Committed(db, Tables.HardDeleteBlob(db, b, u))
    case DeletePendingBlob(b, u) => Committed(db, AbortPendingBlob(db, b, u))
    case DeleteOrphans(before) => PurgeOrphanedBlobs(db, before)
    case ConfirmRow(b, u, size) => Committed(db, ConfirmBlobUpload(db, b, u, size, now))
    case _ => db
  }

  /** The ids a statement uses up. */
  function NewIds(stmt: Stmt): set<Id>
  {
    if stmt.InsertFolderRow? || stmt.InsertBlobRow? then {stmt.id} else {}
  }

  ghost function Exec(w: World, stmt: Stmt): World
  {
    var db' := OnTables(w.db, w.now, stmt);
    World(
      db',
      if stmt.PutObject? then w.objects + {stmt.key} else if stmt.RemoveObject? then w.objects - {stmt.key} else w.objects,
      if stmt.Elapse? then w.now + stmt.d else w.now,
      w.issued + NewIds(stmt),
      if stmt.ConfirmRow? && Pending(w.db, stmt.b, stmt.u) then w.confirmed + [stmt.b] else w.confirmed,
      w.retired + KeysGone(w.db, db'))
  }

  /** uuid.New is fresh; nothing else is assumed. */
  predicate Possible(w: World, stmt: Stmt)
  {
    NewIds(stmt) !! w.issued
  }

  predicate Places(stmt: Stmt)
  {
    stmt.InsertFolderRow? || stmt.UpdateParentId? || stmt.InsertBlobRow? || stmt.UpdateFolderId?
  }

  predicate DropsRows(stmt: Stmt)
  {
    stmt.DeleteTrashedTree? || stmt.EmptyBlobs? || stmt.EmptyFolders? || stmt.PurgeBlobs? || stmt.PurgeFolders? ||
    stmt.DeleteTrashedBlob? || stmt.DeletePendingBlob? || stmt.DeleteOrphans?
  }

  // ---------- interleavings ----------

  ghost function ExecAll(w: World, stmts: seq<Stmt>): World
    decreases stmts
  {
    if stmts == [] then w else ExecAll(Exec(w, stmts[0]), stmts[1..])
  }

  ghost predicate PossibleRun(w: World, stmts: seq<Stmt>)
    decreases stmts
  {
    stmts == [] || (Possible(w, stmts[0]) && PossibleRun(Exec(w, stmts[0]), stmts[1..]))
  }

  /** `P` holds now and after each statement. */
  ghost predicate Always(P: World -> bool, w: World, stmts: seq<Stmt>)
    decreases stmts
  {
    P(w) && (stmts == [] || Always(P, Exec(w, stmts[0]), stmts[1..]))
  }

  /** Each statement meets its condition when it comes to be executed. */
  ghost predicate Each(G: (World, Stmt) -> bool, w: World, stmts: seq<Stmt>)
    decreases stmts
  {
    stmts == [] || (G(w, stmts[0]) && Each(G, Exec(w, stmts[0]), stmts[1..]))
  }

  /** An exact condition on single statements is one on interleavings. */
  lemma {:induction false} AlwaysIff(P: World -> bool, G: (World, Stmt) -> bool, w: World, stmts: seq<Stmt>)
    requires Kept(w) && P(w) && PossibleRun(w, stmts)
    requires forall v, stmt :: Kept(v) && P(v) && Possible(v, stmt) ==> (P(Exec(v, stmt)) <==> G(v, stmt))
    ensures Always(P, w, stmts) <==> Each(G, w, stmts)
    decreases stmts
  {
    if stmts != [] {
      ExecKeeps(w, stmts[0]);
      if P(Exec(w, stmts[0])) {
        AlwaysIff(P, G, Exec(w, stmts[0]), stmts[1..]);
      }
    }
  }

  lemma {:induction false} AlwaysEnd(P: World -> bool, w: World, stmts: seq<Stmt>)
    requires Always(P, w, stmts)
    ensures P(ExecAll(w, stmts))
    decreases stmts
  {
    if stmts != [] {
      AlwaysEnd(P, Exec(w, stmts[0]), stmts[1..]);
    }
  }

  // ---------- what every statement keeps, unconditionally ----------

  /** The schema's guarantees, and what the history records. */
  ghost predicate Kept(w: World)
  {
    Consistent(w.db, w.now) && IdsIssued(w) && ConfirmedOnce(w) && RetiredGone(w)
  }

  /** Rows went; no other row changed, but for blobs that lost their folder. */
  ghost predicate Survivors(db: Db, db': Db)
  {
    && (forall x :: x in db'.folders ==> x in db.folders && db'.folders[x] == db.folders[x])
    && (forall b :: b in db'.blobs ==> b in db.blobs && db'.blobs[b] == db.blobs[b].(folder := db'.blobs[b].folder))
  }

  lemma DeleteTreeSurvivors(db: Db, blobs: set<Id>, folders: set<Id>)
    requires DeleteTree(db, blobs, folders).Ok?
    ensures Survivors(db, DeleteTree(db, blobs, folders).value)
    ensures ForeignKeys(db) ==> ForeignKeys(DeleteTree(db, blobs, folders).value)
  {
    var detached := Detach(DeleteBlobs(db, blobs), folders);
    var db' := DeleteTree(db, blobs, folders).value;
    if ForeignKeys(db) {
      forall x | x in db'.folders ensures Exists(db'.folders, db'.folders[x].parent) {
        assert detached.folders[x] == db.folders[x] && Exists(db.folders, db.folders[x].parent);
      }
      forall b | b in db'.blobs ensures Exists(db'.folders, db'.blobs[b].folder) {
        assert Exists(db.folders, db.blobs[b].folder);
      }
    }
  }

  lemma DropsSurvivors(db: Db, now: Time, stmt: Stmt)
    requires DropsRows(stmt)
    ensures Survivors(db, OnTables(db, now, stmt))
    ensures ForeignKeys(db) ==> ForeignKeys(OnTables(db, now, stmt))
  {
    match stmt
    case DeleteTrashedTree(f, u) =>
      if Tables.HardDeleteFolder(db, f, u).Ok? {
        DeleteTreeSurvivors(db, BlobsIn(db, Subtree(db.folders, f)), Subtree(db.folders, f));
      }
    case EmptyFolders(u) =>
      if EmptyTrashedFolders(db, u).Ok? { DeleteTreeSurvivors(db, BlobsInTrashOf(db, u), FolderTrashOf(db, u)); }
    case PurgeFolders(before) =>
      if PurgeExpiredFolders(db, before).Ok? {
        DeleteTreeSurvivors(db, BlobsIn(db, ExpiredFolders(db, before)), ExpiredFolders(db, before));
      }
    case _ =>
  }

  lemma SurvivorsConsistent(db: Db, db': Db, now: Time)
    requires Consistent(db, now) && Survivors(db, db') && ForeignKeys(db')
    ensures Consistent(db', now)
  {
  }

  lemma TrashKeepsConsistent(db: Db, now: Time, f: Id, u: Id)
    requires Consistent(db, now)
    ensures Consistent(OnTables(db, now, TrashTree(f, u)), now)
  {
    var db' := OnTables(db, now, TrashTree(f, u));
    forall x | x in db'.folders ensures Exists(db'.folders, db'.folders[x].parent) {
      assert Exists(db.folders, db.folders[x].parent);
    }
    forall b | b in db'.blobs ensures Exists(db'.folders, db'.blobs[b].folder) {
      assert Exists(db.folders, db.blobs[b].folder);
    }
  }

  lemma RestoreKeepsConsistent(db: Db, now: Time, f: Id, u: Id)
    requires Consistent(db, now)
    ensures Consistent(OnTables(db, now, RestoreTree(f, u)), now)
  {
    var db' := OnTables(db, now, RestoreTree(f, u));
    forall x | x in db'.folders ensures Exists(db'.folders, db'.folders[x].parent) {
      assert Exists(db.folders, db.folders[x].parent);
    }
    forall b | b in db'.blobs ensures Exists(db'.folders, db'.blobs[b].folder) {
      assert Exists(db.folders, db.blobs[b].folder);
    }
  }

  lemma FolderRowKeepsConsistent(db: Db, now: Time, stmt: Stmt)
    requires Consistent(db, now) && (stmt.InsertFolderRow? || stmt.RenameFolderRow? || stmt.UpdateParentId?)
    ensures Consistent(OnTables(db, now, stmt), now)
  {
    var db' := OnTables(db, now, stmt);
    forall x | x in db'.folders ensures Exists(db'.folders, db'.folders[x].parent) {
      assert x in db.folders ==> Exists(db.folders, db.folders[x].parent);
    }
    forall b | b in db'.blobs ensures Exists(db'.folders, db'.blobs[b].folder) {
      assert Exists(db.folders, db.blobs[b].folder);
    }
  }

  lemma PutBlobKeepsConsistent(db: Db, b: Id, row: Blob, now: Time)
    requires Consistent(db, now) && row.key == ObjectKey(row.owner, b) && Exists(db.folders, row.folder)
    requires row.deletedAt.Some? ==> row.deletedAt.value <= now
    ensures Consistent(db.(blobs := db.blobs[b := row]), now)
  {
  }

  lemma BlobRowKeepsConsistent(db: Db, now: Time, stmt: Stmt)
    requires Consistent(db, now)
    requires stmt.InsertBlobRow? || stmt.UpdateFolderId? || stmt.RenameBlobRow? || stmt.TrashBlobRow? ||
             stmt.RestoreBlobRow? || stmt.ConfirmRow?
    ensures Consistent(OnTables(db, now, stmt), now)
  {
    var db' := OnTables(db, now, stmt);
    if db' != db {
      var b := if stmt.InsertBlobRow? then stmt.id else stmt.b;
      assert b in db.blobs ==> Exists(db.folders, db.blobs[b].folder);
      PutBlobKeepsConsistent(db, b, db'.blobs[b], now);
      assert db' == db.(blobs := db.blobs[b := db'.blobs[b]]);
    }
  }

  lemma ExecKeepsConsistent(w: World, stmt: Stmt)
    requires Consistent(w.db, w.now)
    ensures Consistent(Exec(w, stmt).db, Exec(w, stmt).now)
  {
    if DropsRows(stmt) {
      DropsSurvivors(w.db, w.now, stmt);
      SurvivorsConsistent(w.db, OnTables(w.db, w.now, stmt), w.now);
    } else if stmt.TrashTree? {
      TrashKeepsConsistent(w.db, w.now, stmt.f, stmt.u);
    } else if stmt.RestoreTree? {
      RestoreKeepsConsistent(w.db, w.now, stmt.f, stmt.u);
    } else if stmt.InsertFolderRow? || stmt.RenameFolderRow? || stmt.UpdateParentId? {
      FolderRowKeepsConsistent(w.db, w.now, stmt);
    } else if !stmt.PutObject? && !stmt.RemoveObject? && !stmt.Elapse? {
      BlobRowKeepsConsistent(w.db, w.now, stmt);
    }
  }

  /** Rows keep the ids they came with, and a confirmed row stays confirmed. */
  ghost predicate Follows(w: World, db': Db, added: set<Id>)
  {
    && (forall x :: x in db'.folders ==> x in w.db.folders || x in added)
    && (forall b :: b in db'.blobs ==> b in w.db.blobs || b in added)
    && (forall b :: b in db'.blobs && b in w.db.blobs && w.db.blobs[b].uploadedAt.Some? ==> db'.blobs[b].uploadedAt.Some?)
  }

  lemma ExecFollows(w: World, stmt: Stmt)
    requires IdsIssued(w) && Possible(w, stmt)
    ensures Follows(w, OnTables(w.db, w.now, stmt), NewIds(stmt))
  {
    if DropsRows(stmt) {
      DropsSurvivors(w.db, w.now, stmt);
    }
  }

  /** No upload is confirmed twice and no handed-out key belongs to a row again, whatever statement comes in whatever state. */
  lemma ExecKeepsHistory(w: World, stmt: Stmt)
    requires KeysOwn(w.db) && IdsIssued(w) && ConfirmedOnce(w) && RetiredGone(w) && Possible(w, stmt)
    ensures IdsIssued(Exec(w, stmt)) && ConfirmedOnce(Exec(w, stmt)) && RetiredGone(Exec(w, stmt))
  {
    ExecFollows(w, stmt);
    if stmt.ConfirmRow? && Pending(w.db, stmt.b, stmt.u) {
      assert stmt.b !in w.confirmed;
    }
  }

  lemma ExecKeeps(w: World, stmt: Stmt)
    requires Kept(w) && Possible(w, stmt)
    ensures Kept(Exec(w, stmt))
  {
    ExecKeepsConsistent(w, stmt);
    ExecKeepsHistory(w, stmt);
  }

  /** In every interleaving, with no condition but fresh ids; handed-out keys are never forgotten. */
  lemma {:induction false} InterleavingKeeps(w: World, stmts: seq<Stmt>)
    requires Kept(w) && PossibleRun(w, stmts)
    ensures Kept(ExecAll(w, stmts)) && w.retired <= ExecAll(w, stmts).retired
    decreases stmts
  {
    if stmts != [] {
      ExecKeeps(w, stmts[0]);
      InterleavingKeeps(Exec(w, stmts[0]), stmts[1..]);
    }
  }

  lemma EmptyIsKept()
    ensures Kept(Empty) && RowsPlaced(Empty) && NoCycles(Empty) && Backed(Empty)
  {
  }

  // ---------- placement ----------

  ghost predicate RowsPlaced(w: World)
  {
    Placed(w.db, w.now)
  }

  /** A statement that places a row finds its target live and its owner's own. */
  ghost predicate FindsPlace(w: World, stmt: Stmt)
  {
    match stmt
    case InsertFolderRow(id, u, parent, name) =>
      InsertFolder(w.db, id, u, parent, name).Ok? && parent.Some? ==> Owned(w.db, parent.value, u)
    case UpdateParentId(f, u, parent) =>
      UpdateParent(w.db, f, u, parent).Ok? && parent.Some? ==> Owned(w.db, parent.value, u)
    case InsertBlobRow(id, u, folder, name, size, uploadId) =>
      folder.Some? && folder.value in w.db.folders ==> Owned(w.db, folder.value, u)
    case UpdateFolderId(b, u, folder) =>
      UpdateBlobFolder(w.db, b, u, folder).Ok? && folder.Some? ==> Owned(w.db, folder.value, u)
    case _ => true
  }

  lemma PlacingKeepsPlacedIff(w: World, stmt: Stmt)
    requires Placed(w.db, w.now) && Places(stmt)
    requires stmt.InsertFolderRow? ==> stmt.id !in w.db.folders
    ensures Placed(OnTables(w.db, w.now, stmt), w.now) <==> FindsPlace(w, stmt)
  {
    var db, now := w.db, w.now;
    match stmt
    case InsertFolderRow(id, u, parent, name) =>
      if InsertFolder(db, id, u, parent, name).Ok? { InsertFolderKeepsPlacedIff(db, id, u, parent, name, now); }
    case UpdateParentId(f, u, parent) =>
      if UpdateParent(db, f, u, parent).Ok? { UpdateParentKeepsPlacedIff(db, f, u, parent, now); }
    case InsertBlobRow(id, _, _, _, _, _) =>
      if RegisterBlob(db, id, NewBlob(now, stmt)).Ok? { PutLiveBlobKeepsPlacedIff(db, id, NewBlob(now, stmt), now); }
    case UpdateFolderId(b, u, folder) =>
      if UpdateBlobFolder(db, b, u, folder).Ok? { PutLiveBlobKeepsPlacedIff(db, b, db.blobs[b].(folder := folder), now); }
  }

  /** The folder half of emptying the trash, on its own and in any state: no key is tripped and only trash goes. */
  lemma EmptyFoldersExact(db: Db, u: Id, now: Time)
    requires Placed(db, now)
    ensures EmptyTrashedFolders(db, u) == Ok(Db(db.folders - FolderTrashOf(db, u), db.blobs - BlobsInTrashOf(db, u)))
    ensures forall b :: b in BlobsInTrashOf(db, u) ==> b in BlobTrashOf(db, u)
    ensures Placed(EmptyTrashedFolders(db, u).value, now)
  {
    Trash.TrashClosedDown(db, u);
    assert BlobsIn(db, FolderTrashOf(db, u)) <= BlobsInTrashOf(db, u);
    Trash.DeleteTreeFromPlaced(db, BlobsInTrashOf(db, u), FolderTrashOf(db, u), now);
  }

  /** The folder half of the age purge likewise. */
  lemma PurgeFoldersExact(db: Db, before: Time, now: Time)
    requires Placed(db, now)
    ensures var ids := ExpiredFolders(db, before);
      && PurgeExpiredFolders(db, before) == Ok(Db(db.folders - ids, db.blobs - BlobsIn(db, ids)))
      && (forall b :: b in BlobsIn(db, ids) ==> b in ExpiredBlobs(db, before))
      && Placed(PurgeExpiredFolders(db, before).value, now)
  {
    Trash.ExpiredClosedDown(db, before);
    Trash.DeleteTreeFromPlaced(db, BlobsIn(db, ExpiredFolders(db, before)), ExpiredFolders(db, before), now);
  }

  /** Rows went, none changed, and no live upload was among them. */
  ghost predicate OnlyDrops(db: Db, db': Db)
  {
    && (forall x :: x in db'.folders ==> x in db.folders)
    && (forall b :: b in db'.blobs ==> b in db.blobs && db'.blobs[b] == db.blobs[b])
    && (forall b :: LiveUpload(db, b) ==> LiveUpload(db', b))
  }

  lemma DropRows(db: Db, folders: set<Id>, blobs: set<Id>)
    requires forall b :: b in blobs ==> !LiveUpload(db, b)
    ensures OnlyDrops(db, Db(db.folders - folders, db.blobs - blobs))
  {
  }

  lemma DropBlobs(db: Db, blobs: set<Id>, now: Time)
    requires Placed(db, now) && forall b :: b in blobs ==> !LiveUpload(db, b)
    ensures Placed(DeleteBlobs(db, blobs), now) && OnlyDrops(db, DeleteBlobs(db, blobs))
  {
    DeleteBlobsKeepsPlaced(db, blobs, now);
  }

  lemma DropTree(db: Db, now: Time, f: Id, u: Id)
    requires Placed(db, now) && OwnedTrash(db, f, u)
    ensures Tables.HardDeleteFolder(db, f, u).Ok?
    ensures var db' := Tables.HardDeleteFolder(db, f, u).value; Placed(db', now) && OnlyDrops(db, db')
  {
    var ids := Subtree(db.folders, f);
    HardDeleteFolderKeepsPlaced(db, f, u, now);
    SubtreeFacts(db, f);
    forall b | b in BlobsIn(db, ids) ensures !LiveUpload(db, b) {
      assert BlobSits(db.folders, db.blobs[b]);
    }
    DropRows(db, ids, BlobsIn(db, ids));
  }

  lemma DropFolders(db: Db, now: Time, u: Id, before: Time)
    requires Placed(db, now)
    ensures EmptyTrashedFolders(db, u).Ok? && PurgeExpiredFolders(db, before).Ok?
    ensures var db' := EmptyTrashedFolders(db, u).value; Placed(db', now) && OnlyDrops(db, db')
    ensures var db' := PurgeExpiredFolders(db, before).value; Placed(db', now) && OnlyDrops(db, db')
  {
    EmptyFoldersExact(db, u, now);
    DropRows(db, FolderTrashOf(db, u), BlobsInTrashOf(db, u));
    PurgeFoldersExact(db, before, now);
    DropRows(db, ExpiredFolders(db, before), BlobsIn(db, ExpiredFolders(db, before)));
  }

  /** Every deleting statement, whenever it comes, keeps the rest in place and spares what is live. */
  lemma DroppingKeepsPlaced(db: Db, now: Time, stmt: Stmt)
    requires Placed(db, now) && DropsRows(stmt)
    ensures Placed(OnTables(db, now, stmt), now) && OnlyDrops(db, OnTables(db, now, stmt))
  {
    match stmt
    case DeleteTrashedTree(f, u) => if OwnedTrash(db, f, u) { DropTree(db, now, f, u); }
    case EmptyFolders(u) => DropFolders(db, now, u, 0);
    case PurgeFolders(before) => DropFolders(db, now, NIL, before);
    case _ => DropBlobRows(db, now, stmt);
  }

  lemma DropBlobRows(db: Db, now: Time, stmt: Stmt)
    requires Placed(db, now) && DropsRows(stmt) && !stmt.DeleteTrashedTree? && !stmt.EmptyFolders? && !stmt.PurgeFolders?
    ensures Placed(OnTables(db, now, stmt), now) && OnlyDrops(db, OnTables(db, now, stmt))
  {
    match stmt
    case EmptyBlobs(u) => DropBlobs(db, BlobTrashOf(db, u), now);
    case PurgeBlobs(before) => DropBlobs(db, ExpiredBlobs(db, before), now);
    case DeleteOrphans(before) => DropBlobs(db, OrphanedBlobs(db, before), now);
    case DeleteTrashedBlob(b, u) => if OwnedTrashBlob(db, b, u) { DropBlobs(db, {b}, now); }
    case DeletePendingBlob(b, u) => if Pending(db, b, u) { DropBlobs(db, {b}, now); }
  }

  lemma OtherKeepsPlaced(db: Db, now: Time, stmt: Stmt)
    requires Placed(db, now) && !Places(stmt) && !DropsRows(stmt)
    ensures Placed(OnTables(db, now, stmt), now)
  {
    match stmt
    case RenameFolderRow(f, u, name) =>
      if Tables.RenameFolder(db, f, u, name).Ok? { RenameFolderKeepsPlaced(db, f, u, name, now); }
    case TrashTree(f, u) => if TrashFolder(db, f, u, now).Ok? { TrashFolderKeepsPlaced(db, f, u, now); }
    case RestoreTree(f, u) => if Tables.RestoreFolder(db, f, u).Ok? { RestoreFolderKeepsPlaced(db, f, u, now); }
    case _ => BlobUpdateKeepsPlaced(db, now, stmt);
  }

  lemma BlobUpdateKeepsPlaced(db: Db, now: Time, stmt: Stmt)
    requires Placed(db, now)
    requires stmt.RenameBlobRow? || stmt.TrashBlobRow? || stmt.RestoreBlobRow? || stmt.ConfirmRow? ||
             stmt.PutObject? || stmt.RemoveObject? || stmt.Elapse?
    ensures Placed(OnTables(db, now, stmt), now)
  {
    var db' := OnTables(db, now, stmt);
    if stmt.RenameBlobRow? || stmt.TrashBlobRow? || stmt.RestoreBlobRow? || stmt.ConfirmRow? {
      if db' != db {
        var b := stmt.b;
        assert BlobSits(db.folders, db.blobs[b]);
        PutBlobKeepsPlaced(db, b, db'.blobs[b], now);
        assert db' == db.(blobs := db.blobs[b := db'.blobs[b]]);
      }
    }
  }

  /** Exact, statement by statement: all rows stay in place if and only if the statement finds its place. */
  lemma ExecKeepsPlacedIff(w: World, stmt: Stmt)
    requires RowsPlaced(w) && IdsIssued(w) && Possible(w, stmt)
    ensures RowsPlaced(Exec(w, stmt)) <==> FindsPlace(w, stmt)
  {
    if Places(stmt) {
      PlacingKeepsPlacedIff(w, stmt);
    } else if DropsRows(stmt) {
      DroppingKeepsPlaced(w.db, w.now, stmt);
    } else {
      OtherKeepsPlaced(w.db, w.now, stmt);
    }
  }

  /**
   * For every interleaving: all rows sit in place throughout if and only if each
   * placing statement finds its place when it comes.
   */
  lemma InterleavingPlacedIff(w: World, stmts: seq<Stmt>)
    requires Kept(w) && RowsPlaced(w) && PossibleRun(w, stmts)
    ensures Always(RowsPlaced, w, stmts) <==> Each(FindsPlace, w, stmts)
  {
    forall v, stmt | Kept(v) && RowsPlaced(v) && Possible(v, stmt) ensures RowsPlaced(Exec(v, stmt)) <==> FindsPlace(v, stmt) {
      ExecKeepsPlacedIff(v, stmt);
    }
    AlwaysIff(RowsPlaced, FindsPlace, w, stmts);
  }

  // ---------- cycles ----------

  ghost predicate NoCycles(w: World)
  {
    Acyclic(Parents(w.db.folders))
  }

  /** A change of parent puts no folder below itself. */
  ghost predicate ClosesNoCycle(w: World, stmt: Stmt)
  {
    stmt.UpdateParentId? && UpdateParent(w.db, stmt.f, stmt.u, stmt.parent).Ok? && stmt.parent.Some? ==>
      !Under(Parents(w.db.folders), stmt.parent.value, stmt.f)
  }

  /** All statements but two only ever take parents away. */
  lemma OthersShrinkParents(db: Db, now: Time, stmt: Stmt)
    requires !stmt.InsertFolderRow? && !stmt.UpdateParentId?
    ensures forall x :: OnCycle(Parents(OnTables(db, now, stmt).folders), x) ==> OnCycle(Parents(db.folders), x)
  {
    if DropsRows(stmt) {
      DropsSurvivors(db, now, stmt);
    }
    CyclesShrink(Parents(OnTables(db, now, stmt).folders), Parents(db.folders));
  }

  /** Exact, statement by statement, in whatever state the rows are otherwise. */
  lemma ExecKeepsAcyclicIff(w: World, stmt: Stmt)
    requires NoCycles(w) && ForeignKeys(w.db) && IdsIssued(w) && Possible(w, stmt)
    ensures NoCycles(Exec(w, stmt)) <==> ClosesNoCycle(w, stmt)
  {
    match stmt
    case InsertFolderRow(id, u, parent, name) =>
      if InsertFolder(w.db, id, u, parent, name).Ok? { InsertClosesNoCycle(w.db, id, u, parent, name); }
    case UpdateParentId(f, u, parent) =>
      if UpdateParent(w.db, f, u, parent).Ok? { UpdateParentKeepsAcyclicIff(w.db, f, u, parent); }
    case _ => OthersShrinkParents(w.db, w.now, stmt);
  }

  /** For every interleaving: there is never a cycle if and only if no change of parent puts a folder below itself. */
  lemma InterleavingAcyclicIff(w: World, stmts: seq<Stmt>)
    requires Kept(w) && NoCycles(w) && PossibleRun(w, stmts)
    ensures Always(NoCycles, w, stmts) <==> Each(ClosesNoCycle, w, stmts)
  {
    forall v, stmt | Kept(v) && NoCycles(v) && Possible(v, stmt) ensures NoCycles(Exec(v, stmt)) <==> ClosesNoCycle(v, stmt) {
      ExecKeepsAcyclicIff(v, stmt);
    }
    AlwaysIff(NoCycles, ClosesNoCycle, w, stmts);
  }

  // ---------- the objects ----------

  /** Every live uploaded row has its object. Between RemoveObject and the row delete a trashed row may lack it. */
  ghost predicate LiveBacked(w: World)
  {
    forall b :: LiveUpload(w.db, b) ==> w.db.blobs[b].key in w.objects
  }

  /** A confirmation or restore finds the objects of the rows it brings to life; a removal hits no live upload. */
  ghost predicate FindsObjects(w: World, stmt: Stmt)
  {
    match stmt
    case ConfirmRow(b, u, _) => Pending(w.db, b, u) ==> w.db.blobs[b].key in w.objects
    case RestoreBlobRow(b, u) =>
      OwnedTrashBlob(w.db, b, u) && w.db.blobs[b].uploadedAt.Some? ==> w.db.blobs[b].key in w.objects
    case RestoreTree(f, u) =>
      Tables.RestoreFolder(w.db, f, u).Ok? ==>
        forall b :: BlobIn(w.db, b, Subtree(w.db.folders, f)) && w.db.blobs[b].uploadedAt.Some? ==>
          w.db.blobs[b].key in w.objects
    case RemoveObject(key) => LiveUpload(w.db, key.blob) ==> w.db.blobs[key.blob].key != key
    case _ => true
  }

  predicate BringsToLife(stmt: Stmt)
  {
    stmt.ConfirmRow? || stmt.RestoreBlobRow? || stmt.RestoreTree? || stmt.RemoveObject?
  }

  /** Exact, statement by statement, in whatever state the tree is. */
  lemma ExecKeepsBackedIff(w: World, stmt: Stmt)
    requires KeysOwn(w.db) && IdsIssued(w) && LiveBacked(w) && Possible(w, stmt)
    ensures LiveBacked(Exec(w, stmt)) <==> FindsObjects(w, stmt)
  {
    var w' := Exec(w, stmt);
    if DropsRows(stmt) {
      DropsSurvivors(w.db, w.now, stmt);
      forall b | LiveUpload(w'.db, b) ensures w'.db.blobs[b].key in w'.objects {
        assert LiveUpload(w.db, b);
      }
    } else if !BringsToLife(stmt) {
      NothingComesToLife(w.db, w.now, stmt);
      forall b | LiveUpload(w'.db, b) ensures w'.db.blobs[b].key in w'.objects {
        assert LiveUpload(w.db, b);
      }
    } else if stmt.RestoreTree? {
      RestoreBackedIff(w, stmt.f, stmt.u);
    } else if stmt.RemoveObject? {
      RemovalBackedIff(w, stmt.key);
    } else {
      var b := stmt.b;
      forall c | LiveUpload(w'.db, c) && c != b ensures w'.db.blobs[c].key in w'.objects {
        assert LiveUpload(w.db, c) && w'.db.blobs[c] == w.db.blobs[c];
      }
      if !FindsObjects(w, stmt) {
        assert LiveUpload(w'.db, b);
      }
    }
  }

  lemma NothingComesToLife(db: Db, now: Time, stmt: Stmt)
    requires !DropsRows(stmt) && !BringsToLife(stmt)
    requires stmt.InsertBlobRow? ==> stmt.id !in db.blobs
    ensures forall b :: LiveUpload(OnTables(db, now, stmt), b) ==>
              LiveUpload(db, b) && OnTables(db, now, stmt).blobs[b].key == db.blobs[b].key
  {
  }

  lemma RestoreBackedIff(w: World, f: Id, u: Id)
    requires LiveBacked(w)
    ensures LiveBacked(Exec(w, RestoreTree(f, u))) <==> FindsObjects(w, RestoreTree(f, u))
  {
    var w' := Exec(w, RestoreTree(f, u));
    var ids := Subtree(w.db.folders, f);
    if Tables.RestoreFolder(w.db, f, u).Ok? {
      forall b ensures LiveUpload(w'.db, b) <==>
          b in w.db.blobs && w.db.blobs[b].uploadedAt.Some? && (BlobIn(w.db, b, ids) || w.db.blobs[b].deletedAt.None?)
      {
      }
      if !FindsObjects(w, RestoreTree(f, u)) {
        var b :| BlobIn(w.db, b, ids) && w.db.blobs[b].uploadedAt.Some? && w.db.blobs[b].key !in w.objects;
        assert LiveUpload(w'.db, b) && w'.db.blobs[b].key == w.db.blobs[b].key;
      }
    }
  }

  lemma RemovalBackedIff(w: World, key: ObjectKey)
    requires KeysOwn(w.db) && LiveBacked(w)
    ensures LiveBacked(Exec(w, RemoveObject(key))) <==> FindsObjects(w, RemoveObject(key))
  {
    var w' := Exec(w, RemoveObject(key));
    forall b | LiveUpload(w.db, b) && w.db.blobs[b].key == key ensures b == key.blob {
    }
    if !FindsObjects(w, RemoveObject(key)) {
      assert LiveUpload(w'.db, key.blob);
    }
  }

  /** For every interleaving: live uploads always have their objects if and only if each statement finds the objects it needs. */
  lemma InterleavingBackedIff(w: World, stmts: seq<Stmt>)
    requires Kept(w) && LiveBacked(w) && PossibleRun(w, stmts)
    ensures Always(LiveBacked, w, stmts) <==> Each(FindsObjects, w, stmts)
  {
    forall v, stmt | Kept(v) && LiveBacked(v) && Possible(v, stmt) ensures LiveBacked(Exec(v, stmt)) <==> FindsObjects(v, stmt) {
      ExecKeepsBackedIff(v, stmt);
    }
    AlwaysIff(LiveBacked, FindsObjects, w, stmts);
  }

  /** A key handed out by a row delete may be removed at any later time of any interleaving: it hits no live upload. */
  lemma HandedOutKeysAreSafe(w: World, stmts: seq<Stmt>, key: ObjectKey)
    requires Kept(w) && PossibleRun(w, stmts) && key in w.retired
    ensures var later := ExecAll(w, stmts);
      && FindsObjects(later, RemoveObject(key))
      && forall b :: b in later.db.blobs ==> later.db.blobs[b].key != key
  {
    InterleavingKeeps(w, stmts);
  }

  // ---------- purge and survival ----------

  /** With all rows in place either half of the purge goes through and deletes exactly old trash, cycles or not. */
  lemma PurgeSafe(db: Db, before: Time, now: Time)
    requires Placed(db, now)
    ensures var ids := ExpiredFolders(db, before);
      && PurgeExpiredFolders(db, before) == Ok(Db(db.folders - ids, db.blobs - BlobsIn(db, ids)))
      && (forall b :: b in BlobsIn(db, ids) ==> b in ExpiredBlobs(db, before))
      && Tables.CleanExpiredTrash(db, before) == Ok(Db(db.folders - ids, db.blobs - ExpiredBlobs(db, before)))
      && (forall f, x :: f in ids && x in Subtree(db.folders, f) ==> x in ids)
  {
    PurgeFoldersExact(db, before, now);
    Trash.CleanExpiredTrashExact(db, before, now);
    forall f, x | f in ExpiredFolders(db, before) && x in Subtree(db.folders, f) ensures x in ExpiredFolders(db, before) {
      Trash.PurgeTakesSubtrees(db, before, now, f);
    }
  }

  /**
   * After any interleaving in which each placing statement found its target live
   * and its owner's own, either half of the age purge, whenever it comes, goes
   * through and deletes whole subtrees of old trash, nothing live. Moves that
   * close cycles do not matter.
   */
  lemma PurgeSafeInterleaved(stmts: seq<Stmt>, before: Time)
    requires PossibleRun(Empty, stmts) && Each(FindsPlace, Empty, stmts)
    ensures var w := ExecAll(Empty, stmts);
      var ids := ExpiredFolders(w.db, before);
      && PurgeExpiredFolders(w.db, before) == Ok(Db(w.db.folders - ids, w.db.blobs - BlobsIn(w.db, ids)))
      && (forall b :: b in BlobsIn(w.db, ids) ==> b in ExpiredBlobs(w.db, before))
      && Tables.CleanExpiredTrash(w.db, before) == Ok(Db(w.db.folders - ids, w.db.blobs - ExpiredBlobs(w.db, before)))
      && (forall f, x :: f in ids && x in Subtree(w.db.folders, f) ==> x in ids)
  {
    EmptyIsKept();
    InterleavingPlacedIff(Empty, stmts);
    AlwaysEnd(RowsPlaced, Empty, stmts);
    var w := ExecAll(Empty, stmts);
    PurgeSafe(w.db, before, w.now);
  }

  predicate IntoTrash(stmt: Stmt)
  {
    stmt.TrashTree? || stmt.TrashBlobRow?
  }

  /** A live upload with its object. */
  ghost predicate Safe(w: World, b: Id)
  {
    LiveUpload(w.db, b) && w.db.blobs[b].key in w.objects
  }

  lemma ExecSparesLive(w: World, stmt: Stmt, b: Id)
    requires RowsPlaced(w) && IdsIssued(w) && Possible(w, stmt) && Safe(w, b) && !IntoTrash(stmt)
    requires stmt != RemoveObject(w.db.blobs[b].key)
    ensures Safe(Exec(w, stmt), b) && Exec(w, stmt).db.blobs[b].key == w.db.blobs[b].key
  {
    if DropsRows(stmt) {
      DroppingKeepsPlaced(w.db, w.now, stmt);
    } else {
      OthersSpareLive(w.db, w.now, stmt, b);
    }
  }

  lemma OthersSpareLive(db: Db, now: Time, stmt: Stmt, b: Id)
    requires LiveUpload(db, b) && !IntoTrash(stmt) && !DropsRows(stmt) && (stmt.InsertBlobRow? ==> stmt.id != b)
    ensures LiveUpload(OnTables(db, now, stmt), b) && OnTables(db, now, stmt).blobs[b].key == db.blobs[b].key
  {
  }

  /**
   * In every interleaving whose placing statements find their places, a live
   * upload keeps its row and its object as long as nothing is trashed and its own
   * key is not removed, whatever happens to other uploads.
   */
  lemma {:induction false} LiveUploadSurvivesInterleaving(w: World, stmts: seq<Stmt>, b: Id)
    requires Kept(w) && RowsPlaced(w) && PossibleRun(w, stmts) && Each(FindsPlace, w, stmts) && Safe(w, b)
    requires forall i :: 0 <= i < |stmts| ==> !IntoTrash(stmts[i]) && stmts[i] != RemoveObject(w.db.blobs[b].key)
    ensures Safe(ExecAll(w, stmts), b)
    decreases stmts
  {
    if stmts != [] {
      ExecKeeps(w, stmts[0]);
      ExecKeepsPlacedIff(w, stmts[0]);
      ExecSparesLive(w, stmts[0], b);
      LiveUploadSurvivesInterleaving(Exec(w, stmts[0]), stmts[1..], b);
    }
  }
}
