/**
 * Undisturbed service calls as statements: whatever `Drive` does in one step, the
 * call's own statements do one after the other, and each finds its place.
 */
module WholeCalls {
  import opened Prelude
  import opened Tables
  import opened Drive
  import opened DriveStatements

  // ---------- the statements of a call ----------

  function RemoveEach(keys: seq<ObjectKey>): seq<Stmt>
  {
    if keys == [] then [] else [RemoveObject(keys[0])] + RemoveEach(keys[1..])
  }

  /** RemoveObject for each key, in whatever order the database returned the rows. */
  ghost function Removals(keys: set<ObjectKey>): seq<Stmt>
  {
    RemoveEach(SomeOrder(keys))
  }

  /** The checks MoveFolder makes before its UPDATE. */
  ghost predicate MayMove(db: Db, f: Id, u: Id, parent: Option<Id>)
  {
    Owned(db, f, u) &&
    (parent.Some? ==> parent.value != f && Owned(db, parent.value, u) && !IsDescendantOf(db, f, parent.value))
  }

  /** Two deleting transactions; if both commit, the keys of the deleted rows in `removed` are removed. */
  ghost function Sweep(w: World, first: Stmt, second: Stmt, committed: bool, removed: set<ObjectKey>): seq<Stmt>
  {
    var db' := OnTables(OnTables(w.db, w.now, first), w.now, second);
    [first, second] + if committed then Removals(KeysGone(w.db, db') * removed) else []
  }

  /** What an undisturbed call executes after its checks, in order; the checks change nothing. */
  ghost function StatementsOf(lim: Limits, w: World, op: Op): seq<Stmt>
  {
    match op
    case Tick(elapsed) => [Elapse(elapsed)]
    case CreateFolder(id, u, parent, name) =>
      if parent.Some? && !Owned(w.db, parent.value, u) then [] else [InsertFolderRow(id, u, parent, name)]
    case RenameFolder(f, u, name) => [RenameFolderRow(f, u, name)]
    case MoveFolder(f, u, parent) => if MayMove(w.db, f, u, parent) then [UpdateParentId(f, u, parent)] else []
    case DeleteFolder(f, u) => [TrashTree(f, u)]
    case RestoreFolder(f, u) => [RestoreTree(f, u)]
    case HardDeleteFolder(f, u, removed) =>
      var stmt := DeleteTrashedTree(f, u);
      [stmt] + Removals(KeysGone(w.db, OnTables(w.db, w.now, stmt)) * removed)
    case EmptyTrash(u, removed) =>
      Sweep(w, EmptyBlobs(u), EmptyFolders(u), EmptyTrashedFolders(EmptyTrashedBlobs(w.db, u), u).Ok?, removed)
    case CleanExpiredTrash(ttl, removed) =>
      var before := Cutoff(w.now, ttl);
      Sweep(w, PurgeBlobs(before), PurgeFolders(before),
            PurgeExpiredFolders(PurgeExpiredBlobs(w.db, before), before).Ok?, removed)
    case MoveBlob(b, u, folder) =>
      if folder.Some? && !Owned(w.db, folder.value, u) then [] else [UpdateFolderId(b, u, folder)]
    case RenameBlob(b, u, name) => [RenameBlobRow(b, u, name)]
    case DeleteBlob(b, u) => [TrashBlobRow(b, u)]
    case RestoreBlob(b, u) => [RestoreBlobRow(b, u)]
    case HardDeleteBlob(b, u, removeOk, rowOk) =>
      if !OwnedTrashBlob(w.db, b, u) || !removeOk then []
      else [RemoveObject(w.db.blobs[b].key)] + if rowOk then [DeleteTrashedBlob(b, u)] else []
    case Initiate(id, u, folder, name, size, uploadId, storeOk, insertOk) =>
      if Admitted(lim, w.db, u, folder, size) && storeOk && insertOk
      then [InsertBlobRow(id, u, folder, name, size, uploadId)] else []
    case Complete(b, u, completeOk, statOk, objectSize) =>
      if !Pending(w.db, b, u) || w.db.blobs[b].uploadId == "" || !completeOk then []
      else [PutObject(w.db.blobs[b].key)] + if statOk then [ConfirmRow(b, u, objectSize)] else []
    case AbortUpload(b, u, storeOk, rowOk) =>
      if !Pending(w.db, b, u) || !storeOk then []
      else
        (if w.db.blobs[b].uploadId == "" then [RemoveObject(w.db.blobs[b].key)] else []) +
        if rowOk then [DeletePendingBlob(b, u)] else []
    case CleanOrphanedBlobs(ttl, removed) =>
      var before := Cutoff(w.now, ttl);
      [DeleteOrphans(before)] + Removals(KeysOf(w.db, PlainUploads(w.db, OrphanedBlobs(w.db, before))) * removed)
  }

  // ---------- running them ----------

  /** `stmts` is an interleaving of fresh ids whose placing statements find their places, and leads from `v` to `w`. */
  ghost predicate Leads(v: World, stmts: seq<Stmt>, w: World)
  {
    PossibleRun(v, stmts) && Each(FindsPlace, v, stmts) && ExecAll(v, stmts) == w
  }

  lemma LeadsFirst(v: World, stmt: Stmt, rest: seq<Stmt>, w: World)
    requires Possible(v, stmt) && FindsPlace(v, stmt) && Leads(Exec(v, stmt), rest, w)
    ensures Leads(v, [stmt] + rest, w)
  {
    assert ([stmt] + rest)[1..] == rest;
  }

  lemma LeadsRest(v: World, stmts: seq<Stmt>, w: World)
    requires Leads(v, stmts, w) && stmts != []
    ensures Possible(v, stmts[0]) && FindsPlace(v, stmts[0]) && Leads(Exec(v, stmts[0]), stmts[1..], w)
  {
  }

  lemma {:induction false} LeadsOn(v: World, first: seq<Stmt>, mid: World, second: seq<Stmt>, w: World)
    requires Leads(v, first, mid) && Leads(mid, second, w)
    ensures Leads(v, first + second, w)
    decreases first
  {
    if first == [] {
      assert first + second == second;
    } else {
      LeadsRest(v, first, mid);
      LeadsOn(Exec(v, first[0]), first[1..], mid, second, w);
      LeadsFirst(v, first[0], first[1..] + second, w);
      assert first + second == [first[0]] + (first[1..] + second);
    }
  }

  lemma OneLeads(v: World, stmt: Stmt)
    requires Possible(v, stmt) && FindsPlace(v, stmt)
    ensures Leads(v, [stmt], Exec(v, stmt))
  {
    LeadsFirst(v, stmt, [], Exec(v, stmt));
    assert [stmt] + [] == [stmt];
  }

  lemma TwoLead(v: World, first: Stmt, second: Stmt)
    requires Possible(v, first) && FindsPlace(v, first) && Possible(Exec(v, first), second) && FindsPlace(Exec(v, first), second)
    ensures Leads(v, [first, second], Exec(Exec(v, first), second))
  {
    OneLeads(v, first);
    OneLeads(Exec(v, first), second);
    LeadsOn(v, [first], Exec(v, first), [second], Exec(Exec(v, first), second));
    assert [first] + [second] == [first, second];
  }

  lemma RemovalFrame(v: World, k: ObjectKey)
    ensures Exec(v, RemoveObject(k)) == v.(objects := v.objects - {k})
  {
  }

  lemma {:induction false} RemoveEachLeads(v: World, keys: seq<ObjectKey>)
    ensures Leads(v, RemoveEach(keys), v.(objects := v.objects - set k | k in keys))
    decreases keys
  {
    var left := v.(objects := v.objects - set k | k in keys);
    if keys == [] {
      assert left.objects == v.objects;
    } else {
      var v' := v.(objects := v.objects - {keys[0]});
      RemovalFrame(v, keys[0]);
      RemoveEachLeads(v', keys[1..]);
      assert v'.objects - (set k | k in keys[1..]) == left.objects by {
        assert keys == [keys[0]] + keys[1..];
      }
      LeadsFirst(v, RemoveObject(keys[0]), RemoveEach(keys[1..]), left);
    }
  }

  lemma RemovalsLead(v: World, keys: set<ObjectKey>)
    ensures Leads(v, Removals(keys), v.(objects := v.objects - keys))
  {
    RemoveEachLeads(v, SomeOrder(keys));
    assert (set k | k in SomeOrder(keys)) == keys;
  }

  // ---------- each call is its statements ----------

  /** A statement that only changes tables and takes no blob row away. */
  lemma TableFrame(w: World, stmt: Stmt)
    requires !stmt.PutObject? && !stmt.RemoveObject? && !stmt.ConfirmRow? && !stmt.Elapse? && !DropsRows(stmt)
    ensures Exec(w, stmt) == w.(db := OnTables(w.db, w.now, stmt), issued := w.issued + NewIds(stmt))
  {
    assert w.db.blobs.Keys - OnTables(w.db, w.now, stmt).blobs.Keys == {};
  }

  lemma DropFrame(w: World, stmt: Stmt)
    requires DropsRows(stmt)
    ensures Possible(w, stmt) && FindsPlace(w, stmt)
    ensures Exec(w, stmt) == DeleteRows(w, OnTables(w.db, w.now, stmt))
  {
  }

  lemma FolderCallLeads(lim: Limits, w: World, op: Op)
    requires Legal(w, op)
    requires op.CreateFolder? || op.RenameFolder? || op.MoveFolder? || op.DeleteFolder? || op.RestoreFolder?
    ensures Leads(w, StatementsOf(lim, w, op), Apply(lim, w, op))
  {
    if StatementsOf(lim, w, op) != [] {
      var stmt := StatementsOf(lim, w, op)[0];
      TableFrame(w, stmt);
      OneLeads(w, stmt);
    }
  }

  lemma BlobCallLeads(lim: Limits, w: World, op: Op)
    requires Legal(w, op)
    requires op.MoveBlob? || op.RenameBlob? || op.DeleteBlob? || op.RestoreBlob? || op.Initiate?
    ensures Leads(w, StatementsOf(lim, w, op), Apply(lim, w, op))
  {
    if StatementsOf(lim, w, op) != [] {
      var stmt := StatementsOf(lim, w, op)[0];
      TableFrame(w, stmt);
      OneLeads(w, stmt);
    }
  }

  /** Rows first, then objects. */
  lemma DropThenRemoveLeads(w: World, stmt: Stmt, keys: set<ObjectKey>)
    requires DropsRows(stmt)
    ensures Leads(w, [stmt] + Removals(keys), DeleteRows(w, OnTables(w.db, w.now, stmt)).(objects := w.objects - keys))
  {
    DropFrame(w, stmt);
    RemovalsLead(Exec(w, stmt), keys);
    LeadsFirst(w, stmt, Removals(keys), DeleteRows(w, OnTables(w.db, w.now, stmt)).(objects := w.objects - keys));
  }

  /** Handing out keys in two parts is handing them out at once. */
  lemma KeysGoneTwice(w: World, mid: Db, db': Db)
    requires Survivors(w.db, mid) && Survivors(mid, db')
    ensures DeleteRows(DeleteRows(w, mid), db') == DeleteRows(w, db')
  {
    assert KeysGone(w.db, mid) + KeysGone(mid, db') == KeysGone(w.db, db');
  }

  lemma SweepLeads(w: World, first: Stmt, second: Stmt, committed: bool, removed: set<ObjectKey>)
    requires DropsRows(first) && DropsRows(second)
    ensures var db' := OnTables(OnTables(w.db, w.now, first), w.now, second);
      Leads(w, Sweep(w, first, second, committed, removed),
            if committed then DeleteThenRemove(w, db', removed) else DeleteRows(w, db'))
  {
    var mid := OnTables(w.db, w.now, first);
    var db' := OnTables(mid, w.now, second);
    DropFrame(w, first);
    DropFrame(DeleteRows(w, mid), second);
    DropsSurvivors(w.db, w.now, first);
    DropsSurvivors(mid, w.now, second);
    KeysGoneTwice(w, mid, db');
    TwoLead(w, first, second);
    if committed {
      RemovalsLead(DeleteRows(w, db'), KeysGone(w.db, db') * removed);
      LeadsOn(w, [first, second], DeleteRows(w, db'), Removals(KeysGone(w.db, db') * removed), DeleteThenRemove(w, db', removed));
    } else {
      assert [first, second] + [] == [first, second];
    }
  }

  lemma HardDeleteFolderLeads(lim: Limits, w: World, f: Id, u: Id, removed: set<ObjectKey>)
    ensures Leads(w, StatementsOf(lim, w, Drive.HardDeleteFolder(f, u, removed)),
                  Apply(lim, w, Drive.HardDeleteFolder(f, u, removed)))
  {
    var db' := OnTables(w.db, w.now, DeleteTrashedTree(f, u));
    DropThenRemoveLeads(w, DeleteTrashedTree(f, u), KeysGone(w.db, db') * removed);
    NothingGone(w, removed);
  }

  lemma EmptyTrashLeads(lim: Limits, w: World, u: Id, removed: set<ObjectKey>)
    ensures Leads(w, StatementsOf(lim, w, Drive.EmptyTrash(u, removed)), Apply(lim, w, Drive.EmptyTrash(u, removed)))
  {
    SweepLeads(w, EmptyBlobs(u), EmptyFolders(u), EmptyTrashedFolders(EmptyTrashedBlobs(w.db, u), u).Ok?, removed);
  }

  lemma CleanExpiredTrashLeads(lim: Limits, w: World, ttl: nat, removed: set<ObjectKey>)
    ensures Leads(w, StatementsOf(lim, w, Drive.CleanExpiredTrash(ttl, removed)),
                  Apply(lim, w, Drive.CleanExpiredTrash(ttl, removed)))
  {
    var before := Cutoff(w.now, ttl);
    SweepLeads(w, PurgeBlobs(before), PurgeFolders(before),
               PurgeExpiredFolders(PurgeExpiredBlobs(w.db, before), before).Ok?, removed);
  }

  lemma CleanOrphanedBlobsLeads(lim: Limits, w: World, ttl: nat, removed: set<ObjectKey>)
    ensures Leads(w, StatementsOf(lim, w, CleanOrphanedBlobs(ttl, removed)), Apply(lim, w, CleanOrphanedBlobs(ttl, removed)))
  {
    var before := Cutoff(w.now, ttl);
    DropThenRemoveLeads(w, DeleteOrphans(before), KeysOf(w.db, PlainUploads(w.db, OrphanedBlobs(w.db, before))) * removed);
  }

  lemma NothingGone(w: World, removed: set<ObjectKey>)
    ensures DeleteThenRemove(w, w.db, removed) == w
  {
    assert KeysGone(w.db, w.db) == {};
  }

  lemma HardDeleteBlobLeads(lim: Limits, w: World, b: Id, u: Id, removeOk: bool, rowOk: bool)
    ensures Leads(w, StatementsOf(lim, w, Drive.HardDeleteBlob(b, u, removeOk, rowOk)),
                  Apply(lim, w, Drive.HardDeleteBlob(b, u, removeOk, rowOk)))
  {
    if OwnedTrashBlob(w.db, b, u) && removeOk {
      var key := w.db.blobs[b].key;
      RemovalFrame(w, key);
      OneLeads(w, RemoveObject(key));
      if rowOk {
        DropFrame(Exec(w, RemoveObject(key)), DeleteTrashedBlob(b, u));
        TwoLead(w, RemoveObject(key), DeleteTrashedBlob(b, u));
        assert [RemoveObject(key)] + [DeleteTrashedBlob(b, u)] == [RemoveObject(key), DeleteTrashedBlob(b, u)];
      } else {
        assert [RemoveObject(key)] + [] == [RemoveObject(key)];
      }
    }
  }

  lemma AbortUploadLeads(lim: Limits, w: World, b: Id, u: Id, storeOk: bool, rowOk: bool)
    ensures Leads(w, StatementsOf(lim, w, AbortUpload(b, u, storeOk, rowOk)), Apply(lim, w, AbortUpload(b, u, storeOk, rowOk)))
  {
    if Pending(w.db, b, u) && storeOk {
      var key := w.db.blobs[b].key;
      var plain := w.db.blobs[b].uploadId == "";
      var first := if plain then [RemoveObject(key)] else [];
      var second := if rowOk then [DeletePendingBlob(b, u)] else [];
      var mid := if plain then w.(objects := w.objects - {key}) else w;
      RemovalFrame(w, key);
      OneLeads(w, RemoveObject(key));
      DropFrame(mid, DeletePendingBlob(b, u));
      OneLeads(mid, DeletePendingBlob(b, u));
      LeadsOn(w, first, mid, second, if rowOk then DeleteRows(mid, DeleteBlobs(w.db, {b})) else mid);
    }
  }

  lemma CompleteLeads(lim: Limits, w: World, b: Id, u: Id, statOk: bool, size: int)
    requires Pending(w.db, b, u) && w.db.blobs[b].uploadId != ""
    ensures Leads(w, StatementsOf(lim, w, Complete(b, u, true, statOk, size)), Apply(lim, w, Complete(b, u, true, statOk, size)))
  {
    var put, confirm := PutObject(w.db.blobs[b].key), ConfirmRow(b, u, size);
    var mid := w.(objects := w.objects + {w.db.blobs[b].key});
    assert Exec(w, put) == mid by { assert KeysGone(w.db, w.db) == {}; }
    OneLeads(w, put);
    if statOk {
      ConfirmFrame(mid, b, u, size);
      TwoLead(w, put, confirm);
      assert [put] + [confirm] == [put, confirm];
    } else {
      assert [put] + [] == [put];
    }
  }

  lemma ConfirmFrame(w: World, b: Id, u: Id, size: int)
    requires Pending(w.db, b, u)
    ensures Exec(w, ConfirmRow(b, u, size)) ==
              w.(db := ConfirmBlobUpload(w.db, b, u, size, w.now).value, confirmed := w.confirmed + [b])
  {
    assert KeysGone(w.db, ConfirmBlobUpload(w.db, b, u, size, w.now).value) == {};
  }

  /** Every undisturbed call does exactly what its own statements do one after the other, and each of them finds its place. */
  lemma CallIsItsStatements(lim: Limits, w: World, op: Op)
    requires Legal(w, op)
    ensures Leads(w, StatementsOf(lim, w, op), Apply(lim, w, op))
  {
    match op
    case Tick(elapsed) =>
      assert KeysGone(w.db, w.db) == {};
      OneLeads(w, Elapse(elapsed));
    case HardDeleteFolder(f, u, removed) => HardDeleteFolderLeads(lim, w, f, u, removed);
    case EmptyTrash(u, removed) => EmptyTrashLeads(lim, w, u, removed);
    case CleanExpiredTrash(ttl, removed) => CleanExpiredTrashLeads(lim, w, ttl, removed);
    case CleanOrphanedBlobs(ttl, removed) => CleanOrphanedBlobsLeads(lim, w, ttl, removed);
    case HardDeleteBlob(b, u, removeOk, rowOk) => HardDeleteBlobLeads(lim, w, b, u, removeOk, rowOk);
    case AbortUpload(b, u, storeOk, rowOk) => AbortUploadLeads(lim, w, b, u, storeOk, rowOk);
    case Complete(b, u, completeOk, statOk, size) =>
      if Pending(w.db, b, u) && w.db.blobs[b].uploadId != "" && completeOk { CompleteLeads(lim, w, b, u, statOk, size); }
    case _ =>
      if op.CreateFolder? || op.RenameFolder? || op.MoveFolder? || op.DeleteFolder? || op.RestoreFolder? {
        FolderCallLeads(lim, w, op);
      } else {
        BlobCallLeads(lim, w, op);
      }
  }

  ghost function StatementsOfRun(lim: Limits, w: World, ops: seq<Op>): seq<Stmt>
    decreases ops
  {
    if ops == [] then [] else StatementsOf(lim, w, ops[0]) + StatementsOfRun(lim, Apply(lim, w, ops[0]), ops[1..])
  }

  /** Every run of whole calls is the interleaving of its calls' statements, so the theorems about interleavings cover it. */
  lemma {:induction false} RunIsItsStatements(lim: Limits, w: World, ops: seq<Op>)
    requires LegalRun(lim, w, ops)
    ensures Leads(w, StatementsOfRun(lim, w, ops), Run(lim, w, ops))
    decreases ops
  {
    if ops != [] {
      var mid := Apply(lim, w, ops[0]);
      CallIsItsStatements(lim, w, ops[0]);
      RunIsItsStatements(lim, mid, ops[1..]);
      LeadsOn(w, StatementsOf(lim, w, ops[0]), mid, StatementsOfRun(lim, mid, ops[1..]), Run(lim, w, ops));
    }
  }
}
