/**
 * What single storage calls achieve: moves that can be undone, names that are
 * taken, trash that ages from the moment it was trashed.
 */
module Effects {
  import opened Prelude
  import opened Forest
  import opened Tables
  import opened TreeInvariants

  // ---------- moves are undone by moving back ----------

  /** The old parent is out of the search's reach, so moving back is never taken for a cycle. */
  lemma MoveBackIsNoCycle(db: Db, f: Id, u: Id, parent: Option<Id>, now: Time)
    requires Placed(db, now) && !OnCycle(Parents(db.folders), f)
    requires MoveFolder(db, f, u, parent).Ok? && db.folders[f].parent.Some?
    ensures !IsDescendantOf(MoveFolder(db, f, u, parent).value, f, db.folders[f].parent.value)
  {
    var db' := MoveFolder(db, f, u, parent).value;
    var home := db.folders[f].parent.value;
    var pm, live, live' := Parents(db.folders), LiveParents(db.folders), LiveParents(db'.folders);
    forall k: nat ensures Up(live', home, k) != Some(f) {
      if Under(live, home, f) {
        var j: nat :| Up(live, home, j) == Some(f);
        UpShrink(live, pm, home, j);
        CycleThroughParent(pm, f);
      }
      if parent.Some? {
        assert live' == live[f := parent.value];
        UpOutsideMoved(live, f, parent.value, home, k);
      } else if Up(live', home, k).Some? {
        UpShrink(live', live, home, k);
      }
    }
  }

  /** Moving a folder that is on no cycle away and back leaves the tables exactly as they were. */
  lemma MoveFolderUndo(db: Db, f: Id, u: Id, parent: Option<Id>, now: Time)
    requires Placed(db, now) && !OnCycle(Parents(db.folders), f) && MoveFolder(db, f, u, parent).Ok?
    ensures MoveFolder(MoveFolder(db, f, u, parent).value, f, u, db.folders[f].parent) == Ok(db)
    ensures MoveFolder(db, f, u, parent).value.folders[f] == db.folders[f].(parent := parent)
  {
    var db' := MoveFolder(db, f, u, parent).value;
    var home := db.folders[f].parent;
    assert FolderSits(db.folders, db.folders[f]);
    if home.Some? {
      var p := home.value;
      MoveBackIsNoCycle(db, f, u, parent, now);
      assert p != f by {
        if p == f { UnderSelf(Parents(db.folders), f); CycleThroughParent(Parents(db.folders), f); }
      }
      assert db'.folders[p] == db.folders[p] && Owned(db', p, u);
    }
    assert db'.folders[f := db'.folders[f].(parent := home)] == db.folders;
  }

  /** The same for a blob, whose home is always a live folder of its owner. */
  lemma MoveBlobUndo(db: Db, b: Id, u: Id, folder: Option<Id>, now: Time)
    requires Placed(db, now) && MoveBlob(db, b, u, folder).Ok?
    ensures MoveBlob(MoveBlob(db, b, u, folder).value, b, u, db.blobs[b].folder) == Ok(db)
    ensures folder.Some? ==> BlobIn(MoveBlob(db, b, u, folder).value, b, {folder.value})
  {
    var db' := MoveBlob(db, b, u, folder).value;
    assert BlobSits(db.folders, db.blobs[b]);
    assert db'.blobs[b := db'.blobs[b].(folder := db.blobs[b].folder)] == db.blobs;
  }

  /**
   * Trashing one blob and restoring it is the identity; a blob whose folder went
   * to the trash meanwhile comes back at the top level.
   */
  lemma TrashRestoreBlob(db: Db, b: Id, u: Id, now: Time)
    requires Placed(db, now)
    ensures OwnedBlob(db, b, u) ==> RestoreBlob(TrashBlob(db, b, u, now).value, b, u) == Ok(db)
    ensures OwnedTrashBlob(db, b, u) ==>
              var home := db.blobs[b].folder;
              var back := RestoreBlob(db, b, u).value.blobs[b].folder;
              back == if home.Some? && !TrashedFolder(db, home.value) then home else None
  {
    if OwnedBlob(db, b, u) {
      var mid := TrashBlob(db, b, u, now).value;
      assert BlobSits(db.folders, db.blobs[b]);
      assert mid.blobs[b := mid.blobs[b].(deletedAt := None)] == db.blobs;
    } else if OwnedTrashBlob(db, b, u) {
      assert BlobSits(db.folders, db.blobs[b]);
    }
  }

  // ---------- names ----------

  /** A name is taken once used: the same user cannot create it again in the same place. */
  lemma CreateTwiceConflicts(db: Db, id: Id, again: Id, u: Id, parent: Option<Id>, name: string)
    requires id !in db.folders && again != id
    requires CreateFolder(db, id, u, parent, name).Ok?
    ensures CreateFolder(CreateFolder(db, id, u, parent, name).value, again, u, parent, name) == Err(FolderConflict)
  {
    var db' := CreateFolder(db, id, u, parent, name).value;
    var fs := db'.folders[again := FolderRow(u, parent, name)];
    assert db'.folders[id] == FolderRow(u, parent, name);
    if parent.Some? {
      var p := parent.value;
      assert Owned(db', p, u);
    }
    assert Clash(fs[id], fs[again]);
  }

  /**
   * What CreateFolder answers: a parent must be an own live folder, the name 1 to 255
   * characters and not taken there by another live folder; then one row is added.
   */
  lemma CreateFolderAnswers(db: Db, id: Id, u: Id, parent: Option<Id>, name: string, now: Time)
    requires Placed(db, now) && id !in db.folders
    ensures var r := CreateFolder(db, id, u, parent, name);
      var missing := parent.Some? && !Owned(db, parent.value, u);
      && (r == Err(FolderNotFound) <==> missing)
      && (r == Err(CheckViolation) <==> !missing && !(1 <= |name| <= 255))
      && (r == Err(FolderConflict) <==> !missing && 1 <= |name| <= 255 && NameTaken(db, id, u, parent, name))
      && (r.Ok? <==> !missing && 1 <= |name| <= 255 && !NameTaken(db, id, u, parent, name))
      && (r.Ok? ==> r.value == db.(folders := db.folders[id := Folder(u, parent, name, None)]))
  {
    PutConflictIff(db, id, Folder(u, parent, name, None));
  }

  /** The same for RenameFolder, where the folder itself must be an own live one. */
  lemma RenameFolderAnswers(db: Db, f: Id, u: Id, name: string, now: Time)
    requires Placed(db, now)
    ensures var r := RenameFolder(db, f, u, name);
      && (r == Err(FolderNotFound) <==> !Owned(db, f, u))
      && (r == Err(CheckViolation) <==> Owned(db, f, u) && !(1 <= |name| <= 255))
      && (r == Err(FolderConflict) <==> Owned(db, f, u) && 1 <= |name| <= 255 && NameTaken(db, f, u, db.folders[f].parent, name))
      && (r.Ok? <==> Owned(db, f, u) && 1 <= |name| <= 255 && !NameTaken(db, f, u, db.folders[f].parent, name))
      && (r.Ok? ==> r.value == db.(folders := db.folders[f := db.folders[f].(name := name)]))
  {
    if Owned(db, f, u) {
      PutConflictIff(db, f, db.folders[f].(name := name));
    }
  }

  /** A rename takes the new name, and renaming back undoes it. */
  lemma RenameFolderUndo(db: Db, f: Id, u: Id, name: string, other: Id, now: Time)
    requires Placed(db, now) && RenameFolder(db, f, u, name).Ok? && other != f
    ensures RenameFolder(RenameFolder(db, f, u, name).value, f, u, db.folders[f].name) == Ok(db)
    ensures InsertFolder(RenameFolder(db, f, u, name).value, other, u, db.folders[f].parent, name) == Err(FolderConflict)
  {
    var db' := RenameFolder(db, f, u, name).value;
    assert db'.folders[f := db'.folders[f].(name := db.folders[f].name)] == db.folders;
    assert FolderSits(db.folders, db.folders[f]);
    var fs := db'.folders[other := FolderRow(u, db.folders[f].parent, name)];
    assert Clash(fs[f], fs[other]);
  }

  /** A blob takes its new name, and renaming back undoes it; only its owner can. */
  lemma RenameBlobUndo(db: Db, b: Id, u: Id, name: string)
    ensures RenameBlob(db, b, u, name).Ok? <==> OwnedBlob(db, b, u)
    ensures RenameBlob(db, b, u, name).Ok? ==>
              var db' := RenameBlob(db, b, u, name).value;
              db'.blobs[b].name == name && RenameBlob(db', b, u, db.blobs[b].name) == Ok(db)
  {
    if OwnedBlob(db, b, u) {
      var db' := RenameBlob(db, b, u, name).value;
      assert db'.blobs[b := db'.blobs[b].(name := db.blobs[b].name)] == db.blobs;
    }
  }

  // ---------- age ----------

  /** What a call trashes at `now` is purged by exactly the cutoffs after `now`: the time in the trash counts from the call. */
  lemma TrashAgesFromTheCall(db: Db, f: Id, u: Id, now: Time, before: Time, x: Id)
    requires Placed(db, now) && TrashFolder(db, f, u, now).Ok?
    requires x in Subtree(db.folders, f) && LiveFolder(db, x)
    ensures x in ExpiredFolders(TrashFolder(db, f, u, now).value, before) <==> now < before
    ensures forall b :: BlobIn(db, b, {x}) && db.blobs[b].deletedAt.None? ==>
              (b in ExpiredBlobs(TrashFolder(db, f, u, now).value, before) <==> now < before)
  {
    LiveSubtreeExact(db, f);
  }
}
