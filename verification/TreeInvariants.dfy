/**
 * What the folder and blob statements keep. Proper placement and freedom from
 * cycles are separate: a statement that puts a row somewhere keeps the first if
 * its target is live and its owner's own, and only a change of parent can break
 * the second.
 */
module TreeInvariants {
  import opened Prelude
  import opened Forest
  import opened Tables

  // ---------- what the invariants give along a chain ----------

  /** Everything above a live folder is live, so the live-only search loses nothing there. */
  lemma {:induction false} LiveChain(db: Db, x: Id, k: nat)
    requires WellPlaced(db)
    requires LiveFolder(db, x)
    ensures Up(LiveParents(db.folders), x, k) == Up(Parents(db.folders), x, k)
    ensures Up(Parents(db.folders), x, k).Some? ==> LiveFolder(db, Up(Parents(db.folders), x, k).value)
    decreases k
  {
    if k > 0 && db.folders[x].parent.Some? {
      LiveChain(db, db.folders[x].parent.value, k - 1);
    }
  }

  /** Everything below `root` has its owner; if `root` is trashed, so is all of it, and no later. */
  lemma {:induction false} ChainBelow(db: Db, x: Id, root: Id, k: nat)
    requires WellPlaced(db)
    requires x in db.folders && Up(Parents(db.folders), x, k) == Some(root)
    ensures root in db.folders
    ensures db.folders[x].owner == db.folders[root].owner
    ensures NoLater(db.folders[x].deletedAt, db.folders[root].deletedAt)
    decreases k
  {
    if k > 0 {
      ChainBelow(db, db.folders[x].parent.value, root, k - 1);
    }
  }

  lemma SubtreeFacts(db: Db, root: Id)
    requires WellPlaced(db)
    requires root in db.folders
    ensures root in Subtree(db.folders, root)
    ensures forall x :: x in Subtree(db.folders, root) ==>
              db.folders[x].owner == db.folders[root].owner &&
              NoLater(db.folders[x].deletedAt, db.folders[root].deletedAt)
    ensures ClosedDown(db, Subtree(db.folders, root))
    ensures forall x :: x in Subtree(db.folders, root) && x != root ==>
              db.folders[x].parent.Some? && db.folders[x].parent.value in Subtree(db.folders, root)
  {
    var pm := Parents(db.folders);
    UnderSelf(pm, root);
    forall x | x in Subtree(db.folders, root)
      ensures db.folders[x].owner == db.folders[root].owner
      ensures NoLater(db.folders[x].deletedAt, db.folders[root].deletedAt)
    {
      var k: nat :| Up(pm, x, k) == Some(root);
      ChainBelow(db, x, root, k);
    }
    forall x | x in db.folders && db.folders[x].parent.Some? && db.folders[x].parent.value in Subtree(db.folders, root)
      ensures x in Subtree(db.folders, root)
    {
      UnderParent(pm, x, root);
    }
    forall x | x in Subtree(db.folders, root) && x != root
      ensures db.folders[x].parent.Some? && db.folders[x].parent.value in Subtree(db.folders, root)
    {
      UnderStep(pm, x, root);
    }
  }

  /** The live-only walk from a live root lists exactly the live part of the subtree. */
  lemma LiveSubtreeExact(db: Db, root: Id)
    requires WellPlaced(db)
    requires LiveFolder(db, root)
    ensures LiveSubtree(db.folders, root) == set x | x in Subtree(db.folders, root) && LiveFolder(db, x)
  {
    var pm, live := Parents(db.folders), LiveParents(db.folders);
    forall x | x in db.folders
      ensures x in LiveSubtree(db.folders, root) <==> x in Subtree(db.folders, root) && LiveFolder(db, x)
    {
      if Under(live, x, root) {
        var k: nat :| Up(live, x, k) == Some(root);
        UpShrink(live, pm, x, k);
      }
      if Under(pm, x, root) && LiveFolder(db, x) {
        var k: nat :| Up(pm, x, k) == Some(root);
        LiveChain(db, x, k);
      }
    }
  }

  /** For a live folder the live-only edges show the same cycles. */
  lemma LiveCycleIff(db: Db, f: Id)
    requires WellPlaced(db) && LiveFolder(db, f)
    ensures OnCycle(LiveParents(db.folders), f) <==> OnCycle(Parents(db.folders), f)
  {
    forall k: nat ensures Up(LiveParents(db.folders), f, k) == Up(Parents(db.folders), f, k) {
      LiveChain(db, f, k);
    }
  }

  // ---------- deletes ----------

  /** Removing rows keeps the rest in place as long as no reference is left dangling. */
  lemma ShrinkKeepsPlaced(db: Db, small: Db, now: Time)
    requires Placed(db, now) && ForeignKeys(small)
    requires forall x :: x in small.folders ==> x in db.folders && small.folders[x] == db.folders[x]
    requires forall b :: b in small.blobs ==> b in db.blobs && small.blobs[b] == db.blobs[b]
    ensures Placed(small, now)
  {
    forall x | x in small.folders ensures FolderSits(small.folders, small.folders[x]) {
      var p := small.folders[x].parent;
      assert Exists(small.folders, p) && FolderSits(db.folders, db.folders[x]);
      if p.Some? { var q := p.value; assert small.folders[q] == db.folders[q]; }
    }
    forall b | b in small.blobs ensures BlobSits(small.folders, small.blobs[b]) {
      var p := small.blobs[b].folder;
      assert Exists(small.folders, p) && BlobSits(db.folders, db.blobs[b]);
      if p.Some? { var q := p.value; assert small.folders[q] == db.folders[q]; }
    }
    CyclesShrink(Parents(small.folders), Parents(db.folders));
  }

  /** No folder outside `ids` hangs below a folder in `ids`. */
  ghost predicate ClosedDown(db: Db, ids: set<Id>)
  {
    forall x :: x in db.folders && db.folders[x].parent.Some? && db.folders[x].parent.value in ids ==> x in ids
  }

  ghost predicate AllTrashed(db: Db, ids: set<Id>)
  {
    forall x :: x in ids && x in db.folders ==> TrashedFolder(db, x)
  }

  /**
   * The delete transactions succeed exactly when detaching clashes with no name at
   * the top level and the folder set is closed downward; the first holds of every
   * set of trashed folders. They then remove those rows and change no other row.
   */
  lemma DeleteTreeExact(db: Db, blobs: set<Id>, folders: set<Id>)
    requires ForeignKeys(db)
    ensures DeleteTree(db, blobs, folders).Ok? <==> NamesUnique(Detach(db, folders).folders) && ClosedDown(db, folders)
    ensures NamesUnique(db.folders) && AllTrashed(db, folders) ==> NamesUnique(Detach(db, folders).folders)
    ensures DeleteTree(db, blobs, folders).Ok? && BlobsIn(db, folders) <= blobs ==>
              DeleteTree(db, blobs, folders) == Ok(Db(db.folders - folders, db.blobs - blobs)) &&
              ForeignKeys(Db(db.folders - folders, db.blobs - blobs))
  {
    var detached := Detach(DeleteBlobs(db, blobs), folders);
    assert detached.folders == Detach(db, folders).folders;
    if NamesUnique(db.folders) && AllTrashed(db, folders) {
      forall x, y | x in detached.folders && y in detached.folders && x != y
        ensures !Clash(detached.folders[x], detached.folders[y])
      {
        assert !Clash(db.folders[x], db.folders[y]);
      }
    }
    if !ClosedDown(db, folders) {
      var x :| x in db.folders && db.folders[x].parent.Some? && db.folders[x].parent.value in folders && x !in folders;
      assert detached.folders[x] == db.folders[x];
      assert Referenced(detached, folders);
    } else {
      assert !Referenced(detached, folders);
      DeletedRows(db, blobs, folders);
    }
  }

  lemma DeletedRows(db: Db, blobs: set<Id>, folders: set<Id>)
    requires ForeignKeys(db) && ClosedDown(db, folders)
    requires DeleteFolders(Detach(DeleteBlobs(db, blobs), folders), folders).Ok?
    ensures BlobsIn(db, folders) <= blobs ==>
              DeleteFolders(Detach(DeleteBlobs(db, blobs), folders), folders) == Ok(Db(db.folders - folders, db.blobs - blobs)) &&
              ForeignKeys(Db(db.folders - folders, db.blobs - blobs))
  {
    var left := DeleteFolders(Detach(DeleteBlobs(db, blobs), folders), folders).value;
    assert left.folders == db.folders - folders;
    if BlobsIn(db, folders) <= blobs {
      forall b | b in left.blobs ensures b in db.blobs - blobs && left.blobs[b] == db.blobs[b] {
        assert b !in BlobsIn(db, folders);
      }
      assert left.blobs == db.blobs - blobs;
      forall b | b in db.blobs - blobs && db.blobs[b].folder.Some?
        ensures db.blobs[b].folder.value !in folders
      {
        assert b !in BlobsIn(db, folders);
      }
    }
  }

  lemma HardDeleteFolderKeepsPlaced(db: Db, f: Id, u: Id, now: Time)
    requires Placed(db, now) && OwnedTrash(db, f, u)
    ensures HardDeleteFolder(db, f, u) ==
              Ok(Db(db.folders - Subtree(db.folders, f), db.blobs - BlobsIn(db, Subtree(db.folders, f))))
    ensures Placed(HardDeleteFolder(db, f, u).value, now)
  {
    var ids := Subtree(db.folders, f);
    SubtreeFacts(db, f);
    DeleteTreeExact(db, BlobsIn(db, ids), ids);
    ShrinkKeepsPlaced(db, HardDeleteFolder(db, f, u).value, now);
  }

  lemma DeleteBlobsKeepsPlaced(db: Db, ids: set<Id>, now: Time)
    requires Placed(db, now)
    ensures Placed(DeleteBlobs(db, ids), now)
  {
  }

  // ---------- create, rename, move ----------

  /** Chains of parents stay inside the table. */
  lemma {:induction false} UpInTable(db: Db, x: Id, k: nat, y: Id)
    requires ForeignKeys(db) && x in db.folders && Up(Parents(db.folders), x, k) == Some(y)
    ensures y in db.folders
    decreases k
  {
    if k > 0 {
      assert Exists(db.folders, db.folders[x].parent);
      UpInTable(db, db.folders[x].parent.value, k - 1, y);
    }
  }

  /** A new row closes no cycle: nothing names it as a parent yet. */
  lemma InsertClosesNoCycle(db: Db, id: Id, u: Id, parent: Option<Id>, name: string)
    requires ForeignKeys(db) && id !in db.folders
    requires InsertFolder(db, id, u, parent, name).Ok?
    ensures forall x :: OnCycle(Parents(InsertFolder(db, id, u, parent, name).value.folders), x) ==>
              OnCycle(Parents(db.folders), x)
  {
    var pm, pm' := Parents(db.folders), Parents(InsertFolder(db, id, u, parent, name).value.folders);
    if parent.Some? {
      var p := parent.value;
      assert pm' == pm[id := p];
      forall k: nat ensures Up(pm, p, k) != Some(id) {
        if Up(pm, p, k) == Some(id) { UpInTable(db, p, k, id); }
      }
      ReparentOutside(pm, id, p);
    } else {
      assert pm' == pm;
    }
  }

  /**
   * The bare INSERT keeps every row in place exactly when its parent row is live
   * and the caller's own at that instant: the check CreateFolder makes in a
   * separate query.
   */
  lemma InsertFolderKeepsPlacedIff(db: Db, id: Id, u: Id, parent: Option<Id>, name: string, now: Time)
    requires Placed(db, now) && id !in db.folders
    requires InsertFolder(db, id, u, parent, name).Ok?
    ensures Placed(InsertFolder(db, id, u, parent, name).value, now) <==> (parent.Some? ==> Owned(db, parent.value, u))
  {
    var db' := InsertFolder(db, id, u, parent, name).value;
    assert db'.folders[id] == FolderRow(u, parent, name);
    forall x | x in db.folders ensures x in db'.folders && db'.folders[x] == db.folders[x] {
    }
    if parent.Some? && !Owned(db, parent.value, u) {
      assert !FolderSits(db'.folders, db'.folders[id]);
    } else {
      InsertClosesNoCycle(db, id, u, parent, name);
    }
  }

  /** An undisturbed CreateFolder, check and insert together, keeps every row in place. */
  lemma CreateFolderKeepsPlaced(db: Db, id: Id, u: Id, parent: Option<Id>, name: string, now: Time)
    requires Placed(db, now) && id !in db.folders
    requires CreateFolder(db, id, u, parent, name).Ok?
    ensures Placed(CreateFolder(db, id, u, parent, name).value, now)
  {
    InsertFolderKeepsPlacedIff(db, id, u, parent, name, now);
  }

  lemma RenameFolderKeepsPlaced(db: Db, f: Id, u: Id, name: string, now: Time)
    requires Placed(db, now) && RenameFolder(db, f, u, name).Ok?
    ensures Placed(RenameFolder(db, f, u, name).value, now)
  {
    var db' := RenameFolder(db, f, u, name).value;
    assert Parents(db'.folders) == Parents(db.folders);
  }

  /** The destination lies more than 100 levels below the moved folder. */
  ghost predicate DeepBelow(db: Db, p: Id, f: Id)
  {
    exists k: nat :: k > 100 && Up(Parents(db.folders), p, k) == Some(f)
  }

  /** It lies at most 100 levels below it, or is the folder itself. */
  ghost predicate NearBelow(db: Db, p: Id, f: Id)
  {
    exists k: nat :: k <= 100 && Up(Parents(db.folders), p, k) == Some(f)
  }

  /** The name is taken at the destination by another live folder of the same user. */
  ghost predicate NameTaken(db: Db, f: Id, u: Id, parent: Option<Id>, name: string)
  {
    exists x :: Owned(db, x, u) && x != f && db.folders[x].parent == parent && db.folders[x].name == name
  }

  /**
   * What MoveFolder answers: a destination up to 100 levels below the folder, itself
   * included, is refused as a cycle; a missing or foreign one is not found; a taken
   * name is a conflict; anything else is done.
   */
  lemma MoveFolderAnswers(db: Db, f: Id, u: Id, parent: Option<Id>, now: Time)
    requires Placed(db, now)
    ensures var r := MoveFolder(db, f, u, parent);
      var cycle := Owned(db, f, u) && parent.Some? && Owned(db, parent.value, u) && NearBelow(db, parent.value, f);
      var missing := !Owned(db, f, u) || (parent.Some? && !Owned(db, parent.value, u));
      && (r == Err(FolderNotFound) <==> missing)
      && (r == Err(FolderCycle) <==> cycle)
      && (r == Err(FolderConflict) <==> !missing && !cycle && NameTaken(db, f, u, parent, db.folders[f].name))
      && (r.Ok? <==> !missing && !cycle && !NameTaken(db, f, u, parent, db.folders[f].name))
      && (r.Ok? ==> r.value == db.(folders := db.folders[f := db.folders[f].(parent := parent)]))
  {
    if Owned(db, f, u) && (parent.Some? ==> Owned(db, parent.value, u)) {
      PutConflictIff(db, f, db.folders[f].(parent := parent));
      if parent.Some? {
        var p := parent.value;
        SearchFindsIff(db, f, p);
      }
    }
  }

  /** For a live candidate the search finds exactly what is at most 100 levels below. */
  lemma SearchFindsIff(db: Db, f: Id, p: Id)
    requires WellPlaced(db) && f in db.folders && LiveFolder(db, p)
    ensures IsDescendantOf(db, f, p) <==> NearBelow(db, p, f)
    ensures p == f ==> NearBelow(db, p, f)
  {
    if IsDescendantOf(db, f, p) {
      var k: nat :| k <= MAX_SEARCH_DEPTH && Up(LiveParents(db.folders), p, k) == Some(f);
      LiveChain(db, p, k);
    }
    if NearBelow(db, p, f) {
      var k: nat :| k <= 100 && Up(Parents(db.folders), p, k) == Some(f);
      LiveChain(db, p, k);
    }
    assert Up(Parents(db.folders), p, 0) == Some(p);
  }

  /** Writing a live folder row keeps the unique indexes exactly if no other live folder has its name in its place. */
  lemma PutConflictIff(db: Db, f: Id, row: Folder)
    requires NamesUnique(db.folders) && row.deletedAt.None?
    ensures NamesUnique(db.folders[f := row]) <==> !NameTaken(db, f, row.owner, row.parent, row.name)
  {
    var fs := db.folders[f := row];
    if NameTaken(db, f, row.owner, row.parent, row.name) {
      var x :| Owned(db, x, row.owner) && x != f && db.folders[x].parent == row.parent && db.folders[x].name == row.name;
      assert Clash(fs[x], fs[f]);
    } else {
      forall x, y | x in fs && y in fs && x != y ensures !Clash(fs[x], fs[y]) {
        if x != f && y != f {
          assert !Clash(db.folders[x], db.folders[y]);
        } else {
          var z := if x == f then y else x;
          assert Owned(db, z, row.owner) ==> !(db.folders[z].parent == row.parent && db.folders[z].name == row.name);
        }
      }
    }
  }

  /** For a live destination the bounded, live-only search answers reachability exactly when nothing is too deep. */
  lemma CycleSearchExactIff(db: Db, f: Id, p: Id, now: Time)
    requires Inv(db, now) && f in db.folders && LiveFolder(db, p)
    ensures (IsDescendantOf(db, f, p) <==> Under(Parents(db.folders), p, f)) <==> !DeepBelow(db, p, f)
  {
    var pm := Parents(db.folders);
    if IsDescendantOf(db, f, p) {
      var k: nat :| k <= MAX_SEARCH_DEPTH && Up(LiveParents(db.folders), p, k) == Some(f);
      LiveChain(db, p, k);
      if DeepBelow(db, p, f) {
        var j: nat :| j > MAX_SEARCH_DEPTH && Up(pm, p, j) == Some(f);
        MeetTwice(pm, p, k, j, f);
      }
    } else if Under(pm, p, f) {
      var k: nat :| Up(pm, p, k) == Some(f);
      LiveChain(db, p, k);
    }
  }

  /** The bare UPDATE of parent_id closes a cycle exactly when the new parent is inside the moved subtree, whatever else holds. */
  lemma UpdateParentKeepsAcyclicIff(db: Db, f: Id, u: Id, parent: Option<Id>)
    requires Acyclic(Parents(db.folders)) && UpdateParent(db, f, u, parent).Ok?
    ensures Acyclic(Parents(UpdateParent(db, f, u, parent).value.folders)) <==>
              (parent.Some? ==> !Under(Parents(db.folders), parent.value, f))
  {
    var db' := UpdateParent(db, f, u, parent).value;
    if parent.Some? {
      var p := parent.value;
      assert Parents(db'.folders) == Parents(db.folders)[f := p];
      ReparentAcyclic(Parents(db.folders), f, p);
    } else {
      CyclesShrink(Parents(db'.folders), Parents(db.folders));
    }
  }

  /**
   * It keeps every row in place exactly when the new parent is live and the
   * caller's own at that instant, cycle or not: MoveFolder's check in a separate query.
   */
  lemma UpdateParentKeepsPlacedIff(db: Db, f: Id, u: Id, parent: Option<Id>, now: Time)
    requires Placed(db, now) && UpdateParent(db, f, u, parent).Ok?
    ensures Placed(UpdateParent(db, f, u, parent).value, now) <==> (parent.Some? ==> Owned(db, parent.value, u))
  {
    var db' := UpdateParent(db, f, u, parent).value;
    forall x | x in db.folders && x != f ensures db'.folders[x] == db.folders[x] {
    }
    if parent.Some? && !Owned(db, parent.value, u) {
      assert !FolderSits(db'.folders, db'.folders[f]);
    } else {
      MovedSits(db, db', f, u, parent);
      MovedOffCycles(db, db', f, u, parent);
    }
  }

  lemma MovedSits(db: Db, db': Db, f: Id, u: Id, parent: Option<Id>)
    requires WellPlaced(db) && UpdateParent(db, f, u, parent) == Ok(db') && (parent.Some? ==> Owned(db, parent.value, u))
    ensures WellPlaced(db')
  {
    forall x | x in db'.folders ensures FolderSits(db'.folders, db'.folders[x]) {
      assert FolderSits(db.folders, db.folders[x]);
    }
    forall b | b in db'.blobs ensures BlobSits(db'.folders, db'.blobs[b]) {
      assert BlobSits(db.folders, db.blobs[b]);
    }
  }

  /** A cycle closed by a move runs through the moved, live folder, so all of it is live. */
  lemma MovedOffCycles(db: Db, db': Db, f: Id, u: Id, parent: Option<Id>)
    requires TrashOffCycles(db) && UpdateParent(db, f, u, parent) == Ok(db') && WellPlaced(db')
    ensures TrashOffCycles(db')
  {
    var pm, pm' := Parents(db.folders), Parents(db'.folders);
    if parent.None? {
      CyclesShrink(pm', pm);
    } else {
      var p := parent.value;
      assert pm' == pm[f := p];
      forall x | TrashedFolder(db', x) ensures !OnCycle(pm', x) {
        assert !OnCycle(pm, x) && !Under(pm', f, x) by {
          if Under(pm', f, x) {
            var k: nat :| Up(pm', f, k) == Some(x);
            ChainBelow(db', f, x, k);
          }
        }
        forall k: nat | k > 0 ensures Up(pm', x, k) != Some(x) {
          if Up(pm', x, k) == Some(x) { UpViaMoved(pm, f, p, x, k, x); }
        }
      }
    }
  }

  /** An accepted and undisturbed move keeps every row in place, however deep its destination. */
  lemma MoveFolderKeepsPlaced(db: Db, f: Id, u: Id, parent: Option<Id>, now: Time)
    requires Placed(db, now) && MoveFolder(db, f, u, parent).Ok?
    ensures Placed(MoveFolder(db, f, u, parent).value, now)
  {
    UpdateParentKeepsPlacedIff(db, f, u, parent, now);
  }

  /** It keeps the forest acyclic exactly when the destination is not more than 100 levels below. */
  lemma MoveFolderKeepsAcyclicIff(db: Db, f: Id, u: Id, parent: Option<Id>, now: Time)
    requires Inv(db, now) && MoveFolder(db, f, u, parent).Ok?
    ensures Acyclic(Parents(MoveFolder(db, f, u, parent).value.folders)) <==>
              (parent.Some? ==> !DeepBelow(db, parent.value, f))
  {
    UpdateParentKeepsAcyclicIff(db, f, u, parent);
    if parent.Some? {
      CycleSearchExactIff(db, f, parent.value, now);
      if DeepBelow(db, parent.value, f) {
        assert Under(Parents(db.folders), parent.value, f);
      }
    }
  }

  // ---------- trash and restore ----------

  /** Stamping a set of live folders, on no cycle, that holds every live child of its members. */
  lemma TrashRowsKeepPlaced(db: Db, ids: set<Id>, now: Time)
    requires Placed(db, now)
    requires forall x :: x in ids ==> LiveFolder(db, x) && !OnCycle(Parents(db.folders), x)
    requires forall x :: LiveFolder(db, x) && db.folders[x].parent.Some? && db.folders[x].parent.value in ids ==> x in ids
    ensures Placed(TrashRows(db, ids, now), now)
  {
    var db' := TrashRows(db, ids, now);
    forall x | x in db'.folders ensures FolderSits(db'.folders, db'.folders[x]) {
      assert FolderSits(db.folders, db.folders[x]);
    }
    forall b | b in db'.blobs ensures BlobSits(db'.folders, db'.blobs[b]) {
      assert BlobSits(db.folders, db.blobs[b]);
    }
    assert Parents(db'.folders) == Parents(db.folders);
  }

  lemma TrashFolderKeepsPlaced(db: Db, f: Id, u: Id, now: Time)
    requires Placed(db, now) && TrashFolder(db, f, u, now).Ok?
    ensures Placed(TrashFolder(db, f, u, now).value, now)
  {
    LiveSubtreeExact(db, f);
    SubtreeFacts(db, f);
    LiveCycleIff(db, f);
    forall x | x in LiveSubtree(db.folders, f) ensures !OnCycle(Parents(db.folders), x) {
      if OnCycle(Parents(db.folders), x) { CycleAbove(Parents(db.folders), x, f); }
    }
    TrashRowsKeepPlaced(db, LiveSubtree(db.folders, f), now);
  }

  /** Reviving a downward closed set whose only outward edge, from `root`, leads to a live folder or is cut. */
  lemma RestoreRowsKeepPlaced(db: Db, ids: set<Id>, root: Id, now: Time)
    requires Placed(db, now) && root in db.folders
    requires ClosedDown(db, ids)
    requires forall x :: x in ids && x != root ==>
               x in db.folders && db.folders[x].parent.Some? && db.folders[x].parent.value in ids
    requires NamesUnique(RestoreRows(db, ids, root, RestoredParent(db, root)).folders)
    ensures Placed(RestoreRows(db, ids, root, RestoredParent(db, root)), now)
  {
    var db' := RestoreRows(db, ids, root, RestoredParent(db, root));
    forall x | x in db'.folders ensures FolderSits(db'.folders, db'.folders[x]) {
      assert FolderSits(db.folders, db.folders[x]);
    }
    forall b | b in db'.blobs ensures BlobSits(db'.folders, db'.blobs[b]) {
      assert BlobSits(db.folders, db.blobs[b]);
    }
    CyclesShrink(Parents(db'.folders), Parents(db.folders));
  }

  lemma RestoreFolderKeepsPlaced(db: Db, f: Id, u: Id, now: Time)
    requires Placed(db, now) && RestoreFolder(db, f, u).Ok?
    ensures Placed(RestoreFolder(db, f, u).value, now)
  {
    SubtreeFacts(db, f);
    RestoreRowsKeepPlaced(db, Subtree(db.folders, f), f, now);
  }

  // ---------- blobs ----------

  /** A blob row may be written if its folder is a live folder of its owner, or none. */
  lemma PutBlobKeepsPlaced(db: Db, b: Id, row: Blob, now: Time)
    requires Placed(db, now)
    requires row.key == ObjectKey(row.owner, b)
    requires BlobSits(db.folders, row)
    requires row.deletedAt.Some? ==> row.deletedAt.value <= now
    ensures Placed(db.(blobs := db.blobs[b := row]), now)
  {
  }

  /**
   * Writing a live blob row, by INSERT or by UPDATE of folder_id, keeps every row
   * in place exactly when its folder is live and its owner's own at that instant.
   */
  lemma PutLiveBlobKeepsPlacedIff(db: Db, b: Id, row: Blob, now: Time)
    requires Placed(db, now) && row.key == ObjectKey(row.owner, b) && row.deletedAt.None?
    ensures Placed(db.(blobs := db.blobs[b := row]), now) <==> (row.folder.Some? ==> Owned(db, row.folder.value, row.owner))
  {
    var db' := db.(blobs := db.blobs[b := row]);
    assert BlobSits(db.folders, row) <==> (row.folder.Some? ==> Owned(db, row.folder.value, row.owner));
    if BlobSits(db.folders, row) {
      PutBlobKeepsPlaced(db, b, row, now);
    } else {
      assert db'.blobs[b] == row;
    }
  }
}
