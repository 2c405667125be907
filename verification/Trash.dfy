/** What trashing, restoring, emptying and purging do to whole trees. */
module Trash {
  import opened Prelude
  import opened Forest
  import opened Tables
  import opened TreeInvariants

  // ---------- one user's call never reaches another user's rows ----------

  ghost predicate OthersUntouched(db: Db, db': Db, u: Id)
  {
    && (forall x :: x in db.folders && db.folders[x].owner != u ==> x in db'.folders && db'.folders[x] == db.folders[x])
    && (forall b :: b in db.blobs && db.blobs[b].owner != u ==> b in db'.blobs && db'.blobs[b] == db.blobs[b])
  }

  /** Only the root row is checked against the user, yet no subtree call leaves the user's rows. */
  lemma SubtreeCallsStayWithUser(db: Db, f: Id, u: Id, now: Time)
    requires Placed(db, now)
    ensures TrashFolder(db, f, u, now).Ok? ==> OthersUntouched(db, TrashFolder(db, f, u, now).value, u)
    ensures RestoreFolder(db, f, u).Ok? ==> OthersUntouched(db, RestoreFolder(db, f, u).value, u)
    ensures HardDeleteFolder(db, f, u).Ok? ==> OthersUntouched(db, HardDeleteFolder(db, f, u).value, u)
  {
    if f in db.folders && db.folders[f].owner == u {
      SubtreeFacts(db, f);
      BlobOwners(db, f, u);
      if Owned(db, f, u) {
        LiveSubtreeExact(db, f);
      } else {
        HardDeleteFolderKeepsPlaced(db, f, u, now);
      }
    }
  }

  lemma BlobOwners(db: Db, f: Id, u: Id)
    requires WellPlaced(db) && f in db.folders && db.folders[f].owner == u
    ensures forall b :: BlobIn(db, b, Subtree(db.folders, f)) ==> db.blobs[b].owner == u
  {
    SubtreeFacts(db, f);
    forall b | BlobIn(db, b, Subtree(db.folders, f)) ensures db.blobs[b].owner == u {
      assert BlobSits(db.folders, db.blobs[b]);
    }
  }

  // ---------- trash then restore ----------

  ghost predicate SubtreeAllLive(db: Db, f: Id)
  {
    && (forall x :: x in Subtree(db.folders, f) ==> LiveFolder(db, x))
    && (forall b :: BlobIn(db, b, Subtree(db.folders, f)) ==> db.blobs[b].deletedAt.None?)
  }

  /** The same rows with every deletion mark inside `ids` cleared. */
  function Revive(db: Db, ids: set<Id>): Db
  {
    Db(map x | x in db.folders :: if x in ids then db.folders[x].(deletedAt := None) else db.folders[x],
       map b | b in db.blobs :: if BlobIn(db, b, ids) then db.blobs[b].(deletedAt := None) else db.blobs[b])
  }

  /** Trash then restore clears every mark in the subtree, older ones included, and moves nothing. */
  lemma TrashThenRestoreRows(db: Db, f: Id, u: Id, now: Time)
    requires Placed(db, now) && TrashFolder(db, f, u, now).Ok?
    ensures var mid := TrashFolder(db, f, u, now).value;
      && OwnedTrash(mid, f, u) && !OnCycle(Parents(mid.folders), f)
      && Subtree(mid.folders, f) == Subtree(db.folders, f)
      && RestoreRows(mid, Subtree(mid.folders, f), f, RestoredParent(mid, f)) == Revive(db, Subtree(db.folders, f))
  {
    var live, ids := LiveSubtree(db.folders, f), Subtree(db.folders, f);
    var mid := TrashRows(db, live, now);
    LiveSubtreeExact(db, f);
    LiveCycleIff(db, f);
    SubtreeFacts(db, f);
    TrashKeepsSubtree(db, live, f, now);
    RestoredParentOutside(db, f, u, now);
    ReviveRows(db, live, ids, f, now);
  }

  lemma TrashKeepsSubtree(db: Db, ids: set<Id>, f: Id, now: Time)
    ensures Parents(TrashRows(db, ids, now).folders) == Parents(db.folders)
    ensures Subtree(TrashRows(db, ids, now).folders, f) == Subtree(db.folders, f)
  {
    assert Parents(TrashRows(db, ids, now).folders) == Parents(db.folders);
  }

  lemma ReviveRows(db: Db, live: set<Id>, ids: set<Id>, f: Id, now: Time)
    requires live <= ids && f in db.folders
    ensures RestoreRows(TrashRows(db, live, now), ids, f, db.folders[f].parent) == Revive(db, ids)
  {
  }

  lemma ReviveIsIdentityIff(db: Db, ids: set<Id>)
    requires forall x :: x in ids ==> x in db.folders
    ensures Revive(db, ids) == db <==>
              (forall x :: x in ids ==> LiveFolder(db, x)) &&
              (forall b :: BlobIn(db, b, ids) ==> db.blobs[b].deletedAt.None?)
  {
    var back := Revive(db, ids);
    if exists x :: x in ids && !LiveFolder(db, x) {
      var x :| x in ids && !LiveFolder(db, x);
      assert back.folders[x] != db.folders[x];
    } else if exists b :: BlobIn(db, b, ids) && db.blobs[b].deletedAt.Some? {
      var b :| BlobIn(db, b, ids) && db.blobs[b].deletedAt.Some?;
      assert back.blobs[b] != db.blobs[b];
    } else {
      forall x | x in db.folders ensures back.folders[x] == db.folders[x] {
        assert x in ids ==> LiveFolder(db, x);
      }
      assert back.folders == db.folders;
      assert back.blobs == db.blobs;
    }
  }

  /** Restoring right after trashing gives back the very same tables exactly when nothing below was in the trash before. */
  lemma TrashRestoreIdentityIff(db: Db, f: Id, u: Id, now: Time)
    requires Placed(db, now) && TrashFolder(db, f, u, now).Ok?
    ensures RestoreFolder(TrashFolder(db, f, u, now).value, f, u) == Ok(db) <==> SubtreeAllLive(db, f)
  {
    TrashThenRestoreRows(db, f, u, now);
    ReviveIsIdentityIff(db, Subtree(db.folders, f));
  }

  function StampedFolder(db: Db, x: Id, ids: set<Id>, now: Time): Folder
    requires x in db.folders
  {
    if LiveFolder(db, x) && x in ids then db.folders[x].(deletedAt := Some(now)) else db.folders[x]
  }

  function StampedBlob(db: Db, b: Id, ids: set<Id>, now: Time): Blob
    requires b in db.blobs
  {
    if db.blobs[b].deletedAt.None? && BlobIn(db, b, ids) then db.blobs[b].(deletedAt := Some(now)) else db.blobs[b]
  }

  /**
   * What trashing a folder leaves behind: the live folders of its subtree and the live
   * blobs in them are stamped with the instant of the call; everything that was in
   * the trash before keeps its stamp, and everything outside is as it was.
   */
  lemma TrashFolderEffect(db: Db, f: Id, u: Id, now: Time)
    requires Placed(db, now) && TrashFolder(db, f, u, now).Ok?
    ensures var db' := TrashFolder(db, f, u, now).value;
      && db'.folders.Keys == db.folders.Keys && db'.blobs.Keys == db.blobs.Keys
      && (forall x :: x in db.folders ==> db'.folders[x] == StampedFolder(db, x, Subtree(db.folders, f), now))
      && (forall b :: b in db.blobs ==> db'.blobs[b] == StampedBlob(db, b, Subtree(db.folders, f), now))
  {
    LiveSubtreeExact(db, f);
    forall b | BlobIn(db, b, Subtree(db.folders, f)) && db.blobs[b].deletedAt.None?
      ensures BlobIn(db, b, LiveSubtree(db.folders, f))
    {
      var p := db.blobs[b].folder.value;
      assert BlobSits(db.folders, db.blobs[b]) && LiveFolder(db, p);
    }
  }

  /** The parent of a trashed root is not itself trashed by the call. */
  lemma RestoredParentOutside(db: Db, f: Id, u: Id, now: Time)
    requires Placed(db, now) && TrashFolder(db, f, u, now).Ok?
    ensures f in TrashFolder(db, f, u, now).value.folders
    ensures RestoredParent(TrashFolder(db, f, u, now).value, f) == db.folders[f].parent
  {
    var pm := Parents(db.folders);
    var p := db.folders[f].parent;
    assert FolderSits(db.folders, db.folders[f]);
    LiveSubtreeExact(db, f);
    LiveCycleIff(db, f);
    if p.Some? && p.value in Subtree(db.folders, f) {
      CycleThroughParent(pm, f);
    }
  }

  /** What a successful restore leaves behind. */
  lemma RestoreFolderEffect(db: Db, f: Id, u: Id, now: Time)
    requires Placed(db, now) && RestoreFolder(db, f, u).Ok?
    ensures var db', ids := RestoreFolder(db, f, u).value, Subtree(db.folders, f);
      && SubtreeAllLive(db', f)
      && Subtree(db'.folders, f) == ids
      && db'.folders[f].parent ==
           (if db.folders[f].parent.Some? && LiveFolder(db, db.folders[f].parent.value)
            then db.folders[f].parent else None)
      && (forall x :: x in db.folders && x !in ids ==> db'.folders[x] == db.folders[x])
      && (forall b :: b in db.blobs && !BlobIn(db, b, ids) ==> db'.blobs[b] == db.blobs[b])
  {
    var db', ids := RestoreFolder(db, f, u).value, Subtree(db.folders, f);
    var pm, pm' := Parents(db.folders), Parents(db'.folders);
    SubtreeFacts(db, f);
    RestoreFolderKeepsPlaced(db, f, u, now);
    SubtreeFacts(db', f);
    forall x | x in db.folders ensures x in Subtree(db'.folders, f) <==> x in ids {
      if Under(pm', x, f) {
        var k: nat :| Up(pm', x, k) == Some(f);
        UpShrink(pm', pm, x, k);
      }
      if Under(pm, x, f) {
        var k: nat :| Up(pm, x, k) == Some(f);
        UpKeepsRoot(pm, pm', x, k, f);
      }
    }
  }

  /** Cutting or keeping the edge out of `f` leaves every chain that ends at `f`. */
  lemma {:induction false} UpKeepsRoot(pm: map<Id, Id>, cut: map<Id, Id>, x: Id, k: nat, f: Id)
    requires forall y :: y in pm && y != f ==> y in cut && cut[y] == pm[y]
    requires Up(pm, x, k) == Some(f)
    ensures Under(cut, x, f)
    decreases k
  {
    if x == f {
      UnderSelf(cut, f);
    } else {
      UpKeepsRoot(pm, cut, pm[x], k - 1, f);
      UnderParent(cut, x, f);
    }
  }

  // ---------- purge by age ----------

  /** By the deletion-time order, the folders chosen by age alone form whole subtrees. */
  lemma ExpiredClosedDown(db: Db, before: Time)
    requires WellPlaced(db)
    ensures ClosedDown(db, ExpiredFolders(db, before))
    ensures forall b :: BlobIn(db, b, ExpiredFolders(db, before)) ==> b in ExpiredBlobs(db, before)
  {
  }

  /**
   * The age purge never trips the RESTRICT key. It removes exactly the rows
   * trashed before the cutoff and leaves every other row as it was; the folder
   * transaction finds no blob the blob statement had not already taken.
   */
  lemma CleanExpiredTrashExact(db: Db, before: Time, now: Time)
    requires Placed(db, now)
    ensures CleanExpiredTrash(db, before) ==
              Ok(Db(db.folders - ExpiredFolders(db, before), db.blobs - ExpiredBlobs(db, before)))
    ensures Placed(CleanExpiredTrash(db, before).value, now)
    ensures var mid := PurgeExpiredBlobs(db, before); BlobsIn(mid, ExpiredFolders(mid, before)) == {}
  {
    var mid := PurgeExpiredBlobs(db, before);
    var ids := ExpiredFolders(db, before);
    assert ExpiredFolders(mid, before) == ids;
    ExpiredClosedDown(db, before);
    DeleteBlobsKeepsPlaced(db, ExpiredBlobs(db, before), now);
    forall b | b in mid.blobs ensures !BlobIn(mid, b, ids) {
      assert BlobIn(mid, b, ids) ==> BlobIn(db, b, ids);
    }
    assert BlobsIn(mid, ids) == {};
    DeleteTreeFromPlaced(mid, {}, ids, now);
    assert mid.blobs - {} == mid.blobs;
  }

  lemma DeleteTreeFromPlaced(db: Db, blobs: set<Id>, ids: set<Id>, now: Time)
    requires Placed(db, now) && ClosedDown(db, ids) && AllTrashed(db, ids) && BlobsIn(db, ids) <= blobs
    ensures DeleteTree(db, blobs, ids) == Ok(Db(db.folders - ids, db.blobs - blobs))
    ensures Placed(DeleteTree(db, blobs, ids).value, now)
  {
    PlacedHasKeys(db);
    DeleteTreeExact(db, blobs, ids);
    ShrinkKeepsPlaced(db, Db(db.folders - ids, db.blobs - blobs), now);
  }

  lemma PlacedHasKeys(db: Db)
    requires WellPlaced(db)
    ensures ForeignKeys(db)
  {
  }

  /** Every descendant goes with each folder the purge deletes. */
  lemma PurgeTakesSubtrees(db: Db, before: Time, now: Time, f: Id)
    requires Placed(db, now) && f in ExpiredFolders(db, before)
    ensures Subtree(db.folders, f) <= ExpiredFolders(db, before)
    ensures BlobsIn(db, Subtree(db.folders, f)) <= ExpiredBlobs(db, before)
  {
    SubtreeFacts(db, f);
    ExpiredClosedDown(db, before);
  }

  // ---------- emptying the trash ----------

  lemma TrashClosedDown(db: Db, u: Id)
    requires WellPlaced(db)
    ensures ClosedDown(db, FolderTrashOf(db, u))
    ensures forall b :: BlobIn(db, b, FolderTrashOf(db, u)) ==> b in BlobTrashOf(db, u)
  {
  }

  /**
   * Emptying the trash removes exactly the user's trashed rows: nothing live,
   * nothing of anyone else. Its folder half finds no blob left, so no object key
   * is handed out by both halves.
   */
  lemma EmptyTrashExact(db: Db, u: Id, now: Time)
    requires Placed(db, now)
    ensures EmptyTrash(db, u) == Ok(Db(db.folders - FolderTrashOf(db, u), db.blobs - BlobTrashOf(db, u)))
    ensures Placed(EmptyTrash(db, u).value, now)
    ensures BlobsInTrashOf(EmptyTrashedBlobs(db, u), u) == {}
  {
    var mid := EmptyTrashedBlobs(db, u);
    var ids := FolderTrashOf(db, u);
    assert FolderTrashOf(mid, u) == ids;
    TrashClosedDown(db, u);
    DeleteBlobsKeepsPlaced(db, BlobTrashOf(db, u), now);
    forall b | b in mid.blobs ensures !BlobIn(mid, b, ids) {
      assert BlobIn(mid, b, ids) ==> BlobIn(db, b, ids);
    }
    assert BlobsIn(mid, ids) == {} && BlobsInTrashOf(mid, u) == {};
    DeleteTreeFromPlaced(mid, {}, ids, now);
    assert mid.blobs - {} == mid.blobs;
  }

  ghost function Ancestors(db: Db, x: Id): set<Id>
  {
    set y | y in db.folders && Under(Parents(db.folders), x, y)
  }

  /** Climbing from a trashed folder reaches one that ListTrashedFolders shows. */
  lemma {:induction false} ListedAncestorExists(db: Db, x: Id, u: Id, now: Time) returns (f: Id)
    requires Placed(db, now) && OwnedTrash(db, x, u)
    ensures ListedFolder(db, f, u) && Under(Parents(db.folders), x, f)
    decreases Ancestors(db, x)
  {
    var pm := Parents(db.folders);
    UnderSelf(pm, x);
    if ListedFolder(db, x, u) {
      f := x;
    } else {
      var p := db.folders[x].parent.value;
      assert FolderSits(db.folders, db.folders[x]);
      AncestorsShrink(db, x, p);
      f := ListedAncestorExists(db, p, u, now);
      UnderParent(pm, x, f);
    }
  }

  lemma AncestorsShrink(db: Db, x: Id, p: Id)
    requires x in db.folders && db.folders[x].parent == Some(p) && !OnCycle(Parents(db.folders), x)
    ensures Ancestors(db, p) < Ancestors(db, x)
  {
    var pm := Parents(db.folders);
    forall y | y in Ancestors(db, p) ensures y in Ancestors(db, x) {
      UnderParent(pm, x, y);
    }
    UnderSelf(pm, x);
    if x in Ancestors(db, p) {
      CycleThroughParent(pm, x);
    }
  }

  /** Every trashed folder lies under exactly one folder of the trash listing. */
  lemma ListedAncestorUnique(db: Db, x: Id, u: Id, now: Time)
    requires Placed(db, now) && OwnedTrash(db, x, u)
    ensures exists f :: ListedFolder(db, f, u) && Under(Parents(db.folders), x, f)
    ensures forall f, g, v, w ::
              (ListedFolder(db, f, v) && ListedFolder(db, g, w) &&
               Under(Parents(db.folders), x, f) && Under(Parents(db.folders), x, g)) ==> f == g && v == u
  {
    var pm := Parents(db.folders);
    var top := ListedAncestorExists(db, x, u, now);
    forall f, g, v, w | ListedFolder(db, f, v) && ListedFolder(db, g, w) && Under(pm, x, f) && Under(pm, x, g)
      ensures f == g && v == u
    {
      UnderLinear(pm, x, f, g);
      if Under(pm, f, g) { ListedHasNoListedAbove(db, f, v, g, w); }
      if Under(pm, g, f) { ListedHasNoListedAbove(db, g, w, f, v); }
      SubtreeFacts(db, f);
    }
  }

  lemma ListedHasNoListedAbove(db: Db, f: Id, v: Id, g: Id, w: Id)
    requires WellPlaced(db)
    requires ListedFolder(db, f, v) && ListedFolder(db, g, w) && Under(Parents(db.folders), f, g)
    ensures f == g
  {
    if f != g {
      UnderStep(Parents(db.folders), f, g);
      SubtreeFacts(db, g);
    }
  }

  // ---------- hard deletes, one by one ----------

  datatype Item = FolderItem(id: Id) | BlobItem(id: Id)

  predicate Listed(db: Db, u: Id, item: Item)
  {
    match item
    case FolderItem(f) => ListedFolder(db, f, u)
    case BlobItem(b) => ListedBlob(db, b, u)
  }

  ghost function HardDelete(db: Db, u: Id, item: Item): Result<Db>
  {
    match item
    case FolderItem(f) => HardDeleteFolder(db, f, u)
    case BlobItem(b) => HardDeleteBlob(db, b, u)
  }

  ghost function HardDeleteAll(db: Db, u: Id, items: seq<Item>): Result<Db>
    decreases items
  {
    if items == [] then Ok(db)
    else
      var r := HardDelete(db, u, items[0]);
      if r.Ok? then HardDeleteAll(r.value, u, items[1..]) else r
  }

  /** Deleting one listed item takes it off the listing, adds nothing to it, and leaves EmptyTrash the same result. */
  lemma HardDeleteOne(db: Db, u: Id, item: Item, now: Time)
    requires Placed(db, now) && Listed(db, u, item)
    ensures HardDelete(db, u, item).Ok?
    ensures Placed(HardDelete(db, u, item).value, now)
    ensures EmptyTrash(HardDelete(db, u, item).value, u) == EmptyTrash(db, u)
    ensures forall it :: Listed(HardDelete(db, u, item).value, u, it) <==> Listed(db, u, it) && it != item
  {
    match item
    case FolderItem(f) =>
      var ids := Subtree(db.folders, f);
      SubtreeFacts(db, f);
      HardDeleteFolderKeepsPlaced(db, f, u, now);
      HardDeleteRows(db, u, ids, BlobsIn(db, ids), item, now);
    case BlobItem(b) =>
      DeleteBlobsKeepsPlaced(db, {b}, now);
      assert db.folders - {} == db.folders;
      HardDeleteRows(db, u, {}, {b}, item, now);
  }

  lemma HardDeleteRows(db: Db, u: Id, ids: set<Id>, blobs: set<Id>, item: Item, now: Time)
    requires Placed(db, now) && Placed(Db(db.folders - ids, db.blobs - blobs), now)
    requires ClosedDown(db, ids) && BlobsIn(db, ids) <= blobs
    requires forall x :: x in ids ==> OwnedTrash(db, x, u)
    requires forall x :: x in ids && item != FolderItem(x) ==> !ListedFolder(db, x, u)
    requires forall b :: b in blobs && item != BlobItem(b) ==> BlobIn(db, b, ids)
    requires forall b :: b in blobs && item == BlobItem(b) ==> OwnedTrashBlob(db, b, u)
    requires match item case FolderItem(f) => f in ids case BlobItem(b) => b in blobs
    ensures EmptyTrash(Db(db.folders - ids, db.blobs - blobs), u) == EmptyTrash(db, u)
    ensures forall it :: Listed(Db(db.folders - ids, db.blobs - blobs), u, it) <==> Listed(db, u, it) && it != item
  {
    var left := Db(db.folders - ids, db.blobs - blobs);
    forall b | b in blobs ensures OwnedTrashBlob(db, b, u) && (item != BlobItem(b) ==> !ListedBlob(db, b, u)) {
      if item != BlobItem(b) {
        var p := db.blobs[b].folder.value;
        assert BlobSits(db.folders, db.blobs[b]) && OwnedTrash(db, p, u);
      }
    }
    assert forall x :: x in ids ==> x in FolderTrashOf(db, u);
    assert forall b :: b in blobs ==> b in BlobTrashOf(db, u);
    HardDeleteLeavesTrash(db, u, ids, blobs, now);
    forall g ensures ListedFolder(left, g, u) <==> ListedFolder(db, g, u) && FolderItem(g) != item {
      StillListed(db, left, ids, u, g);
    }
    forall b ensures ListedBlob(left, b, u) <==> ListedBlob(db, b, u) && BlobItem(b) != item {
      StillListedBlob(db, left, ids, blobs, u, b);
    }
  }

  lemma HardDeleteLeavesTrash(db: Db, u: Id, ids: set<Id>, blobs: set<Id>, now: Time)
    requires Placed(db, now) && Placed(Db(db.folders - ids, db.blobs - blobs), now)
    requires ids <= FolderTrashOf(db, u) && blobs <= BlobTrashOf(db, u)
    ensures EmptyTrash(Db(db.folders - ids, db.blobs - blobs), u) == EmptyTrash(db, u)
  {
    EmptyTrashExact(db, u, now);
    EmptyTrashExact(Db(db.folders - ids, db.blobs - blobs), u, now);
    SameWithoutTrash(db, u, ids, blobs);
  }

  lemma SameWithoutTrash(db: Db, u: Id, ids: set<Id>, blobs: set<Id>)
    requires ids <= FolderTrashOf(db, u) && blobs <= BlobTrashOf(db, u)
    ensures var left := Db(db.folders - ids, db.blobs - blobs);
      && left.folders - FolderTrashOf(left, u) == db.folders - FolderTrashOf(db, u)
      && left.blobs - BlobTrashOf(left, u) == db.blobs - BlobTrashOf(db, u)
  {
  }

  lemma StillListed(db: Db, left: Db, ids: set<Id>, u: Id, g: Id)
    requires WellPlaced(db) && left.folders == db.folders - ids && ClosedDown(db, ids)
    ensures ListedFolder(left, g, u) <==> g !in ids && ListedFolder(db, g, u)
  {
  }

  lemma StillListedBlob(db: Db, left: Db, ids: set<Id>, blobs: set<Id>, u: Id, b: Id)
    requires WellPlaced(db) && left == Db(db.folders - ids, db.blobs - blobs) && BlobsIn(db, ids) <= blobs
    ensures ListedBlob(left, b, u) <==> b !in blobs && ListedBlob(db, b, u)
  {
  }

  /** Whatever is in the trash, something is listed. */
  lemma TrashedFolderShows(db: Db, x: Id, u: Id, now: Time) returns (it: Item)
    requires Placed(db, now) && OwnedTrash(db, x, u)
    ensures Listed(db, u, it)
  {
    var f := ListedAncestorExists(db, x, u, now);
    it := FolderItem(f);
  }

  lemma TrashedBlobShows(db: Db, b: Id, u: Id, now: Time) returns (it: Item)
    requires Placed(db, now) && OwnedTrashBlob(db, b, u)
    ensures Listed(db, u, it)
  {
    if ListedBlob(db, b, u) {
      it := BlobItem(b);
    } else {
      var p := db.blobs[b].folder.value;
      assert BlobSits(db.folders, db.blobs[b]);
      it := TrashedFolderShows(db, p, u, now);
    }
  }

  lemma NothingListedNothingTrashed(db: Db, u: Id, now: Time)
    requires Placed(db, now)
    requires forall it :: !Listed(db, u, it)
    ensures EmptyTrash(db, u) == Ok(db)
  {
    EmptyTrashExact(db, u, now);
    forall x ensures x !in FolderTrashOf(db, u) {
      if x in FolderTrashOf(db, u) { var it := TrashedFolderShows(db, x, u, now); }
    }
    forall b ensures b !in BlobTrashOf(db, u) {
      if b in BlobTrashOf(db, u) { var it := TrashedBlobShows(db, b, u, now); }
    }
    assert db.folders - FolderTrashOf(db, u) == db.folders;
    assert db.blobs - BlobTrashOf(db, u) == db.blobs;
  }

  /**
   * Hard-deleting everything the trash listing shows, item by item and in any
   * order, reaches the same tables as emptying the trash in one call.
   */
  lemma {:induction false} HardDeleteAllIsEmptyTrash(db: Db, u: Id, items: seq<Item>, now: Time)
    requires Placed(db, now) && NoDup(items)
    requires forall it :: it in items <==> Listed(db, u, it)
    ensures HardDeleteAll(db, u, items) == EmptyTrash(db, u)
    decreases items
  {
    if items == [] {
      NothingListedNothingTrashed(db, u, now);
    } else {
      var item, rest := items[0], items[1..];
      HardDeleteOne(db, u, item, now);
      var left := HardDelete(db, u, item).value;
      forall it ensures it in rest <==> Listed(left, u, it) {
        assert it in items <==> it == item || it in rest;
      }
      HardDeleteAllIsEmptyTrash(left, u, rest, now);
    }
  }
}
