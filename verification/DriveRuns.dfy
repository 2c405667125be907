/**
 * Properties of every run of undisturbed service calls. Most of them are those of
 * the interleaving the run amounts to; what whole calls add is that every check
 * still holds when its statement comes.
 */
module DriveRuns {
  import opened Prelude
  import opened Tables
  import opened TreeInvariants
  import opened Drive
  import opened DriveStatements
  import opened WholeCalls
  import Trash

  // ---------- the invariant ----------

  /** All rows in place, no upload confirmed twice, no handed-out key belonging to a row. */
  ghost predicate WorldInv(w: World)
  {
    Kept(w) && RowsPlaced(w)
  }

  lemma LeadsKeepsWorld(w: World, stmts: seq<Stmt>, w': World)
    requires WorldInv(w) && Leads(w, stmts, w')
    ensures WorldInv(w')
  {
    InterleavingKeeps(w, stmts);
    InterleavingPlacedIff(w, stmts);
    AlwaysEnd(RowsPlaced, w, stmts);
  }

  lemma StepKeepsWorld(lim: Limits, w: World, op: Op)
    requires WorldInv(w) && Legal(w, op)
    ensures WorldInv(Apply(lim, w, op))
  {
    CallIsItsStatements(lim, w, op);
    LeadsKeepsWorld(w, StatementsOf(lim, w, op), Apply(lim, w, op));
  }

  /** In every run, whatever fails, however deep folders are moved and however the calls follow each other. */
  lemma RunKeepsWorld(lim: Limits, w: World, ops: seq<Op>)
    requires WorldInv(w) && LegalRun(lim, w, ops)
    ensures WorldInv(Run(lim, w, ops))
  {
    RunIsItsStatements(lim, w, ops);
    LeadsKeepsWorld(w, StatementsOfRun(lim, w, ops), Run(lim, w, ops));
  }

  /** `ops` is a legal run from `w` to `end`. */
  ghost predicate Reaches(lim: Limits, w: World, ops: seq<Op>, end: World)
  {
    LegalRun(lim, w, ops) && Run(lim, w, ops) == end
  }

  lemma ReachesFirst(lim: Limits, w: World, op: Op, mid: World, rest: seq<Op>, end: World)
    requires Legal(w, op) && Apply(lim, w, op) == mid && Reaches(lim, mid, rest, end)
    ensures Reaches(lim, w, [op] + rest, end)
  {
    assert ([op] + rest)[1..] == rest;
  }

  lemma EmptyIsGood()
    ensures WorldInv(Empty) && NoCycles(Empty) && Backed(Empty)
  {
    EmptyIsKept();
  }

  /**
   * In every reachable state, cycles or not, the age purge goes through and takes
   * exactly the old trash, whole subtrees of it.
   */
  lemma PurgeSafeInEveryRun(lim: Limits, ops: seq<Op>, ttl: nat)
    requires LegalRun(lim, Empty, ops)
    ensures var w := Run(lim, Empty, ops);
      var before := Cutoff(w.now, ttl);
      && Tables.CleanExpiredTrash(w.db, before) ==
           Ok(Db(w.db.folders - ExpiredFolders(w.db, before), w.db.blobs - ExpiredBlobs(w.db, before)))
      && (forall f :: f in ExpiredFolders(w.db, before) ==>
            Subtree(w.db.folders, f) <= ExpiredFolders(w.db, before) &&
            BlobsIn(w.db, Subtree(w.db.folders, f)) <= ExpiredBlobs(w.db, before))
      && (forall f :: f in ExpiredFolders(w.db, before) <==>
            TrashedFolder(w.db, f) && w.db.folders[f].deletedAt.value + ttl < w.now)
      && (forall b :: b in ExpiredBlobs(w.db, before) <==>
            b in w.db.blobs && w.db.blobs[b].deletedAt.Some? && w.db.blobs[b].deletedAt.value + ttl < w.now)
  {
    EmptyIsGood();
    RunKeepsWorld(lim, Empty, ops);
    var w := Run(lim, Empty, ops);
    var before := Cutoff(w.now, ttl);
    Trash.CleanExpiredTrashExact(w.db, before, w.now);
    forall f | f in ExpiredFolders(w.db, before)
      ensures Subtree(w.db.folders, f) <= ExpiredFolders(w.db, before)
      ensures BlobsIn(w.db, Subtree(w.db.folders, f)) <= ExpiredBlobs(w.db, before)
    {
      Trash.PurgeTakesSubtrees(w.db, before, w.now, f);
    }
  }

  // ---------- cycles ----------

  /** An accepted move whose destination lies more than 100 levels below the moved folder. */
  ghost predicate MovesDeep(w: World, op: Op)
  {
    op.MoveFolder? && Tables.MoveFolder(w.db, op.f, op.u, op.parent).Ok? &&
    op.parent.Some? && DeepBelow(w.db, op.parent.value, op.f)
  }

  lemma {:induction false} RemovalsOnly(keys: seq<ObjectKey>, i: nat)
    requires i < |RemoveEach(keys)|
    ensures RemoveEach(keys)[i].RemoveObject?
    decreases keys
  {
    if i > 0 {
      RemovalsOnly(keys[1..], i - 1);
    }
  }

  lemma NoParentChanges(lim: Limits, w: World, op: Op, i: nat)
    requires !op.MoveFolder? && i < |StatementsOf(lim, w, op)|
    ensures !StatementsOf(lim, w, op)[i].UpdateParentId?
  {
    forall keys: seq<ObjectKey>, j: nat | j < |RemoveEach(keys)| ensures RemoveEach(keys)[j].RemoveObject? {
      RemovalsOnly(keys, j);
    }
  }

  lemma {:induction false} NothingCloses(w: World, stmts: seq<Stmt>)
    requires forall i :: 0 <= i < |stmts| ==> !stmts[i].UpdateParentId?
    ensures Each(ClosesNoCycle, w, stmts)
    decreases stmts
  {
    if stmts != [] {
      NothingCloses(Exec(w, stmts[0]), stmts[1..]);
    }
  }

  /** The only call that can close a cycle is a deep move, and every deep move does. */
  lemma StepKeepsAcyclicIff(lim: Limits, w: World, op: Op)
    requires WorldInv(w) && NoCycles(w) && Legal(w, op)
    ensures NoCycles(Apply(lim, w, op)) <==> !MovesDeep(w, op)
  {
    if op.MoveFolder? {
      if Tables.MoveFolder(w.db, op.f, op.u, op.parent).Ok? {
        MoveFolderKeepsAcyclicIff(w.db, op.f, op.u, op.parent, w.now);
      }
    } else {
      var stmts := StatementsOf(lim, w, op);
      forall i | 0 <= i < |stmts| ensures !stmts[i].UpdateParentId? {
        NoParentChanges(lim, w, op, i);
      }
      CallIsItsStatements(lim, w, op);
      NothingCloses(w, stmts);
      InterleavingAcyclicIff(w, stmts);
      AlwaysEnd(NoCycles, w, stmts);
    }
  }

  ghost predicate AlwaysAcyclic(lim: Limits, w: World, ops: seq<Op>)
    decreases ops
  {
    NoCycles(w) && (ops == [] || AlwaysAcyclic(lim, Apply(lim, w, ops[0]), ops[1..]))
  }

  ghost predicate NeverMovesDeep(lim: Limits, w: World, ops: seq<Op>)
    decreases ops
  {
    ops == [] || (!MovesDeep(w, ops[0]) && NeverMovesDeep(lim, Apply(lim, w, ops[0]), ops[1..]))
  }

  /** For every run: there is never a cycle if and only if no accepted move is a deep one. */
  lemma {:induction false} RunAcyclicIff(lim: Limits, w: World, ops: seq<Op>)
    requires WorldInv(w) && NoCycles(w) && LegalRun(lim, w, ops)
    ensures AlwaysAcyclic(lim, w, ops) <==> NeverMovesDeep(lim, w, ops)
    decreases ops
  {
    if ops != [] {
      StepKeepsWorld(lim, w, ops[0]);
      StepKeepsAcyclicIff(lim, w, ops[0]);
      if !MovesDeep(w, ops[0]) {
        RunAcyclicIff(lim, Apply(lim, w, ops[0]), ops[1..]);
      }
    }
  }

  // ---------- three kinds of call ----------

  /** The blob rows agree on everything but name, place and deletion mark. */
  ghost predicate SameUploads(db: Db, db': Db)
  {
    db'.blobs.Keys == db.blobs.Keys &&
    forall b :: b in db.blobs ==>
      && db'.blobs[b].owner == db.blobs[b].owner && db'.blobs[b].key == db.blobs[b].key
      && db'.blobs[b].size == db.blobs[b].size && db'.blobs[b].uploadedAt == db.blobs[b].uploadedAt
  }

  /** Calls that only rearrange, rename, trash or restore. */
  predicate Rearranges(op: Op)
  {
    op.CreateFolder? || op.RenameFolder? || op.MoveFolder? || op.DeleteFolder? || op.RestoreFolder? ||
    op.MoveBlob? || op.RenameBlob? || op.DeleteBlob? || op.RestoreBlob? || op.Tick?
  }

  /** Calls that hard-delete rows. */
  predicate Deletes(op: Op)
  {
    op.HardDeleteFolder? || op.EmptyTrash? || op.CleanExpiredTrash? || op.HardDeleteBlob? ||
    op.AbortUpload? || op.CleanOrphanedBlobs?
  }

  lemma RearrangeSameUploads(lim: Limits, w: World, op: Op)
    requires Rearranges(op)
    ensures SameUploads(w.db, Apply(lim, w, op).db)
    ensures Apply(lim, w, op).objects == w.objects && Apply(lim, w, op).confirmed == w.confirmed
    ensures Apply(lim, w, op).retired == w.retired
  {
    if op.MoveBlob? || op.RenameBlob? || op.DeleteBlob? || op.RestoreBlob? {
      BlobCallSameUploads(lim, w, op);
    } else if op.DeleteFolder? {
      TreeRowsSameUploads(w.db, LiveSubtree(w.db.folders, op.f), w.now, op.f, None);
    } else if op.RestoreFolder? && op.f in w.db.folders {
      TreeRowsSameUploads(w.db, Subtree(w.db.folders, op.f), w.now, op.f, RestoredParent(w.db, op.f));
    }
  }

  lemma BlobCallSameUploads(lim: Limits, w: World, op: Op)
    requires op.MoveBlob? || op.RenameBlob? || op.DeleteBlob? || op.RestoreBlob?
    ensures SameUploads(w.db, Apply(lim, w, op).db)
    ensures Apply(lim, w, op) == w.(db := Apply(lim, w, op).db)
  {
  }

  lemma TreeRowsSameUploads(db: Db, ids: set<Id>, now: Time, root: Id, parent: Option<Id>)
    ensures SameUploads(db, TrashRows(db, ids, now)) && SameUploads(db, RestoreRows(db, ids, root, parent))
  {
  }

  /** Emptying the trash, in one line: the user's trashed rows go, and so do their objects as far as removal works. */
  lemma EmptyTrashStep(lim: Limits, w: World, u: Id, removed: set<ObjectKey>)
    requires Placed(w.db, w.now)
    ensures var keys := KeysOf(w.db, BlobTrashOf(w.db, u));
      Apply(lim, w, Drive.EmptyTrash(u, removed)) ==
        w.(db := Db(w.db.folders - FolderTrashOf(w.db, u), w.db.blobs - BlobTrashOf(w.db, u)),
           objects := w.objects - keys * removed, retired := w.retired + keys)
  {
    Trash.EmptyTrashExact(w.db, u, w.now);
    assert w.db.blobs.Keys - (w.db.blobs - BlobTrashOf(w.db, u)).Keys == BlobTrashOf(w.db, u);
  }

  lemma CleanExpiredTrashStep(lim: Limits, w: World, ttl: nat, removed: set<ObjectKey>)
    requires Placed(w.db, w.now)
    ensures var before := Cutoff(w.now, ttl);
      var keys := KeysOf(w.db, ExpiredBlobs(w.db, before));
      Apply(lim, w, Drive.CleanExpiredTrash(ttl, removed)) ==
        w.(db := Db(w.db.folders - ExpiredFolders(w.db, before), w.db.blobs - ExpiredBlobs(w.db, before)),
           objects := w.objects - keys * removed, retired := w.retired + keys)
  {
    var before := Cutoff(w.now, ttl);
    Trash.CleanExpiredTrashExact(w.db, before, w.now);
    assert w.db.blobs.Keys - (w.db.blobs - ExpiredBlobs(w.db, before)).Keys == ExpiredBlobs(w.db, before);
  }

  lemma HardDeleteFolderStep(lim: Limits, w: World, f: Id, u: Id, removed: set<ObjectKey>)
    requires Placed(w.db, w.now) && OwnedTrash(w.db, f, u)
    ensures var ids := Subtree(w.db.folders, f);
      var keys := KeysOf(w.db, BlobsIn(w.db, ids));
      Apply(lim, w, Drive.HardDeleteFolder(f, u, removed)) ==
        w.(db := Db(w.db.folders - ids, w.db.blobs - BlobsIn(w.db, ids)),
           objects := w.objects - keys * removed, retired := w.retired + keys)
  {
    var doomed := BlobsIn(w.db, Subtree(w.db.folders, f));
    HardDeleteFolderKeepsPlaced(w.db, f, u, w.now);
    assert w.db.blobs.Keys - (w.db.blobs - doomed).Keys == doomed;
  }

  lemma CleanOrphanedBlobsStep(lim: Limits, w: World, ttl: nat, removed: set<ObjectKey>)
    ensures var orphans := OrphanedBlobs(w.db, Cutoff(w.now, ttl));
      Apply(lim, w, Drive.CleanOrphanedBlobs(ttl, removed)) ==
        w.(db := w.db.(blobs := w.db.blobs - orphans),
           objects := w.objects - KeysOf(w.db, set b | b in orphans && w.db.blobs[b].uploadId == "") * removed,
           retired := w.retired + KeysOf(w.db, orphans))
  {
    var orphans := OrphanedBlobs(w.db, Cutoff(w.now, ttl));
    assert w.db.blobs.Keys - (w.db.blobs - orphans).Keys == orphans;
    assert PlainUploads(w.db, orphans) == set b | b in orphans && w.db.blobs[b].uploadId == "";
  }

  /** The transaction of a call that moves, renames, trashes or restores. */
  ghost function TransactionOf(w: World, op: Op): Result<Db>
    requires op.RenameFolder? || op.MoveFolder? || op.DeleteFolder? || op.RestoreFolder? ||
             op.MoveBlob? || op.RenameBlob? || op.DeleteBlob? || op.RestoreBlob?
  {
    match op
    case RenameFolder(f, u, name) => Tables.RenameFolder(w.db, f, u, name)
    case MoveFolder(f, u, parent) => Tables.MoveFolder(w.db, f, u, parent)
    case DeleteFolder(f, u) => TrashFolder(w.db, f, u, w.now)
    case RestoreFolder(f, u) => Tables.RestoreFolder(w.db, f, u)
    case MoveBlob(b, u, folder) => Tables.MoveBlob(w.db, b, u, folder)
    case RenameBlob(b, u, name) => Tables.RenameBlob(w.db, b, u, name)
    case DeleteBlob(b, u) => TrashBlob(w.db, b, u, w.now)
    case RestoreBlob(b, u) => Tables.RestoreBlob(w.db, b, u)
  }

  /** Such a call is its transaction at the instant of the call: all of it or, if it fails, nothing. */
  lemma TransactionStep(lim: Limits, w: World, op: Op)
    requires op.RenameFolder? || op.MoveFolder? || op.DeleteFolder? || op.RestoreFolder? ||
             op.MoveBlob? || op.RenameBlob? || op.DeleteBlob? || op.RestoreBlob?
    ensures TransactionOf(w, op).Ok? ==> Apply(lim, w, op) == w.(db := TransactionOf(w, op).value)
    ensures TransactionOf(w, op).Err? ==> Apply(lim, w, op) == w
  {
  }

  /** A sweep whose folder half fails, which only misplaced rows can cause, has deleted its blob rows and removed no object. */
  lemma HalfDoneSweep(lim: Limits, w: World, u: Id, ttl: nat, removed: set<ObjectKey>)
    ensures EmptyTrashedFolders(EmptyTrashedBlobs(w.db, u), u).Err? ==>
              var w' := Apply(lim, w, Drive.EmptyTrash(u, removed));
              w'.db == w.db.(blobs := w.db.blobs - BlobTrashOf(w.db, u)) && w'.objects == w.objects
    ensures var before := Cutoff(w.now, ttl);
              PurgeExpiredFolders(PurgeExpiredBlobs(w.db, before), before).Err? ==>
                var w' := Apply(lim, w, Drive.CleanExpiredTrash(ttl, removed));
                w'.db == w.db.(blobs := w.db.blobs - ExpiredBlobs(w.db, before)) && w'.objects == w.objects
  {
  }

  /**
   * Completing an upload: for an unconfirmed multipart upload of the caller, once the
   * store has put the parts together the object is there, and if its size is known
   * the row is confirmed; nothing else ever changes.
   */
  lemma CompleteStep(lim: Limits, w: World, b: Id, u: Id, completeOk: bool, statOk: bool, size: int)
    ensures var w' := Apply(lim, w, Complete(b, u, completeOk, statOk, size));
      var started := Pending(w.db, b, u) && w.db.blobs[b].uploadId != "";
      && (w'.confirmed == w.confirmed + [b] <==> started && completeOk && statOk)
      && w'.objects == (if started && completeOk then w.objects + {w.db.blobs[b].key} else w.objects)
      && w'.db.folders == w.db.folders
      && w'.db.blobs == (if started && completeOk && statOk
                         then w.db.blobs[b := w.db.blobs[b].(uploadedAt := Some(w.now), size := size)] else w.db.blobs)
  {
    assert w.confirmed != w.confirmed + [b];
  }

  /**
   * Aborting an upload: only an unconfirmed one of the caller, and only once the
   * store has done its part, which for a single PUT is removing the object; then
   * the row goes.
   */
  lemma AbortUploadStep(lim: Limits, w: World, b: Id, u: Id, storeOk: bool, rowOk: bool)
    ensures var w' := Apply(lim, w, AbortUpload(b, u, storeOk, rowOk));
      var found := Pending(w.db, b, u) && storeOk;
      && w'.db == (if found && rowOk then w.db.(blobs := w.db.blobs - {b}) else w.db)
      && w'.objects == (if found && w.db.blobs[b].uploadId == "" then w.objects - {w.db.blobs[b].key} else w.objects)
  {
  }

  /** Hard-deleting a blob: only a trashed one of the caller; the object goes first, then the row. */
  lemma HardDeleteBlobStep(lim: Limits, w: World, b: Id, u: Id, removeOk: bool, rowOk: bool)
    ensures var w' := Apply(lim, w, Drive.HardDeleteBlob(b, u, removeOk, rowOk));
      var found := OwnedTrashBlob(w.db, b, u) && removeOk;
      && w'.db == (if found && rowOk then w.db.(blobs := w.db.blobs - {b}) else w.db)
      && w'.objects == (if found then w.objects - {w.db.blobs[b].key} else w.objects)
  {
  }

  /** Starting an upload adds one row and nothing else, and only if it is admitted and the store and the insert succeed. */
  lemma InitiateStep(lim: Limits, w: World, op: Op)
    requires op.Initiate? && Consistent(w.db, w.now)
    ensures var w' := Apply(lim, w, op);
      && w'.db.folders == w.db.folders && w'.objects == w.objects && w'.confirmed == w.confirmed
      && w'.db.blobs == (if Admitted(lim, w.db, op.u, op.folder, op.size) && op.storeOk && op.insertOk
                         then w.db.blobs[op.id := Blob(op.u, op.folder, op.name, ObjectKey(op.u, op.id), op.size, op.uploadId,
                                                       w.now, None, None)]
                         else w.db.blobs)
  {
  }

  lemma HalvesSurvivors(db: Db, now: Time, first: Stmt, second: Stmt)
    requires DropsRows(first) && DropsRows(second)
    ensures var mid := OnTables(db, now, first); Survivors(db, mid) && Survivors(db, OnTables(mid, now, second))
  {
    DropsSurvivors(db, now, first);
    DropsSurvivors(OnTables(db, now, first), now, second);
  }

  lemma EmptyTrashSurvivors(lim: Limits, w: World, u: Id, removed: set<ObjectKey>)
    ensures Survivors(w.db, Apply(lim, w, Drive.EmptyTrash(u, removed)).db)
  {
    HalvesSurvivors(w.db, w.now, EmptyBlobs(u), EmptyFolders(u));
    assert Apply(lim, w, Drive.EmptyTrash(u, removed)).db ==
           OnTables(OnTables(w.db, w.now, EmptyBlobs(u)), w.now, EmptyFolders(u));
  }

  lemma CleanExpiredTrashSurvivors(lim: Limits, w: World, ttl: nat, removed: set<ObjectKey>)
    ensures Survivors(w.db, Apply(lim, w, Drive.CleanExpiredTrash(ttl, removed)).db)
  {
    var before := Cutoff(w.now, ttl);
    HalvesSurvivors(w.db, w.now, PurgeBlobs(before), PurgeFolders(before));
    assert Apply(lim, w, Drive.CleanExpiredTrash(ttl, removed)).db ==
           OnTables(OnTables(w.db, w.now, PurgeBlobs(before)), w.now, PurgeFolders(before));
  }

  /** What a deleting call leaves is unchanged but for blobs that lost their folder, whatever the state. */
  lemma DeletesSurvivors(lim: Limits, w: World, op: Op)
    requires Deletes(op)
    ensures Survivors(w.db, Apply(lim, w, op).db)
  {
    match op
    case HardDeleteFolder(f, u, _) => DropsSurvivors(w.db, w.now, DeleteTrashedTree(f, u));
    case EmptyTrash(u, removed) => EmptyTrashSurvivors(lim, w, u, removed);
    case CleanExpiredTrash(ttl, removed) => CleanExpiredTrashSurvivors(lim, w, ttl, removed);
    case _ =>
  }

  /** A deleting call removes objects of rows it deletes; HardDeleteBlob and AbortUpload do so before the row goes. */
  lemma DeletesKeepObjects(lim: Limits, w: World, op: Op, b: Id)
    requires Deletes(op) && KeysOwn(w.db) && b in Apply(lim, w, op).db.blobs
    requires op.HardDeleteBlob? || op.AbortUpload? ==> op.b != b
    ensures b in w.db.blobs && (w.db.blobs[b].key in w.objects ==> w.db.blobs[b].key in Apply(lim, w, op).objects)
  {
    DeletesSurvivors(lim, w, op);
  }

  /** The three sweeping deletes take the object of every row they delete, as far as the store lets them. */
  lemma SweptRowsLoseObjects(lim: Limits, w: World, op: Op, b: Id)
    requires op.HardDeleteFolder? || op.EmptyTrash? || op.CleanExpiredTrash?
    requires RowsPlaced(w) && b in w.db.blobs && b !in Apply(lim, w, op).db.blobs && w.db.blobs[b].key in op.removed
    ensures w.db.blobs[b].key !in Apply(lim, w, op).objects
  {
    match op
    case HardDeleteFolder(f, u, removed) => if OwnedTrash(w.db, f, u) { HardDeleteFolderStep(lim, w, f, u, removed); }
    case EmptyTrash(u, removed) => EmptyTrashStep(lim, w, u, removed);
    case CleanExpiredTrash(ttl, removed) => CleanExpiredTrashStep(lim, w, ttl, removed);
  }

  // ---------- uploads keep their objects ----------

  /** A hard delete of an uploaded blob that removes the object also deletes the row. */
  ghost predicate Completes(w: World, op: Op)
  {
    op.HardDeleteBlob? && OwnedTrashBlob(w.db, op.b, op.u) && w.db.blobs[op.b].uploadedAt.Some? && op.removeOk ==> op.rowOk
  }

  /** Every uploaded row keeps its object through a call exactly unless a hard delete stops halfway. */
  lemma StepKeepsBackedIff(lim: Limits, w: World, op: Op)
    requires KeysOwn(w.db) && IdsIssued(w) && Backed(w) && Legal(w, op)
    ensures Backed(Apply(lim, w, op)) <==> Completes(w, op)
  {
    var w' := Apply(lim, w, op);
    if Rearranges(op) {
      RearrangeSameUploads(lim, w, op);
    } else if Deletes(op) {
      DeletesSurvivors(lim, w, op);
      forall b | b in w'.db.blobs && w'.db.blobs[b].uploadedAt.Some? && Completes(w, op)
        ensures w'.db.blobs[b].key in w'.objects
      {
        if op.HardDeleteBlob? || op.AbortUpload? ==> op.b != b { DeletesKeepObjects(lim, w, op, b); }
      }
    }
  }

  ghost predicate AlwaysBacked(lim: Limits, w: World, ops: seq<Op>)
    decreases ops
  {
    Backed(w) && (ops == [] || AlwaysBacked(lim, Apply(lim, w, ops[0]), ops[1..]))
  }

  ghost predicate AlwaysCompletes(lim: Limits, w: World, ops: seq<Op>)
    decreases ops
  {
    ops == [] || (Completes(w, ops[0]) && AlwaysCompletes(lim, Apply(lim, w, ops[0]), ops[1..]))
  }

  /** For every run: every uploaded row always has its object if and only if no hard delete stops halfway. */
  lemma {:induction false} RunBackedIff(lim: Limits, w: World, ops: seq<Op>)
    requires WorldInv(w) && Backed(w) && LegalRun(lim, w, ops)
    ensures AlwaysBacked(lim, w, ops) <==> AlwaysCompletes(lim, w, ops)
    decreases ops
  {
    if ops != [] {
      StepKeepsWorld(lim, w, ops[0]);
      StepKeepsBackedIff(lim, w, ops[0]);
      if Completes(w, ops[0]) {
        RunBackedIff(lim, Apply(lim, w, ops[0]), ops[1..]);
      }
    }
  }

  // ---------- nothing live is ever destroyed ----------

  /** The calls that put things into the trash. */
  predicate Trashes(op: Op)
  {
    op.DeleteFolder? || op.DeleteBlob?
  }

  /** Every hard delete, by whatever route, leaves each uploaded and live blob its row and its object. */
  lemma DeleteSparesLive(lim: Limits, w: World, op: Op, b: Id)
    requires RowsPlaced(w) && Deletes(op) && Safe(w, b)
    ensures Safe(Apply(lim, w, op), b)
  {
    match op
    case HardDeleteFolder(f, u, _) => if OwnedTrash(w.db, f, u) { DropTree(w.db, w.now, f, u); }
    case EmptyTrash(u, _) => Trash.EmptyTrashExact(w.db, u, w.now);
    case CleanExpiredTrash(ttl, _) => Trash.CleanExpiredTrashExact(w.db, Cutoff(w.now, ttl), w.now);
    case _ =>
  }

  lemma StepSparesLive(lim: Limits, w: World, op: Op, b: Id)
    requires WorldInv(w) && Legal(w, op) && Safe(w, b) && !Trashes(op)
    ensures Safe(Apply(lim, w, op), b)
  {
    if Deletes(op) {
      DeleteSparesLive(lim, w, op, b);
    } else if Rearranges(op) {
      RearrangeSameUploads(lim, w, op);
    }
  }

  /** In every run without a trashing call, whatever fails, an uploaded live blob keeps its row and its object. */
  lemma {:induction false} LiveUploadSurvives(lim: Limits, w: World, ops: seq<Op>, b: Id)
    requires WorldInv(w) && LegalRun(lim, w, ops) && Safe(w, b)
    requires forall i :: 0 <= i < |ops| ==> !Trashes(ops[i])
    ensures Safe(Run(lim, w, ops), b)
    decreases ops
  {
    if ops != [] {
      StepKeepsWorld(lim, w, ops[0]);
      StepSparesLive(lim, w, ops[0], b);
      LiveUploadSurvives(lim, Apply(lim, w, ops[0]), ops[1..], b);
    }
  }
}
