/**
 * What the storage service promises one user against all others and against the
 * background jobs: no call reaches another user's rows or objects, what is in the
 * trash can be restored until it is older than the time to live, and an upload
 * can be finished until it is.
 */
module Isolation {
  import opened Prelude
  import opened Tables
  import opened TreeInvariants
  import opened Drive
  import opened DriveStatements
  import opened DriveRuns
  import Trash

  // ---------- calls stay with their caller ----------

  /** The user who makes a call; the clock and the background jobs have none. */
  function CallerOf(op: Op): Option<Id>
  {
    match op
    case Tick(_) => None
    case CleanExpiredTrash(_, _) => None
    case CleanOrphanedBlobs(_, _) => None
    case _ => Some(op.u)
  }

  predicate FolderOf(db: Db, x: Id, v: Id)
  {
    x in db.folders && db.folders[x].owner == v
  }

  predicate BlobOf(db: Db, b: Id, v: Id)
  {
    b in db.blobs && db.blobs[b].owner == v
  }

  /** The rows of `v`, no more and no fewer, are as they were. */
  ghost predicate SameRows(db: Db, db': Db, v: Id)
  {
    && (forall x :: FolderOf(db, x, v) <==> FolderOf(db', x, v))
    && (forall x :: FolderOf(db, x, v) ==> db'.folders[x] == db.folders[x])
    && (forall b :: BlobOf(db, b, v) <==> BlobOf(db', b, v))
    && (forall b :: BlobOf(db, b, v) ==> db'.blobs[b] == db.blobs[b])
  }

  /** And so are the objects under the user's keys. */
  ghost predicate Untouched(w: World, w': World, v: Id)
  {
    SameRows(w.db, w'.db, v) && forall k: ObjectKey :: k.user == v ==> (k in w.objects <==> k in w'.objects)
  }

  lemma DropsOnlyOwn(db: Db, folders: set<Id>, blobs: set<Id>, v: Id)
    requires forall x :: x in folders ==> !FolderOf(db, x, v)
    requires forall b :: b in blobs ==> !BlobOf(db, b, v)
    ensures SameRows(db, Db(db.folders - folders, db.blobs - blobs), v)
  {
  }

  lemma TreeCallStays(db: Db, f: Id, u: Id, now: Time, v: Id)
    requires Placed(db, now) && u != v
    ensures TrashFolder(db, f, u, now).Ok? ==> SameRows(db, TrashFolder(db, f, u, now).value, v)
    ensures Tables.RestoreFolder(db, f, u).Ok? ==> SameRows(db, Tables.RestoreFolder(db, f, u).value, v)
  {
    Trash.SubtreeCallsStayWithUser(db, f, u, now);
  }

  lemma FolderCallStays(lim: Limits, w: World, op: Op, v: Id)
    requires WorldInv(w) && Legal(w, op) && CallerOf(op) != Some(v)
    requires op.CreateFolder? || op.RenameFolder? || op.MoveFolder? || op.DeleteFolder? || op.RestoreFolder?
    ensures Untouched(w, Apply(lim, w, op), v)
  {
    if op.DeleteFolder? || op.RestoreFolder? {
      TreeCallStays(w.db, op.f, op.u, w.now, v);
    }
  }

  lemma BlobCallStays(lim: Limits, w: World, op: Op, v: Id)
    requires WorldInv(w) && Legal(w, op) && CallerOf(op) != Some(v)
    requires op.MoveBlob? || op.RenameBlob? || op.DeleteBlob? || op.RestoreBlob? || op.Initiate? || op.Complete?
    ensures Untouched(w, Apply(lim, w, op), v)
  {
  }

  lemma DeleteOneStays(lim: Limits, w: World, op: Op, v: Id)
    requires WorldInv(w) && CallerOf(op) != Some(v) && (op.HardDeleteBlob? || op.AbortUpload?)
    ensures Untouched(w, Apply(lim, w, op), v)
  {
    DropsOnlyOwn(w.db, {}, if BlobOf(w.db, op.b, v) then {} else {op.b}, v);
  }

  lemma SweepStays(lim: Limits, w: World, op: Op, v: Id)
    requires WorldInv(w) && CallerOf(op) != Some(v) && (op.HardDeleteFolder? || op.EmptyTrash?)
    ensures Untouched(w, Apply(lim, w, op), v)
  {
    match op
    case HardDeleteFolder(f, u, removed) =>
      if OwnedTrash(w.db, f, u) {
        var ids := Subtree(w.db.folders, f);
        HardDeleteFolderStep(lim, w, f, u, removed);
        SubtreeFacts(w.db, f);
        Trash.BlobOwners(w.db, f, u);
        DropsOnlyOwn(w.db, ids, BlobsIn(w.db, ids), v);
      }
    case EmptyTrash(u, removed) =>
      EmptyTrashStep(lim, w, u, removed);
      DropsOnlyOwn(w.db, FolderTrashOf(w.db, u), BlobTrashOf(w.db, u), v);
  }

  /** No call by one user changes, adds or removes a row or an object of another. */
  lemma CallStaysWithCaller(lim: Limits, w: World, op: Op, v: Id)
    requires WorldInv(w) && Legal(w, op) && CallerOf(op).Some? && CallerOf(op) != Some(v)
    ensures Untouched(w, Apply(lim, w, op), v)
  {
    if op.HardDeleteFolder? || op.EmptyTrash? {
      SweepStays(lim, w, op, v);
    } else if op.HardDeleteBlob? || op.AbortUpload? {
      DeleteOneStays(lim, w, op, v);
    } else if op.CreateFolder? || op.RenameFolder? || op.MoveFolder? || op.DeleteFolder? || op.RestoreFolder? {
      FolderCallStays(lim, w, op, v);
    } else {
      BlobCallStays(lim, w, op, v);
    }
  }

  // ---------- the trash keeps what it is given ----------

  /** Calls of others and background jobs, the age purge only while what was trashed at `t0` is within its time to live. */
  ghost predicate WithinTtl(lim: Limits, w: World, ops: seq<Op>, u: Id, t0: Time)
    decreases ops
  {
    ops == [] ||
    (CallerOf(ops[0]) != Some(u) && (ops[0].CleanExpiredTrash? ==> w.now <= t0 + ops[0].ttl) &&
     WithinTtl(lim, Apply(lim, w, ops[0]), ops[1..], u, t0))
  }

  /** Blob `b` of `u` lies in the trash since `t0`; `row` and the object are as given, and so are the live folders of `u`. */
  ghost predicate InTrash(w: World, b: Id, u: Id, t0: Time, row: Blob, stored: bool, live: map<Id, Folder>)
  {
    && b in w.db.blobs && w.db.blobs[b] == row && row.owner == u && row.deletedAt == Some(t0)
    && (row.key in w.objects <==> stored)
    && (forall f :: f in live ==> f in w.db.folders && w.db.folders[f] == live[f] && Owned(w.db, f, u))
  }

  lemma PurgeKeepsTrash(lim: Limits, w: World, op: Op, b: Id, u: Id, t0: Time, row: Blob, stored: bool, live: map<Id, Folder>)
    requires WorldInv(w) && InTrash(w, b, u, t0, row, stored, live)
    requires op.CleanOrphanedBlobs? || (op.CleanExpiredTrash? && w.now <= t0 + op.ttl)
    ensures InTrash(Apply(lim, w, op), b, u, t0, row, stored, live)
  {
    match op
    case CleanExpiredTrash(ttl, removed) => CleanExpiredTrashStep(lim, w, ttl, removed);
    case CleanOrphanedBlobs(ttl, removed) => CleanOrphanedBlobsStep(lim, w, ttl, removed);
  }

  lemma {:induction false} TrashStays(lim: Limits, w: World, ops: seq<Op>, b: Id, u: Id, t0: Time, row: Blob, stored: bool,
                                      live: map<Id, Folder>)
    requires WorldInv(w) && LegalRun(lim, w, ops) && WithinTtl(lim, w, ops, u, t0) && InTrash(w, b, u, t0, row, stored, live)
    ensures InTrash(Run(lim, w, ops), b, u, t0, row, stored, live)
    decreases ops
  {
    if ops != [] {
      var op := ops[0];
      StepKeepsWorld(lim, w, op);
      if CallerOf(op).Some? {
        CallStaysWithCaller(lim, w, op, u);
        assert BlobOf(w.db, b, u) && row.key.user == u;
        forall f | f in live ensures FolderOf(Apply(lim, w, op).db, f, u) {
          assert FolderOf(w.db, f, u);
        }
      } else if !op.Tick? {
        PurgeKeepsTrash(lim, w, op, b, u, t0, row, stored, live);
      }
      TrashStays(lim, Apply(lim, w, op), ops[1..], b, u, t0, row, stored, live);
    }
  }

  /** The live folders of a user. */
  function LiveFoldersOf(db: Db, u: Id): map<Id, Folder>
  {
    map f | f in db.folders && Owned(db, f, u) :: db.folders[f]
  }

  /**
   * A blob put into the trash comes back, row and object, exactly as it was: whatever
   * other users do, whichever jobs run, as long as no purge comes later than its
   * time to live.
   */
  lemma TrashedBlobComesBack(lim: Limits, w: World, b: Id, u: Id, ops: seq<Op>)
    requires WorldInv(w) && OwnedBlob(w.db, b, u)
    requires var w1 := Apply(lim, w, DeleteBlob(b, u)); LegalRun(lim, w1, ops) && WithinTtl(lim, w1, ops, u, w.now)
    ensures var end := Run(lim, Apply(lim, w, DeleteBlob(b, u)), ops);
      var key := w.db.blobs[b].key;
      && Tables.RestoreBlob(end.db, b, u).Ok?
      && Tables.RestoreBlob(end.db, b, u).value.blobs[b] == w.db.blobs[b]
      && (key in end.objects <==> key in w.objects)
  {
    var w1 := Apply(lim, w, DeleteBlob(b, u));
    var row := w.db.blobs[b];
    StepKeepsWorld(lim, w, DeleteBlob(b, u));
    assert BlobSits(w.db.folders, row);
    TrashStays(lim, w1, ops, b, u, w.now, row.(deletedAt := Some(w.now)), row.key in w.objects, LiveFoldersOf(w.db, u));
    if row.folder.Some? {
      var p := row.folder.value;
      assert p in LiveFoldersOf(w.db, u);
    }
  }

  /** Left alone for `wait` after it was trashed, a blob is purged exactly if that is longer than the time to live. */
  lemma TrashedBlobPurgedIff(lim: Limits, w: World, b: Id, u: Id, wait: nat, ttl: nat, removed: set<ObjectKey>)
    requires WorldInv(w) && OwnedBlob(w.db, b, u)
    ensures var w2 := Apply(lim, Apply(lim, w, DeleteBlob(b, u)), Tick(wait));
      b in Apply(lim, w2, Drive.CleanExpiredTrash(ttl, removed)).db.blobs <==> wait <= ttl
  {
    var w1 := Apply(lim, w, DeleteBlob(b, u));
    StepKeepsWorld(lim, w, DeleteBlob(b, u));
    StepKeepsWorld(lim, w1, Tick(wait));
    var w2 := Apply(lim, w1, Tick(wait));
    assert w2.db.blobs[b].deletedAt == Some(w.now);
    CleanExpiredTrashStep(lim, w2, ttl, removed);
  }

  /** The same for a folder: everything the call trashed, folders and blobs, goes together and exactly then. */
  lemma TrashedFolderPurgedIff(lim: Limits, w: World, f: Id, u: Id, wait: nat, ttl: nat, removed: set<ObjectKey>)
    requires WorldInv(w) && TrashFolder(w.db, f, u, w.now).Ok?
    ensures var w2 := Apply(lim, Apply(lim, w, DeleteFolder(f, u)), Tick(wait));
      var w3 := Apply(lim, w2, Drive.CleanExpiredTrash(ttl, removed));
      && (forall x :: x in Subtree(w.db.folders, f) && LiveFolder(w.db, x) ==> (x in w3.db.folders <==> wait <= ttl))
      && (forall b :: (BlobIn(w.db, b, LiveSubtree(w.db.folders, f)) && w.db.blobs[b].deletedAt.None?) ==>
            (b in w3.db.blobs <==> wait <= ttl))
  {
    var w1 := Apply(lim, w, DeleteFolder(f, u));
    StepKeepsWorld(lim, w, DeleteFolder(f, u));
    StepKeepsWorld(lim, w1, Tick(wait));
    LiveSubtreeExact(w.db, f);
    CleanExpiredTrashStep(lim, Apply(lim, w1, Tick(wait)), ttl, removed);
  }

  // ---------- an upload can be finished ----------

  /** Calls of others and background jobs, the orphan clean-up only while an upload started at `t0` is within its time to live. */
  ghost predicate InTime(lim: Limits, w: World, ops: seq<Op>, u: Id, t0: Time)
    decreases ops
  {
    ops == [] ||
    (CallerOf(ops[0]) != Some(u) && (ops[0].CleanOrphanedBlobs? ==> w.now <= t0 + ops[0].ttl) &&
     InTime(lim, Apply(lim, w, ops[0]), ops[1..], u, t0))
  }

  ghost predicate Started(w: World, b: Id, u: Id, t0: Time, uploadId: string)
  {
    Pending(w.db, b, u) && w.db.blobs[b].createdAt == t0 && w.db.blobs[b].uploadId == uploadId
  }

  lemma StartedStep(lim: Limits, w: World, op: Op, b: Id, u: Id, t0: Time, uploadId: string)
    requires WorldInv(w) && Legal(w, op) && Started(w, b, u, t0, uploadId) && CallerOf(op) != Some(u)
    requires op.CleanOrphanedBlobs? ==> w.now <= t0 + op.ttl
    ensures Started(Apply(lim, w, op), b, u, t0, uploadId)
  {
    if CallerOf(op).Some? {
      CallStaysWithCaller(lim, w, op, u);
      assert BlobOf(w.db, b, u);
    } else if op.CleanExpiredTrash? {
      CleanExpiredTrashStep(lim, w, op.ttl, op.removed);
    } else if op.CleanOrphanedBlobs? {
      CleanOrphanedBlobsStep(lim, w, op.ttl, op.removed);
    }
  }

  lemma {:induction false} UploadStays(lim: Limits, w: World, ops: seq<Op>, b: Id, u: Id, t0: Time, uploadId: string)
    requires WorldInv(w) && LegalRun(lim, w, ops) && InTime(lim, w, ops, u, t0) && Started(w, b, u, t0, uploadId)
    ensures Started(Run(lim, w, ops), b, u, t0, uploadId)
    decreases ops
  {
    if ops != [] {
      StepKeepsWorld(lim, w, ops[0]);
      StartedStep(lim, w, ops[0], b, u, t0, uploadId);
      UploadStays(lim, Apply(lim, w, ops[0]), ops[1..], b, u, t0, uploadId);
    }
  }

  lemma InitiateStarts(lim: Limits, w: World, op: Op)
    requires WorldInv(w) && Legal(w, op) && op.Initiate? && op.storeOk && op.insertOk
    requires Admitted(lim, w.db, op.u, op.folder, op.size)
    ensures Started(Apply(lim, w, op), op.id, op.u, w.now, op.uploadId)
    ensures Apply(lim, w, op).db.blobs[op.id].folder == op.folder && Apply(lim, w, op).db.blobs[op.id].name == op.name
    ensures Apply(lim, w, op).db.blobs[op.id].key == ObjectKey(op.u, op.id)
  {
  }

  /**
   * An admitted multipart upload can be completed, whatever other users do and
   * whichever jobs run, as long as no clean-up comes later than its time to live:
   * the blob is then live, with the real size and its object.
   */
  lemma UploadCanBeFinished(lim: Limits, w: World, op: Op, ops: seq<Op>, size: int)
    requires WorldInv(w) && Legal(w, op) && op.Initiate? && op.storeOk && op.insertOk && op.uploadId != ""
    requires Admitted(lim, w.db, op.u, op.folder, op.size)
    requires var w1 := Apply(lim, w, op); LegalRun(lim, w1, ops) && InTime(lim, w1, ops, op.u, w.now)
    ensures var end := Run(lim, Apply(lim, w, op), ops);
      var done := Apply(lim, end, Complete(op.id, op.u, true, true, size));
      && Safe(done, op.id) && done.db.blobs[op.id].size == size && done.confirmed == end.confirmed + [op.id]
      && done.db.blobs[op.id].uploadedAt == Some(end.now)
  {
    InitiateStarts(lim, w, op);
    StepKeepsWorld(lim, w, op);
    UploadStays(lim, Apply(lim, w, op), ops, op.id, op.u, w.now, op.uploadId);
  }

  /** Left alone for `wait` after it was started, an upload is cleaned up exactly if that is longer than the time to live. */
  lemma StartedUploadCleanedIff(lim: Limits, w: World, op: Op, wait: nat, ttl: nat, removed: set<ObjectKey>)
    requires WorldInv(w) && Legal(w, op) && op.Initiate? && op.storeOk && op.insertOk
    requires Admitted(lim, w.db, op.u, op.folder, op.size)
    ensures var w2 := Apply(lim, Apply(lim, w, op), Tick(wait));
      op.id in Apply(lim, w2, CleanOrphanedBlobs(ttl, removed)).db.blobs <==> wait <= ttl
  {
    InitiateStarts(lim, w, op);
    CleanOrphanedBlobsStep(lim, Apply(lim, Apply(lim, w, op), Tick(wait)), ttl, removed);
  }
}
