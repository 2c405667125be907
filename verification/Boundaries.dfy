/** Where the storage guarantees end: inputs and schedules outside the assumptions, and what they do. */
module Boundaries {
  import opened Prelude
  import opened Forest
  import opened Tables
  import opened TreeInvariants
  import opened Drive
  import opened DriveStatements
  import opened WholeCalls
  import opened DriveRuns
  import Trash
  import opened Quota

  // ---------- moves of very deep folders ----------

  /** A straight chain of live folders of user 1, ids 1 to n; folder i + 1 lies in folder i. */
  function ChainRow(i: Id): Folder
  {
    Folder(1, if i == 1 then None else Some(i - 1), "d", None)
  }

  function ChainDb(n: nat): Db
  {
    Db(map i: Id | 1 <= i <= n :: ChainRow(i), map[])
  }

  /** The service after n CreateFolder calls. */
  function ChainWorld(n: nat): World
  {
    Empty.(db := ChainDb(n), issued := ChainDb(n).folders.Keys)
  }

  function CreateNext(n: nat): Op
  {
    Op.CreateFolder(n + 1, 1, if n == 0 then None else Some(n), "d")
  }

  lemma CreateNextExtends(lim: Limits, n: nat)
    ensures Legal(ChainWorld(n), CreateNext(n))
    ensures Apply(lim, ChainWorld(n), CreateNext(n)) == ChainWorld(n + 1)
  {
    var fs := ChainDb(n).folders[n + 1 := ChainRow(n + 1)];
    assert fs == ChainDb(n + 1).folders;
    if n > 0 { assert n in ChainDb(n).folders; }
    assert ChainWorld(n).issued + {n + 1} == ChainWorld(n + 1).issued;
  }

  lemma {:induction false} ChainBuilds(lim: Limits, n: nat, last: nat) returns (ops: seq<Op>)
    requires n <= last
    ensures Reaches(lim, ChainWorld(n), ops, ChainWorld(last))
    decreases last - n
  {
    ops := [];
    if n < last {
      CreateNextExtends(lim, n);
      var rest := ChainBuilds(lim, n + 1, last);
      ReachesFirst(lim, ChainWorld(n), CreateNext(n), ChainWorld(n + 1), rest, ChainWorld(last));
      ops := [CreateNext(n)] + rest;
    }
  }

  /** The chain is a state the service reaches. */
  lemma ChainReached(lim: Limits, n: nat)
    ensures exists ops :: Reaches(lim, Empty, ops, ChainWorld(n))
    ensures Inv(ChainDb(n), 0)
  {
    assert ChainDb(0).folders == map[] && ChainWorld(0) == Empty;
    var ops := ChainBuilds(lim, 0, n);
    EmptyIsGood();
    RunKeepsWorld(lim, Empty, ops);
    var pm := Parents(ChainDb(n).folders);
    forall x, k: nat | k > 0 ensures Up(pm, x, k) != Some(x) {
      if 1 <= x <= n { ChainUp(n, x, k); }
    }
    assert forall x :: !OnCycle(pm, x);
  }

  lemma {:induction false} ChainUp(n: nat, x: Id, k: nat)
    requires 1 <= x <= n
    ensures Up(Parents(ChainDb(n).folders), x, k) == if k < x then Some(x - k) else None
    decreases k
  {
    if k > 0 && x > 1 {
      ChainUp(n, x - 1, k - 1);
    }
  }

  /** The chain with its top folder put into its bottom one. */
  function ClosedChain(n: nat): map<Id, Folder>
  {
    ChainDb(n).folders[1 := Folder(1, Some(n), "d", None)]
  }

  lemma DeepSearchMisses(n: nat)
    requires n > 101
    ensures !IsDescendantOf(ChainDb(n), 1, n)
  {
    var db := ChainDb(n);
    ChainReached(Limits(0, 0), n);
    forall k: nat | k <= MAX_SEARCH_DEPTH ensures Up(LiveParents(db.folders), n, k) != Some(1) {
      LiveChain(db, n, k);
      ChainUp(n, n, k);
    }
  }

  lemma ClosedChainParents(n: nat)
    requires n > 1
    ensures Parents(ClosedChain(n)) == Parents(ChainDb(n).folders)[1 := n]
    ensures LiveParents(ClosedChain(n)) == Parents(ClosedChain(n))
    ensures NamesUnique(ClosedChain(n))
  {
  }

  lemma DeepMoveAccepted(n: nat)
    requires n > 101
    ensures Tables.MoveFolder(ChainDb(n), 1, 1, Some(n)) == Ok(ChainDb(n).(folders := ClosedChain(n)))
  {
    var db := ChainDb(n);
    DeepSearchMisses(n);
    ClosedChainParents(n);
    assert Owned(db, 1, 1) && Owned(db, n, 1);
    assert db.folders[1].(parent := Some(n)) == Folder(1, Some(n), "d", None);
  }

  lemma ClosedChainCycle(n: nat)
    requires n > 1
    ensures Up(Parents(ClosedChain(n)), 1, n) == Some(1)
  {
    var pm := Parents(ChainDb(n).folders);
    ChainReached(Limits(0, 0), n);
    ChainUp(n, n, n - 1);
    UpToMoved(pm, 1, n, n, n - 1);
    ClosedChainParents(n);
  }

  /**
   * On every chain deeper than the search limit, all of them states the service
   * reaches, moving the top folder into the bottom one is accepted and closes a
   * cycle; the recursive query that would trash it then finds another row at
   * every depth and runs into its deadline, leaving the tables as they are.
   */
  lemma DeepMoveClosesCycle(lim: Limits, n: nat, depth: nat)
    requires n > 101
    ensures exists ops :: Reaches(lim, Empty, ops, ChainWorld(n))
    ensures Tables.MoveFolder(ChainDb(n), 1, 1, Some(n)) == Ok(ChainDb(n).(folders := ClosedChain(n)))
    ensures OnCycle(Parents(ClosedChain(n)), 1)
    ensures exists x :: Up(LiveParents(ClosedChain(n)), x, depth) == Some(1)
    ensures forall now :: TrashFolder(ChainDb(n).(folders := ClosedChain(n)), 1, 1, now) == Err(DeadlineExceeded)
  {
    ChainReached(lim, n);
    DeepMoveAccepted(n);
    ClosedChainCycle(n);
    ClosedChainParents(n);
    var x, m := WalkDivergesOnCycle(LiveParents(ClosedChain(n)), 1, n, depth);
  }

  // ---------- service calls that interleave ----------

  /**
   * CreateFolder checks its parent in one query and inserts in another. If the
   * parent is trashed in between, the insert still succeeds; once the parent is
   * old enough, the age purge fails on the RESTRICT key, and fails for everyone.
   */
  lemma RacingCreateBlocksPurge(db: Db, id: Id, u: Id, p: Id, name: string, before: Time, now: Time)
    requires Placed(db, now) && OwnedTrash(db, p, u) && id !in db.folders && NameOk(name)
    requires db.folders[p].deletedAt.value < before
    ensures InsertFolder(db, id, u, Some(p), name).Ok?
    ensures PurgeExpiredFolders(InsertFolder(db, id, u, Some(p), name).value, before) == Err(ForeignKeyViolation)
  {
    var fs := db.folders[id := FolderRow(u, Some(p), name)];
    forall x | x in db.folders ensures !Clash(fs[id], db.folders[x]) && !Clash(db.folders[x], fs[id]) {
      assert FolderSits(db.folders, db.folders[x]);
    }
    assert NamesUnique(fs);
    var db' := db.(folders := fs);
    var ids := ExpiredFolders(db', before);
    assert fs[p] == db.folders[p] && p in ids && id !in ids;
    var detached := Detach(DeleteBlobs(db', BlobsIn(db', ids)), ids);
    assert detached.folders[id] == fs[id];
    assert Referenced(detached, ids);
  }

  /**
   * MoveFolder searches for a cycle in one query and updates in another. Two
   * moves that each pass their checks on the same tables, however shallow, both
   * go through and put the two folders into each other.
   */
  lemma RacingMovesCloseCycle(db: Db, f: Id, g: Id, u: Id)
    requires Tables.MoveFolder(db, f, u, Some(g)).Ok? && Tables.MoveFolder(db, g, u, Some(f)).Ok?
    ensures UpdateParent(db, f, u, Some(g)).Ok? && UpdateParent(UpdateParent(db, f, u, Some(g)).value, g, u, Some(f)).Ok?
    ensures OnCycle(Parents(UpdateParent(UpdateParent(db, f, u, Some(g)).value, g, u, Some(f)).value.folders), f)
  {
    var db1 := UpdateParent(db, f, u, Some(g)).value;
    var alone := UpdateParent(db, g, u, Some(f)).value.folders;
    var fs := db1.folders[g := db1.folders[g].(parent := Some(f))];
    forall x, y | x in fs && y in fs && x != y ensures !Clash(fs[x], fs[y]) {
      assert !Clash(db1.folders[x], db1.folders[y]) && !Clash(alone[x], alone[y]);
    }
    var pm := Parents(fs);
    assert pm[f] == g && pm[g] == f;
    assert Up(pm, f, 2) == Up(pm, g, 1) == Some(f);
  }

  /** Folders a and b of user 7. */
  function TwoFolders(above: Option<Id>, above': Option<Id>): Db
  {
    Db(map[1 := FolderRow(7, above, "a"), 2 := FolderRow(7, above', "b")], map[])
  }

  lemma TwoFoldersReached(lim: Limits)
    ensures var ops := [Op.CreateFolder(1, 7, None, "a"), Op.CreateFolder(2, 7, None, "b")];
      LegalRun(lim, Empty, ops) && Run(lim, Empty, ops).db == TwoFolders(None, None)
  {
    var a, b := Op.CreateFolder(1, 7, None, "a"), Op.CreateFolder(2, 7, None, "b");
    TwoCalls(lim, Empty, a, b);
    assert Apply(lim, Empty, a).db.folders == map[1 := FolderRow(7, None, "a")];
    assert Apply(lim, Empty, a).db.folders[2 := FolderRow(7, None, "b")] == TwoFolders(None, None).folders;
  }

  /** Two fresh folders at the top level are enough, with nothing deep anywhere. */
  lemma TwoFoldersRace()
    ensures var db := TwoFolders(None, None);
      && Tables.MoveFolder(db, 1, 7, Some(2)) == Ok(TwoFolders(Some(2), None))
      && Tables.MoveFolder(db, 2, 7, Some(1)) == Ok(TwoFolders(None, Some(1)))
      && forall x, y :: !DeepBelow(db, x, y)
  {
    var db := TwoFolders(None, None);
    assert Parents(db.folders) == map[] && LiveParents(db.folders) == map[];
    assert db.folders[1 := db.folders[1].(parent := Some(2))] == TwoFolders(Some(2), None).folders;
    assert db.folders[2 := db.folders[2].(parent := Some(1))] == TwoFolders(None, Some(1)).folders;
  }

  /**
   * MoveBlob checks the folder in one query and updates in another. If the folder
   * is trashed in between and grows old, the age purge succeeds and deletes the
   * live blob with it.
   */
  lemma RacingMoveBlobIsPurged(db: Db, b: Id, u: Id, p: Id, before: Time, now: Time)
    requires Placed(db, now) && OwnedBlob(db, b, u) && OwnedTrash(db, p, u) && db.folders[p].deletedAt.value < before
    ensures UpdateBlobFolder(db, b, u, Some(p)).Ok?
    ensures var db' := UpdateBlobFolder(db, b, u, Some(p)).value;
      && OwnedBlob(db', b, u)
      && Tables.CleanExpiredTrash(db', before).Ok?
      && b !in Tables.CleanExpiredTrash(db', before).value.blobs
  {
    var db' := UpdateBlobFolder(db, b, u, Some(p)).value;
    var mid := PurgeExpiredBlobs(db', before);
    var ids := ExpiredFolders(mid, before);
    assert ids == ExpiredFolders(db, before) && p in ids;
    Trash.ExpiredClosedDown(db, before);
    Trash.PlacedHasKeys(db);
    DeleteTreeExact(mid, BlobsIn(mid, ids), ids);
    assert b in mid.blobs && BlobIn(mid, b, ids);
  }

  /**
   * HardDeleteBlob looks the trashed row up in one query and removes its object
   * afterwards. If the row is restored in between, an uploaded live blob loses its object.
   */
  lemma RacingRestoreLosesObject(w: World, b: Id, u: Id)
    requires OwnedTrashBlob(w.db, b, u) && w.db.blobs[b].uploadedAt.Some?
    ensures var w' := Exec(Exec(w, RestoreBlobRow(b, u)), RemoveObject(w.db.blobs[b].key));
      LiveUpload(w'.db, b) && w'.db.blobs[b].key !in w'.objects
  {
  }

  // ---------- the same schedules from the empty service ----------

  /** One statement of a schedule. */
  ghost predicate Steps(w: World, stmt: Stmt, w': World)
  {
    Possible(w, stmt) && Exec(w, stmt) == w'
  }

  /** Folder 1 of user 7. */
  function FolderOne(deletedAt: Option<Time>): map<Id, Folder>
  {
    map[1 := Folder(7, None, "a", deletedAt)]
  }

  const Key2: ObjectKey := ObjectKey(7, 2)

  /** Blob 2 of user 7. */
  function BlobTwo(uploadedAt: Option<Time>, folder: Option<Id>, deletedAt: Option<Time>): map<Id, Blob>
  {
    map[2 := Blob(7, folder, "f", Key2, 5, "mp", 0, uploadedAt, deletedAt)]
  }

  /** Blob 2 confirmed at instant 0, with its object; the folders and issued ids as given. */
  function Uploaded(folders: map<Id, Folder>, issued: set<Id>, folder: Option<Id>, deletedAt: Option<Time>): World
  {
    World(Db(folders, BlobTwo(Some(0), folder, deletedAt)), {Key2}, 0, issued, [2], {})
  }

  lemma FolderStep(w: World)
    requires w.db.folders == map[] && 1 !in w.issued
    ensures Steps(w, InsertFolderRow(1, 7, None, "a"), w.(db := w.db.(folders := FolderOne(None)), issued := w.issued + {1}))
  {
    TableFrame(w, InsertFolderRow(1, 7, None, "a"));
  }

  lemma TrashStep(w: World)
    requires w.db.folders == FolderOne(None) && w.now == 0 && forall b :: b in w.db.blobs ==> w.db.blobs[b].folder.None?
    ensures Steps(w, TrashTree(1, 7), w.(db := w.db.(folders := FolderOne(Some(0)))))
  {
    var fs := FolderOne(None);
    assert Parents(fs) == map[] && LiveParents(fs) == map[];
    UnderSelf(LiveParents(fs), 1);
    assert LiveSubtree(fs, 1) == {1};
    var db := TrashRows(w.db, {1}, 0);
    assert db.folders == FolderOne(Some(0)) && db.blobs == w.db.blobs;
    TableFrame(w, TrashTree(1, 7));
    assert w.issued + {} == w.issued;
  }

  lemma TrashedPlaced(blobs: map<Id, Blob>)
    requires blobs == map[] || blobs == BlobTwo(Some(0), None, None)
    ensures Placed(Db(FolderOne(Some(0)), blobs), 0)
  {
    assert Parents(FolderOne(Some(0))) == map[];
  }

  /** CreateFolder's check passes, the parent is trashed, the insert follows: the purge fails from the next instant on. */
  lemma RacingCreateFromEmpty()
    ensures var w1 := Empty.(db := Db(FolderOne(None), map[]), issued := {1});
      var w2 := w1.(db := Db(FolderOne(Some(0)), map[]));
      var w3 := Exec(w2, InsertFolderRow(2, 7, Some(1), "b"));
      && Steps(Empty, InsertFolderRow(1, 7, None, "a"), w1) && Owned(w1.db, 1, 7)
      && Steps(w1, TrashTree(1, 7), w2)
      && Possible(w2, InsertFolderRow(2, 7, Some(1), "b"))
      && PurgeExpiredFolders(w3.db, w3.now + 1) == Err(ForeignKeyViolation)
  {
    var w1 := Empty.(db := Db(FolderOne(None), map[]), issued := {1});
    FolderStep(Empty);
    assert Empty.issued + {1} == {1};
    TrashStep(w1);
    TrashedPlaced(map[]);
    RacingCreateBlocksPurge(Db(FolderOne(Some(0)), map[]), 2, 7, 1, "b", 1, 0);
    TableFrame(w1.(db := Db(FolderOne(Some(0)), map[])), InsertFolderRow(2, 7, Some(1), "b"));
  }

  /** Blob 2 registered at instant 0. */
  function Registered(objects: set<ObjectKey>): World
  {
    World(Db(map[], BlobTwo(None, None, None)), objects, 0, {2}, [], {})
  }

  lemma RegisterStep()
    ensures Steps(Empty, InsertBlobRow(2, 7, None, "f", 5, "mp"), Registered({}))
  {
    TableFrame(Empty, InsertBlobRow(2, 7, None, "f", 5, "mp"));
    assert Empty.issued + {2} == {2};
  }

  lemma PutStep()
    ensures Steps(Registered({}), PutObject(Key2), Registered({Key2}))
  {
    assert KeysGone(Registered({}).db, Registered({}).db) == {};
  }

  lemma ConfirmStep()
    ensures Steps(Registered({Key2}), ConfirmRow(2, 7, 5), Uploaded(map[], {2}, None, None))
  {
    ConfirmFrame(Registered({Key2}), 2, 7, 5);
    assert BlobTwo(None, None, None)[2 := BlobTwo(Some(0), None, None)[2]] == BlobTwo(Some(0), None, None);
  }

  /** An upload, statement by statement. */
  lemma UploadFromEmpty()
    ensures Steps(Empty, InsertBlobRow(2, 7, None, "f", 5, "mp"), Registered({}))
    ensures Steps(Registered({}), PutObject(Key2), Registered({Key2}))
    ensures Steps(Registered({Key2}), ConfirmRow(2, 7, 5), Uploaded(map[], {2}, None, None))
  {
    RegisterStep();
    PutStep();
    ConfirmStep();
  }

  lemma MoveStep()
    ensures UpdateBlobFolder(Db(FolderOne(Some(0)), BlobTwo(Some(0), None, None)), 2, 7, Some(1)) ==
              Ok(Db(FolderOne(Some(0)), BlobTwo(Some(0), Some(1), None)))
    ensures Steps(Uploaded(FolderOne(Some(0)), {2, 1}, None, None), UpdateFolderId(2, 7, Some(1)),
                  Uploaded(FolderOne(Some(0)), {2, 1}, Some(1), None))
  {
    assert BlobTwo(Some(0), None, None)[2 := BlobTwo(Some(0), Some(1), None)[2]] == BlobTwo(Some(0), Some(1), None);
    TableFrame(Uploaded(FolderOne(Some(0)), {2, 1}, None, None), UpdateFolderId(2, 7, Some(1)));
    assert {2, 1} + {} == {2, 1};
  }

  /**
   * MoveBlob's check passes, the folder is trashed, the update follows: from the
   * next instant on the purge deletes the live upload.
   */
  lemma RacingMoveBlobFromEmpty()
    ensures var w1, w2 := Uploaded(map[], {2}, None, None), Uploaded(FolderOne(None), {2, 1}, None, None);
      var w3, w4 := Uploaded(FolderOne(Some(0)), {2, 1}, None, None), Uploaded(FolderOne(Some(0)), {2, 1}, Some(1), None);
      && Steps(w1, InsertFolderRow(1, 7, None, "a"), w2) && Owned(w2.db, 1, 7)
      && Steps(w2, TrashTree(1, 7), w3)
      && Steps(w3, UpdateFolderId(2, 7, Some(1)), w4) && LiveUpload(w4.db, 2)
      && Tables.CleanExpiredTrash(w4.db, 1).Ok? && 2 !in Tables.CleanExpiredTrash(w4.db, 1).value.blobs
  {
    FolderStep(Uploaded(map[], {2}, None, None));
    TrashStep(Uploaded(FolderOne(None), {2, 1}, None, None));
    MoveStep();
    TrashedPlaced(BlobTwo(Some(0), None, None));
    RacingMoveBlobIsPurged(Db(FolderOne(Some(0)), BlobTwo(Some(0), None, None)), 2, 7, 1, 1, 0);
  }

  /** HardDeleteBlob finds the row in the trash, it is restored, the removal follows. */
  lemma RacingRestoreFromEmpty()
    ensures var w1 := Uploaded(map[], {2}, None, None);
      var w2 := Uploaded(map[], {2}, None, Some(0));
      var w4 := Exec(Exec(w2, RestoreBlobRow(2, 7)), RemoveObject(Key2));
      && Steps(w1, TrashBlobRow(2, 7), w2) && OwnedTrashBlob(w2.db, 2, 7) && w2.db.blobs[2].key == Key2
      && LiveUpload(w4.db, 2) && w4.db.blobs[2].key !in w4.objects
  {
    var w1, w2 := Uploaded(map[], {2}, None, None), Uploaded(map[], {2}, None, Some(0));
    TableFrame(w1, TrashBlobRow(2, 7));
    assert w1.issued + {} == w1.issued;
    assert w1.db.blobs[2 := w2.db.blobs[2]] == w2.db.blobs;
    RacingRestoreLosesObject(w2, 2, 7);
  }

  // ---------- a row delete that fails after its object is gone ----------

  /** HardDeleteBlob removes the object first: if the row delete then fails, an uploaded row is left without its object. */
  lemma HardDeleteBlobBackedIff(lim: Limits, w: World, b: Id, u: Id, rowOk: bool)
    requires KeysOwn(w.db) && Backed(w) && OwnedTrashBlob(w.db, b, u)
    ensures Backed(Apply(lim, w, HardDeleteBlob(b, u, true, rowOk))) <==> rowOk || w.db.blobs[b].uploadedAt.None?
  {
  }
}
