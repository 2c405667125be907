/** Storage accounting: what each call does to a user's used bytes, and when the quota check can be trusted. */
module Quota {
  import opened Prelude
  import opened Tables
  import opened Drive
  import opened DriveStatements
  import opened WholeCalls
  import opened DriveRuns
  import opened Sums

  // ---------- conservation ----------

  lemma SameUploadsSameUsed(db: Db, db': Db, v: Id)
    requires SameUploads(db, db')
    ensures Used(db', v) == Used(db, v)
  {
    var before, after := Sizes(db, v), Sizes(db', v);
    assert forall b: Id :: b in before <==> b in after;
    assert forall b: Id :: b in before ==> before[b] == after[b];
    assert Sizes(db', v) == Sizes(db, v);
  }

  /** Creating, moving, renaming, trashing and restoring cost nobody anything. */
  lemma RearrangeConservesUsed(lim: Limits, w: World, op: Op, v: Id)
    requires Rearranges(op)
    ensures Used(Apply(lim, w, op).db, v) == Used(w.db, v)
  {
    RearrangeSameUploads(lim, w, op);
    SameUploadsSameUsed(w.db, Apply(lim, w, op).db, v);
  }

  /** The rows of `v` present in `db` and gone from `db'`. */
  function GoneSizes(db: Db, db': Db, v: Id): map<Id, int>
  {
    map b | b in db.blobs && b !in db'.blobs && db.blobs[b].owner == v :: db.blobs[b].size
  }

  lemma ShrinkLowersUsed(db: Db, db': Db, v: Id)
    requires Survivors(db, db')
    ensures Used(db', v) == Used(db, v) - Sum(GoneSizes(db, db', v))
  {
    var gone := db.blobs.Keys - db'.blobs.Keys;
    var sizes := Sizes(db, v);
    SumSplit(sizes, gone);
    var left := Sizes(db', v);
    forall b: Id ensures b in left <==> b in sizes && b !in gone {
      if b in sizes && b !in gone { assert db'.blobs[b].owner == db.blobs[b].owner; }
    }
    assert forall b: Id :: b in left ==> left[b] == sizes[b];
    assert sizes - gone == left;
    assert GoneSizes(db, db', v) == map b | b in sizes && b in gone :: sizes[b];
  }

  /** A delete lowers each user's used bytes by exactly the sizes of that user's removed rows. */
  lemma DeleteLowersUsed(lim: Limits, w: World, op: Op, v: Id)
    requires Deletes(op)
    ensures Used(Apply(lim, w, op).db, v) == Used(w.db, v) - Sum(GoneSizes(w.db, Apply(lim, w, op).db, v))
  {
    DeletesSurvivors(lim, w, op);
    ShrinkLowersUsed(w.db, Apply(lim, w, op).db, v);
  }

  /** A started upload counts at once with its declared size; confirming it replaces that by the object's real size. */
  lemma UploadAccounting(lim: Limits, w: World, op: Op, v: Id)
    requires IdsIssued(w) && Legal(w, op)
    ensures op.Initiate? && Apply(lim, w, op).db != w.db ==>
              Used(Apply(lim, w, op).db, v) == Used(w.db, v) + if v == op.u then op.size else 0
    ensures op.Complete? && Apply(lim, w, op).confirmed != w.confirmed ==>
              && Pending(w.db, op.b, op.u) && LiveUpload(Apply(lim, w, op).db, op.b)
              && Used(Apply(lim, w, op).db, v) ==
                   Used(w.db, v) + if v == op.u then op.objectSize - w.db.blobs[op.b].size else 0
  {
    var db' := Apply(lim, w, op).db;
    if op.Initiate? && db' != w.db {
      PutChangesUsed(w.db, op.id, db'.blobs[op.id], v);
      assert db' == w.db.(blobs := w.db.blobs[op.id := db'.blobs[op.id]]);
    }
    if op.Complete? && Apply(lim, w, op).confirmed != w.confirmed {
      PutChangesUsed(w.db, op.b, db'.blobs[op.b], v);
      assert db' == w.db.(blobs := w.db.blobs[op.b := db'.blobs[op.b]]);
    }
  }

  // ---------- the int64 check ----------

  /** The quota comparison on wrapped sums means what it says exactly when the sum fits in int64. */
  lemma QuotaCheckExactIff(used: int, size: int, quota: int)
    requires 0 <= used <= MAX_INT64 && 0 <= size <= MAX_INT64 && 0 < quota <= MAX_INT64
    ensures (Wrap64(used + size) > quota <==> used + size > quota) <==> used + size <= 9_223_372_036_854_775_807
  {
  }

  // ---------- the quota over runs ----------

  ghost predicate Solvent(lim: Limits, w: World)
  {
    && (forall b :: b in w.db.blobs ==> w.db.blobs[b].size >= 0)
    && (forall u: Id :: Used(w.db, u) <= lim.quota)
  }

  /** Both limits set, and their sum within int64. */
  predicate Sound(lim: Limits)
  {
    0 < lim.maxUpload && 0 < lim.quota && lim.quota + lim.maxUpload <= MAX_INT64
  }

  /** Declared sizes are int64 and not negative; an upload is confirmed with no more than it declared. */
  predicate Honest(w: World, op: Op)
  {
    match op
    case Initiate(_, _, _, _, size, _, _, _) => 0 <= size <= MAX_INT64
    case Complete(b, _, _, _, objectSize) => b in w.db.blobs ==> 0 <= objectSize <= w.db.blobs[b].size
    case _ => true
  }

  lemma UsedNonNegative(lim: Limits, w: World, u: Id)
    requires Solvent(lim, w)
    ensures Used(w.db, u) >= 0
  {
    var sizes := Sizes(w.db, u);
    assert forall b: Id :: b in sizes ==> sizes[b] == w.db.blobs[b].size >= 0;
    SumNonNegative(sizes);
  }

  /**
   * Under sound limits the check never overflows, whatever its answer: every
   * size it is asked about has passed the upload limit.
   */
  lemma CheckNeverWraps(lim: Limits, w: World, u: Id, size: int)
    requires Sound(lim) && Solvent(lim, w) && 0 <= size <= lim.maxUpload
    ensures Wrap64(Used(w.db, u) + size) == Used(w.db, u) + size
    ensures Admitted(lim, w.db, u, None, size) <==> Used(w.db, u) + size <= lim.quota
  {
    UsedNonNegative(lim, w, u);
  }

  /** An upload is let in exactly if it is within the upload limit and the quota and goes into an own live folder or none. */
  lemma AdmittedIff(lim: Limits, w: World, u: Id, folder: Option<Id>, size: int)
    requires Sound(lim) && Solvent(lim, w) && 0 <= size
    ensures Admitted(lim, w.db, u, folder, size) <==>
              size <= lim.maxUpload && Used(w.db, u) + size <= lim.quota && (folder.Some? ==> Owned(w.db, folder.value, u))
  {
    if size <= lim.maxUpload {
      CheckNeverWraps(lim, w, u, size);
    }
  }

  /** With no limits set only the folder counts; with a quota set, a total that does not fit in int64 is refused. */
  lemma AdmittedAtTheEdges(lim: Limits, db: Db, u: Id, folder: Option<Id>, size: int)
    ensures lim.maxUpload <= 0 && lim.quota <= 0 ==>
              (Admitted(lim, db, u, folder, size) <==> (folder.Some? ==> Owned(db, folder.value, u)))
    ensures lim.quota > 0 && Used(db, u) > 9_223_372_036_854_775_807 ==> !Admitted(lim, db, u, folder, size)
    ensures lim.maxUpload > 0 && size > lim.maxUpload ==> !Admitted(lim, db, u, folder, size)
  {
  }

  /** So what it admits fits in the quota. */
  lemma AdmittedFits(lim: Limits, w: World, u: Id, folder: Option<Id>, size: int)
    requires Sound(lim) && Solvent(lim, w) && 0 <= size
    requires Admitted(lim, w.db, u, folder, size)
    ensures Wrap64(Used(w.db, u) + size) == Used(w.db, u) + size
    ensures Used(w.db, u) + size <= lim.quota
  {
    CheckNeverWraps(lim, w, u, size);
  }

  /** A confirmed upload's real size leaves its owner within the quota. */
  ghost predicate RealSizeFits(lim: Limits, w: World, op: Op)
  {
    op.Complete? && Apply(lim, w, op).confirmed != w.confirmed ==>
      op.objectSize >= 0 && Used(w.db, op.u) + op.objectSize - w.db.blobs[op.b].size <= lim.quota
  }

  /** Under sound limits an undisturbed call keeps everybody within the quota exactly if a confirmed real size fits. */
  lemma StepKeepsSolventIff(lim: Limits, w: World, op: Op)
    requires IdsIssued(w) && Legal(w, op) && Sound(lim) && Solvent(lim, w) && (op.Initiate? ==> op.size >= 0)
    ensures Solvent(lim, Apply(lim, w, op)) <==> RealSizeFits(lim, w, op)
  {
    var w' := Apply(lim, w, op);
    if Rearranges(op) {
      RearrangeSameUploads(lim, w, op);
      forall u: Id ensures Used(w'.db, u) <= lim.quota { RearrangeConservesUsed(lim, w, op, u); }
    } else if Deletes(op) {
      DeletesSurvivors(lim, w, op);
      forall u: Id ensures Used(w'.db, u) <= lim.quota {
        DeleteLowersUsed(lim, w, op, u);
        var gone := GoneSizes(w.db, w'.db, u);
        assert forall b: Id :: b in gone ==> gone[b] == w.db.blobs[b].size >= 0;
        SumNonNegative(gone);
      }
    } else if op.Initiate? {
      if w'.db != w.db {
        AdmittedFits(lim, w, op.u, op.folder, op.size);
        PutKeepsSolventIff(lim, w, op.id, w'.db.blobs[op.id], w');
      }
    } else if w'.confirmed != w.confirmed {
      PutKeepsSolventIff(lim, w, op.b, w.db.blobs[op.b].(uploadedAt := Some(w.now), size := op.objectSize), w');
    }
  }

  /** Writing one row changes only its owner's total, by the difference in size. */
  lemma PutChangesUsed(db: Db, b: Id, row: Blob, u: Id)
    requires b in db.blobs ==> db.blobs[b].owner == row.owner
    ensures Used(db.(blobs := db.blobs[b := row]), u) ==
              Used(db, u) + if u != row.owner then 0 else row.size - (if b in db.blobs then db.blobs[b].size else 0)
  {
    var db' := db.(blobs := db.blobs[b := row]);
    if u == row.owner {
      assert Sizes(db', u) == Sizes(db, u)[b := row.size];
      SumPut(Sizes(db, u), b, row.size);
    } else {
      assert Sizes(db', u) == Sizes(db, u);
    }
  }

  /** Writing one row keeps everybody within the quota exactly when its owner's new total is. */
  lemma PutKeepsSolventIff(lim: Limits, w: World, b: Id, row: Blob, w': World)
    requires Solvent(lim, w) && w'.db == w.db.(blobs := w.db.blobs[b := row])
    requires b in w.db.blobs ==> w.db.blobs[b].owner == row.owner
    ensures Solvent(lim, w') <==>
              row.size >= 0 &&
              Used(w.db, row.owner) + row.size - (if b in w.db.blobs then w.db.blobs[b].size else 0) <= lim.quota
  {
    assert w'.db.blobs[b] == row;
    forall u: Id
      ensures Used(w'.db, u) ==
        Used(w.db, u) + if u != row.owner then 0 else row.size - (if b in w.db.blobs then w.db.blobs[b].size else 0)
    {
      PutChangesUsed(w.db, b, row, u);
    }
  }

  ghost predicate HonestRun(lim: Limits, w: World, ops: seq<Op>)
    decreases ops
  {
    ops == [] || (Legal(w, ops[0]) && Honest(w, ops[0]) && HonestRun(lim, Apply(lim, w, ops[0]), ops[1..]))
  }

  lemma {:induction false} InterleavingKeepsIds(w: World, stmts: seq<Stmt>)
    requires IdsIssued(w) && PossibleRun(w, stmts)
    ensures IdsIssued(ExecAll(w, stmts))
    decreases stmts
  {
    if stmts != [] {
      ExecFollows(w, stmts[0]);
      InterleavingKeepsIds(Exec(w, stmts[0]), stmts[1..]);
    }
  }

  ghost predicate SolventThroughout(lim: Limits, w: World, ops: seq<Op>)
    decreases ops
  {
    Solvent(lim, w) && (ops == [] || SolventThroughout(lim, Apply(lim, w, ops[0]), ops[1..]))
  }

  ghost predicate RealSizesFit(lim: Limits, w: World, ops: seq<Op>)
    decreases ops
  {
    ops == [] || (RealSizeFits(lim, w, ops[0]) && RealSizesFit(lim, Apply(lim, w, ops[0]), ops[1..]))
  }

  lemma StepKeepsIds(lim: Limits, w: World, op: Op)
    requires IdsIssued(w) && Legal(w, op)
    ensures IdsIssued(Apply(lim, w, op))
  {
    CallIsItsStatements(lim, w, op);
    InterleavingKeepsIds(w, StatementsOf(lim, w, op));
  }

  /**
   * For every run, whatever becomes of the folder tree: nobody ever exceeds the
   * quota if and only if every confirmed size fits.
   */
  lemma {:induction false} RunSolventIff(lim: Limits, w: World, ops: seq<Op>)
    requires IdsIssued(w) && Sound(lim) && Solvent(lim, w) && LegalRun(lim, w, ops)
    requires forall i :: 0 <= i < |ops| && ops[i].Initiate? ==> ops[i].size >= 0
    ensures SolventThroughout(lim, w, ops) <==> RealSizesFit(lim, w, ops)
    decreases ops
  {
    if ops != [] {
      StepKeepsIds(lim, w, ops[0]);
      StepKeepsSolventIff(lim, w, ops[0]);
      if Solvent(lim, Apply(lim, w, ops[0])) {
        RunSolventIff(lim, Apply(lim, w, ops[0]), ops[1..]);
      }
    }
  }

  /** So nobody ever does if no upload is larger than declared. */
  lemma {:induction false} RunKeepsSolvent(lim: Limits, w: World, ops: seq<Op>)
    requires IdsIssued(w) && Sound(lim) && Solvent(lim, w) && HonestRun(lim, w, ops)
    ensures Solvent(lim, Run(lim, w, ops))
    decreases ops
  {
    if ops != [] {
      StepKeepsIds(lim, w, ops[0]);
      StepKeepsSolventIff(lim, w, ops[0]);
      RunKeepsSolvent(lim, Apply(lim, w, ops[0]), ops[1..]);
    }
  }

  /** The comparison is exact at every moment of every such run, for uploads it refuses as for those it admits. */
  lemma CheckExactInEveryRun(lim: Limits, ops: seq<Op>, u: Id, size: int)
    requires Sound(lim) && HonestRun(lim, Empty, ops) && 0 <= size <= lim.maxUpload
    ensures var used := Used(Run(lim, Empty, ops).db, u);
      0 <= used <= lim.quota && Wrap64(used + size) == used + size
  {
    EmptyIsSolvent(lim);
    RunKeepsSolvent(lim, Empty, ops);
    UsedNonNegative(lim, Run(lim, Empty, ops), u);
    CheckNeverWraps(lim, Run(lim, Empty, ops), u, size);
  }

  lemma EmptyIsSolvent(lim: Limits)
    requires lim.quota >= 0
    ensures Solvent(lim, Empty) && forall u: Id :: Used(Empty.db, u) == 0
  {
    forall u: Id ensures Used(Empty.db, u) == 0 {
      assert Sizes(Empty.db, u) == map[];
    }
  }

  // ---------- the quota under interleaving ----------

  /** At the moment a row is inserted or its real size written, the new total is within the quota. */
  ghost predicate Fits(lim: Limits, w: World, stmt: Stmt)
  {
    match stmt
    case InsertBlobRow(id, u, folder, _, size, _) =>
      RegisterBlob(w.db, id, NewBlob(w.now, stmt)).Ok? ==> size >= 0 && Used(w.db, u) + size <= lim.quota
    case ConfirmRow(b, u, size) =>
      Pending(w.db, b, u) ==> size >= 0 && Used(w.db, u) + size - w.db.blobs[b].size <= lim.quota
    case _ => true
  }

  lemma OtherStatementsKeepSolvent(lim: Limits, w: World, stmt: Stmt)
    requires Solvent(lim, w) && !stmt.InsertBlobRow? && !stmt.ConfirmRow?
    ensures Solvent(lim, Exec(w, stmt))
  {
    var w' := Exec(w, stmt);
    if DropsRows(stmt) {
      DropsSurvivors(w.db, w.now, stmt);
      forall u: Id ensures Used(w'.db, u) <= lim.quota {
        ShrinkLowersUsed(w.db, w'.db, u);
        var gone := GoneSizes(w.db, w'.db, u);
        assert forall b: Id :: b in gone ==> gone[b] == w.db.blobs[b].size >= 0;
        SumNonNegative(gone);
      }
    } else {
      StatementKeepsUploads(w.db, w.now, stmt);
      forall u: Id ensures Used(w'.db, u) <= lim.quota { SameUploadsSameUsed(w.db, w'.db, u); }
    }
  }

  lemma StatementKeepsUploads(db: Db, now: Time, stmt: Stmt)
    requires !DropsRows(stmt) && !stmt.InsertBlobRow? && !stmt.ConfirmRow?
    ensures SameUploads(db, OnTables(db, now, stmt))
  {
  }

  /** Exact, statement by statement, whatever the state of the folder tree. */
  lemma ExecKeepsSolventIff(lim: Limits, w: World, stmt: Stmt)
    requires IdsIssued(w) && Possible(w, stmt) && Solvent(lim, w)
    ensures Solvent(lim, Exec(w, stmt)) <==> Fits(lim, w, stmt)
  {
    if stmt.InsertBlobRow? {
      if RegisterBlob(w.db, stmt.id, NewBlob(w.now, stmt)).Ok? {
        PutKeepsSolventIff(lim, w, stmt.id, NewBlob(w.now, stmt), Exec(w, stmt));
      }
    } else if stmt.ConfirmRow? {
      if Pending(w.db, stmt.b, stmt.u) {
        var row := w.db.blobs[stmt.b].(uploadedAt := Some(w.now), size := stmt.size);
        PutKeepsSolventIff(lim, w, stmt.b, row, Exec(w, stmt));
      }
    } else {
      OtherStatementsKeepSolvent(lim, w, stmt);
    }
  }

  ghost predicate FittingRun(lim: Limits, w: World, stmts: seq<Stmt>)
    decreases stmts
  {
    stmts == [] || (Fits(lim, w, stmts[0]) && FittingRun(lim, Exec(w, stmts[0]), stmts[1..]))
  }

  ghost predicate AlwaysSolvent(lim: Limits, w: World, stmts: seq<Stmt>)
    decreases stmts
  {
    Solvent(lim, w) && (stmts == [] || AlwaysSolvent(lim, Exec(w, stmts[0]), stmts[1..]))
  }

  /** In every interleaving nobody ever exceeds the quota if and only if each total fits when it is written. */
  lemma {:induction false} InterleavingSolventIff(lim: Limits, w: World, stmts: seq<Stmt>)
    requires IdsIssued(w) && PossibleRun(w, stmts) && Solvent(lim, w)
    ensures AlwaysSolvent(lim, w, stmts) <==> FittingRun(lim, w, stmts)
    decreases stmts
  {
    if stmts != [] {
      ExecFollows(w, stmts[0]);
      ExecKeepsSolventIff(lim, w, stmts[0]);
      if Solvent(lim, Exec(w, stmts[0])) {
        InterleavingSolventIff(lim, Exec(w, stmts[0]), stmts[1..]);
      }
    }
  }

  // ---------- where the quota ends ----------

  /**
   * CompleteMultipartUpload does not compare the real size with the declared
   * one: the quota holds exactly if the real one fits.
   */
  lemma ConfirmKeepsSolventIff(lim: Limits, w: World, op: Op)
    requires Solvent(lim, w)
    requires op.Complete? && Apply(lim, w, op).confirmed != w.confirmed && op.objectSize >= 0
    ensures Solvent(lim, Apply(lim, w, op)) <==> Used(w.db, op.u) + op.objectSize - w.db.blobs[op.b].size <= lim.quota
  {
    PutKeepsSolventIff(lim, w, op.b, w.db.blobs[op.b].(uploadedAt := Some(w.now), size := op.objectSize), Apply(lim, w, op));
  }

  lemma TwoCalls(lim: Limits, w: World, first: Op, second: Op)
    ensures Run(lim, w, [first, second]) == Apply(lim, Apply(lim, w, first), second)
    ensures LegalRun(lim, w, [first, second]) <==> Legal(w, first) && Legal(Apply(lim, w, first), second)
    ensures HonestRun(lim, w, [first, second]) <==>
              Legal(w, first) && Honest(w, first) && Legal(Apply(lim, w, first), second) && Honest(Apply(lim, w, first), second)
  {
    var mid := Apply(lim, w, first);
    assert [first, second][1..] == [second] && [second][1..] == [];
    assert Run(lim, mid, [second]) == Apply(lim, mid, second);
    assert LegalRun(lim, mid, [second]) <==> Legal(mid, second);
    assert HonestRun(lim, mid, [second]) <==> Legal(mid, second) && Honest(mid, second);
  }

  lemma TwoStatements(w: World, first: Stmt, second: Stmt)
    ensures ExecAll(w, [first, second]) == Exec(Exec(w, first), second)
    ensures PossibleRun(w, [first, second]) <==> Possible(w, first) && Possible(Exec(w, first), second)
  {
    var mid := Exec(w, first);
    assert [first, second][1..] == [second] && [second][1..] == [];
    assert ExecAll(mid, [second]) == Exec(mid, second);
    assert PossibleRun(mid, [second]) <==> Possible(mid, second);
  }

  /** One upload of one declared byte, for user 7. */
  const OneByte: Op := Initiate(1, 7, None, "a", 1, "mp", true, true)
  const OneByteRow: Blob := Blob(7, None, "a", ObjectKey(7, 1), 1, "mp", 0, None, None)

  lemma OneByteStarted(lim: Limits)
    requires lim.quota >= 1
    ensures Legal(Empty, OneByte) && Honest(Empty, OneByte)
    ensures Apply(lim, Empty, OneByte) == Empty.(db := Empty.db.(blobs := map[1 := OneByteRow]), issued := {1})
    ensures WorldInv(Apply(lim, Empty, OneByte)) && Solvent(lim, Apply(lim, Empty, OneByte))
    ensures Used(Apply(lim, Empty, OneByte).db, 7) == 1
  {
    EmptyIsGood();
    EmptyIsSolvent(lim);
    assert Empty.db.blobs[1 := OneByteRow] == map[1 := OneByteRow];
    StepKeepsWorld(lim, Empty, OneByte);
    PutKeepsSolventIff(lim, Empty, 1, OneByteRow, Apply(lim, Empty, OneByte));
    PutChangesUsed(Empty.db, 1, OneByteRow, 7);
  }

  /** With no upload limit configured, one declared size wraps the check and an upload beyond the quota is admitted. */
  lemma UnlimitedUploadsBreakTheQuota()
    ensures var lim, ops := Limits(0, 10), [OneByte, Initiate(2, 7, None, "b", MAX_INT64, "mp", true, true)];
      HonestRun(lim, Empty, ops) && !Solvent(lim, Run(lim, Empty, ops))
  {
    var lim, op := Limits(0, 10), Initiate(2, 7, None, "b", MAX_INT64, "mp", true, true);
    var w := Apply(lim, Empty, OneByte);
    OneByteStarted(lim);
    assert Wrap64(1 + MAX_INT64) < 0;
    PutKeepsSolventIff(lim, w, 2, Blob(7, None, "b", ObjectKey(7, 2), MAX_INT64, "mp", 0, None, None), Apply(lim, w, op));
    TwoCalls(lim, Empty, OneByte, op);
  }

  /** An upload of one declared byte, confirmed with eleven, exceeds a quota of ten. */
  lemma UnderstatedUploadBreaksTheQuota()
    ensures var lim, ops := Limits(10, 10), [OneByte, Complete(1, 7, true, true, 11)];
      LegalRun(lim, Empty, ops) && !Solvent(lim, Run(lim, Empty, ops))
  {
    var lim, op := Limits(10, 10), Complete(1, 7, true, true, 11);
    OneByteStarted(lim);
    ConfirmKeepsSolventIff(lim, Apply(lim, Empty, OneByte), op);
    TwoCalls(lim, Empty, OneByte, op);
  }

  /**
   * Two uploads that both pass the check before either inserts its row: after
   * both inserts the quota holds exactly if the two fit together.
   */
  lemma RacingUploadsSolventIff(lim: Limits, w: World, first: Stmt, second: Stmt)
    requires IdsIssued(w) && Sound(lim) && Solvent(lim, w)
    requires first.InsertBlobRow? && second.InsertBlobRow? && first.u == second.u && first.id != second.id
    requires Possible(w, first) && Possible(w, second) && first.size >= 0 && second.size >= 0
    requires Admitted(lim, w.db, first.u, first.folder, first.size) && Admitted(lim, w.db, second.u, second.folder, second.size)
    ensures Solvent(lim, Exec(Exec(w, first), second)) <==> Used(w.db, first.u) + first.size + second.size <= lim.quota
  {
    AdmittedFits(lim, w, first.u, first.folder, first.size);
    ExecKeepsSolventIff(lim, w, first);
    ExecFollows(w, first);
    ExecKeepsSolventIff(lim, Exec(w, first), second);
    PutChangesUsed(w.db, first.id, NewBlob(w.now, first), first.u);
  }

  /** Two racing uploads of six bytes against a quota of ten. */
  lemma RacingUploadsBreakTheQuota()
    ensures var lim := Limits(10, 10);
      var first, second := InsertBlobRow(1, 7, None, "a", 6, "mp"), InsertBlobRow(2, 7, None, "b", 6, "mp");
      && Admitted(lim, Empty.db, 7, None, 6)
      && PossibleRun(Empty, [first, second])
      && !Solvent(lim, ExecAll(Empty, [first, second]))
  {
    var lim := Limits(10, 10);
    var first, second := InsertBlobRow(1, 7, None, "a", 6, "mp"), InsertBlobRow(2, 7, None, "b", 6, "mp");
    EmptyIsSolvent(lim);
    CheckNeverWraps(lim, Empty, 7, 6);
    RacingUploadsSolventIff(lim, Empty, first, second);
    TwoStatements(Empty, first, second);
  }
}
