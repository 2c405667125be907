/**
 * Undisturbed session calls as statements, and which calls can still sign for a
 * session once it is revoked.
 */
module SessionCalls {
  import opened Prelude
  import opened Sessions
  import opened SessionStatements
  import SessionRuns

  // ---------- the statements of a call ----------

  /** One SET per id. */
  function Blocks(ids: seq<Id>): seq<Stmt>
  {
    if ids == [] then [] else [BlockOne(ids[0])] + Blocks(ids[1..])
  }

  ghost function Revocation(s: Auth, d: Id, u: Id, blockOk: bool): seq<Stmt>
  {
    [RevokeOne(d, u)] + if Revocable(s, d, u) && blockOk then [BlockOne(d)] else []
  }

  /** The ids are blocked in whatever order the database returned them. */
  ghost function OthersRevocation(s: Auth, u: Id, except: Id, blockOk: bool): seq<Stmt>
  {
    [RevokeAllBut(u, except)] + if blockOk then Blocks(SomeOrder(OtherSessions(s, u, except))) else []
  }

  /** Sign first, then insert the row. */
  function PairStatements(c: Config, s: Auth, u: Id, d: Id, key: Bytes, h: Id, prev: Option<Id>): seq<Stmt>
  {
    [IssueToken(u, d), InsertRefresh(h, RefreshRow(u, d, key, s.now + c.refreshTtl, false), prev)]
  }

  /** What an undisturbed call executes, in order. */
  ghost function StatementsOf(c: Config, s: Auth, call: Call): seq<Stmt>
  {
    match call
    case Tick(elapsed) => [Elapse(elapsed)]
    case Login(id, u, deviceId, h, freshKey, cleanup, insertOk) =>
      var d := SessionFor(SessionRuns.CleanedUp(s, u, cleanup), id, u, deviceId);
      (if cleanup then [RevokeOrphans(Some(u))] else []) + [UpsertDevice(id, u, deviceId)] +
      if insertOk then PairStatements(c, s, u, d, freshKey, h, None) else []
    case Refresh(h, h', freshKey, insertOk, blockOk) =>
      [ConsumeRefresh(h)] +
      if Consumable(s, h) then
        var row := s.refresh[h];
        var key := if |row.clientKey| == 0 then freshKey else row.clientKey;
        if insertOk then PairStatements(c, s, row.user, row.device, key, h', Some(h)) else []
      else if AlreadyRevoked(s, h) then Revocation(s, s.refresh[h].device, s.refresh[h].user, blockOk)
      else []
    case Logout(h) =>
      [ConsumeRefresh(h)] + if Consumable(s, h) then [RevokeOne(s.refresh[h].device, s.refresh[h].user)] else []
    case RevokeDevice(d, u, blockOk) => Revocation(s, d, u, blockOk)
    case RevokeOthers(u, current, blockOk) => OthersRevocation(s, u, current, blockOk)
    case RequestReset(u, h) => [InvalidateResets(u), InsertReset(u, h)]
    case ResetPassword(h, updateOk, blockOk) =>
      [ConsumeReset(h)] +
      if ValidReset(s, h) && updateOk then OthersRevocation(s, s.resets[h].user, NIL, blockOk) else []
    case CleanOrphaned => [RevokeOrphans(None)]
  }

  // ---------- running them ----------

  /** A token is signed only for a session that is active at that moment. */
  predicate SignsActive(s: Auth, stmt: Stmt)
  {
    stmt.IssueToken? ==> ActiveDevice(s, stmt.d)
  }

  ghost predicate AlwaysSignsActive(c: Config, s: Auth, stmts: seq<Stmt>)
    decreases stmts
  {
    stmts == [] || (SignsActive(s, stmts[0]) && AlwaysSignsActive(c, Exec(c, s, stmts[0]), stmts[1..]))
  }

  /** `stmts` leads from `s` to `s'`, signing only for active sessions. */
  ghost predicate Leads(c: Config, s: Auth, stmts: seq<Stmt>, s': Auth)
  {
    PossibleRun(c, s, stmts) && AlwaysSignsActive(c, s, stmts) && ExecAll(c, s, stmts) == s'
  }

  lemma LeadsFirst(c: Config, s: Auth, stmt: Stmt, rest: seq<Stmt>, s': Auth)
    requires Possible(s, stmt) && SignsActive(s, stmt) && Leads(c, Exec(c, s, stmt), rest, s')
    ensures Leads(c, s, [stmt] + rest, s')
  {
    assert ([stmt] + rest)[1..] == rest;
  }

  lemma LeadsRest(c: Config, s: Auth, stmts: seq<Stmt>, s': Auth)
    requires Leads(c, s, stmts, s') && stmts != []
    ensures Possible(s, stmts[0]) && SignsActive(s, stmts[0]) && Leads(c, Exec(c, s, stmts[0]), stmts[1..], s')
  {
  }

  lemma {:induction false} LeadsOn(c: Config, s: Auth, first: seq<Stmt>, mid: Auth, second: seq<Stmt>, s': Auth)
    requires Leads(c, s, first, mid) && Leads(c, mid, second, s')
    ensures Leads(c, s, first + second, s')
    decreases first
  {
    if first == [] {
      assert first + second == second;
    } else {
      LeadsRest(c, s, first, mid);
      LeadsOn(c, Exec(c, s, first[0]), first[1..], mid, second, s');
      LeadsFirst(c, s, first[0], first[1..] + second, s');
      assert first + second == [first[0]] + (first[1..] + second);
    }
  }

  lemma NoneLead(c: Config, s: Auth)
    ensures Leads(c, s, [], s)
  {
  }

  lemma OneLeads(c: Config, s: Auth, stmt: Stmt)
    requires Possible(s, stmt) && SignsActive(s, stmt)
    ensures Leads(c, s, [stmt], Exec(c, s, stmt))
  {
    NoneLead(c, Exec(c, s, stmt));
    LeadsFirst(c, s, stmt, [], Exec(c, s, stmt));
    assert [stmt] + [] == [stmt];
  }

  lemma {:induction false} BlocksLead(c: Config, s: Auth, ids: seq<Id>)
    ensures Leads(c, s, Blocks(ids), BlockBatch(c, s, set d | d in ids))
    decreases ids
  {
    if ids == [] {
      NoneLead(c, s);
      assert BlockBatch(c, s, set d | d in ids).blocked == s.blocked;
    } else {
      BlocksLead(c, Block(c, s, ids[0]), ids[1..]);
      BlockFirst(c, s, ids);
      LeadsFirst(c, s, BlockOne(ids[0]), Blocks(ids[1..]), BlockBatch(c, s, set d | d in ids));
    }
  }

  lemma BlockFirst(c: Config, s: Auth, ids: seq<Id>)
    requires ids != []
    ensures BlockBatch(c, Block(c, s, ids[0]), set d | d in ids[1..]) == BlockBatch(c, s, set d | d in ids)
  {
    var one := BlockBatch(c, Block(c, s, ids[0]), set d | d in ids[1..]).blocked;
    var all := BlockBatch(c, s, set d | d in ids).blocked;
    assert forall d: Id :: d in ids <==> d == ids[0] || d in ids[1..];
    assert forall d: Id :: d in one <==> d in all;
    assert forall d: Id :: d in one ==> one[d] == all[d];
    assert one == all;
  }

  lemma RevocationLeads(c: Config, s: Auth, d: Id, u: Id, blockOk: bool)
    ensures Leads(c, s, Revocation(s, d, u, blockOk), RevokeAndBlock(c, s, d, u, blockOk))
  {
    var mid := RevokeSession(s, d, u);
    OneLeads(c, s, RevokeOne(d, u));
    NoneLead(c, mid);
    OneLeads(c, mid, BlockOne(d));
    LeadsOn(c, s, [RevokeOne(d, u)], mid, if Revocable(s, d, u) && blockOk then [BlockOne(d)] else [],
            RevokeAndBlock(c, s, d, u, blockOk));
  }

  lemma OthersRevocationLeads(c: Config, s: Auth, u: Id, except: Id, blockOk: bool)
    ensures Leads(c, s, OthersRevocation(s, u, except, blockOk), RevokeOthersAndBlock(c, s, u, except, blockOk))
  {
    var mid, ids := RevokeOtherSessions(s, u, except), OtherSessions(s, u, except);
    OneLeads(c, s, RevokeAllBut(u, except));
    NoneLead(c, mid);
    BlocksLead(c, mid, SomeOrder(ids));
    assert (set d | d in SomeOrder(ids)) == ids;
    LeadsOn(c, s, [RevokeAllBut(u, except)], mid, if blockOk then Blocks(SomeOrder(ids)) else [],
            RevokeOthersAndBlock(c, s, u, except, blockOk));
  }

  lemma PairLeads(c: Config, s: Auth, u: Id, d: Id, key: Bytes, freshKey: Bytes, h: Id, prev: Option<Id>)
    requires ActiveDevice(s, d) && h !in s.refresh
    ensures var made := IssuePair(c, s, u, d, key, freshKey, h);
      Leads(c, s, PairStatements(c, s, u, d, if |key| == 0 then freshKey else key, h, prev),
            if prev.Some? then made.(rotatedFrom := s.rotatedFrom[h := prev.value]) else made)
  {
    var stmts := PairStatements(c, s, u, d, if |key| == 0 then freshKey else key, h, prev);
    OneLeads(c, s, stmts[0]);
    OneLeads(c, Exec(c, s, stmts[0]), stmts[1]);
    LeadsOn(c, s, [stmts[0]], Exec(c, s, stmts[0]), [stmts[1]], Exec(c, Exec(c, s, stmts[0]), stmts[1]));
    assert stmts == [stmts[0]] + [stmts[1]];
  }

  // ---------- each call is its statements ----------

  /** A login up to its token pair: clean-up and upsert. */
  lemma LoginStartLeads(c: Config, s: Auth, id: Id, u: Id, deviceId: string, cleanup: bool)
    requires id !in s.devices
    ensures var s1 := SessionRuns.CleanedUp(s, u, cleanup);
      var s2, d := CreateDeviceSession(s1, id, u, deviceId), SessionFor(s1, id, u, deviceId);
      && Leads(c, s, (if cleanup then [RevokeOrphans(Some(u))] else []) + [UpsertDevice(id, u, deviceId)], s2)
      && ActiveDevice(s2, d) && s2.refresh.Keys == s.refresh.Keys && s2.now == s.now
  {
    var s1 := SessionRuns.CleanedUp(s, u, cleanup);
    NoneLead(c, s);
    OneLeads(c, s, RevokeOrphans(Some(u)));
    SessionRuns.CleanedUpFrame(s, u, cleanup);
    SessionRuns.SessionForIsActive(s1, id, u, deviceId);
    OneLeads(c, s1, UpsertDevice(id, u, deviceId));
    LeadsOn(c, s, if cleanup then [RevokeOrphans(Some(u))] else [], s1, [UpsertDevice(id, u, deviceId)],
            CreateDeviceSession(s1, id, u, deviceId));
  }

  lemma LoginLeads(c: Config, s: Auth, call: Call)
    requires Legal(s, call) && call.Login?
    ensures Leads(c, s, StatementsOf(c, s, call), Apply(c, s, call))
  {
    var Login(id, u, deviceId, h, freshKey, cleanup, insertOk) := call;
    var start := (if cleanup then [RevokeOrphans(Some(u))] else []) + [UpsertDevice(id, u, deviceId)];
    var s1 := SessionRuns.CleanedUp(s, u, cleanup);
    var s2, d := CreateDeviceSession(s1, id, u, deviceId), SessionFor(s1, id, u, deviceId);
    LoginStartLeads(c, s, id, u, deviceId, cleanup);
    if insertOk {
      assert h !in s2.refresh;
      PairLeads(c, s2, u, d, [], freshKey, h, None);
      LeadsOn(c, s, start, s2, PairStatements(c, s, u, d, freshKey, h, None), IssuePair(c, s2, u, d, [], freshKey, h));
    } else {
      NoneLead(c, s2);
      LeadsOn(c, s, start, s2, [], s2);
    }
  }

  lemma RefreshLeads(c: Config, s: Auth, call: Call)
    requires Legal(s, call) && call.Refresh?
    ensures Leads(c, s, StatementsOf(c, s, call), Apply(c, s, call))
  {
    var Refresh(h, h', freshKey, insertOk, blockOk) := call;
    var mid := ConsumeRefreshSession(s, h);
    OneLeads(c, s, ConsumeRefresh(h));
    var rest := StatementsOf(c, s, call)[1..];
    assert StatementsOf(c, s, call) == [ConsumeRefresh(h)] + rest;
    if Consumable(s, h) && insertOk {
      var row := s.refresh[h];
      PairLeads(c, mid, row.user, row.device, row.clientKey, freshKey, h', Some(h));
    } else if !Consumable(s, h) && AlreadyRevoked(s, h) {
      RevocationLeads(c, s, s.refresh[h].device, s.refresh[h].user, blockOk);
    } else {
      NoneLead(c, mid);
    }
    LeadsOn(c, s, [ConsumeRefresh(h)], mid, rest, Apply(c, s, call));
  }

  lemma LogoutLeads(c: Config, s: Auth, h: Id)
    ensures Leads(c, s, StatementsOf(c, s, Logout(h)), Apply(c, s, Logout(h)))
  {
    var mid := ConsumeRefreshSession(s, h);
    OneLeads(c, s, ConsumeRefresh(h));
    NoneLead(c, mid);
    if Consumable(s, h) {
      OneLeads(c, mid, RevokeOne(s.refresh[h].device, s.refresh[h].user));
    }
    LeadsOn(c, s, [ConsumeRefresh(h)], mid, StatementsOf(c, s, Logout(h))[1..], Apply(c, s, Logout(h)));
  }

  lemma ResetLeads(c: Config, s: Auth, call: Call)
    requires Legal(s, call) && (call.RequestReset? || call.ResetPassword?)
    ensures Leads(c, s, StatementsOf(c, s, call), Apply(c, s, call))
  {
    match call
    case RequestReset(u, h) =>
      var mid := InvalidateUserTokens(s, u);
      OneLeads(c, s, InvalidateResets(u));
      OneLeads(c, mid, InsertReset(u, h));
      LeadsOn(c, s, [InvalidateResets(u)], mid, [InsertReset(u, h)], Apply(c, s, call));
      assert StatementsOf(c, s, call) == [InvalidateResets(u)] + [InsertReset(u, h)];
    case ResetPassword(h, updateOk, blockOk) =>
      var mid := ConsumeResetToken(s, h);
      OneLeads(c, s, ConsumeReset(h));
      NoneLead(c, mid);
      if ValidReset(s, h) && updateOk {
        OthersRevocationLeads(c, mid, s.resets[h].user, NIL, blockOk);
        assert OtherSessions(mid, s.resets[h].user, NIL) == OtherSessions(s, s.resets[h].user, NIL);
      }
      LeadsOn(c, s, [ConsumeReset(h)], mid, StatementsOf(c, s, call)[1..], Apply(c, s, call));
  }

  /** Every undisturbed call does exactly what its own statements do, and signs only for a session active at that moment. */
  lemma CallIsItsStatements(c: Config, s: Auth, call: Call)
    requires Legal(s, call)
    ensures Leads(c, s, StatementsOf(c, s, call), Apply(c, s, call))
  {
    match call
    case Tick(elapsed) => OneLeads(c, s, Elapse(elapsed));
    case Login(_, _, _, _, _, _, _) => LoginLeads(c, s, call);
    case Refresh(_, _, _, _, _) => RefreshLeads(c, s, call);
    case Logout(h) => LogoutLeads(c, s, h);
    case RevokeDevice(d, u, blockOk) => RevocationLeads(c, s, d, u, blockOk);
    case RevokeOthers(u, current, blockOk) => OthersRevocationLeads(c, s, u, current, blockOk);
    case CleanOrphaned => OneLeads(c, s, RevokeOrphans(None));
    case _ => ResetLeads(c, s, call);
  }

  ghost function StatementsOfRun(c: Config, s: Auth, calls: seq<Call>): seq<Stmt>
    decreases calls
  {
    if calls == [] then [] else StatementsOf(c, s, calls[0]) + StatementsOfRun(c, Apply(c, s, calls[0]), calls[1..])
  }

  lemma {:induction false} RunIsItsStatements(c: Config, s: Auth, calls: seq<Call>)
    requires LegalRun(c, s, calls)
    ensures Leads(c, s, StatementsOfRun(c, s, calls), Run(c, s, calls))
    decreases calls
  {
    if calls == [] {
      NoneLead(c, s);
    } else {
      var mid := Apply(c, s, calls[0]);
      CallIsItsStatements(c, s, calls[0]);
      RunIsItsStatements(c, mid, calls[1..]);
      LeadsOn(c, s, StatementsOf(c, s, calls[0]), mid, StatementsOfRun(c, mid, calls[1..]), Run(c, s, calls));
    }
  }

  // ---------- who can still sign for a revoked session ----------

  lemma {:induction false} SigningActiveNeverPast(c: Config, s: Auth, stmts: seq<Stmt>, d: Id)
    requires Dead(s, d) && PossibleRun(c, s, stmts) && AlwaysSignsActive(c, s, stmts)
    ensures NeverSignsPast(c, s, stmts, d)
    decreases stmts
  {
    if stmts != [] {
      ExecKeepsDead(c, s, stmts[0], d);
      SigningActiveNeverPast(c, Exec(c, s, stmts[0]), stmts[1..], d);
    }
  }

  /** Undisturbed calls never sign past a blocklist entry, so they keep a revoked and blocked session shut out for good. */
  lemma RunNeverSignsPast(c: Config, s: Auth, calls: seq<Call>, d: Id)
    requires Contained(c, s, d) && LegalRun(c, s, calls)
    ensures NeverSignsPast(c, s, StatementsOfRun(c, s, calls), d)
    ensures AlwaysShutOut(c, s, StatementsOfRun(c, s, calls), d)
  {
    RunIsItsStatements(c, s, calls);
    SigningActiveNeverPast(c, s, StatementsOfRun(c, s, calls), d);
    ShutOutForeverIff(c, s, StatementsOfRun(c, s, calls), d);
  }

  /** The sessions a statement entitles its call to sign for: it consumed a refresh token of it, or its upsert returned it. */
  ghost function Opens(s: Auth, stmt: Stmt): multiset<Id>
  {
    match stmt
    case ConsumeRefresh(h) => if Consumable(s, h) then multiset{s.refresh[h].device} else multiset{}
    case UpsertDevice(id, u, deviceId) => multiset{SessionFor(s, id, u, deviceId)}
    case _ => multiset{}
  }

  /**
   * An interleaving of calls: each signature is that of a call that has consumed a
   * token or upserted a session before; `open` are the sessions of the calls
   * already past that point.
   */
  ghost predicate Interleaves(c: Config, s: Auth, open: multiset<Id>, stmts: seq<Stmt>)
    decreases stmts
  {
    stmts == [] ||
    (if stmts[0].IssueToken?
     then stmts[0].d in open && Interleaves(c, Exec(c, s, stmts[0]), open - multiset{stmts[0].d}, stmts[1..])
     else Interleaves(c, Exec(c, s, stmts[0]), open + Opens(s, stmts[0]), stmts[1..]))
  }

  function Signatures(stmts: seq<Stmt>, d: Id): nat
    decreases stmts
  {
    if stmts == [] then 0 else (if stmts[0].IssueToken? && stmts[0].d == d then 1 else 0) + Signatures(stmts[1..], d)
  }

  lemma RevokedOpensNothing(s: Auth, stmt: Stmt, d: Id)
    requires Dead(s, d) && Possible(s, stmt)
    ensures d !in Opens(s, stmt)
  {
    if stmt.UpsertDevice? {
      SessionRuns.SessionForIsActive(s, stmt.id, stmt.u, stmt.deviceId);
    }
  }

  /** Once a session is revoked, only the calls already past their consumption or upsert can sign for it, one token each. */
  lemma {:induction false} OnlyOpenCallsSign(c: Config, s: Auth, open: multiset<Id>, stmts: seq<Stmt>, d: Id)
    requires Dead(s, d) && PossibleRun(c, s, stmts) && Interleaves(c, s, open, stmts)
    ensures Signatures(stmts, d) <= open[d]
    decreases stmts
  {
    if stmts != [] {
      var stmt := stmts[0];
      ExecKeepsDead(c, s, stmt, d);
      RevokedOpensNothing(s, stmt, d);
      OnlyOpenCallsSign(c, Exec(c, s, stmt), if stmt.IssueToken? then open - multiset{stmt.d} else open + Opens(s, stmt),
                        stmts[1..], d);
    }
  }

  lemma {:induction false} NoSignaturesNeverPast(c: Config, s: Auth, stmts: seq<Stmt>, d: Id)
    requires Signatures(stmts, d) == 0
    ensures NeverSignsPast(c, s, stmts, d)
    decreases stmts
  {
    if stmts != [] {
      NoSignaturesNeverPast(c, Exec(c, s, stmts[0]), stmts[1..], d);
    }
  }

  /**
   * If no call is between its consumption or upsert and its signature when a
   * session has been revoked and blocked, that session is shut out for good, in
   * every interleaving of calls from then on.
   */
  lemma NoOpenCallShutOut(c: Config, s: Auth, open: multiset<Id>, stmts: seq<Stmt>, d: Id)
    requires Contained(c, s, d) && d !in open && PossibleRun(c, s, stmts) && Interleaves(c, s, open, stmts)
    ensures AlwaysShutOut(c, s, stmts, d)
  {
    OnlyOpenCallsSign(c, s, open, stmts, d);
    NoSignaturesNeverPast(c, s, stmts, d);
    ShutOutForeverIff(c, s, stmts, d);
  }
}
