/**
 * The session stores under arbitrary interleaving: each step is one SQL or
 * Redis statement, issued by any call of any client at any time.
 */
module SessionStatements {
  import opened Prelude
  import opened Sessions
  import SessionRuns

  datatype Stmt =
    | Elapse(ms: nat)
    | UpsertDevice(id: Id, u: Id, deviceId: string)
    | InsertRefresh(h: Id, row: RefreshRow, prev: Option<Id>)   // prev: the token rotated out, for the history
    | ConsumeRefresh(h: Id)
    | RevokeOne(d: Id, u: Id)
    | RevokeAllBut(u: Id, except: Id)
    | RevokeOrphans(only: Option<Id>)
    | BlockOne(d: Id)
    | IssueToken(u: Id, d: Id)
    | InsertReset(u: Id, h: Id)
    | InvalidateResets(u: Id)
    | ConsumeReset(h: Id)

  ghost function Exec(c: Config, s: Auth, stmt: Stmt): Auth
  {
    match stmt
    case Elapse(ms) => s.(now := s.now + ms)
    case UpsertDevice(id, u, deviceId) => CreateDeviceSession(s, id, u, deviceId)
    case InsertRefresh(h, row, prev) =>
      CreateRefreshSession(s, h, row).(rotatedFrom := if prev.Some? then s.rotatedFrom[h := prev.value] else s.rotatedFrom)
    case ConsumeRefresh(h) => ConsumeRefreshSession(s, h)
    case RevokeOne(d, u) => RevokeSession(s, d, u)
    case RevokeAllBut(u, except) => RevokeOtherSessions(s, u, except)
    case RevokeOrphans(only) => RevokeOrphanedSessions(s, only)
    case BlockOne(d) => Block(c, s, d)
    case IssueToken(u, d) => IssueAccess(c, s, u, d)
    case InsertReset(u, h) => CreateResetToken(s, u, h)
    case InvalidateResets(u) => InvalidateUserTokens(s, u)
    case ConsumeReset(h) => ConsumeResetToken(s, h)
  }

  /** New rows get fresh ids and token hashes, and refresh rows name an existing device session; nothing else is assumed. */
  ghost predicate Possible(s: Auth, stmt: Stmt)
  {
    match stmt
    case UpsertDevice(id, _, _) => id !in s.devices
    case InsertRefresh(h, row, _) => h !in s.refresh && row.device in s.devices
    case InsertReset(_, h) => h !in s.resets
    case _ => true
  }

  ghost function ExecAll(c: Config, s: Auth, stmts: seq<Stmt>): Auth
    decreases stmts
  {
    if stmts == [] then s else ExecAll(c, Exec(c, s, stmts[0]), stmts[1..])
  }

  ghost predicate PossibleRun(c: Config, s: Auth, stmts: seq<Stmt>)
    decreases stmts
  {
    stmts == [] || (Possible(s, stmts[0]) && PossibleRun(c, Exec(c, s, stmts[0]), stmts[1..]))
  }

  // ---------- at most once ----------

  /** No refresh token was consumed twice, and the consumed ones stay revoked. */
  ghost predicate RefreshOnce(s: Auth)
  {
    NoDup(s.consumed) && forall h :: h in s.consumed ==> AlreadyRevoked(s, h)
  }

  predicate Spent(s: Auth, h: Id)
  {
    h in s.resets && s.resets[h].used
  }

  ghost predicate ResetOnce(s: Auth)
  {
    NoDup(s.spent) && forall h :: h in s.spent ==> Spent(s, h)
  }

  ghost predicate AtMostOnce(s: Auth)
  {
    RefreshOnce(s) && ResetOnce(s)
  }

  lemma ExecKeepsRefreshOnce(c: Config, s: Auth, stmt: Stmt)
    requires RefreshOnce(s) && Possible(s, stmt)
    ensures RefreshOnce(Exec(c, s, stmt))
  {
    var s' := Exec(c, s, stmt);
    forall h | h in s.consumed ensures AlreadyRevoked(s', h) {
      assert AlreadyRevoked(s, h);
    }
    if stmt.ConsumeRefresh? && Consumable(s, stmt.h) {
      assert stmt.h !in s.consumed;
    }
  }

  lemma ExecKeepsResetOnce(c: Config, s: Auth, stmt: Stmt)
    requires ResetOnce(s) && Possible(s, stmt)
    ensures ResetOnce(Exec(c, s, stmt))
  {
    var s' := Exec(c, s, stmt);
    forall h | h in s.spent ensures Spent(s', h) {
      assert Spent(s, h);
    }
    if stmt.ConsumeReset? && ValidReset(s, stmt.h) {
      assert stmt.h !in s.spent;
    }
  }

  /** Whatever the interleaving, each refresh token and each reset token is consumed at most once. */
  lemma {:induction false} TokensConsumedOnce(c: Config, s: Auth, stmts: seq<Stmt>)
    requires AtMostOnce(s) && PossibleRun(c, s, stmts)
    ensures AtMostOnce(ExecAll(c, s, stmts))
    decreases stmts
  {
    if stmts != [] {
      ExecKeepsRefreshOnce(c, s, stmts[0]);
      ExecKeepsResetOnce(c, s, stmts[0]);
      TokensConsumedOnce(c, Exec(c, s, stmts[0]), stmts[1..]);
    }
  }

  // ---------- revocation is final ----------

  ghost predicate Dead(s: Auth, d: Id)
  {
    d in s.devices && s.devices[d].revoked
  }

  /** From `s` to `s'`, no token of session `d` was consumed; rows keep their session and history only grows. */
  ghost predicate NoneConsumedOf(s: Auth, s': Auth, d: Id)
  {
    && s.consumed <= s'.consumed
    && (forall h :: h in s.refresh ==> h in s'.refresh && s'.refresh[h].device == s.refresh[h].device)
    && (forall i :: |s.consumed| <= i < |s'.consumed| ==>
          s'.consumed[i] in s'.refresh && s'.refresh[s'.consumed[i]].device != d)
  }

  lemma ExecKeepsDead(c: Config, s: Auth, stmt: Stmt, d: Id)
    requires Dead(s, d) && Possible(s, stmt)
    ensures Dead(Exec(c, s, stmt), d)
    ensures NoneConsumedOf(s, Exec(c, s, stmt), d)
    ensures stmt.UpsertDevice? ==> SessionFor(s, stmt.id, stmt.u, stmt.deviceId) != d
  {
    if stmt.UpsertDevice? {
      SessionRuns.SessionForIsActive(s, stmt.id, stmt.u, stmt.deviceId);
    }
  }

  /**
   * Once a device session is revoked it stays revoked, is never handed out by a
   * later login, and no refresh token of it is ever consumed again, even by a
   * rotation that was half done when the revocation came.
   */
  lemma {:induction false} RevokedNeverConsumed(c: Config, s: Auth, stmts: seq<Stmt>, d: Id)
    requires Dead(s, d) && PossibleRun(c, s, stmts)
    ensures Dead(ExecAll(c, s, stmts), d)
    ensures NoneConsumedOf(s, ExecAll(c, s, stmts), d)
    decreases stmts
  {
    if stmts != [] {
      var mid, end := Exec(c, s, stmts[0]), ExecAll(c, s, stmts);
      ExecKeepsDead(c, s, stmts[0], d);
      RevokedNeverConsumed(c, mid, stmts[1..], d);
      forall i | |s.consumed| <= i < |end.consumed|
        ensures end.consumed[i] in end.refresh && end.refresh[end.consumed[i]].device != d
      {
        if i < |mid.consumed| {
          var h := mid.consumed[i];
          assert h in mid.refresh && mid.refresh[h].device != d;
          assert end.consumed[i] == h;
        }
      }
    }
  }

  // ---------- a blocked session under interleaving ----------

  /** No access token or blocklist entry ends later than one lifetime from now. */
  ghost predicate TimesBounded(c: Config, s: Auth)
  {
    && (forall t :: t in s.tokens ==> t.exp <= s.now + c.accessTtl)
    && (forall d :: d in s.blocked ==> s.blocked[d] <= s.now + c.accessTtl)
  }

  lemma ExecKeepsTimesBounded(c: Config, s: Auth, stmt: Stmt)
    requires TimesBounded(c, s)
    ensures TimesBounded(c, Exec(c, s, stmt))
  {
  }

  lemma {:induction false} RunKeepsTimesBounded(c: Config, s: Auth, stmts: seq<Stmt>)
    requires TimesBounded(c, s)
    ensures TimesBounded(c, ExecAll(c, s, stmts))
    decreases stmts
  {
    if stmts != [] {
      ExecKeepsTimesBounded(c, s, stmts[0]);
      RunKeepsTimesBounded(c, Exec(c, s, stmts[0]), stmts[1..]);
    }
  }

  /** Revoked, and covered by the blocklist until its last token expires; the entry is an ordinary one. */
  ghost predicate Contained(c: Config, s: Auth, d: Id)
  {
    SessionRuns.Sealed(s, d) && (d in s.blocked ==> s.blocked[d] <= s.now + c.accessTtl)
  }

  /** Blocking a revoked session contains it, whatever else is going on. */
  lemma BlockContains(c: Config, s: Auth, d: Id)
    requires TimesBounded(c, s) && Dead(s, d) && d != NIL
    ensures Contained(c, Exec(c, s, BlockOne(d)), d)
  {
  }

  /** The one dangerous statement: a token of `d` signed to end after now and after the blocklist entry of `d`. */
  predicate SignsPast(c: Config, s: Auth, stmt: Stmt, d: Id)
  {
    stmt.IssueToken? && stmt.d == d &&
    var exp := Signed(c, s.now, stmt.u, d).exp;
    s.now < exp && (d in s.blocked ==> s.blocked[d] < exp)
  }

  /** Exact, statement by statement. */
  lemma ExecKeepsContainedIff(c: Config, s: Auth, stmt: Stmt, d: Id)
    requires Contained(c, s, d) && Possible(s, stmt)
    ensures Contained(c, Exec(c, s, stmt), d) <==> !SignsPast(c, s, stmt, d)
  {
    var s' := Exec(c, s, stmt);
    ExecKeepsDead(c, s, stmt, d);
    if stmt.IssueToken? && stmt.d == d {
      assert Signed(c, s.now, stmt.u, d) in s'.tokens;
    }
  }

  ghost predicate NeverSignsPast(c: Config, s: Auth, stmts: seq<Stmt>, d: Id)
    decreases stmts
  {
    stmts == [] || (!SignsPast(c, s, stmts[0], d) && NeverSignsPast(c, Exec(c, s, stmts[0]), stmts[1..], d))
  }

  /** No access token of `d` is accepted and no refresh token of `d` can be used. */
  ghost predicate ShutOut(s: Auth, d: Id)
  {
    (forall t: Jwt :: t.sid == d ==> !Accepts(s, t)) &&
    (forall h :: h in s.refresh && s.refresh[h].device == d ==> !Consumable(s, h))
  }

  /** `d` is shut out now, after each statement, and however long one waits after it. */
  ghost predicate AlwaysShutOut(c: Config, s: Auth, stmts: seq<Stmt>, d: Id)
    decreases stmts
  {
    && (forall ms: nat :: ShutOut(Exec(c, s, Elapse(ms)), d))
    && (stmts == [] || AlwaysShutOut(c, Exec(c, s, stmts[0]), stmts[1..], d))
  }

  lemma ContainedIsShutOut(c: Config, s: Auth, d: Id, ms: nat)
    requires Contained(c, s, d)
    ensures ShutOut(Exec(c, s, Elapse(ms)), d)
  {
  }

  /** A token signed past its entry is accepted as soon as the entry is gone. */
  lemma SignedPastIsAccepted(c: Config, s: Auth, stmt: Stmt, d: Id)
    requires SignsPast(c, s, stmt, d)
    ensures var wait := if d in s.blocked && s.now < s.blocked[d] then s.blocked[d] - s.now else 0;
      Accepts(Exec(c, Exec(c, s, stmt), Elapse(wait)), Signed(c, s.now, stmt.u, d))
  {
  }

  /**
   * A contained session stays shut out for good, in every interleaving, if and
   * only if no token of it is ever signed past its blocklist entry.
   */
  lemma {:induction false} ShutOutForeverIff(c: Config, s: Auth, stmts: seq<Stmt>, d: Id)
    requires Contained(c, s, d) && PossibleRun(c, s, stmts)
    ensures AlwaysShutOut(c, s, stmts, d) <==> NeverSignsPast(c, s, stmts, d)
    decreases stmts
  {
    forall ms: nat ensures ShutOut(Exec(c, s, Elapse(ms)), d) {
      ContainedIsShutOut(c, s, d, ms);
    }
    if stmts != [] {
      var s' := Exec(c, s, stmts[0]);
      ExecKeepsContainedIff(c, s, stmts[0], d);
      if SignsPast(c, s, stmts[0], d) {
        SignedPastIsAccepted(c, s, stmts[0], d);
        var wait := if d in s.blocked && s.now < s.blocked[d] then s.blocked[d] - s.now else 0;
        assert !ShutOut(Exec(c, s', Elapse(wait)), d);
      } else {
        ShutOutForeverIff(c, s', stmts[1..], d);
      }
    }
  }

  /**
   * From the empty stores, by any interleaving at all, to a revoked session that
   * is then blocked: from there on it is shut out exactly as long as no token of
   * it is signed past its entry.
   */
  lemma BlockedForeverIff(c: Config, before: seq<Stmt>, after: seq<Stmt>, d: Id)
    requires Dead(ExecAll(c, NoSessions, before), d) && d != NIL
    requires PossibleRun(c, Exec(c, ExecAll(c, NoSessions, before), BlockOne(d)), after)
    ensures var s := Exec(c, ExecAll(c, NoSessions, before), BlockOne(d));
      AlwaysShutOut(c, s, after, d) <==> NeverSignsPast(c, s, after, d)
  {
    RunKeepsTimesBounded(c, NoSessions, before);
    BlockContains(c, ExecAll(c, NoSessions, before), d);
    ShutOutForeverIff(c, Exec(c, ExecAll(c, NoSessions, before), BlockOne(d)), after, d);
  }

  /** Refresh with token `h`, overtaken by RevokeDeviceSession after it consumed the token; the state when it comes to sign. */
  ghost function Overtaken(c: Config, s: Auth, h: Id): Auth
    requires h in s.refresh
  {
    var u, d := s.refresh[h].user, s.refresh[h].device;
    var s1 := Exec(c, s, ConsumeRefresh(h));          // Refresh takes the token
    var s2 := Exec(c, s1, RevokeOne(d, u));           // RevokeDeviceSession, first half
    var s3 := Exec(c, s2, BlockOne(d));               // RevokeDeviceSession, second half
    Exec(c, s3, Elapse(1000))
  }

  /**
   * If a session is revoked and blocked while a Refresh of it is about to sign,
   * the token signed afterwards outlives the blocklist entry and is accepted
   * once the entry is gone.
   */
  lemma RacingRefreshOutlivesBlock(c: Config, s: Auth, h: Id)
    requires c.accessTtl >= 1000
    requires Consumable(s, h) && s.devices[s.refresh[h].device].user == s.refresh[h].user
    ensures var u, d := s.refresh[h].user, s.refresh[h].device;
      var s4 := Overtaken(c, s, h);
      var s5 := Exec(c, s4, IssueToken(u, d));        // Refresh goes on
      var s6 := Exec(c, s5, Elapse(c.accessTtl - 1000));
      && s4.consumed == s.consumed + [h] && Dead(s4, d) && d in s4.blocked
      && SignsPast(c, s4, IssueToken(u, d), d)
      && Accepts(s6, Signed(c, s4.now, u, d))
  {
    SignedPastIsAccepted(c, Overtaken(c, s, h), IssueToken(s.refresh[h].user, s.refresh[h].device), s.refresh[h].device);
  }

  /** One login from the empty stores leads to such a state. */
  lemma RacingRefreshFromEmpty(c: Config, key: Bytes)
    requires c.accessTtl >= 1000 && c.refreshTtl > 0 && |key| == KEY_BYTES
    ensures var login := Login(1, 7, "phone", 5, key, false, true);
      var s := Apply(c, NoSessions, login);
      && Legal(NoSessions, login) && Consumable(s, 5) && s.refresh[5] == RefreshRow(7, 1, key, c.refreshTtl, false)
      && var s4 := Overtaken(c, s, 5);
         Accepts(Exec(c, Exec(c, s4, IssueToken(7, 1)), Elapse(c.accessTtl - 1000)), Signed(c, s4.now, 7, 1))
  {
    var s := Apply(c, NoSessions, Login(1, 7, "phone", 5, key, false, true));
    assert !exists d :: Matches(NoSessions, 7, "phone", d);
    RacingRefreshOutlivesBlock(c, s, 5);
  }

  // ---------- one unrevoked row per session under interleaving ----------

  /** An insert finds no other unrevoked row of its session. */
  ghost predicate FindsNoLiveRow(s: Auth, stmt: Stmt)
  {
    stmt.InsertRefresh? && !stmt.row.revoked ==>
      forall g :: g in s.refresh ==> !SessionRuns.BothLive(s.refresh[g], stmt.row)
  }

  lemma ExecKeepsOneLiveRowIff(c: Config, s: Auth, stmt: Stmt)
    requires SessionRuns.OneLiveRow(s) && Possible(s, stmt)
    ensures SessionRuns.OneLiveRow(Exec(c, s, stmt)) <==> FindsNoLiveRow(s, stmt)
  {
    var s' := Exec(c, s, stmt);
    if stmt.InsertRefresh? {
      assert s'.refresh[stmt.h] == stmt.row;
      forall g | g in s.refresh ensures g != stmt.h && s'.refresh[g] == s.refresh[g] {
      }
    }
  }

  ghost predicate AlwaysOneLiveRow(c: Config, s: Auth, stmts: seq<Stmt>)
    decreases stmts
  {
    SessionRuns.OneLiveRow(s) && (stmts == [] || AlwaysOneLiveRow(c, Exec(c, s, stmts[0]), stmts[1..]))
  }

  ghost predicate InsertsFindNoLiveRow(c: Config, s: Auth, stmts: seq<Stmt>)
    decreases stmts
  {
    stmts == [] || (FindsNoLiveRow(s, stmts[0]) && InsertsFindNoLiveRow(c, Exec(c, s, stmts[0]), stmts[1..]))
  }

  /** In every interleaving a session has at most one unrevoked row if and only if each insert finds none. */
  lemma {:induction false} OneLiveRowIff(c: Config, s: Auth, stmts: seq<Stmt>)
    requires SessionRuns.OneLiveRow(s) && PossibleRun(c, s, stmts)
    ensures AlwaysOneLiveRow(c, s, stmts) <==> InsertsFindNoLiveRow(c, s, stmts)
    decreases stmts
  {
    if stmts != [] {
      ExecKeepsOneLiveRowIff(c, s, stmts[0]);
      if FindsNoLiveRow(s, stmts[0]) {
        OneLiveRowIff(c, Exec(c, s, stmts[0]), stmts[1..]);
      }
    }
  }

  /**
   * Two logins of one named device that both pass the upsert before either
   * inserts its row: the second revokes nothing of the first, and one session
   * ends up with two usable refresh tokens.
   */
  lemma RacingLoginsLeaveTwoRows(c: Config, s: Auth, id: Id, id': Id, u: Id, deviceId: string, d: Id,
                                 h: Id, row: RefreshRow, h': Id, row': RefreshRow)
    requires OneActive(s) && deviceId != "" && Matches(s, u, deviceId, d)
    requires id !in s.devices && id' !in s.devices && h !in s.refresh && h' !in s.refresh && h != h'
    requires row.device == d == row'.device && !row.revoked && !row'.revoked
    requires s.now < row.expiresAt && s.now < row'.expiresAt
    ensures var s1 := Exec(c, s, UpsertDevice(id, u, deviceId));
      var s2 := Exec(c, s1, UpsertDevice(id', u, deviceId));
      var s3 := Exec(c, s2, InsertRefresh(h, row, None));
      var s4 := Exec(c, s3, InsertRefresh(h', row', None));
      && SessionFor(s, id, u, deviceId) == d == SessionFor(s1, id', u, deviceId)
      && Consumable(s4, h) && Consumable(s4, h') && !FindsNoLiveRow(s3, InsertRefresh(h', row', None))
  {
    var s1 := Exec(c, s, UpsertDevice(id, u, deviceId));
    var s2 := Exec(c, s1, UpsertDevice(id', u, deviceId));
    var s3 := Exec(c, s2, InsertRefresh(h, row, None));
    var e := SessionFor(s, id, u, deviceId);
    assert Matches(s, u, deviceId, e);
    assert s1.devices == s.devices;
    var e' := SessionFor(s1, id', u, deviceId);
    assert Matches(s1, u, deviceId, d) && Matches(s1, u, deviceId, e') && Matches(s, u, deviceId, e');
    assert h in s3.refresh && SessionRuns.BothLive(s3.refresh[h], row');
  }

  /** One login from the empty stores is enough. */
  lemma RacingLoginsFromEmpty(c: Config, key: Bytes)
    requires |key| == KEY_BYTES && c.refreshTtl > 0
    ensures var login := Login(1, 7, "phone", 5, key, false, true);
      var s := Apply(c, NoSessions, login);
      var row := RefreshRow(7, 1, key, c.refreshTtl, false);
      var s2 := Exec(c, Exec(c, s, UpsertDevice(2, 7, "phone")), UpsertDevice(3, 7, "phone"));
      var s4 := Exec(c, Exec(c, s2, InsertRefresh(8, row, None)), InsertRefresh(9, row, None));
      && Legal(NoSessions, login) && Matches(s, 7, "phone", 1)
      && Consumable(s4, 8) && Consumable(s4, 9)
  {
    var s := Apply(c, NoSessions, Login(1, 7, "phone", 5, key, false, true));
    assert !exists d :: Matches(NoSessions, 7, "phone", d);
    assert OneActive(s);
    var row := RefreshRow(7, 1, key, c.refreshTtl, false);
    RacingLoginsLeaveTwoRows(c, s, 2, 3, 7, "phone", 1, 8, row, 9, row);
  }
}
