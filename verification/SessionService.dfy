/**
 * The session stores and the auth service in the source's own form: rows
 * updated in place, id-collecting scans, a blocklist written entry by entry.
 * Every call is proved to do what the state machine of `Sessions` says.
 */
module SessionService {
  import opened Prelude
  import opened Sessions
  import SessionRuns

  /** The upsert inserts only when the index has no entry, so the index stays unique. */
  lemma UpsertKeepsOneActive(s: Auth, id: Id, u: Id, deviceId: string)
    requires OneActive(s) && id !in s.devices
    ensures OneActive(Sessions.CreateDeviceSession(s, id, u, deviceId))
  {
    var s' := Sessions.CreateDeviceSession(s, id, u, deviceId);
    forall d, e, w, name | name != "" && Matches(s', w, name, d) && Matches(s', w, name, e) ensures d == e {
      assert d != id ==> Matches(s, w, name, d);
      assert e != id ==> Matches(s, w, name, e);
    }
  }

  lemma FewerActive(s: Auth, s': Auth)
    requires OneActive(s)
    requires forall d :: ActiveDevice(s', d) ==> ActiveDevice(s, d) && s'.devices[d] == s.devices[d]
    ensures OneActive(s')
  {
    forall d, e, w, name | name != "" && Matches(s', w, name, d) && Matches(s', w, name, e) ensures d == e {
      assert Matches(s, w, name, d) && Matches(s, w, name, e);
    }
  }

  lemma LoginKeepsOneActive(c: Config, s: Auth, call: Call)
    requires OneActive(s) && Legal(s, call) && call.Login?
    ensures OneActive(Apply(c, s, call))
  {
    var s1 := if call.cleanup then RevokeOrphanedSessions(s, Some(call.u)) else s;
    FewerActive(s, s1);
    UpsertKeepsOneActive(s1, call.id, call.u, call.deviceId);
    FewerActive(Sessions.CreateDeviceSession(s1, call.id, call.u, call.deviceId), Apply(c, s, call));
  }

  lemma RevokingKeepsOneActive(c: Config, s: Auth, d: Id, u: Id, except: Id, blockOk: bool)
    requires OneActive(s)
    ensures OneActive(RevokeAndBlock(c, s, d, u, blockOk))
    ensures OneActive(RevokeOthersAndBlock(c, s, u, except, blockOk))
  {
    FewerActive(s, RevokeAndBlock(c, s, d, u, blockOk));
    FewerActive(s, RevokeOthersAndBlock(c, s, u, except, blockOk));
  }

  /** No call leaves two active sessions for one named device. */
  lemma CallKeepsOneActive(c: Config, s: Auth, call: Call)
    requires OneActive(s) && Legal(s, call)
    ensures OneActive(Apply(c, s, call))
  {
    match call
    case Login(_, _, _, _, _, _, _) => LoginKeepsOneActive(c, s, call);
    case Refresh(h, _, _, _, blockOk) =>
      if Consumable(s, h) {
        FewerActive(s, Apply(c, s, call));
      } else if AlreadyRevoked(s, h) {
        RevokingKeepsOneActive(c, s, s.refresh[h].device, s.refresh[h].user, NIL, blockOk);
      }
    case RevokeDevice(d, u, blockOk) => RevokingKeepsOneActive(c, s, d, u, NIL, blockOk);
    case RevokeOthers(u, current, blockOk) => RevokingKeepsOneActive(c, s, NIL, u, current, blockOk);
    case ResetPassword(h, _, blockOk) =>
      if ValidReset(s, h) {
        FewerActive(s, ConsumeResetToken(s, h));
        RevokingKeepsOneActive(c, ConsumeResetToken(s, h), NIL, s.resets[h].user, NIL, blockOk);
      }
    case _ => FewerActive(s, Apply(c, s, call));
  }

  class Service {
    const c: Config
    var devices: map<Id, Device>
    var refresh: map<Id, RefreshRow>
    var resets: map<Id, ResetRow>
    var blocked: map<Id, Time>
    var tokens: set<Jwt>
    var now: Time
    ghost var rotatedFrom: map<Id, Id>
    ghost var consumed: seq<Id>
    ghost var spent: seq<Id>

    ghost function State(): Auth
      reads this
    {
      Auth(devices, refresh, resets, blocked, tokens, now, rotatedFrom, consumed, spent)
    }

    ghost predicate Valid()
      reads this
    {
      OneActive(State())
    }

    constructor (c: Config)
      ensures Valid() && State() == NoSessions && this.c == c
    {
      this.c := c;
      devices, refresh, resets, blocked, tokens, now := map[], map[], map[], map[], {}, 0;
      rotatedFrom, consumed, spent := map[], [], [];
    }

    // ---------- repository ----------

    /** The index lookup behind ON CONFLICT. */
    method FindActive(u: Id, deviceId: string) returns (found: Option<Id>)
      ensures found.Some? ==> Matches(State(), u, deviceId, found.value)
      ensures found.None? ==> forall d :: !Matches(State(), u, deviceId, d)
    {
      var todo := devices.Keys;
      while todo != {}
        invariant todo <= devices.Keys
        invariant forall d :: d !in todo ==> !Matches(State(), u, deviceId, d)
        decreases todo
      {
        var d := AnyOf(todo);
        if !devices[d].revoked && devices[d].user == u && devices[d].deviceId == deviceId {
          return Some(d);
        }
        todo := todo - {d};
      }
      found := None;
    }

    method CreateDeviceSession(id: Id, u: Id, deviceId: string) returns (d: Id)
      requires Valid() && id !in devices
      modifies this`devices, this`refresh
      ensures Valid()
      ensures State() == Sessions.CreateDeviceSession(old(State()), id, u, deviceId)
      ensures d == SessionFor(old(State()), id, u, deviceId)
    {
      ghost var s := State();
      UpsertKeepsOneActive(s, id, u, deviceId);
      var found := None;
      if deviceId != "" {
        found := FindActive(u, deviceId);
        assert State() == s;
      }
      if found.Some? {
        d := found.value;
        ghost var chosen := SessionFor(s, id, u, deviceId);
        assert Matches(s, u, deviceId, d) && Matches(s, u, deviceId, chosen);
        refresh := RevokeRowsOf(refresh, d);
      } else {
        d := id;
        assert !(deviceId != "" && exists e :: Matches(s, u, deviceId, e));
        devices := devices[id := Device(u, deviceId, false)];
      }
    }

    method ConsumeRefreshSession(h: Id) returns (ok: bool)
      requires Valid()
      modifies this`refresh, this`consumed
      ensures Valid()
      ensures ok == old(Consumable(State(), h))
      ensures State() == Sessions.ConsumeRefreshSession(old(State()), h)
    {
      ok := h in refresh && !refresh[h].revoked && refresh[h].expiresAt > now &&
            refresh[h].device in devices && !devices[refresh[h].device].revoked;
      if ok {
        refresh := refresh[h := refresh[h].(revoked := true)];
        consumed := consumed + [h];
      }
      FewerActive(old(State()), State());
    }

    method RevokeSession(d: Id, u: Id) returns (ok: bool)
      requires Valid()
      modifies this`devices, this`refresh
      ensures Valid()
      ensures ok == old(Revocable(State(), d, u))
      ensures State() == Sessions.RevokeSession(old(State()), d, u)
    {
      ok := d in devices && devices[d].user == u && !devices[d].revoked;
      if ok {
        devices := devices[d := devices[d].(revoked := true)];
        refresh := RevokeRowsOf(refresh, d);
      }
      FewerActive(old(State()), State());
    }

    /** UPDATE device_sessions ... RETURNING id, row by row. */
    method RevokeOtherRows(u: Id, except: Id) returns (ids: seq<Id>)
      modifies this`devices
      ensures devices == RevokeDevices(old(devices), OtherSessions(old(State()), u, except))
      ensures NoDup(ids) && (set d | d in ids) == OtherSessions(old(State()), u, except)
    {
      ids := [];
      ghost var others := OtherSessions(State(), u, except);
      var todo := devices.Keys;
      while todo != {}
        invariant todo <= devices.Keys == old(devices).Keys
        invariant NoDup(ids)
        invariant forall d :: d in ids <==> d in others && d !in todo
        invariant forall d :: d in devices ==>
                    devices[d] == if d in ids then old(devices)[d].(revoked := true) else old(devices)[d]
        decreases todo
      {
        var d := AnyOf(todo);
        todo := todo - {d};
        if devices[d].user == u && d != except && !devices[d].revoked {
          assert d in others;
          devices := devices[d := devices[d].(revoked := true)];
          ids := ids + [d];
        }
      }
      assert forall d :: d in ids <==> d in others;
      assert devices == RevokeDevices(old(devices), others);
    }

    method RevokeOtherSessions(u: Id, except: Id) returns (ids: seq<Id>)
      requires Valid()
      modifies this`devices, this`refresh
      ensures Valid()
      ensures State() == Sessions.RevokeOtherSessions(old(State()), u, except)
      ensures NoDup(ids) && (set d | d in ids) == OtherSessions(old(State()), u, except)
    {
      ids := RevokeOtherRows(u, except);
      refresh := map h | h in refresh ::
        if refresh[h].user == u && refresh[h].device != except then refresh[h].(revoked := true) else refresh[h];
      FewerActive(old(State()), State());
    }

    /** One SET per id in a pipeline. */
    method BlockBatch(ids: seq<Id>)
      requires Valid()
      modifies this`blocked
      ensures Valid()
      ensures State() == Sessions.BlockBatch(c, old(State()), set d | d in ids)
    {
      for i := 0 to |ids|
        invariant forall d :: d in blocked <==> d in old(blocked) || d in ids[..i]
        invariant forall d :: d in blocked ==> blocked[d] == if d in ids[..i] then now + c.accessTtl else old(blocked)[d]
      {
        assert ids[..i + 1] == ids[..i] + [ids[i]];
        blocked := blocked[ids[i] := now + c.accessTtl];
      }
      assert ids[..|ids|] == ids;
      ghost var want := Sessions.BlockBatch(c, old(State()), set d | d in ids).blocked;
      assert forall d: Id :: d in want <==> d in blocked;
      assert forall d: Id :: d in want ==> want[d] == blocked[d];
      assert blocked == want;
      FewerActive(old(State()), State());
    }

    // ---------- service ----------

    /** Both tokens of the pair then work, each exactly until it expires. */
    method IssueTokenPairForDevice(u: Id, d: Id, key: Bytes, freshKey: Bytes, h: Id)
      requires Valid()
      modifies this`tokens, this`refresh
      ensures Valid()
      ensures State() == IssuePair(c, old(State()), u, d, key, freshKey, h)
      ensures old(ActiveDevice(State(), d) && SessionRuns.BlocksRevoked(State())) ==>
                forall wait: nat :: SessionRuns.PairWorks(c, now, Apply(c, State(), Tick(wait)), h)
    {
      ghost var s := State();
      if ActiveDevice(s, d) && SessionRuns.BlocksRevoked(s) {
        forall wait: nat
          ensures SessionRuns.PairWorks(c, s.now, Apply(c, IssuePair(c, s, u, d, key, freshKey, h), Tick(wait)), h)
        {
          SessionRuns.IssuedPairWorks(c, s, u, d, key, freshKey, h, wait);
        }
      }
      tokens := tokens + {Signed(c, now, u, d)};
      var clientKey := key;
      if |clientKey| == 0 {
        clientKey := freshKey;
      }
      refresh := refresh[h := RefreshRow(u, d, clientKey, now + c.refreshTtl, false)];
      FewerActive(s, State());
    }

    /** What Register and LoginFinalize do once the user is known; login first clears the user's orphaned sessions. */
    method Login(id: Id, u: Id, deviceId: string, h: Id, freshKey: Bytes, cleanup: bool, insertOk: bool)
      requires Valid() && Legal(State(), Call.Login(id, u, deviceId, h, freshKey, cleanup, insertOk))
      modifies this
      ensures Valid()
      ensures State() == Apply(c, old(State()), Call.Login(id, u, deviceId, h, freshKey, cleanup, insertOk))
    {
      CallKeepsOneActive(c, State(), Call.Login(id, u, deviceId, h, freshKey, cleanup, insertOk));
      if cleanup {
        FewerActive(State(), RevokeOrphanedSessions(State(), Some(u)));
        devices := WithoutOrphans(u);
      }
      var d := CreateDeviceSession(id, u, deviceId);
      if insertOk {
        IssueTokenPairForDevice(u, d, [], freshKey, h);
      }
    }

    /** RevokeUserOrphanedSessions as the new device table. */
    function WithoutOrphans(u: Id): (r: map<Id, Device>)
      reads this
      ensures r == RevokeOrphanedSessions(State(), Some(u)).devices
    {
      map d | d in devices ::
        if devices[d].user == u && !devices[d].revoked &&
           (forall h :: h in refresh && refresh[h].device == d ==> refresh[h].revoked || refresh[h].expiresAt <= now)
        then devices[d].(revoked := true) else devices[d]
    }

    /** Rotation, and on a token that was already rotated out, reuse handling. */
    method Refresh(h: Id, h': Id, freshKey: Bytes, insertOk: bool, blockOk: bool) returns (ok: bool)
      requires Valid()
      modifies this
      ensures Valid()
      ensures State() == Apply(c, old(State()), Call.Refresh(h, h', freshKey, insertOk, blockOk))
      ensures ok == (old(Consumable(State(), h)) && insertOk)
    {
      var fresh' := ConsumeRefreshSession(h);
      if !fresh' {
        HandleTokenReuse(h, blockOk);
        return false;
      }
      if !insertOk {
        return false;
      }
      var row := refresh[h];
      IssueTokenPairForDevice(row.user, row.device, row.clientKey, freshKey, h');
      ghost var s := State();
      rotatedFrom := rotatedFrom[h' := h];
      FewerActive(s, State());
      ok := true;
    }

    method HandleTokenReuse(h: Id, blockOk: bool)
      requires Valid()
      modifies this`devices, this`refresh, this`blocked
      ensures Valid()
      ensures State() == if old(AlreadyRevoked(State(), h))
                         then RevokeAndBlock(c, old(State()), old(refresh)[h].device, old(refresh)[h].user, blockOk)
                         else old(State())
    {
      if h !in refresh || !refresh[h].revoked {
        return;
      }
      RevokeDeviceSession(refresh[h].device, refresh[h].user, blockOk);
    }

    method RevokeDeviceSession(d: Id, u: Id, blockOk: bool)
      requires Valid()
      modifies this`devices, this`refresh, this`blocked
      ensures Valid()
      ensures State() == RevokeAndBlock(c, old(State()), d, u, blockOk)
    {
      var ok := RevokeSession(d, u);
      if ok && blockOk {
        ghost var s := State();
        blocked := blocked[d := now + c.accessTtl];
        FewerActive(s, State());
      }
    }

    method RevokeOtherDeviceSessions(u: Id, current: Id, blockOk: bool)
      requires Valid()
      modifies this`devices, this`refresh, this`blocked
      ensures Valid()
      ensures State() == RevokeOthersAndBlock(c, old(State()), u, current, blockOk)
    {
      var ids := RevokeOtherSessions(u, current);
      if blockOk {
        BlockBatch(ids);
      }
    }

    method ResetPassword(h: Id, updateOk: bool, blockOk: bool) returns (ok: bool)
      requires Valid()
      modifies this
      ensures Valid()
      ensures State() == Apply(c, old(State()), Call.ResetPassword(h, updateOk, blockOk))
      ensures ok == (old(ValidReset(State(), h)) && updateOk)
    {
      if !(h in resets && !resets[h].used && resets[h].expiresAt > now) {
        return false;
      }
      resets := resets[h := resets[h].(used := true)];
      spent := spent + [h];
      FewerActive(old(State()), State());
      if !updateOk {
        return false;
      }
      RevokeOtherDeviceSessions(resets[h].user, NIL, blockOk);
      ok := true;
    }

    method Logout(h: Id)
      requires Valid()
      modifies this
      ensures Valid()
      ensures State() == Apply(c, old(State()), Call.Logout(h))
    {
      var ok := ConsumeRefreshSession(h);
      if ok {
        var revoked := RevokeSession(refresh[h].device, refresh[h].user);
      }
    }
  }
}
