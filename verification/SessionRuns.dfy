/** Properties of every run of whole session calls. */
module SessionRuns {
  import opened Prelude
  import opened Forest
  import opened Sessions

  // ---------- the invariant ----------

  /** A refresh row belongs to an existing device session of the same user, and carries a 32-byte key. */
  predicate RowOk(devices: map<Id, Device>, row: RefreshRow)
  {
    row.device in devices && devices[row.device].user == row.user && |row.clientKey| == KEY_BYTES
  }

  ghost predicate RowsOk(s: Auth)
  {
    forall h :: h in s.refresh ==> RowOk(s.devices, s.refresh[h])
  }

  /** Every access token names a device session and expires within one lifetime from now. */
  ghost predicate TokensOk(c: Config, s: Auth)
  {
    NIL !in s.devices && forall t :: t in s.tokens ==> t.sid in s.devices && t.exp <= s.now + c.accessTtl
  }

  /** Two unrevoked refresh rows never share a device session. */
  ghost predicate OneLiveRow(s: Auth)
  {
    forall g, h :: g in s.refresh && h in s.refresh && g != h ==> !BothLive(s.refresh[g], s.refresh[h])
  }

  predicate BothLive(p: RefreshRow, q: RefreshRow)
  {
    p.device == q.device && !p.revoked && !q.revoked
  }

  predicate SameChain(p: RefreshRow, q: RefreshRow)
  {
    p.user == q.user && p.device == q.device && p.clientKey == q.clientKey
  }

  /** A rotated token takes over its predecessor's user, device session and client key; the predecessor is revoked. */
  predicate Linked(refresh: map<Id, RefreshRow>, h: Id, prev: Id)
  {
    h in refresh && prev in refresh && refresh[prev].revoked && SameChain(refresh[h], refresh[prev])
  }

  ghost predicate ChainsOk(s: Auth)
  {
    forall h :: h in s.rotatedFrom ==> Linked(s.refresh, h, s.rotatedFrom[h])
  }

  /** Only revoked sessions are on the blocklist. */
  ghost predicate BlocksRevoked(s: Auth)
  {
    forall d :: d in s.blocked ==> d in s.devices && s.devices[d].revoked
  }

  ghost predicate AuthInv(c: Config, s: Auth)
  {
    RowsOk(s) && TokensOk(c, s) && OneLiveRow(s) && ChainsOk(s) && BlocksRevoked(s)
  }

  // ---------- what every call keeps ----------

  /**
   * The session ids handed out are new or active, never revoked ones: the user's
   * active session of the same device name if there is one, and only then.
   */
  lemma SessionForIsActive(s: Auth, id: Id, u: Id, deviceId: string)
    requires id !in s.devices
    ensures var d := SessionFor(s, id, u, deviceId);
      && (d == id || ActiveDevice(s, d))
      && (d != id ==> deviceId != "" && s.devices[d].user == u && s.devices[d].deviceId == deviceId)
      && (d == id && deviceId != "" ==>
            forall e :: e in s.devices && s.devices[e].user == u && s.devices[e].deviceId == deviceId ==> s.devices[e].revoked)
      && ActiveDevice(CreateDeviceSession(s, id, u, deviceId), d)
      && CreateDeviceSession(s, id, u, deviceId).devices[d].user == u
  {
    forall e | ActiveDevice(s, e) && s.devices[e].user == u && s.devices[e].deviceId == deviceId
      ensures Matches(s, u, deviceId, e)
    {
    }
  }

  /** Each of these leaves the token set and history alone and only ever turns rows and devices revoked. */
  ghost predicate OnlyRevokes(s: Auth, s': Auth)
  {
    && s' == s.(devices := s'.devices, refresh := s'.refresh)
    && s'.devices.Keys == s.devices.Keys && s'.refresh.Keys == s.refresh.Keys
    && (forall d :: d in s.devices ==> s'.devices[d] == s.devices[d] || s'.devices[d] == s.devices[d].(revoked := true))
    && (forall h :: h in s.refresh ==> s'.refresh[h] == s.refresh[h] || s'.refresh[h] == s.refresh[h].(revoked := true))
  }

  lemma OnlyRevokesKeepsInv(c: Config, s: Auth, s': Auth)
    requires AuthInv(c, s) && OnlyRevokes(s, s')
    ensures AuthInv(c, s')
  {
  }

  lemma RevocationsOnlyRevoke(s: Auth, d: Id, u: Id, except: Id, only: Option<Id>)
    ensures OnlyRevokes(s, RevokeSession(s, d, u))
    ensures OnlyRevokes(s, RevokeOtherSessions(s, u, except))
    ensures OnlyRevokes(s, RevokeOrphanedSessions(s, only))
  {
  }

  lemma BlockingKeepsInv(c: Config, s: Auth, s': Auth)
    requires AuthInv(c, s) && s' == s.(blocked := s'.blocked, resets := s'.resets, spent := s'.spent)
    requires BlocksRevoked(s')
    ensures AuthInv(c, s')
  {
  }

  lemma RevokeAndBlockKeepsInv(c: Config, s: Auth, d: Id, u: Id, blockOk: bool)
    requires AuthInv(c, s)
    ensures AuthInv(c, RevokeAndBlock(c, s, d, u, blockOk))
  {
  }

  lemma RevokeOthersAndBlockKeepsInv(c: Config, s: Auth, u: Id, except: Id, blockOk: bool)
    requires AuthInv(c, s)
    ensures AuthInv(c, RevokeOthersAndBlock(c, s, u, except, blockOk))
  {
    RevocationsOnlyRevoke(s, NIL, u, except, None);
    OnlyRevokesKeepsInv(c, s, RevokeOtherSessions(s, u, except));
    BlockingKeepsInv(c, RevokeOtherSessions(s, u, except), RevokeOthersAndBlock(c, s, u, except, blockOk));
  }

  /** A pair may be issued for an active session that has no live refresh row left. */
  lemma IssuePairKeepsInv(c: Config, s: Auth, u: Id, d: Id, key: Bytes, freshKey: Bytes, h: Id)
    requires AuthInv(c, s) && d in s.devices && s.devices[d].user == u
    requires h !in s.refresh && |freshKey| == KEY_BYTES && (|key| == 0 || |key| == KEY_BYTES)
    requires forall g :: g in s.refresh && s.refresh[g].device == d ==> s.refresh[g].revoked
    ensures AuthInv(c, IssuePair(c, s, u, d, key, freshKey, h))
  {
  }

  lemma InsertDeviceKeepsInv(c: Config, s: Auth, id: Id, device: Device)
    requires AuthInv(c, s) && id != NIL && id !in s.devices
    ensures AuthInv(c, s.(devices := s.devices[id := device]))
    ensures forall g :: g in s.refresh ==> s.refresh[g].device != id
  {
  }

  lemma CreateDeviceKeepsInv(c: Config, s: Auth, id: Id, u: Id, deviceId: string)
    requires AuthInv(c, s) && id != NIL && id !in s.devices
    ensures var s', d := CreateDeviceSession(s, id, u, deviceId), SessionFor(s, id, u, deviceId);
      && AuthInv(c, s')
      && s'.refresh.Keys == s.refresh.Keys
      && d in s'.devices && s'.devices[d].user == u
      && forall g :: g in s'.refresh && s'.refresh[g].device == d ==> s'.refresh[g].revoked
  {
    var s' := CreateDeviceSession(s, id, u, deviceId);
    SessionForIsActive(s, id, u, deviceId);
    if deviceId != "" && exists d :: Matches(s, u, deviceId, d) {
      OnlyRevokesKeepsInv(c, s, s');
    } else {
      InsertDeviceKeepsInv(c, s, id, Device(u, deviceId, false));
    }
  }

  /** The upsert touches devices and refresh rows only, and revives nothing. */
  lemma UpsertFrame(s: Auth, id: Id, u: Id, deviceId: string)
    requires id !in s.devices
    ensures var ready := CreateDeviceSession(s, id, u, deviceId);
      && ready == s.(devices := ready.devices, refresh := ready.refresh)
      && forall e :: e in s.devices && s.devices[e].revoked ==> e in ready.devices && ready.devices[e].revoked
  {
  }

  ghost predicate ReadyFor(c: Config, call: Call, ready: Auth, d: Id)
    requires call.Login?
  {
    && AuthInv(c, ready) && d in ready.devices && ready.devices[d].user == call.u && call.h !in ready.refresh
    && forall g :: g in ready.refresh && ready.refresh[g].device == d ==> ready.refresh[g].revoked
  }

  /** LoginFinalize's best-effort clean-up. */
  function CleanedUp(s: Auth, u: Id, cleanup: bool): Auth
  {
    if cleanup then RevokeOrphanedSessions(s, Some(u)) else s
  }

  lemma CleanedUpFrame(s: Auth, u: Id, cleanup: bool)
    ensures OnlyRevokes(s, CleanedUp(s, u, cleanup))
    ensures forall e :: e in s.devices && s.devices[e].revoked ==> CleanedUp(s, u, cleanup).devices[e].revoked
  {
  }

  /**
   * What a login has done when it comes to issuing tokens: a state `ready` with
   * an active session `d` of the user that has no live refresh row left.
   */
  lemma LoginPrepares(c: Config, s: Auth, call: Call) returns (ready: Auth, d: Id)
    requires Legal(s, call) && call.Login?
    ensures Apply(c, s, call) == if call.insertOk then IssuePair(c, ready, call.u, d, [], call.freshKey, call.h) else ready
    ensures ActiveDevice(ready, d) && (d == call.id || ActiveDevice(s, d))
    ensures ready == s.(devices := ready.devices, refresh := ready.refresh)
    ensures forall e :: e in s.devices && s.devices[e].revoked ==> e in ready.devices && ready.devices[e].revoked
    ensures AuthInv(c, s) ==> ReadyFor(c, call, ready, d)
  {
    var s1 := CleanedUp(s, call.u, call.cleanup);
    CleanedUpFrame(s, call.u, call.cleanup);
    SessionForIsActive(s1, call.id, call.u, call.deviceId);
    UpsertFrame(s1, call.id, call.u, call.deviceId);
    ready, d := CreateDeviceSession(s1, call.id, call.u, call.deviceId), SessionFor(s1, call.id, call.u, call.deviceId);
    if AuthInv(c, s) {
      LoginReady(c, s, call);
    }
  }

  lemma LoginReady(c: Config, s: Auth, call: Call)
    requires AuthInv(c, s) && Legal(s, call) && call.Login?
    ensures var s1 := CleanedUp(s, call.u, call.cleanup);
      ReadyFor(c, call, CreateDeviceSession(s1, call.id, call.u, call.deviceId), SessionFor(s1, call.id, call.u, call.deviceId))
  {
    var s1 := CleanedUp(s, call.u, call.cleanup);
    CleanedUpFrame(s, call.u, call.cleanup);
    OnlyRevokesKeepsInv(c, s, s1);
    CreateDeviceKeepsInv(c, s1, call.id, call.u, call.deviceId);
  }

  lemma LoginKeepsInv(c: Config, s: Auth, call: Call)
    requires AuthInv(c, s) && Legal(s, call) && call.Login?
    ensures AuthInv(c, Apply(c, s, call))
  {
    var ready, d := LoginPrepares(c, s, call);
    IssuePairKeepsInv(c, ready, call.u, d, [], call.freshKey, call.h);
  }

  lemma ConsumeKeepsInv(c: Config, s: Auth, h: Id)
    requires AuthInv(c, s) && Consumable(s, h)
    ensures AuthInv(c, ConsumeRefreshSession(s, h))
    ensures forall g :: g in s.refresh && s.refresh[g].device == s.refresh[h].device ==>
              ConsumeRefreshSession(s, h).refresh[g].revoked
  {
  }

  lemma RefreshKeepsInv(c: Config, s: Auth, call: Call)
    requires AuthInv(c, s) && Legal(s, call) && call.Refresh?
    ensures AuthInv(c, Apply(c, s, call))
  {
    var Refresh(h, h', freshKey, insertOk, blockOk) := call;
    if Consumable(s, h) {
      var row := s.refresh[h];
      ConsumeKeepsInv(c, s, h);
      var s1 := ConsumeRefreshSession(s, h);
      assert RowOk(s.devices, row);
      IssuePairKeepsInv(c, s1, row.user, row.device, row.clientKey, freshKey, h');
    } else if AlreadyRevoked(s, h) {
      RevokeAndBlockKeepsInv(c, s, s.refresh[h].device, s.refresh[h].user, blockOk);
    }
  }

  lemma StepKeepsInv(c: Config, s: Auth, call: Call)
    requires AuthInv(c, s) && Legal(s, call)
    ensures AuthInv(c, Apply(c, s, call))
  {
    match call
    case Tick(_) =>
    case Login(_, _, _, _, _, _, _) => LoginKeepsInv(c, s, call);
    case Refresh(_, _, _, _, _) => RefreshKeepsInv(c, s, call);
    case Logout(h) =>
      if Consumable(s, h) {
        var s1 := ConsumeRefreshSession(s, h);
        ConsumeKeepsInv(c, s, h);
        RevocationsOnlyRevoke(s1, s.refresh[h].device, s.refresh[h].user, NIL, None);
        OnlyRevokesKeepsInv(c, s1, RevokeSession(s1, s.refresh[h].device, s.refresh[h].user));
      }
    case RevokeDevice(d, u, blockOk) => RevokeAndBlockKeepsInv(c, s, d, u, blockOk);
    case RevokeOthers(u, current, blockOk) => RevokeOthersAndBlockKeepsInv(c, s, u, current, blockOk);
    case RequestReset(_, _) => BlockingKeepsInv(c, s, Apply(c, s, call));
    case ResetPassword(h, updateOk, blockOk) =>
      if ValidReset(s, h) {
        var s1 := ConsumeResetToken(s, h);
        BlockingKeepsInv(c, s, s1);
        RevokeOthersAndBlockKeepsInv(c, s1, s.resets[h].user, NIL, blockOk);
      }
    case CleanOrphaned =>
      RevocationsOnlyRevoke(s, NIL, NIL, NIL, None);
      OnlyRevokesKeepsInv(c, s, Apply(c, s, call));
  }

  /** In every run, each device session has at most one unrevoked refresh row, and chains stay intact. */
  lemma {:induction false} RunKeepsInv(c: Config, s: Auth, calls: seq<Call>)
    requires AuthInv(c, s) && LegalRun(c, s, calls)
    ensures AuthInv(c, Run(c, s, calls))
    decreases calls
  {
    if calls != [] {
      StepKeepsInv(c, s, calls[0]);
      RunKeepsInv(c, Apply(c, s, calls[0]), calls[1..]);
    }
  }

  /** All tokens rotated out of one login carry the same 32-byte client key, for the same user and device session. */
  lemma {:induction false} ChainSharesKey(c: Config, s: Auth, h: Id, k: nat, first: Id)
    requires AuthInv(c, s) && h in s.refresh && Up(s.rotatedFrom, h, k) == Some(first)
    ensures first in s.refresh && SameChain(s.refresh[h], s.refresh[first])
    ensures |s.refresh[h].clientKey| == 32
    decreases k
  {
    assert RowOk(s.devices, s.refresh[h]);
    if k > 0 {
      var prev := s.rotatedFrom[h];
      assert Linked(s.refresh, h, prev);
      ChainSharesKey(c, s, prev, k - 1, first);
    }
  }

  // ---------- sealed sessions ----------

  /** Revoked, and every access token it ever got has expired or is covered by the blocklist until it does. */
  ghost predicate Sealed(s: Auth, d: Id)
  {
    && d != NIL && d in s.devices && s.devices[d].revoked
    && forall t :: t in s.tokens && t.sid == d ==> t.exp <= s.now || (d in s.blocked && t.exp <= s.blocked[d])
  }

  /** The calls that revoke `d` and whose blocklist write succeeds. */
  ghost predicate Seals(s: Auth, call: Call, d: Id)
  {
    match call
    case RevokeDevice(e, u, blockOk) => blockOk && e == d && Revocable(s, d, u)
    case RevokeOthers(u, current, blockOk) => blockOk && d in OtherSessions(s, u, current)
    case ResetPassword(h, updateOk, blockOk) =>
      blockOk && updateOk && ValidReset(s, h) && d in OtherSessions(s, s.resets[h].user, NIL)
    case Refresh(h, _, _, _, blockOk) => blockOk && AlreadyRevoked(s, h) && s.refresh[h].device == d && ActiveDevice(s, d)
    case _ => false
  }

  lemma SealingCallSeals(c: Config, s: Auth, call: Call, d: Id)
    requires AuthInv(c, s) && Seals(s, call, d)
    ensures Sealed(Apply(c, s, call), d)
  {
  }

  /** Sealing survives anything that only revokes, adds tokens of other sessions, or leaves its blocklist entry alone. */
  lemma StaysSealed(s: Auth, s': Auth, d: Id)
    requires Sealed(s, d)
    requires d in s'.devices && s'.devices[d].revoked && s'.now >= s.now
    requires d in s.blocked ==> d in s'.blocked && s'.blocked[d] == s.blocked[d]
    requires forall t :: t in s'.tokens && t.sid == d ==> t in s.tokens
    ensures Sealed(s', d)
  {
  }

  lemma LoginKeepsSealed(c: Config, s: Auth, call: Call, d: Id)
    requires Sealed(s, d) && Legal(s, call) && call.Login?
    ensures Sealed(Apply(c, s, call), d)
  {
    var ready, e := LoginPrepares(c, s, call);
    StaysSealed(s, Apply(c, s, call), d);
  }

  lemma RevokingKeepsSealed(c: Config, s: Auth, d: Id, e: Id, u: Id, except: Id, blockOk: bool)
    requires Sealed(s, d)
    ensures Sealed(RevokeAndBlock(c, s, e, u, blockOk), d)
    ensures Sealed(RevokeOthersAndBlock(c, s, u, except, blockOk), d)
  {
  }

  lemma ConsumingKeepsSealed(c: Config, s: Auth, call: Call, d: Id)
    requires Sealed(s, d) && (call.Refresh? || call.Logout?) && Consumable(s, call.h)
    ensures Sealed(Apply(c, s, call), d)
  {
  }

  /** No later call hands out a token for a sealed session, revives it, or touches its blocklist entry. */
  lemma StepKeepsSealed(c: Config, s: Auth, call: Call, d: Id)
    requires Sealed(s, d) && Legal(s, call)
    ensures Sealed(Apply(c, s, call), d)
  {
    match call
    case Login(_, _, _, _, _, _, _) => LoginKeepsSealed(c, s, call, d);
    case Refresh(h, _, _, _, blockOk) =>
      if Consumable(s, h) {
        ConsumingKeepsSealed(c, s, call, d);
      } else if AlreadyRevoked(s, h) {
        RevokingKeepsSealed(c, s, d, s.refresh[h].device, s.refresh[h].user, NIL, blockOk);
      }
    case Logout(h) => if Consumable(s, h) { ConsumingKeepsSealed(c, s, call, d); }
    case RevokeDevice(e, u, blockOk) => RevokingKeepsSealed(c, s, d, e, u, NIL, blockOk);
    case RevokeOthers(u, current, blockOk) => RevokingKeepsSealed(c, s, d, NIL, u, current, blockOk);
    case ResetPassword(h, _, blockOk) =>
      if ValidReset(s, h) {
        StaysSealed(s, ConsumeResetToken(s, h), d);
        RevokingKeepsSealed(c, ConsumeResetToken(s, h), d, NIL, s.resets[h].user, NIL, blockOk);
      }
    case _ => StaysSealed(s, Apply(c, s, call), d);
  }

  lemma {:induction false} RunKeepsSealed(c: Config, s: Auth, calls: seq<Call>, d: Id)
    requires Sealed(s, d) && LegalRun(c, s, calls)
    ensures Sealed(Run(c, s, calls), d)
    decreases calls
  {
    if calls != [] {
      StepKeepsSealed(c, s, calls[0], d);
      RunKeepsSealed(c, Apply(c, s, calls[0]), calls[1..], d);
    }
  }

  /**
   * Once a call has revoked a session and blocked it, no access token of that
   * session is accepted and no refresh token of it can be used, at any later
   * instant of any run: the blocklist entry outlives every token it covers.
   */
  lemma RevokedForever(c: Config, s: Auth, call: Call, calls: seq<Call>, d: Id)
    requires AuthInv(c, s) && Legal(s, call) && Seals(s, call, d)
    requires LegalRun(c, Apply(c, s, call), calls)
    ensures var end := Run(c, Apply(c, s, call), calls);
      && (forall t: Jwt :: t.sid == d ==> !Accepts(end, t))
      && (forall h :: h in end.refresh && end.refresh[h].device == d ==> !Consumable(end, h))
  {
    SealingCallSeals(c, s, call, d);
    RunKeepsSealed(c, Apply(c, s, call), calls, d);
  }

  /** Presenting a token that was rotated out ends the device's whole chain; one that was never issued changes nothing. */
  lemma ReuseEndsChain(c: Config, s: Auth, h: Id, h': Id, freshKey: Bytes, calls: seq<Call>)
    requires AuthInv(c, s) && Legal(s, Refresh(h, h', freshKey, true, true))
    requires LegalRun(c, Apply(c, s, Refresh(h, h', freshKey, true, true)), calls)
    ensures h !in s.refresh ==> Apply(c, s, Refresh(h, h', freshKey, true, true)) == s
    ensures AlreadyRevoked(s, h) && ActiveDevice(s, s.refresh[h].device) ==>
      var end := Run(c, Apply(c, s, Refresh(h, h', freshKey, true, true)), calls);
      && (forall t: Jwt :: t.sid == s.refresh[h].device ==> !Accepts(end, t))
      && (forall g :: g in end.refresh && end.refresh[g].device == s.refresh[h].device ==> !Consumable(end, g))
  {
    var call := Refresh(h, h', freshKey, true, true);
    if AlreadyRevoked(s, h) && ActiveDevice(s, s.refresh[h].device) {
      RevokedForever(c, s, call, calls, s.refresh[h].device);
    }
  }

  /** Revocation reaches the rows too: nothing of a session so ended is left unrevoked. */
  lemma SealedSessionHasNoLiveRow(c: Config, s: Auth, call: Call, d: Id, h: Id)
    requires AuthInv(c, s) && Seals(s, call, d) && h in s.refresh && s.refresh[h].device == d
    ensures Apply(c, s, call).refresh[h].revoked
  {
    assert RowOk(s.devices, s.refresh[h]);
    if call.Refresh? {
      assert RowOk(s.devices, s.refresh[call.h]);
    }
  }

  /** The orphan clean-up takes no usable refresh token, and leaves no active session without one. */
  lemma CleanupSparesUsable(s: Auth, only: Option<Id>)
    ensures forall h :: Consumable(RevokeOrphanedSessions(s, only), h) <==> Consumable(s, h)
    ensures forall d :: ActiveDevice(RevokeOrphanedSessions(s, only), d) && (only.Some? ==> s.devices[d].user == only.value) ==>
              exists h :: Consumable(s, h) && s.refresh[h].device == d
  {
    var s' := RevokeOrphanedSessions(s, only);
    forall d | ActiveDevice(s', d) && (only.Some? ==> s.devices[d].user == only.value)
      ensures exists h :: Consumable(s, h) && s.refresh[h].device == d
    {
      assert ActiveDevice(s, d) && !Orphaned(s, d);
      var h :| h in s.refresh && s.refresh[h].device == d && !(s.refresh[h].revoked || s.refresh[h].expiresAt <= s.now);
      assert Consumable(s, h);
    }
  }

  // ---------- what a successful call gives its client ----------

  lemma IssuedPairWorks(c: Config, s: Auth, u: Id, d: Id, key: Bytes, freshKey: Bytes, h: Id, wait: nat)
    requires ActiveDevice(s, d) && BlocksRevoked(s)
    ensures var later := IssuePair(c, s, u, d, key, freshKey, h).(now := s.now + wait);
      var t := Signed(c, s.now, u, d);
      && h in later.refresh && later.refresh[h].user == u && later.refresh[h].device == d
      && (Accepts(later, t) <==> later.now < t.exp)
      && (Consumable(later, h) <==> wait < c.refreshTtl)
  {
  }

  /**
   * The new refresh token and the access token signed with it, `wait` later: each
   * works exactly until it expires, the access token at the last whole second of
   * its lifetime.
   */
  ghost predicate PairWorks(c: Config, issued: Time, later: Auth, h: Id)
  {
    && h in later.refresh
    && var t := Signed(c, issued, later.refresh[h].user, later.refresh[h].device);
       && t.user == later.refresh[h].user && t.sid == later.refresh[h].device
       && t.exp == (issued + c.accessTtl) / 1000 * 1000
       && (Accepts(later, t) <==> later.now < t.exp)
       && (Consumable(later, h) <==> later.now < issued + c.refreshTtl)
  }

  lemma LoginPairWorks(c: Config, s: Auth, call: Call, wait: nat)
    requires AuthInv(c, s) && Legal(s, call) && call.Login? && call.insertOk
    ensures PairWorks(c, s.now, Apply(c, Apply(c, s, call), Tick(wait)), call.h)
  {
    var ready, d := LoginPrepares(c, s, call);
    IssuedPairWorks(c, ready, call.u, d, [], call.freshKey, call.h, wait);
  }

  lemma RotatedPairWorks(c: Config, s: Auth, call: Call, wait: nat)
    requires AuthInv(c, s) && Legal(s, call) && call.Refresh? && call.insertOk && Consumable(s, call.h)
    ensures var later := Apply(c, Apply(c, s, call), Tick(wait));
      && PairWorks(c, s.now, later, call.h')
      && !Consumable(later, call.h)
      && call.h' in later.rotatedFrom && later.rotatedFrom[call.h'] == call.h
      && SameChain(later.refresh[call.h'], s.refresh[call.h])
  {
    var Refresh(h, h', freshKey, insertOk, blockOk) := call;
    var row := s.refresh[h];
    assert RowOk(s.devices, row);
    IssuedPairWorks(c, ConsumeRefreshSession(s, h), row.user, row.device, row.clientKey, freshKey, h', wait);
  }

  /** Asking for a password reset leaves the new token as the user's only valid one. */
  lemma OnlyNewestResetTokenWorks(c: Config, s: Auth, u: Id, h: Id, wait: nat)
    requires Legal(s, RequestReset(u, h))
    ensures var later := Apply(c, Apply(c, s, RequestReset(u, h)), Tick(wait));
      && h in later.resets && later.resets[h].user == u
      && (ValidReset(later, h) <==> wait < 3_600_000)
      && (forall g :: g != h && g in later.resets && later.resets[g].user == u ==> !ValidReset(later, g))
      && (forall g :: g in s.resets && s.resets[g].user != u ==> later.resets[g] == s.resets[g])
  {
  }

  /** Every state the service can reach. */
  lemma ReachableStatesAreGood(c: Config, calls: seq<Call>)
    requires LegalRun(c, NoSessions, calls)
    ensures AuthInv(c, Run(c, NoSessions, calls))
  {
    assert AuthInv(c, NoSessions);
    RunKeepsInv(c, NoSessions, calls);
  }
}
