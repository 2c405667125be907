/**
 * Who is affected by a session call, and who is not: every call leaves the
 * sessions it does not name alone, and does to the ones it names what it says.
 */
module SessionFrames {
  import opened Prelude
  import opened Sessions
  import opened SessionRuns

  // ---------- the sessions a call names ----------

  function SessionsOf(s: Auth, u: Id, except: Id): set<Id>
  {
    set d | d in s.devices && s.devices[d].user == u && d != except
  }

  /** The session a token, a device id or a user id points to, or the one a login gets. */
  ghost function Named(s: Auth, call: Call): set<Id>
  {
    match call
    case Login(id, u, deviceId, _, _, cleanup, _) => {SessionFor(CleanedUp(s, u, cleanup), id, u, deviceId)}
    case Refresh(h, _, _, _, _) => if h in s.refresh then {s.refresh[h].device} else {}
    case Logout(h) => if h in s.refresh then {s.refresh[h].device} else {}
    case RevokeDevice(d, _, _) => {d}
    case RevokeOthers(u, current, _) => SessionsOf(s, u, current)
    case ResetPassword(h, _, _) => if h in s.resets then SessionsOf(s, s.resets[h].user, NIL) else {}
    case _ => {}
  }

  /** Sessions without a usable refresh token, which a clean-up revokes. */
  predicate Swept(s: Auth, call: Call, e: Id)
  {
    match call
    case Login(_, u, _, _, _, cleanup, _) => cleanup && Orphaned(s, e) && s.devices[e].user == u
    case CleanOrphaned => Orphaned(s, e)
    case _ => false
  }

  predicate RowOf(s: Auth, h: Id, e: Id)
  {
    h in s.refresh && s.refresh[h].device == e
  }

  /** The device row, the refresh rows, the blocklist entry and the access tokens of `e` are the same. */
  ghost predicate SameSession(s: Auth, s': Auth, e: Id)
  {
    && (e in s.devices <==> e in s'.devices) && (e in s.devices ==> s'.devices[e] == s.devices[e])
    && (forall h :: RowOf(s, h, e) <==> RowOf(s', h, e))
    && (forall h :: RowOf(s, h, e) ==> s'.refresh[h] == s.refresh[h])
    && (e in s.blocked <==> e in s'.blocked) && (e in s.blocked ==> s'.blocked[e] == s.blocked[e])
    && (forall t: Jwt :: t.sid == e ==> (t in s.tokens <==> t in s'.tokens))
    && s'.now == s.now
  }

  lemma SameTwice(s: Auth, mid: Auth, s': Auth, e: Id)
    requires SameSession(s, mid, e) && SameSession(mid, s', e)
    ensures SameSession(s, s', e)
  {
  }

  // ---------- everybody else is left alone ----------

  lemma RevokeLeaves(c: Config, s: Auth, d: Id, u: Id, blockOk: bool, e: Id)
    requires e != d
    ensures SameSession(s, RevokeSession(s, d, u), e) && SameSession(s, RevokeAndBlock(c, s, d, u, blockOk), e)
  {
  }

  lemma RevokeOthersLeaves(c: Config, s: Auth, u: Id, except: Id, blockOk: bool, e: Id)
    requires RowsOk(s) && e !in SessionsOf(s, u, except)
    ensures SameSession(s, RevokeOthersAndBlock(c, s, u, except, blockOk), e)
  {
    forall h | RowOf(s, h, e) ensures RowOk(s.devices, s.refresh[h]) {
    }
  }

  lemma SweepLeaves(s: Auth, only: Option<Id>, e: Id)
    requires !(Orphaned(s, e) && (only.Some? ==> s.devices[e].user == only.value))
    ensures SameSession(s, RevokeOrphanedSessions(s, only), e)
  {
  }

  lemma UpsertLeaves(s: Auth, id: Id, u: Id, deviceId: string, e: Id)
    requires id !in s.devices && e != SessionFor(s, id, u, deviceId)
    ensures SameSession(s, CreateDeviceSession(s, id, u, deviceId), e)
  {
  }

  lemma PairLeaves(c: Config, s: Auth, u: Id, d: Id, key: Bytes, freshKey: Bytes, h: Id, e: Id)
    requires h !in s.refresh && e != d
    ensures SameSession(s, IssuePair(c, s, u, d, key, freshKey, h), e)
  {
  }

  lemma ConsumeLeaves(s: Auth, h: Id, e: Id)
    requires !RowOf(s, h, e)
    ensures SameSession(s, ConsumeRefreshSession(s, h), e)
  {
  }

  lemma LoginLeaves(c: Config, s: Auth, call: Call, e: Id)
    requires Legal(s, call) && call.Login? && e !in Named(s, call) && !Swept(s, call, e)
    ensures SameSession(s, Apply(c, s, call), e)
  {
    var Login(id, u, deviceId, h, freshKey, cleanup, insertOk) := call;
    var s1 := CleanedUp(s, u, cleanup);
    CleanedUpFrame(s, u, cleanup);
    if cleanup {
      SweepLeaves(s, Some(u), e);
    }
    var s2, d := CreateDeviceSession(s1, id, u, deviceId), SessionFor(s1, id, u, deviceId);
    UpsertLeaves(s1, id, u, deviceId, e);
    SameTwice(s, s1, s2, e);
    if insertOk {
      PairLeaves(c, s2, u, d, [], freshKey, h, e);
      SameTwice(s, s2, Apply(c, s, call), e);
    }
  }

  lemma RefreshLeaves(c: Config, s: Auth, call: Call, e: Id)
    requires Legal(s, call) && call.Refresh? && e !in Named(s, call)
    ensures SameSession(s, Apply(c, s, call), e)
  {
    var Refresh(h, h', freshKey, insertOk, blockOk) := call;
    if Consumable(s, h) {
      var row, mid := s.refresh[h], ConsumeRefreshSession(s, h);
      ConsumeLeaves(s, h, e);
      PairLeaves(c, mid, row.user, row.device, row.clientKey, freshKey, h', e);
      SameTwice(s, mid, IssuePair(c, mid, row.user, row.device, row.clientKey, freshKey, h'), e);
    } else if AlreadyRevoked(s, h) {
      RevokeLeaves(c, s, s.refresh[h].device, s.refresh[h].user, blockOk, e);
    }
  }

  /** Every call leaves each session it neither names nor sweeps exactly as it was. */
  lemma CallLeavesOthers(c: Config, s: Auth, call: Call, e: Id)
    requires AuthInv(c, s) && Legal(s, call) && !call.Tick? && e !in Named(s, call) && !Swept(s, call, e)
    ensures SameSession(s, Apply(c, s, call), e)
  {
    match call
    case Login(_, _, _, _, _, _, _) => LoginLeaves(c, s, call, e);
    case Refresh(_, _, _, _, _) => RefreshLeaves(c, s, call, e);
    case Logout(h) =>
      if Consumable(s, h) {
        var mid := ConsumeRefreshSession(s, h);
        ConsumeLeaves(s, h, e);
        RevokeLeaves(c, mid, s.refresh[h].device, s.refresh[h].user, false, e);
        SameTwice(s, mid, Apply(c, s, call), e);
      }
    case RevokeDevice(d, u, blockOk) => RevokeLeaves(c, s, d, u, blockOk, e);
    case RevokeOthers(u, current, blockOk) => RevokeOthersLeaves(c, s, u, current, blockOk, e);
    case RequestReset(_, _) =>
    case ResetPassword(h, updateOk, blockOk) =>
      if ValidReset(s, h) {
        var mid := ConsumeResetToken(s, h);
        RevokeOthersLeaves(c, mid, s.resets[h].user, NIL, blockOk, e);
        SameTwice(s, mid, Apply(c, s, call), e);
      }
    case CleanOrphaned => SweepLeaves(s, None, e);
  }

  /** A session a call only sweeps loses nothing usable: its device row is revoked and that is all. */
  lemma SweptLosesNothing(c: Config, s: Auth, call: Call, e: Id)
    requires AuthInv(c, s) && Legal(s, call) && Swept(s, call, e) && e !in Named(s, call)
    ensures SameSession(s.(devices := s.devices[e := s.devices[e].(revoked := true)]), Apply(c, s, call), e)
    ensures forall h :: RowOf(s, h, e) ==> !Consumable(s, h)
  {
    var only := if call.Login? then Some(call.u) else None;
    var swept := RevokeOrphanedSessions(s, only);
    var marked := s.(devices := s.devices[e := s.devices[e].(revoked := true)]);
    assert SameSession(marked, swept, e);
    if call.Login? {
      CleanedUpFrame(s, call.u, true);
      var s2, d := CreateDeviceSession(swept, call.id, call.u, call.deviceId), SessionFor(swept, call.id, call.u, call.deviceId);
      UpsertLeaves(swept, call.id, call.u, call.deviceId, e);
      SameTwice(marked, swept, s2, e);
      if call.insertOk {
        PairLeaves(c, s2, call.u, d, [], call.freshKey, call.h, e);
        SameTwice(marked, s2, Apply(c, s, call), e);
      }
    }
  }

  /** So whoever is not named by a call can use the same refresh and access tokens after it as before. */
  lemma OthersStayUsable(c: Config, s: Auth, call: Call, e: Id)
    requires AuthInv(c, s) && Legal(s, call) && !call.Tick? && e !in Named(s, call)
    ensures forall h :: RowOf(s, h, e) ==> (Consumable(Apply(c, s, call), h) <==> Consumable(s, h))
    ensures forall t: Jwt :: t.sid == e ==> (Accepts(Apply(c, s, call), t) <==> Accepts(s, t))
  {
    var s' := Apply(c, s, call);
    if Swept(s, call, e) {
      SweptLosesNothing(c, s, call, e);
      var marked := s.(devices := s.devices[e := s.devices[e].(revoked := true)]);
      forall h | RowOf(s, h, e) ensures !Consumable(s', h) {
        assert RowOf(marked, h, e);
      }
      forall t: Jwt | t.sid == e ensures Accepts(s', t) <==> Accepts(s, t) {
        assert t in marked.tokens <==> t in s'.tokens;
      }
    } else {
      CallLeavesOthers(c, s, call, e);
      forall h | RowOf(s, h, e) ensures Consumable(s', h) <==> Consumable(s, h) {
        assert RowOf(s', h, e);
      }
      forall t: Jwt | t.sid == e ensures Accepts(s', t) <==> Accepts(s, t) {
        assert t in s.tokens <==> t in s'.tokens;
      }
    }
  }

  /** Reset tokens: only asking for one or using one changes any, and only the user's own. */
  lemma ResetTokensOfOthers(c: Config, s: Auth, call: Call, g: Id)
    requires Legal(s, call) && g in s.resets
    requires call.RequestReset? ==> s.resets[g].user != call.u
    requires call.ResetPassword? ==> g != call.h
    ensures g in Apply(c, s, call).resets && Apply(c, s, call).resets[g] == s.resets[g]
  {
    if call.Login? {
      var ready, d := LoginPrepares(c, s, call);
    }
  }

  /**
   * A call that fails changes nothing, or only what it had done by then: a refused
   * revocation, logout, rotation or reset leaves the stores as they were; a rotation or
   * login that cannot insert its row, and a reset that cannot store the credentials,
   * leave the tokens of all sessions alone but for the one they consumed.
   */
  lemma FailedCalls(c: Config, s: Auth, call: Call)
    requires Legal(s, call)
    ensures call.RevokeDevice? && !(ActiveDevice(s, call.d) && s.devices[call.d].user == call.u) ==> Apply(c, s, call) == s
    ensures call.Logout? && !Consumable(s, call.h) ==> Apply(c, s, call) == s
    ensures call.Refresh? && !Consumable(s, call.h) && !AlreadyRevoked(s, call.h) ==> Apply(c, s, call) == s
    ensures call.ResetPassword? && !ValidReset(s, call.h) ==> Apply(c, s, call) == s
    ensures call.ResetPassword? && ValidReset(s, call.h) && !call.updateOk ==>
              var s' := Apply(c, s, call);
              s' == s.(resets := s'.resets, spent := s'.spent) && s'.resets == s.resets[call.h := s.resets[call.h].(used := true)]
    ensures call.Refresh? && Consumable(s, call.h) && !call.insertOk ==>
              var s' := Apply(c, s, call);
              s' == s.(refresh := s'.refresh, consumed := s'.consumed) &&
              s'.refresh == s.refresh[call.h := s.refresh[call.h].(revoked := true)]
    ensures call.Login? && !call.insertOk ==>
              Apply(c, s, call).tokens == s.tokens && Apply(c, s, call).refresh.Keys == s.refresh.Keys
  {
    if call.Login? {
      CleanedUpFrame(s, call.u, call.cleanup);
    }
  }

  // ---------- what a call does to the sessions it names ----------

  /** Calls that end session `d`, whether or not the blocklist write works. */
  predicate Ends(s: Auth, call: Call, d: Id)
  {
    match call
    case RevokeDevice(e, u, _) => e == d && Revocable(s, d, u)
    case RevokeOthers(u, current, _) => d in OtherSessions(s, u, current)
    case ResetPassword(h, updateOk, _) => updateOk && ValidReset(s, h) && d in OtherSessions(s, s.resets[h].user, NIL)
    case Refresh(h, _, _, _, _) => AlreadyRevoked(s, h) && s.refresh[h].device == d && ActiveDevice(s, d)
    case Logout(h) => Consumable(s, h) && s.refresh[h].device == d
    case _ => false
  }

  /** The session is revoked and with it every refresh row it has. */
  lemma EndedSessionIsRevoked(c: Config, s: Auth, call: Call, d: Id)
    requires AuthInv(c, s) && Ends(s, call, d)
    ensures var s' := Apply(c, s, call);
      && d in s'.devices && s'.devices[d].revoked
      && (forall h :: RowOf(s', h, d) ==> RowOf(s, h, d) && s'.refresh[h].revoked)
      && (call.Logout? ==> forall t: Jwt :: Accepts(s', t) <==> Accepts(s, t))
  {
    if call.Logout? {
      LogoutEnds(c, s, call.h);
    } else {
      forall h | h in s.refresh ensures RowOk(s.devices, s.refresh[h]) {
      }
    }
  }

  lemma LogoutEnds(c: Config, s: Auth, h: Id)
    requires AuthInv(c, s) && Consumable(s, h)
    ensures var s', d := Apply(c, s, Logout(h)), s.refresh[h].device;
      && d in s'.devices && s'.devices[d].revoked
      && (forall g :: RowOf(s', g, d) ==> RowOf(s, g, d) && s'.refresh[g].revoked)
      && (forall t: Jwt :: Accepts(s', t) <==> Accepts(s, t))
  {
    assert RowOk(s.devices, s.refresh[h]);
  }

  /** After a login its session is active, the user's own and known under the device's name. */
  lemma LoginRegistersDevice(c: Config, s: Auth, call: Call, d: Id)
    requires AuthInv(c, s) && Legal(s, call) && call.Login? && d in Named(s, call)
    ensures var s' := Apply(c, s, call);
      && Matches(s', call.u, call.deviceId, d)
      && (call.insertOk ==> RowOf(s', call.h, d) && s'.refresh[call.h].user == call.u)
      && (call.insertOk ==> s'.refresh[call.h].clientKey == call.freshKey)
  {
    CleanedUpFrame(s, call.u, call.cleanup);
    SessionForIsActive(CleanedUp(s, call.u, call.cleanup), call.id, call.u, call.deviceId);
  }

  /** A login on a device that is logged in keeps the session and ends its earlier refresh tokens. */
  lemma LoginEndsEarlierTokens(c: Config, s: Auth, call: Call, d: Id)
    requires AuthInv(c, s) && OneActive(s) && Legal(s, call) && call.Login? && call.deviceId != "" && !call.cleanup
    requires Matches(s, call.u, call.deviceId, d)
    ensures Named(s, call) == {d}
    ensures forall h :: RowOf(s, h, d) ==> !Consumable(Apply(c, s, call), h)
    ensures Apply(c, s, call).devices == s.devices
  {
    assert Matches(s, call.u, call.deviceId, SessionFor(s, call.id, call.u, call.deviceId));
  }
}
