/**
 * Device sessions, refresh tokens, reset tokens, access tokens and the session
 * blocklist. First the single SQL and Redis statements, then the service calls
 * composed of them, then runs of both. Times are milliseconds on one clock.
 */
module Sessions {
  import opened Prelude

  type Bytes = seq<bv8>

  /** `revoked` is `revoked_at IS NOT NULL`; nothing ever looks at the instant. */
  datatype Device = Device(user: Id, deviceId: string, revoked: bool)

  datatype RefreshRow = RefreshRow(user: Id, device: Id, clientKey: Bytes, expiresAt: Time, revoked: bool)

  datatype ResetRow = ResetRow(user: Id, expiresAt: Time, used: bool)

  /** A signed access token; signatures cannot be forged, so only issued ones exist. */
  datatype Jwt = Jwt(user: Id, sid: Id, exp: Time)

  /** Refresh and reset rows are keyed by token hash; hashes of random tokens do not collide. */
  datatype Auth = Auth(
    devices: map<Id, Device>,
    refresh: map<Id, RefreshRow>,
    resets: map<Id, ResetRow>,
    blocked: map<Id, Time>,
    tokens: set<Jwt>,
    now: Time,
    rotatedFrom: map<Id, Id>,   // history: each rotated token's predecessor
    consumed: seq<Id>,          // history: refresh tokens consumed, in order
    spent: seq<Id>)             // history: reset tokens consumed, in order

  datatype Config = Config(accessTtl: Time, refreshTtl: Time)

  const RESET_TTL: Time := 3_600_000
  const KEY_BYTES: nat := 32

  // ---------- reads ----------

  predicate ActiveDevice(s: Auth, d: Id)
  {
    d in s.devices && !s.devices[d].revoked
  }

  /** The rows ConsumeRefreshSession's UPDATE matches. */
  predicate Consumable(s: Auth, h: Id)
  {
    h in s.refresh && !s.refresh[h].revoked && s.refresh[h].expiresAt > s.now && ActiveDevice(s, s.refresh[h].device)
  }

  /** The row FindRevokedSession finds. */
  predicate AlreadyRevoked(s: Auth, h: Id)
  {
    h in s.refresh && s.refresh[h].revoked
  }

  predicate ValidReset(s: Auth, h: Id)
  {
    h in s.resets && !s.resets[h].used && s.resets[h].expiresAt > s.now
  }

  predicate IsBlocked(s: Auth, d: Id)
  {
    d in s.blocked && s.now < s.blocked[d]
  }

  /** AuthMiddleware's decision on a presented token, with the blocklist reachable. */
  predicate Accepts(s: Auth, t: Jwt)
  {
    t in s.tokens && s.now < t.exp && (t.sid != NIL ==> !IsBlocked(s, t.sid))
  }

  // ---------- statements ----------

  /** The active session the partial unique index finds for a named device. */
  predicate Matches(s: Auth, u: Id, deviceId: string, d: Id)
  {
    ActiveDevice(s, d) && s.devices[d].user == u && s.devices[d].deviceId == deviceId
  }

  /** The partial unique index on device sessions: one active session per user and named device. */
  ghost predicate OneActive(s: Auth)
  {
    forall d, e, u, deviceId ::
      deviceId != "" && Matches(s, u, deviceId, d) && Matches(s, u, deviceId, e) ==> d == e
  }

  function RevokeRowsOf(refresh: map<Id, RefreshRow>, d: Id): map<Id, RefreshRow>
  {
    map h | h in refresh :: if refresh[h].device == d then refresh[h].(revoked := true) else refresh[h]
  }

  /** The id CreateDeviceSession returns: the matching active session's, else the proposed one. */
  ghost function SessionFor(s: Auth, id: Id, u: Id, deviceId: string): Id
  {
    if deviceId != "" && exists d :: Matches(s, u, deviceId, d)
    then var d :| Matches(s, u, deviceId, d); d
    else id
  }

  /** Upsert: reuse the active session of a named device and revoke its tokens, else insert a new one. */
  ghost function CreateDeviceSession(s: Auth, id: Id, u: Id, deviceId: string): Auth
  {
    if deviceId != "" && exists d :: Matches(s, u, deviceId, d)
    then s.(refresh := RevokeRowsOf(s.refresh, SessionFor(s, id, u, deviceId)))
    else s.(devices := s.devices[id := Device(u, deviceId, false)])
  }

  function CreateRefreshSession(s: Auth, h: Id, row: RefreshRow): Auth
  {
    s.(refresh := s.refresh[h := row])
  }

  function ConsumeRefreshSession(s: Auth, h: Id): Auth
  {
    if !Consumable(s, h) then s
    else s.(refresh := s.refresh[h := s.refresh[h].(revoked := true)], consumed := s.consumed + [h])
  }

  predicate Revocable(s: Auth, d: Id, u: Id)
  {
    ActiveDevice(s, d) && s.devices[d].user == u
  }

  function RevokeSession(s: Auth, d: Id, u: Id): Auth
  {
    if !Revocable(s, d, u) then s
    else s.(devices := s.devices[d := s.devices[d].(revoked := true)], refresh := RevokeRowsOf(s.refresh, d))
  }

  /** The ids RevokeOtherSessions returns. */
  function OtherSessions(s: Auth, u: Id, except: Id): set<Id>
  {
    set d | d in s.devices && Revocable(s, d, u) && d != except
  }

  function RevokeDevices(devices: map<Id, Device>, ids: set<Id>): map<Id, Device>
  {
    map d | d in devices :: if d in ids then devices[d].(revoked := true) else devices[d]
  }

  function RevokeOtherSessions(s: Auth, u: Id, except: Id): Auth
  {
    s.(devices := RevokeDevices(s.devices, OtherSessions(s, u, except)),
       refresh := map h | h in s.refresh ::
         if s.refresh[h].user == u && s.refresh[h].device != except then s.refresh[h].(revoked := true) else s.refresh[h])
  }

  predicate Orphaned(s: Auth, d: Id)
  {
    ActiveDevice(s, d) &&
    forall h :: h in s.refresh && s.refresh[h].device == d ==> s.refresh[h].revoked || s.refresh[h].expiresAt <= s.now
  }

  /** RevokeOrphanedSessions, or RevokeUserOrphanedSessions when a user is given. */
  function RevokeOrphanedSessions(s: Auth, only: Option<Id>): Auth
  {
    var ids := set d | d in s.devices && Orphaned(s, d) && (only.Some? ==> s.devices[d].user == only.value);
    s.(devices := RevokeDevices(s.devices, ids))
  }

  function Block(c: Config, s: Auth, d: Id): Auth
  {
    s.(blocked := s.blocked[d := s.now + c.accessTtl])
  }

  function BlockBatch(c: Config, s: Auth, ids: set<Id>): Auth
  {
    s.(blocked := map d | d in s.blocked.Keys + ids :: if d in ids then s.now + c.accessTtl else s.blocked[d])
  }

  /** The access token signed at this instant. Its expiry has second precision, rounded down. */
  function Signed(c: Config, now: Time, u: Id, d: Id): Jwt
  {
    var exp := now + c.accessTtl;
    Jwt(u, d, exp - exp % 1000)
  }

  function IssueAccess(c: Config, s: Auth, u: Id, d: Id): Auth
  {
    s.(tokens := s.tokens + {Signed(c, s.now, u, d)})
  }

  function CreateResetToken(s: Auth, u: Id, h: Id): Auth
  {
    s.(resets := s.resets[h := ResetRow(u, s.now + RESET_TTL, false)])
  }

  function InvalidateUserTokens(s: Auth, u: Id): Auth
  {
    s.(resets := map h | h in s.resets :: if s.resets[h].user == u then s.resets[h].(used := true) else s.resets[h])
  }

  function ConsumeResetToken(s: Auth, h: Id): Auth
  {
    if !ValidReset(s, h) then s
    else s.(resets := s.resets[h := s.resets[h].(used := true)], spent := s.spent + [h])
  }

  // ---------- service calls ----------

  /** issueTokenPairForDevice: an access token and a refresh row; an empty key is replaced by a fresh one. */
  function IssuePair(c: Config, s: Auth, u: Id, d: Id, key: Bytes, freshKey: Bytes, h: Id): Auth
  {
    var clientKey := if |key| == 0 then freshKey else key;
    CreateRefreshSession(IssueAccess(c, s, u, d), h, RefreshRow(u, d, clientKey, s.now + c.refreshTtl, false))
  }

  datatype Call =
    | Tick(elapsed: nat)
    | Login(id: Id, u: Id, deviceId: string, h: Id, freshKey: Bytes, cleanup: bool, insertOk: bool)
    | Refresh(h: Id, h': Id, freshKey: Bytes, insertOk: bool, blockOk: bool)
    | Logout(h: Id)
    | RevokeDevice(d: Id, u: Id, blockOk: bool)
    | RevokeOthers(u: Id, current: Id, blockOk: bool)
    | RequestReset(u: Id, h: Id)
    | ResetPassword(h: Id, updateOk: bool, blockOk: bool)
    | CleanOrphaned

  function RevokeAndBlock(c: Config, s: Auth, d: Id, u: Id, blockOk: bool): Auth
  {
    var s' := RevokeSession(s, d, u);
    if Revocable(s, d, u) && blockOk then Block(c, s', d) else s'
  }

  function RevokeOthersAndBlock(c: Config, s: Auth, u: Id, except: Id, blockOk: bool): Auth
  {
    var s' := RevokeOtherSessions(s, u, except);
    if blockOk then BlockBatch(c, s', OtherSessions(s, u, except)) else s'
  }

  ghost function Apply(c: Config, s: Auth, call: Call): Auth
  {
    match call
    case Tick(elapsed) => s.(now := s.now + elapsed)
    case Login(id, u, deviceId, h, freshKey, cleanup, insertOk) =>
      var s1 := if cleanup then RevokeOrphanedSessions(s, Some(u)) else s;
      var s2 := CreateDeviceSession(s1, id, u, deviceId);
      if insertOk then IssuePair(c, s2, u, SessionFor(s1, id, u, deviceId), [], freshKey, h) else s2
    case Refresh(h, h', freshKey, insertOk, blockOk) =>
      if Consumable(s, h) then
        var row := s.refresh[h];
        var s1 := ConsumeRefreshSession(s, h);
        if insertOk then
          IssuePair(c, s1, row.user, row.device, row.clientKey, freshKey, h').(rotatedFrom := s.rotatedFrom[h' := h])
        else s1
      else if AlreadyRevoked(s, h) then RevokeAndBlock(c, s, s.refresh[h].device, s.refresh[h].user, blockOk)
      else s
    case Logout(h) =>
      if Consumable(s, h) then RevokeSession(ConsumeRefreshSession(s, h), s.refresh[h].device, s.refresh[h].user) else s
    case RevokeDevice(d, u, blockOk) => RevokeAndBlock(c, s, d, u, blockOk)
    case RevokeOthers(u, current, blockOk) => RevokeOthersAndBlock(c, s, u, current, blockOk)
    case RequestReset(u, h) => CreateResetToken(InvalidateUserTokens(s, u), u, h)
    case ResetPassword(h, updateOk, blockOk) =>
      if !ValidReset(s, h) then s
      else
        var s1 := ConsumeResetToken(s, h);
        if updateOk then RevokeOthersAndBlock(c, s1, s.resets[h].user, NIL, blockOk) else s1
    case CleanOrphaned => RevokeOrphanedSessions(s, None)
  }

  const NoSessions: Auth := Auth(map[], map[], map[], map[], {}, 0, map[], [], [])

  /** UUIDs, token hashes and client keys are fresh random values; user ids are not nil. */
  ghost predicate Legal(s: Auth, call: Call)
  {
    match call
    case Login(id, u, _, h, freshKey, _, _) =>
      id != NIL && u != NIL && id !in s.devices && h !in s.refresh && |freshKey| == KEY_BYTES
    case Refresh(_, h', freshKey, _, _) => h' !in s.refresh && |freshKey| == KEY_BYTES
    case RequestReset(_, h) => h !in s.resets
    case _ => true
  }

  ghost function Run(c: Config, s: Auth, calls: seq<Call>): Auth
    decreases calls
  {
    if calls == [] then s else Run(c, Apply(c, s, calls[0]), calls[1..])
  }

  ghost predicate LegalRun(c: Config, s: Auth, calls: seq<Call>)
    decreases calls
  {
    calls == [] || (Legal(s, calls[0]) && LegalRun(c, Apply(c, s, calls[0]), calls[1..]))
  }
}
