/**
 * Logging in, from LoginInit to the token pair: the user table, the one-shot
 * store of half-finished logins and the session stores, changed by any number of
 * clients. The store counts nanoseconds, the session stores milliseconds.
 */
module LoginFlow {
  import opened Prelude
  import opened Codec
  import opened ModArith
  import opened Srp
  import Store = SrpStore
  import Sessions
  import SessionRuns
  import SessionFrames

  /** What a password reset replaces. */
  datatype Credentials = Credentials(srpSaltHex: string, verifierHex: string,
                                     cryptoSalt: seq<Byte>, bcryptSalt: string, master: seq<Byte>)

  datatype User = User(id: Id, cred: Credentials, privateKey: seq<Byte>)

  /** `normal` trims and lower-cases an address; `utf8` gives its bytes. */
  datatype Env = Env(G: Group, c: Sessions.Config, normal: string -> string, utf8: string -> seq<Byte>)

  datatype State = State(users: map<string, User>, logins: Store.Logins, auth: Sessions.Auth)

  const SRP_SESSION_TTL: nat := 300_000_000_000

  datatype Step =
    | Wait(ns: nat)
    | Register(email: string, user: User)     // CreateUser; the login that follows is an `Other`
    | Reset(h: Id, cred: Credentials, updateOk: bool, blockOk: bool)
    | Init(email: string, aHex: string, random: seq<Byte>, sid: Id)
    | Finalize(sid: Id, m1Hex: string, id: Id, deviceId: string, h: Id, freshKey: Sessions.Bytes, cleanup: bool, insertOk: bool)
    | Other(call: Sessions.Call)

  /** What LoginInit stores: None for an unknown address or a verifier that is no hex. */
  function NewEntry(E: Env, s: State, email: string, aHex: string, random: seq<Byte>): Option<Store.Entry>
    requires E.G.N > 0
  {
    var address := E.normal(email);
    if address !in s.users then None
    else
      var user := s.users[address];
      var session := NewServerSession(E.G, user.cred.verifierHex, random);
      if session.Err? then None
      else Some(Store.Entry(user.id, address, user.cred.srpSaltHex, aHex, session.value, user.cred.cryptoSalt,
                            user.cred.bcryptSalt, user.privateKey, user.cred.master, s.logins.now + SRP_SESSION_TTL))
  }

  /** The M2 LoginFinalize would answer with, if it accepts the proof. */
  ghost function Answer(E: Env, s: State, sid: Id, m1Hex: string): Option<string>
    requires GroupOk(E.G)
  {
    var taken := Store.Taken(s.logins, sid);
    if taken.None? then None
    else
      var e := taken.value;
      var answer := VerifyClientProof(E.G, e.session, e.aHex, m1Hex, E.utf8(e.email), e.srpSaltHex);
      if answer.Ok? then Some(answer.value) else None
  }

  /** UPDATE users ... WHERE id: the new credentials of one user. */
  function WithCredentials(users: map<string, User>, u: Id, cred: Credentials): map<string, User>
  {
    map email | email in users :: if users[email].id == u then users[email].(cred := cred) else users[email]
  }

  /** The reset consumes a valid token of user `u` and stores the new credentials. */
  predicate ResetsUser(s: State, step: Step, u: Id)
  {
    step.Reset? && step.updateOk && Sessions.ValidReset(s.auth, step.h) && s.auth.resets[step.h].user == u
  }

  ghost function Next(E: Env, s: State, step: Step): State
    requires GroupOk(E.G)
  {
    match step
    case Wait(ns) =>
      var now := s.logins.now + ns;
      s.(logins := s.logins.(now := now), auth := s.auth.(now := now / Store.MS))
    case Register(email, user) =>
      if E.normal(email) in s.users then s else s.(users := s.users[E.normal(email) := user])
    case Reset(h, cred, updateOk, blockOk) =>
      var s' := s.(auth := Sessions.Apply(E.c, s.auth, Sessions.ResetPassword(h, updateOk, blockOk)));
      if updateOk && Sessions.ValidReset(s.auth, h)
      then s'.(users := WithCredentials(s.users, s.auth.resets[h].user, cred)) else s'
    case Init(email, aHex, random, sid) =>
      var e := NewEntry(E, s, email, aHex, random);
      if e.None? then s else s.(logins := Store.Put(E.G, s.logins, sid, e.value))
    case Finalize(sid, m1Hex, id, deviceId, h, freshKey, cleanup, insertOk) =>
      var s' := s.(logins := Store.Take(s.logins, sid));
      if Answer(E, s, sid, m1Hex).None? then s'
      else
        var u := Store.Taken(s.logins, sid).value.user;
        s'.(auth := Sessions.Apply(E.c, s.auth, Sessions.Login(id, u, deviceId, h, freshKey, cleanup, insertOk)))
    case Other(call) => s.(auth := Sessions.Apply(E.c, s.auth, call))
  }

  /** UUIDs, token hashes and keys are fresh; user ids are not nil. */
  ghost predicate Possible(s: State, step: Step)
  {
    match step
    case Register(_, user) => user.id != NIL && forall email :: email in s.users ==> s.users[email].id != user.id
    case Init(_, _, _, sid) => sid !in s.logins.stored
    case Finalize(_, _, id, _, h, freshKey, _, _) =>
      id != NIL && id !in s.auth.devices && h !in s.auth.refresh && |freshKey| == Sessions.KEY_BYTES
    case Other(call) => !call.Tick? && !call.ResetPassword? && Sessions.Legal(s.auth, call)
    case _ => true
  }

  ghost function Run(E: Env, s: State, steps: seq<Step>): State
    requires GroupOk(E.G)
    decreases steps
  {
    if steps == [] then s else Run(E, Next(E, s, steps[0]), steps[1..])
  }

  ghost predicate PossibleRun(E: Env, s: State, steps: seq<Step>)
    requires GroupOk(E.G)
    decreases steps
  {
    steps == [] || (Possible(s, steps[0]) && PossibleRun(E, Next(E, s, steps[0]), steps[1..]))
  }

  // ---------- the invariant ----------

  /** User ids are unique and not nil, those of half-finished logins included. */
  ghost predicate UsersOk(s: State)
  {
    && (forall e, f :: e in s.users && f in s.users && s.users[e].id == s.users[f].id ==> e == f)
    && (forall email :: email in s.users ==> s.users[email].id != NIL)
    && (forall sid :: sid in s.logins.slots ==> s.logins.slots[sid].record.user != NIL)
  }

  ghost predicate FlowInv(E: Env, s: State)
  {
    && SessionRuns.AuthInv(E.c, s.auth)
    && s.auth.now == s.logins.now / Store.MS
    && UsersOk(s)
    && Store.TakenOnce(s.logins)
  }

  lemma FinalizeKeepsAuth(E: Env, s: State, step: Step)
    requires GroupOk(E.G) && FlowInv(E, s) && Possible(s, step) && step.Finalize?
    ensures SessionRuns.AuthInv(E.c, Next(E, s, step).auth) && Next(E, s, step).auth.now == s.auth.now
  {
    if Answer(E, s, step.sid, step.m1Hex).Some? {
      var u := Store.Taken(s.logins, step.sid).value.user;
      var call := Sessions.Login(step.id, u, step.deviceId, step.h, step.freshKey, step.cleanup, step.insertOk);
      SessionRuns.StepKeepsInv(E.c, s.auth, call);
      var ready, d := SessionRuns.LoginPrepares(E.c, s.auth, call);
    }
  }

  lemma OtherKeepsClock(c: Sessions.Config, s: Sessions.Auth, call: Sessions.Call)
    requires !call.Tick? && Sessions.Legal(s, call)
    ensures Sessions.Apply(c, s, call).now == s.now
  {
    if call.Login? {
      var ready, d := SessionRuns.LoginPrepares(c, s, call);
    }
  }

  lemma WaitKeepsAuth(c: Sessions.Config, s: Sessions.Auth, later: Time)
    requires SessionRuns.AuthInv(c, s) && s.now <= later
    ensures SessionRuns.AuthInv(c, s.(now := later))
  {
  }

  lemma StepKeepsLogins(E: Env, s: State, step: Step)
    requires GroupOk(E.G) && Store.TakenOnce(s.logins) && UsersOk(s) && Possible(s, step)
    ensures Store.TakenOnce(Next(E, s, step).logins) && UsersOk(Next(E, s, step))
  {
    StepKeepsUsers(E, s, step);
  }

  lemma StepKeepsUsers(E: Env, s: State, step: Step)
    requires GroupOk(E.G) && UsersOk(s) && Possible(s, step)
    ensures UsersOk(Next(E, s, step))
  {
  }

  lemma StepKeepsInv(E: Env, s: State, step: Step)
    requires GroupOk(E.G) && FlowInv(E, s) && Possible(s, step)
    ensures FlowInv(E, Next(E, s, step))
  {
    StepKeepsLogins(E, s, step);
    match step
    case Wait(ns) =>
      WaitKeepsAuth(E.c, s.auth, (s.logins.now + ns) / Store.MS);
    case Finalize(_, _, _, _, _, _, _, _) => FinalizeKeepsAuth(E, s, step);
    case Reset(h, _, updateOk, blockOk) =>
      SessionRuns.StepKeepsInv(E.c, s.auth, Sessions.ResetPassword(h, updateOk, blockOk));
      OtherKeepsClock(E.c, s.auth, Sessions.ResetPassword(h, updateOk, blockOk));
    case Other(call) =>
      SessionRuns.StepKeepsInv(E.c, s.auth, call);
      OtherKeepsClock(E.c, s.auth, call);
    case _ =>
  }

  lemma {:induction false} RunKeepsInv(E: Env, s: State, steps: seq<Step>)
    requires GroupOk(E.G) && FlowInv(E, s) && PossibleRun(E, s, steps)
    ensures FlowInv(E, Run(E, s, steps))
    decreases steps
  {
    if steps != [] {
      StepKeepsInv(E, s, steps[0]);
      RunKeepsInv(E, Next(E, s, steps[0]), steps[1..]);
    }
  }

  const Fresh: State := State(map[], Store.Logins(map[], 0, {}, []), Sessions.NoSessions)

  lemma ReachableStatesAreGood(E: Env, steps: seq<Step>)
    requires GroupOk(E.G) && PossibleRun(E, Fresh, steps)
    ensures FlowInv(E, Run(E, Fresh, steps))
  {
    RunKeepsInv(E, Fresh, steps);
  }

  // ---------- one session id, one answer ----------

  /** The id was used and its record is gone. */
  predicate Used(s: State, sid: Id)
  {
    sid in s.logins.stored && sid !in s.logins.slots
  }

  lemma StepKeepsUsed(E: Env, s: State, step: Step, sid: Id)
    requires GroupOk(E.G) && Used(s, sid) && Possible(s, step)
    ensures Used(Next(E, s, step), sid)
  {
  }

  lemma UsedHasNoAnswer(E: Env, s: State, sid: Id, m1Hex: string)
    requires GroupOk(E.G) && Used(s, sid)
    ensures Answer(E, s, sid, m1Hex).None?
  {
  }

  /** A session id that was presented once, with whatever proof, never gets an answer again. */
  lemma {:induction false} UsedIdNeverAnswers(E: Env, s: State, steps: seq<Step>, sid: Id, m1Hex: string)
    requires GroupOk(E.G) && Used(s, sid) && PossibleRun(E, s, steps)
    ensures Answer(E, Run(E, s, steps), sid, m1Hex).None?
    decreases steps
  {
    if steps == [] {
      UsedHasNoAnswer(E, s, sid, m1Hex);
    } else {
      StepKeepsUsed(E, s, steps[0], sid);
      UsedIdNeverAnswers(E, Next(E, s, steps[0]), steps[1..], sid, m1Hex);
    }
  }

  /** Nobody who does not present the session id can touch a half-finished login. */
  lemma {:induction false} SlotStays(E: Env, s: State, steps: seq<Step>, sid: Id)
    requires GroupOk(E.G) && Store.TakenOnce(s.logins) && UsersOk(s) && PossibleRun(E, s, steps) && sid in s.logins.slots
    requires forall i :: 0 <= i < |steps| ==> !(steps[i].Finalize? && steps[i].sid == sid)
    ensures sid in Run(E, s, steps).logins.slots && Run(E, s, steps).logins.slots[sid] == s.logins.slots[sid]
    ensures Run(E, s, steps).logins.now >= s.logins.now
    decreases steps
  {
    if steps != [] {
      assert sid in s.logins.stored;
      StepKeepsLogins(E, s, steps[0]);
      SlotStays(E, Next(E, s, steps[0]), steps[1..], sid);
    }
  }

  // ---------- only the proof opens a session ----------

  /** The proof the stored login asks for. */
  ghost function WantedM1(E: Env, e: Store.Entry, A: nat, salt: seq<Byte>): seq<Byte>
    requires GroupOk(E.G)
  {
    ClientM1(E.G, A, e.session.B, KeyOf(E.G, SessionSecret(E.G, e.session, A)), E.utf8(e.email), salt)
  }

  /**
   * LoginFinalize changes the session stores only for a held login and the one
   * proof its session key gives, and never for an A that is a multiple of N.
   */
  lemma OnlyTheProofLogsIn(E: Env, s: State, step: Step)
    requires GroupOk(E.G) && step.Finalize?
    ensures Next(E, s, step).auth != s.auth ==>
      && Store.Taken(s.logins, step.sid).Some?
      && var e := Store.Taken(s.logins, step.sid).value;
         && HexDecode(e.aHex).Some? && HexDecode(e.srpSaltHex).Some?
         && var A := NatOf(HexDecode(e.aHex).value);
            && A % E.G.N != 0
            && HexDecode(step.m1Hex) == Some(WantedM1(E, e, A, HexDecode(e.srpSaltHex).value))
  {
    if Store.Taken(s.logins, step.sid).Some? {
      var e := Store.Taken(s.logins, step.sid).value;
      OnlyTheProofIsAccepted(E.G, e.session, e.aHex, step.m1Hex, E.utf8(e.email), e.srpSaltHex);
    }
  }

  /** A login whose refresh row cannot be inserted hands out no token. */
  lemma FinalizeWithoutRow(E: Env, s: State, step: Step)
    requires GroupOk(E.G) && FlowInv(E, s) && step.Finalize? && Possible(s, step) && !step.insertOk
    ensures Next(E, s, step).auth.tokens == s.auth.tokens && Next(E, s, step).auth.refresh.Keys == s.auth.refresh.Keys
  {
    if Answer(E, s, step.sid, step.m1Hex).Some? {
      var u := Store.Taken(s.logins, step.sid).value.user;
      var call := Sessions.Login(step.id, u, step.deviceId, step.h, step.freshKey, step.cleanup, false);
      SessionFrames.FailedCalls(E.c, s.auth, call);
    }
  }

  /** So whoever does not know the session's secret is not let in, unless the hash collides. */
  lemma WrongSecretNotLetIn(E: Env, s: State, step: Step, S: nat, salt: seq<Byte>)
    requires GroupOk(E.G) && step.Finalize? && Store.Taken(s.logins, step.sid).Some?
    requires var e := Store.Taken(s.logins, step.sid).value;
      && e.session.B < E.G.N && e.srpSaltHex == HexEncode(salt)
      && HexDecode(e.aHex).Some? && NatOf(HexDecode(e.aHex).value) % E.G.N != 0
      && var A := NatOf(HexDecode(e.aHex).value);
         var due, name, w := SessionSecret(E.G, e.session, A), E.utf8(e.email), Width(E.G.N);
         && step.m1Hex == HexEncode(ClientM1(E.G, A, e.session.B, KeyOf(E.G, S), name, salt))
         && S != due && NoCollision(E.G, Padded(S, w), Padded(due, w))
         && NoCollision(E.G, ProofMessage(E.G, A, e.session.B, KeyOf(E.G, S), name, salt),
                        ProofMessage(E.G, A, e.session.B, KeyOf(E.G, due), name, salt))
    ensures Answer(E, s, step.sid, step.m1Hex).None? && Next(E, s, step).auth == s.auth
  {
    var e := Store.Taken(s.logins, step.sid).value;
    WrongSecretRefused(E.G, e.session, e.aHex, S, E.utf8(e.email), salt);
  }

  // ---------- an honest login ----------

  /**
   * A client that knows its password key x and has chosen the ephemeral a. In its
   * proof it must use the trimmed, lower-cased address as its identity, as the
   * server does.
   */
  datatype Client = Client(email: string, x: nat, a: nat, salt: seq<Byte>)

  function PublicA(E: Env, cl: Client): nat
    requires E.G.N > 0
  {
    Pow(2, cl.a) % E.G.N
  }

  /** LoginInit as the client sends it; the server draws `random` and `sid`. */
  function InitOf(E: Env, cl: Client, random: seq<Byte>, sid: Id): Step
    requires E.G.N > 0
  {
    Init(cl.email, HexEncode(Padded(PublicA(E, cl), Width(E.G.N))), random, sid)
  }

  /** The B the server answers with: (k·v + g^b) mod N. */
  function ServerB(E: Env, cl: Client, random: seq<Byte>): nat
    requires E.G.N > 0
  {
    DueB(E.G, Pow(2, cl.x) % E.G.N, NatOf(random))
  }

  ghost function SharedKey(E: Env, cl: Client, random: seq<Byte>): seq<Byte>
    requires E.G.N > 0
  {
    ClientKey(E.G, PublicA(E, cl), ServerB(E, cl, random), cl.a, cl.x)
  }

  /** The proof the client computes from what it knows. */
  ghost function ProofOf(E: Env, cl: Client, random: seq<Byte>): seq<Byte>
    requires GroupOk(E.G)
  {
    ClientM1(E.G, PublicA(E, cl), ServerB(E, cl, random), SharedKey(E, cl, random), E.utf8(E.normal(cl.email)), cl.salt)
  }

  ghost function ExpectedM2(E: Env, cl: Client, random: seq<Byte>): seq<Byte>
    requires GroupOk(E.G)
  {
    ClientM2(E.G, PublicA(E, cl), ProofOf(E, cl, random), SharedKey(E, cl, random))
  }

  /** The client's account: verifier g^x and its salt, as hex. */
  ghost predicate HasAccount(E: Env, s: State, cl: Client)
    requires GroupOk(E.G)
  {
    && E.normal(cl.email) in s.users
    && var user := s.users[E.normal(cl.email)];
       && user.cred.verifierHex == HexEncode(BytesOf(Pow(2, cl.x) % E.G.N))
       && user.cred.srpSaltHex == HexEncode(cl.salt)
  }

  lemma HonestSession(E: Env, s: State, cl: Client, random: seq<Byte>)
    requires GroupOk(E.G) && HasAccount(E, s, cl)
    ensures NewServerSession(E.G, s.users[E.normal(cl.email)].cred.verifierHex, random) ==
              Ok(ServerSession(Pow(2, cl.x) % E.G.N, NatOf(random), ServerB(E, cl, random)))
  {
    var verifierHex := s.users[E.normal(cl.email)].cred.verifierHex;
    SessionMade(E.G, verifierHex, random);
    HexRoundTrip(BytesOf(Pow(2, cl.x) % E.G.N));
    NatOfBytes(Pow(2, cl.x) % E.G.N);
  }

  /** The login is for this account, and carries the key material LoginFinalize returns. */
  predicate Carries(e: Store.Entry, user: User)
  {
    e.user == user.id && e.cryptoSalt == user.cred.cryptoSalt && e.bcryptSalt == user.cred.bcryptSalt &&
    e.privateKey == user.privateKey && e.master == user.cred.master
  }

  /** LoginInit stores a login that the client's proof will satisfy. */
  lemma HonestInitStores(E: Env, s: State, cl: Client, random: seq<Byte>, sid: Id) returns (e: Store.Entry)
    requires GroupOk(E.G) && HasAccount(E, s, cl)
    ensures Next(E, s, InitOf(E, cl, random, sid)) == s.(logins := Store.Put(E.G, s.logins, sid, e))
    ensures Carries(e, s.users[E.normal(cl.email)]) && e.expiresAt == s.logins.now + 300_000_000_000
    ensures VerifyClientProof(E.G, e.session, e.aHex, HexEncode(ProofOf(E, cl, random)), E.utf8(e.email), e.srpSaltHex) ==
              Ok(HexEncode(ExpectedM2(E, cl, random)))
  {
    HonestSession(E, s, cl, random);
    e := NewEntry(E, s, cl.email, HexEncode(Padded(PublicA(E, cl), Width(E.G.N))), random).value;
    HonestHandshakeAccepted(E.G, cl.x, cl.a, random, E.utf8(E.normal(cl.email)), cl.salt);
  }

  /** As long as it is held, a stored login comes back and answers as it would have at once. */
  lemma HeldLoginComesBack(E: Env, s: Store.Logins, sid: Id, e: Store.Entry, later: State)
    requires GroupOk(E.G) && Store.CanPut(s, e) && s.now <= later.logins.now && later.logins.now + Store.MS <= e.expiresAt
    requires sid in later.logins.slots && later.logins.slots[sid] == Store.Put(E.G, s, sid, e).slots[sid]
    ensures Store.Taken(later.logins, sid) == Some(e.(expiresAt := e.expiresAt / Store.MS * Store.MS))
  {
    Store.StoreThenConsume(E.G, s, sid, e, later.logins.now);
    assert Store.Taken(later.logins, sid) == Store.Taken(Store.Put(E.G, s, sid, e).(now := later.logins.now), sid);
  }

  /** A login that is not finalized within five minutes and a millisecond gets no answer any more. */
  lemma UnfinishedLoginExpires(E: Env, s: State, step: Step, later: State, m1Hex: string)
    requires GroupOk(E.G) && step.Init? && Possible(s, step) && Store.TakenOnce(s.logins)
    requires var slots := Next(E, s, step).logins.slots;
      step.sid in later.logins.slots ==> step.sid in slots && later.logins.slots[step.sid] == slots[step.sid]
    requires later.logins.now > s.logins.now + 300_000_000_000 + 1_000_000
    ensures Answer(E, later, step.sid, m1Hex).None?
  {
    var e := NewEntry(E, s, step.email, step.aHex, step.random);
    if e.Some? {
      Store.StoreThenConsume(E.G, s.logins, step.sid, e.value, later.logins.now);
      var put := Store.Put(E.G, s.logins, step.sid, e.value).(now := later.logins.now);
      assert step.sid in later.logins.slots ==> Store.Taken(later.logins, step.sid) == Store.Taken(put, step.sid);
    }
  }

  /** Other clients at work between LoginInit and LoginFinalize, who do not present the session id, for under five minutes. */
  ghost predicate Meanwhile(E: Env, s: State, steps: seq<Step>, sid: Id, deadline: Time)
    requires GroupOk(E.G)
  {
    && PossibleRun(E, s, steps)
    && (forall i :: 0 <= i < |steps| ==> !(steps[i].Finalize? && steps[i].sid == sid))
    && Run(E, s, steps).logins.now + Store.MS <= deadline
  }

  lemma HonestProofAnswered(E: Env, s: State, cl: Client, random: seq<Byte>, sid: Id, steps: seq<Step>)
    requires GroupOk(E.G) && FlowInv(E, s) && HasAccount(E, s, cl) && sid !in s.logins.stored
    requires Meanwhile(E, Next(E, s, InitOf(E, cl, random, sid)), steps, sid, s.logins.now + 300_000_000_000)
    ensures var s2 := Run(E, Next(E, s, InitOf(E, cl, random, sid)), steps);
      && FlowInv(E, s2)
      && Answer(E, s2, sid, HexEncode(ProofOf(E, cl, random))) == Some(HexEncode(ExpectedM2(E, cl, random)))
      && Carries(Store.Taken(s2.logins, sid).value, s.users[E.normal(cl.email)])
  {
    var e := HonestInitStores(E, s, cl, random, sid);
    StepKeepsInv(E, s, InitOf(E, cl, random, sid));
    var s1 := s.(logins := Store.Put(E.G, s.logins, sid, e));
    SlotStays(E, s1, steps, sid);
    RunKeepsInv(E, s1, steps);
    HeldLoginComesBack(E, s.logins, sid, e, Run(E, s1, steps));
  }

  /**
   * An honest client logs in, whatever all other clients do meanwhile, up to a
   * millisecond before five minutes are over: it gets the M2 it expects and a
   * pair of tokens for its own account that work until they expire, and its
   * session id never gets a second answer.
   */
  lemma HonestLogin(E: Env, s: State, cl: Client, random: seq<Byte>, sid: Id, steps: seq<Step>, fin: Step)
    requires GroupOk(E.G) && FlowInv(E, s) && HasAccount(E, s, cl) && sid !in s.logins.stored
    requires Meanwhile(E, Next(E, s, InitOf(E, cl, random, sid)), steps, sid, s.logins.now + 300_000_000_000)
    requires fin.Finalize? && fin.sid == sid && fin.m1Hex == HexEncode(ProofOf(E, cl, random)) && fin.insertOk
    requires Possible(Run(E, Next(E, s, InitOf(E, cl, random, sid)), steps), fin)
    ensures var s2 := Run(E, Next(E, s, InitOf(E, cl, random, sid)), steps);
      var s3 := Next(E, s2, fin);
      && Answer(E, s2, sid, fin.m1Hex) == Some(HexEncode(ExpectedM2(E, cl, random)))
      && Carries(Store.Taken(s2.logins, sid).value, s.users[E.normal(cl.email)])
      && fin.h in s3.auth.refresh && s3.auth.refresh[fin.h].user == s.users[E.normal(cl.email)].id
      && (forall wait: nat ::
            SessionRuns.PairWorks(E.c, s2.auth.now, Sessions.Apply(E.c, s3.auth, Sessions.Tick(wait)), fin.h))
      && (forall m1Hex, more :: PossibleRun(E, s3, more) ==> Answer(E, Run(E, s3, more), sid, m1Hex).None?)
  {
    HonestProofAnswered(E, s, cl, random, sid, steps);
    var s2 := Run(E, Next(E, s, InitOf(E, cl, random, sid)), steps);
    FinalizedPairWorks(E, s2, fin);
    forall m1Hex, more | PossibleRun(E, Next(E, s2, fin), more)
      ensures Answer(E, Run(E, Next(E, s2, fin), more), sid, m1Hex).None?
    {
      UsedIdNeverAnswers(E, Next(E, s2, fin), more, sid, m1Hex);
    }
  }

  /** With nobody else at work and no time lost, any account and any fresh ids will do. */
  lemma HonestLoginAtOnce(E: Env, s: State, cl: Client, random: seq<Byte>, sid: Id, id: Id, h: Id, freshKey: Sessions.Bytes)
    requires GroupOk(E.G) && FlowInv(E, s) && HasAccount(E, s, cl) && sid !in s.logins.stored
    requires id != NIL && id !in s.auth.devices && h !in s.auth.refresh && |freshKey| == Sessions.KEY_BYTES
    ensures var s1 := Next(E, s, InitOf(E, cl, random, sid));
      var fin := Finalize(sid, HexEncode(ProofOf(E, cl, random)), id, "", h, freshKey, true, true);
      && Meanwhile(E, s1, [], sid, s.logins.now + 300_000_000_000) && Possible(s1, fin)
      && h in Next(E, s1, fin).auth.refresh && Next(E, s1, fin).auth.refresh[h].user == s.users[E.normal(cl.email)].id
  {
    var e := HonestInitStores(E, s, cl, random, sid);
    var fin := Finalize(sid, HexEncode(ProofOf(E, cl, random)), id, "", h, freshKey, true, true);
    HonestLogin(E, s, cl, random, sid, [], fin);
  }

  lemma FinalizedPairWorks(E: Env, s: State, fin: Step)
    requires GroupOk(E.G) && FlowInv(E, s) && Possible(s, fin) && fin.Finalize? && fin.insertOk
    requires Answer(E, s, fin.sid, fin.m1Hex).Some?
    ensures var s' := Next(E, s, fin);
      && fin.h in s'.auth.refresh && s'.auth.refresh[fin.h].user == Store.Taken(s.logins, fin.sid).value.user
      && (forall wait: nat ::
            SessionRuns.PairWorks(E.c, s.auth.now, Sessions.Apply(E.c, s'.auth, Sessions.Tick(wait)), fin.h))
      && Used(s', fin.sid)
  {
    var u := Store.Taken(s.logins, fin.sid).value.user;
    var call := Sessions.Login(fin.id, u, fin.deviceId, fin.h, fin.freshKey, fin.cleanup, fin.insertOk);
    var ready, d := SessionRuns.LoginPrepares(E.c, s.auth, call);
    forall wait: nat
      ensures SessionRuns.PairWorks(E.c, s.auth.now, Sessions.Apply(E.c, Next(E, s, fin).auth, Sessions.Tick(wait)), fin.h)
    {
      SessionRuns.LoginPairWorks(E.c, s.auth, call, wait);
    }
  }

  // ---------- password resets and half-finished logins ----------

  /** The login will be checked against these credentials. */
  predicate Under(record: Store.Record, cred: Credentials)
  {
    var session, verifier := FromSnapshot(record.snapshot), HexDecode(cred.verifierHex);
    && session.Ok? && verifier.Some? && session.value.verifier == NatOf(verifier.value)
    && record.srpSaltHex == cred.srpSaltHex
  }

  predicate DifferentVerifiers(a: Credentials, b: Credentials)
  {
    var v, w := HexDecode(a.verifierHex), HexDecode(b.verifierHex);
    v.Some? && w.Some? && NatOf(v.value) != NatOf(w.value)
  }

  lemma InitStoresUnder(E: Env, s: State, step: Step)
    requires GroupOk(E.G) && step.Init? && Possible(s, step) && Next(E, s, step) != s
    ensures E.normal(step.email) in s.users
    ensures var user, slots := s.users[E.normal(step.email)], Next(E, s, step).logins.slots;
      step.sid in slots && slots[step.sid].record.user == user.id && Under(slots[step.sid].record, user.cred)
  {
    var e := NewEntry(E, s, step.email, step.aHex, step.random).value;
    SnapshotRoundTrip(E.G, e.session);
  }

  /** Only a reset with a valid token whose update succeeds changes credentials, and only those of the token's user. */
  lemma CredentialsChangeOnlyByReset(E: Env, s: State, step: Step, address: string)
    requires GroupOk(E.G) && UsersOk(s) && Possible(s, step) && address in s.users
    ensures address in Next(E, s, step).users && Next(E, s, step).users[address].id == s.users[address].id
    ensures Next(E, s, step).users[address].cred ==
              if ResetsUser(s, step, s.users[address].id) then step.cred else s.users[address].cred
  {
  }

  ghost predicate NeverResets(E: Env, s: State, steps: seq<Step>, u: Id)
    requires GroupOk(E.G)
    decreases steps
  {
    steps == [] || (!ResetsUser(s, steps[0], u) && NeverResets(E, Next(E, s, steps[0]), steps[1..], u))
  }

  /**
   * Seen from state `earlier`: the account has these credentials, older logins are
   * as they were, and newer ones of the account are under these credentials.
   */
  ghost predicate SplitAt(earlier: State, s: State, address: string, cred: Credentials)
  {
    && address in s.users && s.users[address].cred == cred
    && (forall sid :: sid in earlier.logins.stored ==> sid in s.logins.stored)
    && (forall sid :: sid in s.logins.slots && sid in earlier.logins.stored ==>
          sid in earlier.logins.slots && s.logins.slots[sid] == earlier.logins.slots[sid])
    && (forall sid :: (sid in s.logins.slots && sid !in earlier.logins.stored &&
                       s.logins.slots[sid].record.user == s.users[address].id) ==>
          Under(s.logins.slots[sid].record, cred))
  }

  lemma StepKeepsSplit(E: Env, earlier: State, s: State, step: Step, address: string, cred: Credentials)
    requires GroupOk(E.G) && UsersOk(s) && Possible(s, step) && SplitAt(earlier, s, address, cred)
    requires !ResetsUser(s, step, s.users[address].id)
    ensures SplitAt(earlier, Next(E, s, step), address, cred)
    ensures Next(E, s, step).users[address].id == s.users[address].id
  {
    if step.Init? && Next(E, s, step) != s {
      InitStoresUnder(E, s, step);
    }
  }

  lemma {:induction false} RunKeepsSplit(E: Env, earlier: State, s: State, steps: seq<Step>, address: string, cred: Credentials)
    requires GroupOk(E.G) && UsersOk(s) && PossibleRun(E, s, steps) && SplitAt(earlier, s, address, cred)
    requires NeverResets(E, s, steps, s.users[address].id)
    ensures SplitAt(earlier, Run(E, s, steps), address, cred)
    ensures Run(E, s, steps).users[address].id == s.users[address].id
    decreases steps
  {
    if steps != [] {
      StepKeepsUsers(E, s, steps[0]);
      StepKeepsSplit(E, earlier, s, steps[0], address, cred);
      RunKeepsSplit(E, earlier, Next(E, s, steps[0]), steps[1..], address, cred);
    }
  }

  /**
   * A reset does not end half-finished logins. Until the next reset of the
   * account, a login that is still held is checked against the old password if
   * and only if it was stored before the reset; later ones against the new.
   */
  lemma OldPasswordIffStoredBefore(E: Env, s: State, reset: Step, steps: seq<Step>, address: string, sid: Id)
    requires GroupOk(E.G) && FlowInv(E, s) && address in s.users && ResetsUser(s, reset, s.users[address].id)
    requires PossibleRun(E, Next(E, s, reset), steps) && NeverResets(E, Next(E, s, reset), steps, s.users[address].id)
    ensures var t := Run(E, Next(E, s, reset), steps);
      var before, id := s.users[address].cred, s.users[address].id;
      sid in t.logins.slots && t.logins.slots[sid].record.user == id ==>
        && (sid !in s.logins.stored ==> Under(t.logins.slots[sid].record, reset.cred))
        && (sid in s.logins.stored ==> sid in s.logins.slots && t.logins.slots[sid] == s.logins.slots[sid])
        && ((sid in s.logins.slots ==> Under(s.logins.slots[sid].record, before)) && DifferentVerifiers(before, reset.cred) ==>
              (Under(t.logins.slots[sid].record, before) <==> sid in s.logins.stored))
  {
    var s1 := Next(E, s, reset);
    StepKeepsInv(E, s, reset);
    assert SplitAt(s, s1, address, reset.cred) by {
      assert forall x :: x in s1.logins.slots ==> x in s.logins.stored;
    }
    RunKeepsSplit(E, s, s1, steps, address, reset.cred);
  }

  /** Asking for a reset and resetting, in one go. */
  lemma AskAndReset(E: Env, s: State, address: string, h: Id, cred: Credentials)
    requires GroupOk(E.G) && FlowInv(E, s) && address in s.users && h !in s.auth.resets
    ensures var ask, reset := Other(Sessions.RequestReset(s.users[address].id, h)), Reset(h, cred, true, true);
      var s1 := Next(E, s, ask);
      && PossibleRun(E, s, [ask, reset]) && Run(E, s, [ask, reset]) == Next(E, s1, reset)
      && ResetsUser(s1, reset, s.users[address].id)
      && address in Next(E, s1, reset).users && Next(E, s1, reset).users[address].cred == cred
      && Next(E, s1, reset).logins == s.logins
  {
    TwoSteps(E, s, Other(Sessions.RequestReset(s.users[address].id, h)), Reset(h, cred, true, true));
  }

  /**
   * So whoever holds the old password and started to log in before the reset is
   * logged in after it, whatever the new credentials.
   */
  lemma OldPasswordLogsInAfterReset(E: Env, s: State, cl: Client, random: seq<Byte>, sid: Id, h: Id, cred: Credentials, fin: Step)
    requires GroupOk(E.G) && FlowInv(E, s) && HasAccount(E, s, cl) && sid !in s.logins.stored && h !in s.auth.resets
    requires fin.Finalize? && fin.sid == sid && fin.m1Hex == HexEncode(ProofOf(E, cl, random)) && fin.insertOk
    requires var ask := Other(Sessions.RequestReset(s.users[E.normal(cl.email)].id, h));
      Possible(Run(E, Next(E, s, InitOf(E, cl, random, sid)), [ask, Reset(h, cred, true, true)]), fin)
    ensures var ask := Other(Sessions.RequestReset(s.users[E.normal(cl.email)].id, h));
      var s2 := Run(E, Next(E, s, InitOf(E, cl, random, sid)), [ask, Reset(h, cred, true, true)]);
      var s3 := Next(E, s2, fin);
      && E.normal(cl.email) in s2.users && s2.users[E.normal(cl.email)].cred == cred
      && fin.h in s3.auth.refresh && s3.auth.refresh[fin.h].user == s.users[E.normal(cl.email)].id
      && (forall wait: nat ::
            SessionRuns.PairWorks(E.c, s2.auth.now, Sessions.Apply(E.c, s3.auth, Sessions.Tick(wait)), fin.h))
  {
    var e := HonestInitStores(E, s, cl, random, sid);
    var s1 := Next(E, s, InitOf(E, cl, random, sid));
    StepKeepsInv(E, s, InitOf(E, cl, random, sid));
    AskAndReset(E, s1, E.normal(cl.email), h, cred);
    var ask := Other(Sessions.RequestReset(s.users[E.normal(cl.email)].id, h));
    HonestLogin(E, s, cl, random, sid, [ask, Reset(h, cred, true, true)], fin);
  }

  /** Any account can be had from the empty service. */
  lemma AccountReached(E: Env, cl: Client, user: User)
    requires GroupOk(E.G) && user.id != NIL
    requires user.cred.verifierHex == HexEncode(BytesOf(Pow(2, cl.x) % E.G.N))
    requires user.cred.srpSaltHex == HexEncode(cl.salt)
    ensures Possible(Fresh, Register(cl.email, user))
    ensures var s := Next(E, Fresh, Register(cl.email, user));
      FlowInv(E, s) && HasAccount(E, s, cl) && s.users[E.normal(cl.email)] == user
  {
    StepKeepsInv(E, Fresh, Register(cl.email, user));
  }

  lemma TwoSteps(E: Env, s: State, first: Step, second: Step)
    requires GroupOk(E.G)
    ensures Run(E, s, [first, second]) == Next(E, Next(E, s, first), second)
    ensures PossibleRun(E, s, [first, second]) <==> Possible(s, first) && Possible(Next(E, s, first), second)
  {
    var mid := Next(E, s, first);
    assert [first, second][1..] == [second] && [second][1..] == [];
    assert Run(E, mid, [second]) == Next(E, mid, second);
    assert PossibleRun(E, mid, [second]) <==> Possible(mid, second);
  }
}
