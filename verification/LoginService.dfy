/**
 * LoginInit and LoginFinalize in the source's own form, over the one-shot store
 * and the session service. Each call is proved to do the step of `LoginFlow`.
 */
module LoginService {
  import opened Prelude
  import opened Codec
  import opened LoginFlow
  import Srp
  import Store = SrpStore
  import Sessions
  import SessionService

  datatype InitResult = InitResult(sid: Id, srpSaltHex: string, bcryptSalt: string, bHex: string, cryptoSalt: seq<Byte>)

  /** M2, the user id and the key material of the account. */
  datatype FinalizeResult = FinalizeResult(m2: string, user: Id, cryptoSalt: seq<Byte>, privateKey: seq<Byte>, master: seq<Byte>)

  /**
   * What LoginInit answers: nothing for an unknown address or a verifier that is no
   * hex, else the account's salts and B = (k·v + g^b) mod N.
   */
  ghost function InitAnswer(E: Env, users: map<string, User>, email: string, random: seq<Byte>, sid: Id): Option<InitResult>
    requires E.G.N > 0
  {
    if E.normal(email) !in users then None
    else
      var cred := users[E.normal(email)].cred;
      var bytes := HexDecode(cred.verifierHex);
      if bytes.None? then None
      else
        var B := Srp.DueB(E.G, NatOf(bytes.value), NatOf(random));
        Some(InitResult(sid, cred.srpSaltHex, cred.bcryptSalt, HexEncode(Padded(B, Width(E.G.N))), cred.cryptoSalt))
  }

  function Announce(E: Env, e: Store.Entry, sid: Id): InitResult
  {
    InitResult(sid, e.srpSaltHex, e.bcryptSalt, HexEncode(Srp.PadN(E.G, e.session.B)), e.cryptoSalt)
  }

  lemma EntryAnswers(E: Env, s: State, email: string, aHex: string, random: seq<Byte>, sid: Id)
    requires E.G.N > 0
    ensures var e := NewEntry(E, s, email, aHex, random);
      InitAnswer(E, s.users, email, random, sid) == if e.Some? then Some(Announce(E, e.value, sid)) else None
  {
    if E.normal(email) in s.users {
      Srp.SessionMade(E.G, s.users[E.normal(email)].cred.verifierHex, random);
    }
  }

  class Service {
    const E: Env
    const store: Store.Sessions
    const auth: SessionService.Service
    var users: map<string, User>

    /** The service at an instant, in nanoseconds. */
    ghost function At(now: Time): State
      reads this, store, auth
    {
      State.State(users, store.At(now), auth.State())
    }

    ghost predicate Valid(now: Time)
      reads this, store, auth
    {
      Srp.GroupOk(E.G) && store.G == E.G && auth.c == E.c && auth.Valid() && FlowInv(E, At(now))
    }

    constructor (E: Env)
      requires Srp.GroupOk(E.G)
      ensures fresh(store) && fresh(auth) && this.E == E && Valid(0) && At(0) == Fresh
    {
      this.E := E;
      var st := new Store.Sessions(E.G);
      var au := new SessionService.Service(E.c);
      store, auth, users := st, au, map[];
    }

    /** The user row and a new server session, put together for the store. */
    method MakeEntry(now: Time, email: string, aHex: string, random: seq<Byte>) returns (entry: Option<Store.Entry>)
      requires E.G.N > 0
      ensures entry == NewEntry(E, At(now), email, aHex, random)
    {
      var address := E.normal(email);
      if address !in users {
        return None;
      }
      var user := users[address];
      var session := Srp.NewServerSession(E.G, user.cred.verifierHex, random);
      if session.Err? {
        return None;
      }
      entry := Some(Store.Entry(user.id, address, user.cred.srpSaltHex, aHex, session.value, user.cred.cryptoSalt,
                                user.cred.bcryptSalt, user.privateKey, user.cred.master, now + SRP_SESSION_TTL));
    }

    /** `random` are the 32 bytes drawn for the server's ephemeral, `sid` the new session id. */
    method LoginInit(now: Time, email: string, aHex: string, random: seq<Byte>, sid: Id) returns (r: Option<InitResult>)
      requires Valid(now) && sid !in store.stored
      modifies store
      ensures Valid(now)
      ensures At(now) == Next(E, old(At(now)), Init(email, aHex, random, sid))
      ensures r == InitAnswer(E, users, email, random, sid)
    {
      EntryAnswers(E, At(now), email, aHex, random, sid);
      StepKeepsInv(E, At(now), Init(email, aHex, random, sid));
      var entry := MakeEntry(now, email, aHex, random);
      if entry.None? {
        return None;
      }
      var e := entry.value;
      var ok := store.Store(now, sid, e);
      if !ok {
        return None;
      }
      r := Some(Announce(E, e, sid));
    }

    /** Answers with M2 exactly when the proof is accepted and the refresh row could be inserted. */
    method LoginFinalize(now: Time, sid: Id, m1Hex: string, id: Id, deviceId: string, h: Id, freshKey: Sessions.Bytes,
                         cleanup: bool, insertOk: bool) returns (r: Option<FinalizeResult>)
      requires Valid(now) && Possible(At(now), Finalize(sid, m1Hex, id, deviceId, h, freshKey, cleanup, insertOk))
      modifies store, auth
      ensures Valid(now)
      ensures At(now) == Next(E, old(At(now)), Finalize(sid, m1Hex, id, deviceId, h, freshKey, cleanup, insertOk))
      ensures r.Some? <==> insertOk && Answer(E, old(At(now)), sid, m1Hex).Some?
      ensures r.Some? ==>
                var e := Store.Taken(old(At(now)).logins, sid).value;
                r.value == FinalizeResult(Answer(E, old(At(now)), sid, m1Hex).value, e.user, e.cryptoSalt, e.privateKey, e.master)
    {
      StepKeepsInv(E, At(now), Finalize(sid, m1Hex, id, deviceId, h, freshKey, cleanup, insertOk));
      TakenUser(At(now), sid);
      var entry := store.Consume(now, sid);
      if entry.None? {
        return None;
      }
      var e := entry.value;
      var answer := Srp.CheckProof(E.G, e.session, e.aHex, m1Hex, E.utf8(e.email), e.srpSaltHex);
      if answer.Err? {
        return None;
      }
      auth.Login(id, e.user, deviceId, h, freshKey, cleanup, insertOk);
      if !insertOk {
        return None;
      }
      r := Some(FinalizeResult(answer.value, e.user, e.cryptoSalt, e.privateKey, e.master));
    }
  }

  lemma TakenUser(s: State, sid: Id)
    requires UsersOk(s)
    ensures Store.Taken(s.logins, sid).Some? ==> Store.Taken(s.logins, sid).value.user != NIL
  {
  }
}
