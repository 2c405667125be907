/** The one-shot Redis store of half-finished logins. Times are nanoseconds. */
module SrpStore {
  import opened Prelude
  import opened Codec
  import opened Srp

  const MS: nat := 1_000_000

  datatype Entry = Entry(user: Id, email: string, srpSaltHex: string, aHex: string, session: ServerSession,
                         cryptoSalt: seq<Byte>, bcryptSalt: string, privateKey: seq<Byte>, master: seq<Byte>, expiresAt: Time)

  /** srpRecord: the session as hex strings, the expiry in milliseconds. */
  datatype Record = Record(user: Id, email: string, srpSaltHex: string, aHex: string, snapshot: Snapshot,
                           cryptoSalt: seq<Byte>, bcryptSalt: string, privateKey: seq<Byte>, master: seq<Byte>, expiresAtMs: nat)

  datatype Slot = Slot(record: Record, until: Time)

  datatype Logins = Logins(slots: map<Id, Slot>, now: Time, stored: set<Id>, taken: seq<Id>)

  function ToRecord(G: Group, e: Entry): Record
  {
    Record(e.user, e.email, e.srpSaltHex, e.aHex, TakeSnapshot(G, e.session),
           e.cryptoSalt, e.bcryptSalt, e.privateKey, e.master, e.expiresAt / MS)
  }

  function FromRecord(r: Record): Option<Entry>
  {
    var session := FromSnapshot(r.snapshot);
    if session.Err? then None
    else Some(Entry(r.user, r.email, r.srpSaltHex, r.aHex, session.value,
                    r.cryptoSalt, r.bcryptSalt, r.privateKey, r.master, r.expiresAtMs * MS))
  }

  /** The client sends whole milliseconds, at least one. */
  function RedisTtl(ttl: nat): nat
  {
    if ttl < MS then MS else ttl / MS * MS
  }

  predicate CanPut(s: Logins, e: Entry)
  {
    e.expiresAt > s.now
  }

  function Put(G: Group, s: Logins, id: Id, e: Entry): Logins
  {
    if !CanPut(s, e) then s
    else s.(slots := s.slots[id := Slot(ToRecord(G, e), s.now + RedisTtl(e.expiresAt - s.now))], stored := s.stored + {id})
  }

  predicate Held(s: Logins, id: Id)
  {
    id in s.slots && s.now < s.slots[id].until
  }

  /** What Consume returns. */
  function Taken(s: Logins, id: Id): Option<Entry>
  {
    if !Held(s, id) then None
    else if s.now / MS > s.slots[id].record.expiresAtMs then None
    else FromRecord(s.slots[id].record)
  }

  /** GETDEL, whether or not the record is then still good. */
  function Take(s: Logins, id: Id): Logins
  {
    s.(slots := s.slots - {id}, taken := if Taken(s, id).Some? then s.taken + [id] else s.taken)
  }

  // ---------- round trip ----------

  /** A stored login comes back whole, its expiry rounded down to the millisecond. */
  lemma RecordRoundTrip(G: Group, e: Entry)
    ensures FromRecord(ToRecord(G, e)) == Some(e.(expiresAt := e.expiresAt / MS * MS))
  {
    SnapshotRoundTrip(G, e.session);
  }

  /**
   * Storing and taking back at instant `t`: what comes back is the entry, its expiry
   * cut to the millisecond, and it comes back exactly while the key lives, for the
   * whole milliseconds left and at least one, and in no millisecond after the one it
   * expires in. So it surely does up to a millisecond before its expiry, and only once.
   */
  lemma StoreThenConsume(G: Group, s: Logins, id: Id, e: Entry, t: Time)
    requires CanPut(s, e) && s.now <= t
    ensures var later := Put(G, s, id, e).(now := t);
      var left := e.expiresAt - s.now;
      var lifetime := if left < 1_000_000 then 1_000_000 else left / 1_000_000 * 1_000_000;
      && (Taken(later, id).Some? <==> t < s.now + lifetime && t / 1_000_000 <= e.expiresAt / 1_000_000)
      && (Taken(later, id).Some? ==> Taken(later, id).value == e.(expiresAt := e.expiresAt / 1_000_000 * 1_000_000))
      && (t + 1_000_000 <= e.expiresAt ==> Taken(later, id).Some?)
      && id !in Take(later, id).slots && Taken(Take(later, id), id).None?
  {
    RecordRoundTrip(G, e);
    var ttl := e.expiresAt - s.now;
    if t + MS <= e.expiresAt {
      assert ttl >= MS && ttl < ttl / MS * MS + MS;
    }
  }

  // ---------- at most once ----------

  datatype Step = Wait(ns: nat) | StoreEntry(id: Id, e: Entry) | Consume(id: Id)

  function Apply(G: Group, s: Logins, step: Step): Logins
  {
    match step
    case Wait(ns) => s.(now := s.now + ns)
    case StoreEntry(id, e) => Put(G, s, id, e)
    case Consume(id) => Take(s, id)
  }

  function Run(G: Group, s: Logins, steps: seq<Step>): Logins
    decreases steps
  {
    if steps == [] then s else Run(G, Apply(G, s, steps[0]), steps[1..])
  }

  /** Each login gets a session id never used before. */
  predicate FreshIds(G: Group, s: Logins, steps: seq<Step>)
    decreases steps
  {
    steps == [] ||
    ((steps[0].StoreEntry? ==> steps[0].id !in s.stored) && FreshIds(G, Apply(G, s, steps[0]), steps[1..]))
  }

  ghost predicate TakenOnce(s: Logins)
  {
    && NoDup(s.taken)
    && (forall id :: id in s.slots ==> id in s.stored)
    && (forall id :: id in s.taken ==> id in s.stored && id !in s.slots)
  }

  /** In every run no login session is consumed twice. */
  lemma {:induction false} ConsumedAtMostOnce(G: Group, s: Logins, steps: seq<Step>)
    requires TakenOnce(s) && FreshIds(G, s, steps)
    ensures TakenOnce(Run(G, s, steps))
    decreases steps
  {
    if steps != [] {
      ConsumedAtMostOnce(G, Apply(G, s, steps[0]), steps[1..]);
    }
  }

  /** The store in the source's form: a keyed table written by Store and emptied by Consume. */
  class Sessions {
    const G: Group
    var slots: map<Id, Slot>
    ghost var stored: set<Id>
    ghost var taken: seq<Id>

    ghost function At(now: Time): Logins
      reads this
    {
      Logins(slots, now, stored, taken)
    }

    constructor (G: Group)
      ensures this.G == G && forall now :: At(now) == Logins(map[], now, {}, [])
    {
      this.G := G;
      slots, stored, taken := map[], {}, [];
    }

    method Store(now: Time, id: Id, e: Entry) returns (ok: bool)
      modifies this
      ensures ok == CanPut(old(At(now)), e)
      ensures At(now) == Put(G, old(At(now)), id, e)
      ensures ok ==> forall t :: now <= t && t + MS <= e.expiresAt ==>
                Taken(At(t), id) == Some(e.(expiresAt := e.expiresAt / MS * MS))
    {
      ghost var s := At(now);
      if e.expiresAt <= now {
        return false;
      }
      slots := slots[id := Slot(ToRecord(G, e), now + RedisTtl(e.expiresAt - now))];
      stored := stored + {id};
      ok := true;
      forall t | now <= t && t + MS <= e.expiresAt
        ensures Taken(At(t), id) == Some(e.(expiresAt := e.expiresAt / MS * MS))
      {
        StoreThenConsume(G, s, id, e, t);
        assert At(t) == Put(G, s, id, e).(now := t);
      }
    }

    method Consume(now: Time, id: Id) returns (e: Option<Entry>)
      modifies this
      ensures e == Taken(old(At(now)), id)
      ensures At(now) == Take(old(At(now)), id)
    {
      var held := id in slots && now < slots[id].until;
      if !held {
        slots := slots - {id};
        return None;
      }
      var record := slots[id].record;
      slots := slots - {id};
      if now / MS > record.expiresAtMs {
        return None;
      }
      e := FromRecord(record);
      if e.Some? {
        taken := taken + [id];
      }
    }
  }
}
