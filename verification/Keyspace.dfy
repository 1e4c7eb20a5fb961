/**
 One flat key space for everything the registry stores: a map from key strings to values,
 as Redis keeps it.  A slot is the structured name of a key.  The slots of a pair-indexed
 state determine the flat map, because no two slots that can occur share a key string.
 */
module Keyspace {
  import opened Types
  import opened Keys
  import opened RedisModel
  import opened Runs

  datatype Value =
    | Payload(cell: Cell)
    | Hash(lease: Lease)
    | Ids(ids: set<string>)
    | Counter(n: nat)
    | Entries(log: seq<Change>)

  datatype Slot =
    | InstanceSlot(key: Key)
    | TokenSlot(key: Key)
    | MemberSlot(service: string)
    | ServicesSlot
    | RevisionSlot
    | StreamSlot

  function SlotKey(s: Slot): string {
    match s
    case InstanceSlot(key) => InstanceKey(key)
    case TokenSlot(key) => TokenKey(key)
    case MemberSlot(service) => ServiceKey(service)
    case ServicesSlot => ServicesKey()
    case RevisionSlot => RevisionKey()
    case StreamSlot => StreamKey()
  }

  /** The slots that can occur: only validated names are ever written under an instance or token key. */
  predicate Proper(s: Slot) {
    s.InstanceSlot? || s.TokenSlot? ==> ValidName(s.key.service)
  }

  /** Slots of different families never share a key string. */
  lemma SameFamily(s: Slot, t: Slot)
    requires SlotKey(s) == SlotKey(t)
    ensures s.InstanceSlot? <==> t.InstanceSlot?
    ensures s.TokenSlot? <==> t.TokenSlot?
    ensures s.MemberSlot? <==> t.MemberSlot?
    ensures s.ServicesSlot? <==> t.ServicesSlot?
    ensures s.RevisionSlot? <==> t.RevisionSlot?
  {
    hide InstanceKey, TokenKey, ServiceKey, ServicesKey, RevisionKey, StreamKey;
    forall a: Key, b: Key, name: string
      ensures InstanceKey(a) != TokenKey(b)
      ensures InstanceKey(a) != ServiceKey(name) && TokenKey(b) != ServiceKey(name)
      ensures {InstanceKey(a), TokenKey(b), ServiceKey(name)} !! {RevisionKey(), StreamKey(), ServicesKey()}
    {
      FamiliesDisjoint(a, b, name);
    }
    FamiliesDisjoint(Key("", ""), Key("", ""), "");
  }

  lemma SlotKeysInjective(s: Slot, t: Slot)
    requires Proper(s) && Proper(t) && SlotKey(s) == SlotKey(t)
    ensures s == t
  {
    hide InstanceKey, TokenKey, ServiceKey, ServicesKey, RevisionKey, StreamKey, ValidName;
    SameFamily(s, t);
    match s
    case InstanceSlot(key) => KeysInjective(key, t.key);
    case TokenSlot(key) => KeysInjective(key, t.key);
    case MemberSlot(service) => ServiceKeysInjective(service, t.service);
    case ServicesSlot =>
    case RevisionSlot =>
    case StreamSlot =>
  }

  // ---------- The flat map ----------

  ghost predicate AllProper(m: map<Slot, Value>) {
    forall s :: s in m ==> Proper(s)
  }

  ghost function FlatKeys(m: map<Slot, Value>): set<string> {
    set s | s in m :: SlotKey(s)
  }

  ghost function EntryAt(m: map<Slot, Value>, x: string): Value
    requires x in FlatKeys(m)
  {
    var s :| s in m && SlotKey(s) == x; m[s]
  }

  /** The entries of m under their key strings; a shared key would hold one of its entries. */
  ghost function Flatten(m: map<Slot, Value>): map<string, Value> {
    map x | x in FlatKeys(m) :: EntryAt(m, x)
  }

  /** A key string is present exactly if some slot of m has it, and holds that slot's value. */
  lemma FlattenAt(m: map<Slot, Value>, s: Slot)
    requires AllProper(m) && Proper(s)
    ensures SlotKey(s) in Flatten(m) <==> s in m
    ensures s in m ==> Flatten(m)[SlotKey(s)] == m[s]
  {
    hide SlotKey, Proper;
    forall t | t in m && SlotKey(t) == SlotKey(s)
      ensures t == s
    {
      SlotKeysInjective(t, s);
    }
  }

  lemma FlattenHas(m: map<Slot, Value>, x: string)
    requires x in Flatten(m)
    ensures exists s :: s in m && SlotKey(s) == x
  {
  }

  /** A flat map that agrees with m slot by slot, and has no other keys, is the flat map of m. */
  lemma FlattenUnique(m: map<Slot, Value>, flat: map<string, Value>)
    requires AllProper(m)
    requires forall s :: s in m ==> SlotKey(s) in flat && flat[SlotKey(s)] == m[s]
    requires forall x :: x in flat ==> exists s :: s in m && SlotKey(s) == x
    ensures flat == Flatten(m)
  {
    hide SlotKey, Proper;
    forall x
      ensures x in flat <==> x in Flatten(m)
      ensures x in flat ==> flat[x] == Flatten(m)[x]
    {
      if x in flat {
        var s :| s in m && SlotKey(s) == x;
        FlattenAt(m, s);
      }
      if x in Flatten(m) {
        FlattenHas(m, x);
      }
    }
    assert flat.Keys == Flatten(m).Keys;
  }

  lemma FlattenPut(m: map<Slot, Value>, s: Slot, v: Value)
    requires AllProper(m) && Proper(s)
    ensures AllProper(m[s := v]) && Flatten(m[s := v]) == Flatten(m)[SlotKey(s) := v]
  {
    hide SlotKey, Proper, Flatten, FlatKeys;
    var n, flat := m[s := v], Flatten(m)[SlotKey(s) := v];
    forall t | t in n
      ensures SlotKey(t) in flat && flat[SlotKey(t)] == n[t]
    {
      if t != s {
        FlattenAt(m, t);
        if SlotKey(t) == SlotKey(s) {
          SlotKeysInjective(t, s);
        }
      }
    }
    forall x | x in flat
      ensures exists t :: t in n && SlotKey(t) == x
    {
      if x == SlotKey(s) {
        assert s in n;
      } else {
        FlattenHas(m, x);
        var t :| t in m && SlotKey(t) == x;
        assert t in n;
      }
    }
    FlattenUnique(n, flat);
  }

  /** Dropping slots drops their keys. */
  lemma FlattenDrop(m: map<Slot, Value>, gone: set<Slot>, keys: set<string>)
    requires AllProper(m)
    requires forall s :: s in m ==> (s in gone <==> SlotKey(s) in keys)
    ensures AllProper(m - gone) && Flatten(m - gone) == Flatten(m) - keys
  {
    hide SlotKey, Proper, Flatten, FlatKeys;
    var n, flat := m - gone, Flatten(m) - keys;
    forall t | t in n
      ensures SlotKey(t) in flat && flat[SlotKey(t)] == n[t]
    {
      FlattenAt(m, t);
    }
    forall x | x in flat
      ensures exists t :: t in n && SlotKey(t) == x
    {
      FlattenHas(m, x);
      var t :| t in m && SlotKey(t) == x;
      assert t in n;
    }
    FlattenUnique(n, flat);
  }

  lemma FlattenDel(m: map<Slot, Value>, s: Slot)
    requires AllProper(m) && Proper(s)
    ensures AllProper(m - {s}) && Flatten(m - {s}) == Flatten(m) - {SlotKey(s)}
  {
    hide SlotKey, Proper, Flatten, FlatKeys;
    forall t | t in m && SlotKey(t) == SlotKey(s)
      ensures t == s
    {
      SlotKeysInjective(t, s);
    }
    FlattenDrop(m, {s}, {SlotKey(s)});
  }

  /** Only instance and token keys carry an expiry. */
  predicate Lapsed(v: Value, now: int) {
    match v
    case Payload(cell) => cell.deadline < now
    case Hash(lease) => lease.deadline < now
    case _ => false
  }

  function Live(flat: map<string, Value>, now: int): map<string, Value> {
    flat - (set x | x in flat && Lapsed(flat[x], now))
  }

  lemma FlattenLive(m: map<Slot, Value>, now: int)
    requires AllProper(m)
    ensures var n := m - (set s | s in m && Lapsed(m[s], now)); AllProper(n) && Flatten(n) == Live(Flatten(m), now)
  {
    hide SlotKey, Proper, Flatten, FlatKeys, Lapsed;
    var flat := Flatten(m);
    forall s | s in m
      ensures SlotKey(s) in flat && flat[SlotKey(s)] == m[s]
    {
      FlattenAt(m, s);
    }
    FlattenDrop(m, set s | s in m && Lapsed(m[s], now), set x | x in flat && Lapsed(flat[x], now));
  }

  // ---------- The slots of a state ----------

  /** A set, a counter or a stream that is empty has no key. */
  predicate Holds(r: Redis, s: Slot) {
    match s
    case InstanceSlot(key) => key in r.inst
    case TokenSlot(key) => key in r.tok
    case MemberSlot(service) => MembersOf(r, service) != {}
    case ServicesSlot => r.services != {}
    case RevisionSlot => r.revision != 0
    case StreamSlot => r.log != []
  }

  function ValueAt(r: Redis, s: Slot): Value
    requires Holds(r, s)
  {
    match s
    case InstanceSlot(key) => Payload(r.inst[key])
    case TokenSlot(key) => Hash(r.tok[key])
    case MemberSlot(service) => Ids(MembersOf(r, service))
    case ServicesSlot => Ids(r.services)
    case RevisionSlot => Counter(r.revision)
    case StreamSlot => Entries(r.log)
  }

  ghost function Occupied(r: Redis): set<Slot> {
    (set k | k in r.inst :: InstanceSlot(k))
    + (set k | k in r.tok :: TokenSlot(k))
    + (set s | s in r.members && r.members[s] != {} :: MemberSlot(s))
    + (set s | s in {ServicesSlot, RevisionSlot, StreamSlot} && Holds(r, s))
  }

  lemma OccupiedIsHeld(r: Redis, s: Slot)
    ensures s in Occupied(r) <==> Holds(r, s)
  {
  }

  ghost function Slots(r: Redis): map<Slot, Value> {
    assert forall s :: s in Occupied(r) ==> Holds(r, s) by {
      forall s ensures s in Occupied(r) <==> Holds(r, s) { OccupiedIsHeld(r, s); }
    }
    map s | s in Occupied(r) :: ValueAt(r, s)
  }

  lemma SlotsAt(r: Redis)
    ensures forall s :: s in Slots(r) <==> Holds(r, s)
    ensures forall s :: s in Slots(r) ==> Slots(r)[s] == ValueAt(r, s)
  {
    forall s
      ensures s in Slots(r) <==> Holds(r, s)
    {
      OccupiedIsHeld(r, s);
    }
  }

  lemma SlotsUnique(r: Redis, m: map<Slot, Value>)
    requires forall s :: s in m <==> Holds(r, s)
    requires forall s :: s in m ==> m[s] == ValueAt(r, s)
    ensures m == Slots(r)
  {
    hide Slots, ValueAt, Holds;
    SlotsAt(r);
    assert m.Keys == Slots(r).Keys;
  }

  lemma SlotsProper(r: Redis)
    requires Joint(r)
    ensures AllProper(Slots(r))
  {
    hide Slots, ValidName;
    SlotsAt(r);
  }

  // ---------- One field at a time ----------

  lemma InstancePut(r: Redis, k: Key, cell: Cell)
    ensures Slots(r.(inst := r.inst[k := cell])) == Slots(r)[InstanceSlot(k) := Payload(cell)]
  {
    hide Slots;
    SlotsAt(r);
    SlotsUnique(r.(inst := r.inst[k := cell]), Slots(r)[InstanceSlot(k) := Payload(cell)]);
  }

  lemma TokenPut(r: Redis, k: Key, lease: Lease)
    ensures Slots(r.(tok := r.tok[k := lease])) == Slots(r)[TokenSlot(k) := Hash(lease)]
  {
    hide Slots;
    SlotsAt(r);
    SlotsUnique(r.(tok := r.tok[k := lease]), Slots(r)[TokenSlot(k) := Hash(lease)]);
  }

  lemma InstanceDrop(r: Redis, k: Key)
    ensures Slots(r.(inst := r.inst - {k})) == Slots(r) - {InstanceSlot(k)}
  {
    hide Slots;
    SlotsAt(r);
    SlotsUnique(r.(inst := r.inst - {k}), Slots(r) - {InstanceSlot(k)});
  }

  lemma TokenDrop(r: Redis, k: Key)
    ensures Slots(r.(tok := r.tok - {k})) == Slots(r) - {TokenSlot(k)}
  {
    hide Slots;
    SlotsAt(r);
    SlotsUnique(r.(tok := r.tok - {k}), Slots(r) - {TokenSlot(k)});
  }

  lemma MembersPut(r: Redis, service: string, ids: set<string>)
    ensures Slots(r.(members := r.members[service := ids])) ==
            if ids == {} then Slots(r) - {MemberSlot(service)} else Slots(r)[MemberSlot(service) := Ids(ids)]
  {
    hide Slots;
    SlotsAt(r);
    SlotsUnique(r.(members := r.members[service := ids]),
                if ids == {} then Slots(r) - {MemberSlot(service)} else Slots(r)[MemberSlot(service) := Ids(ids)]);
  }

  lemma ServicesPut(r: Redis, services: set<string>)
    requires services != {}
    ensures Slots(r.(services := services)) == Slots(r)[ServicesSlot := Ids(services)]
  {
    hide Slots;
    SlotsAt(r);
    SlotsUnique(r.(services := services), Slots(r)[ServicesSlot := Ids(services)]);
  }

  lemma RevisionPut(r: Redis, n: nat)
    requires n > 0
    ensures Slots(r.(revision := n)) == Slots(r)[RevisionSlot := Counter(n)]
  {
    hide Slots;
    SlotsAt(r);
    SlotsUnique(r.(revision := n), Slots(r)[RevisionSlot := Counter(n)]);
  }

  /** The deadlines remembered for each entry are not stored. */
  lemma StreamPut(r: Redis, log: seq<Change>, due: seq<int>)
    requires log != []
    ensures Slots(r.(log := log, due := due)) == Slots(r)[StreamSlot := Entries(log)]
  {
    hide Slots;
    SlotsAt(r);
    SlotsUnique(r.(log := log, due := due), Slots(r)[StreamSlot := Entries(log)]);
  }
}
