/**
 The store as the service uses it: string keys, scripts executed command by command, and
 List as a loop of separate commands with other clients' commands in between.  Every
 operation is proved to be steps of the pair-indexed model, so `run` records a run of
 RedisModel and `Valid` says that the keys represent its last state.
 */
module StoreModel {
  import opened Types
  import opened Keys
  import opened RedisModel
  import opened Runs
  import opened Listing
  import opened Watching
  import opened Keyspace
  import opened Schedules

  // ---------- What the Redis commands do to the slots ----------

  /** The value is of the type the slot's commands expect. */
  predicate Fits(s: Slot, v: Value) {
    match s
    case InstanceSlot(_) => v.Payload?
    case TokenSlot(_) => v.Hash?
    case MemberSlot(_) => v.Ids?
    case ServicesSlot => v.Ids?
    case RevisionSlot => v.Counter?
    case StreamSlot => v.Entries?
  }

  ghost predicate Typed(m: map<Slot, Value>) {
    forall s :: s in m ==> Fits(s, m[s])
  }

  function IdsIn(m: map<Slot, Value>, s: Slot): set<string> {
    if s in m && m[s].Ids? then m[s].ids else {}
  }

  function AfterSAdd(m: map<Slot, Value>, s: Slot, id: string): map<Slot, Value> {
    m[s := Ids(IdsIn(m, s) + {id})]
  }

  /** Removing the last member of a set removes its key. */
  function AfterSRem(m: map<Slot, Value>, s: Slot, ids: set<string>): map<Slot, Value> {
    var left := IdsIn(m, s) - ids;
    if left == {} then m - {s} else m[s := Ids(left)]
  }

  function CountIn(m: map<Slot, Value>): nat {
    if RevisionSlot in m && m[RevisionSlot].Counter? then m[RevisionSlot].n else 0
  }

  function EntriesIn(m: map<Slot, Value>): seq<Change> {
    if StreamSlot in m && m[StreamSlot].Entries? then m[StreamSlot].log else []
  }

  function AfterIncr(m: map<Slot, Value>): map<Slot, Value> {
    m[RevisionSlot := Counter(CountIn(m) + 1)]
  }

  function AfterXAdd(m: map<Slot, Value>, c: Change): map<Slot, Value> {
    m[StreamSlot := Entries(EntriesIn(m) + [c])]
  }

  /** What the commands read in a state. */
  lemma SlotsRead(r: Redis, service: string)
    ensures Typed(Slots(r))
    ensures IdsIn(Slots(r), MemberSlot(service)) == MembersOf(r, service)
    ensures IdsIn(Slots(r), ServicesSlot) == r.services
    ensures CountIn(Slots(r)) == r.revision && EntriesIn(Slots(r)) == r.log
  {
    hide Slots;
    SlotsAt(r);
  }

  /** INCR and XADD. */
  lemma LogSlots(r: Redis, c: Change, d: int)
    ensures CountIn(Slots(r)) == r.revision
    ensures AfterXAdd(AfterIncr(Slots(r)), c) ==
            Slots(r.(revision := r.revision + 1, log := r.log + [c], due := r.due + [d]))
  {
    hide Slots, IdsIn, MembersOf;
    SlotsRead(r, "");
    RevisionPut(r, r.revision + 1);
    StreamPut(r.(revision := r.revision + 1), r.log + [c], r.due + [d]);
  }

  /** SET of both keys. */
  lemma SetSlots(r: Redis, k: Key, cell: Cell, lease: Lease)
    ensures Slots(r)[InstanceSlot(k) := Payload(cell)][TokenSlot(k) := Hash(lease)] ==
            Slots(r.(inst := r.inst[k := cell], tok := r.tok[k := lease]))
  {
    hide Slots;
    InstancePut(r, k, cell);
    TokenPut(r.(inst := r.inst[k := cell]), k, lease);
  }

  /** The two SADDs. */
  lemma IndexSlots(r: Redis, k: Key)
    ensures AfterSAdd(AfterSAdd(Slots(r), MemberSlot(k.service), k.id), ServicesSlot, k.service) == Slots(Index(r, k))
  {
    hide Slots, IdsIn, MembersOf, CountIn, EntriesIn;
    var ids := MembersOf(r, k.service) + {k.id};
    var indexed := r.(members := r.members[k.service := ids]);
    SlotsRead(r, k.service);
    MembersPut(r, k.service, ids);
    SlotsRead(indexed, k.service);
    ServicesPut(indexed, r.services + {k.service});
  }

  /** SREM. */
  lemma UnindexSlots(r: Redis, service: string, ids: set<string>)
    ensures AfterSRem(Slots(r), MemberSlot(service), ids) == Slots(Unindex(r, service, ids))
  {
    hide Slots, IdsIn, MembersOf, CountIn, EntriesIn;
    SlotsRead(r, service);
    MembersPut(r, service, MembersOf(r, service) - ids);
  }

  /** The update script after its tests: m is what it counts and logs over. */
  lemma UpdateSlots(r: Redis, p: Instance, token: Token, px: int) returns (m: map<Slot, Value>)
    ensures var deadline, k := r.now + px * MILLISECOND, p.Name();
      m == Slots(r)[InstanceSlot(k) := Payload(Cell(p, deadline))][TokenSlot(k) := Hash(Lease(token, deadline))]
    ensures CountIn(m) == r.revision
    ensures AfterXAdd(AfterIncr(m), Upserted(r.revision + 1, p.Name(), p)) == Slots(Write(r, p, token, px))
  {
    hide Slots, CountIn, AfterIncr, AfterXAdd;
    var deadline, k := r.now + px * MILLISECOND, p.Name();
    var stored := r.(inst := r.inst[k := Cell(p, deadline)], tok := r.tok[k := Lease(token, deadline)]);
    SetSlots(r, k, Cell(p, deadline), Lease(token, deadline));
    LogSlots(stored, Upserted(r.revision + 1, k, p), deadline);
    m := Slots(stored);
  }

  /** The register script indexes before it counts and logs. */
  lemma RegisterSlots(r: Redis, p: Instance, token: Token, px: int) returns (m: map<Slot, Value>)
    ensures var deadline, k := r.now + px * MILLISECOND, p.Name();
      var set2 := Slots(r)[InstanceSlot(k) := Payload(Cell(p, deadline))][TokenSlot(k) := Hash(Lease(token, deadline))];
      m == AfterSAdd(AfterSAdd(set2, MemberSlot(k.service), k.id), ServicesSlot, k.service)
    ensures CountIn(m) == r.revision
    ensures AfterXAdd(AfterIncr(m), Upserted(r.revision + 1, p.Name(), p)) ==
            Slots(Index(Write(r, p, token, px), p.Name()))
  {
    hide Slots, CountIn, AfterIncr, AfterXAdd, AfterSAdd;
    var deadline, k := r.now + px * MILLISECOND, p.Name();
    var stored := r.(inst := r.inst[k := Cell(p, deadline)], tok := r.tok[k := Lease(token, deadline)]);
    SetSlots(r, k, Cell(p, deadline), Lease(token, deadline));
    IndexSlots(stored, k);
    LogSlots(Index(stored, k), Upserted(r.revision + 1, k, p), deadline);
    m := Slots(Index(stored, k));
  }

  /** The delete script. */
  lemma EraseSlots(r: Redis, key: Key, named: Key) returns (m: map<Slot, Value>)
    ensures m == AfterSRem(Slots(r) - {InstanceSlot(key)} - {TokenSlot(key)}, MemberSlot(named.service), {named.id})
    ensures CountIn(m) == r.revision
    ensures AfterXAdd(AfterIncr(m), Deleted(r.revision + 1, named)) == Slots(Erase(r, key, named))
  {
    hide Slots, CountIn, AfterIncr, AfterXAdd, AfterSRem;
    var dropped := r.(inst := r.inst - {key}, tok := r.tok - {key});
    InstanceDrop(r, key);
    TokenDrop(r.(inst := r.inst - {key}), key);
    UnindexSlots(dropped, named.service, {named.id});
    LogSlots(Unindex(dropped, named.service, {named.id}), Deleted(r.revision + 1, named), r.now);
    m := Slots(Unindex(dropped, named.service, {named.id}));
  }

  lemma AdvanceSlots(r: Redis, elapsed: nat)
    ensures var m := Slots(r); var now := r.now + elapsed;
      m - (set s | s in m && Lapsed(m[s], now)) == Slots(Advance(r, elapsed))
  {
    hide Slots;
    var m := Slots(r);
    SlotsAt(r);
    SlotsUnique(Advance(r, elapsed), m - (set s | s in m && Lapsed(m[s], r.now + elapsed)));
  }

  // ---------- Which pair a key string belongs to ----------

  /** A valid name hits the keys exactly when the pair is present. */
  lemma HitIffPresent(run: Run, k: Key)
    requires IsRun(run) && ValidName(k.service)
    ensures var r, flat := run.Last(), Flatten(Slots(run.Last()));
      && (InstanceKey(k) in flat <==> k in r.inst)
      && (TokenKey(k) in flat <==> k in r.tok)
      && (k in r.inst ==> flat[InstanceKey(k)] == Payload(r.inst[k]))
      && (k in r.tok ==> flat[TokenKey(k)] == Hash(r.tok[k]))
  {
    hide InstanceKey, TokenKey, Flatten, ValidName;
    JointAlways(run, |run.trace| - 1);
    SlotsProper(run.Last());
    SlotsAt(run.Last());
    FlattenAt(Slots(run.Last()), InstanceSlot(k));
    FlattenAt(Slots(run.Last()), TokenSlot(k));
  }

  /** The names of a removal address the owner's keys, and a valid name owns itself. */
  lemma OwnerOfKeys(run: Run, named: Key)
    requires IsRun(run)
    ensures var key, r, flat := Owner(run.Last(), named), run.Last(), Flatten(Slots(run.Last()));
      && (TokenKey(named) in flat <==> key in r.tok)
      && (key in r.tok ==>
            && flat[TokenKey(named)] == Hash(r.tok[key])
            && TokenKey(key) == TokenKey(named) && InstanceKey(key) == InstanceKey(named)
            && ValidName(key.service))
      && (key == named || !ValidName(named.service))
  {
    hide InstanceKey, TokenKey, ServiceKey, Flatten, ValidName;
    var key, r, flat := Owner(run.Last(), named), run.Last(), Flatten(Slots(run.Last()));
    JointAlways(run, |run.trace| - 1);
    SlotsAt(r);
    if key in r.tok {
      AliasesAgree(key, named);
      HitIffPresent(run, key);
      if ValidName(named.service) {
        KeysInjective(key, named);
      }
    }
    if TokenKey(named) in flat {
      FlattenHas(Slots(r), TokenKey(named));
      var s :| s in Slots(r) && SlotKey(s) == TokenKey(named);
      SameFamily(s, TokenSlot(named));
      assert s.key in r.tok && TokenKey(s.key) == TokenKey(named);
    }
  }

  /** Some live pair owns the flat key of these names. */
  ghost predicate Owned(r: Redis, named: Key) {
    exists k :: k in r.inst && InstanceKey(k) == InstanceKey(named)
  }

  /** At most one live pair owns a flat key. */
  lemma OneOwner(run: Run, k: Key, named: Key)
    requires IsRun(run) && k in run.Last().inst && InstanceKey(k) == InstanceKey(named)
    ensures forall j :: j in run.Last().inst && InstanceKey(j) == InstanceKey(named) ==> j == k
  {
    hide InstanceKey, TokenKey;
    JointAlways(run, |run.trace| - 1);
    forall j | j in run.Last().inst && InstanceKey(j) == InstanceKey(named)
      ensures j == k
    {
      KeysInjective(j, k);
    }
  }

  /** What a GET with arbitrary names returns: the payload of the pair that owns the key. */
  lemma GetIsLookup(run: Run, named: Key)
    requires IsRun(run)
    ensures var r, flat := run.Last(), Flatten(Slots(run.Last()));
      if InstanceKey(named) in flat then
        && flat[InstanceKey(named)].Payload?
        && var v := flat[InstanceKey(named)].cell.payload;
           && ValidName(v.service)
           && InstanceKey(v.Name()) == InstanceKey(named)
           && Some(v) == Lookup(r, v.Name())
      else !Owned(r, named)
  {
    hide InstanceKey, TokenKey, ServiceKey, Flatten, ValidName;
    JointAlways(run, |run.trace| - 1);
    var r, flat := run.Last(), Flatten(Slots(run.Last()));
    SlotsAt(r);
    if InstanceKey(named) in flat {
      FlattenHas(Slots(r), InstanceKey(named));
      var s :| s in Slots(r) && SlotKey(s) == InstanceKey(named);
      SameFamily(s, InstanceSlot(named));
      HitIffPresent(run, s.key);
    }
    if k :| k in r.inst && InstanceKey(k) == InstanceKey(named) {
      HitIffPresent(run, k);
    }
  }

  /** time.Duration.Milliseconds, which truncates toward zero. */
  function Milliseconds(d: int): int {
    if d >= 0 then d / MILLISECOND else -(-d / MILLISECOND)
  }

  method Enumerate(ids: set<string>) returns (order: seq<string>)
    ensures forall x :: x in order <==> x in ids
    ensures forall i, j :: 0 <= i < j < |order| ==> order[i] != order[j]
  {
    order := [];
    var rest := ids;
    while rest != {}
      invariant rest <= ids
      invariant forall x :: x in order <==> x in ids && x !in rest
      invariant forall i, j :: 0 <= i < j < |order| ==> order[i] != order[j]
      decreases rest
    {
      var x :| x in rest;
      rest := rest - {x};
      order := order + [x];
    }
  }

  class Store {
    var now: int
    var keys: map<string, Value>
    ghost var image: map<Slot, Value>
    ghost var run: Run

    /** The key strings hold what the slots do. */
    ghost predicate Coherent()
      reads this
    {
      AllProper(image) && Typed(image) && keys == Flatten(image)
    }

    ghost predicate Valid()
      reads this
    {
      IsRun(run) && now == run.Last().now && image == Slots(run.Last()) && Coherent()
    }

    constructor (start: int)
      ensures Valid() && |run.cmds| == 0 && now == start
    {
      now, keys, image := start, map[], map[];
      run := Run([Redis(start, map[], map[], map[], {}, 0, [], [])], []);
      new;
      SlotsUnique(run.Last(), image);
      FlattenUnique(image, keys);
    }

    // ---------- Redis commands ----------

    /** SET with PX, and PEXPIRE after a GET. */
    method Put(x: string, v: Value, ghost slot: Slot)
      requires Coherent() && x == SlotKey(slot) && Proper(slot) && Fits(slot, v)
      modifies `keys, `image
      ensures Coherent() && image == old(image)[slot := v]
    {
      hide Flatten, FlatKeys, SlotKey, Proper;
      FlattenPut(image, slot, v);
      keys, image := keys[x := v], image[slot := v];
    }

    method Del(x: string, ghost slot: Slot)
      requires Coherent() && x == SlotKey(slot) && Proper(slot)
      modifies `keys, `image
      ensures Coherent() && image == old(image) - {slot}
    {
      hide Flatten, FlatKeys, SlotKey, Proper;
      FlattenDel(image, slot);
      keys, image := keys - {x}, image - {slot};
    }

    method SMembers(x: string, ghost slot: Slot) returns (ids: set<string>)
      requires Coherent() && x == SlotKey(slot) && (slot.MemberSlot? || slot.ServicesSlot?)
      ensures ids == IdsIn(image, slot)
    {
      hide Flatten, FlatKeys, SlotKey;
      FlattenAt(image, slot);
      ids := if x in keys then keys[x].ids else {};
    }

    method SAdd(x: string, id: string, ghost slot: Slot)
      requires Coherent() && x == SlotKey(slot) && (slot.MemberSlot? || slot.ServicesSlot?)
      modifies `keys, `image
      ensures Coherent() && image == AfterSAdd(old(image), slot, id)
    {
      hide Flatten, FlatKeys, SlotKey, Coherent;
      var ids := SMembers(x, slot);
      Put(x, Ids(ids + {id}), slot);
    }

    method SRem(x: string, ids: set<string>, ghost slot: Slot)
      requires Coherent() && x == SlotKey(slot) && slot.MemberSlot?
      modifies `keys, `image
      ensures Coherent() && image == AfterSRem(old(image), slot, ids)
    {
      hide Flatten, FlatKeys, SlotKey, Coherent;
      var all := SMembers(x, slot);
      if all - ids == {} {
        Del(x, slot);
      } else {
        Put(x, Ids(all - ids), slot);
      }
    }

    method Revision() returns (n: nat)
      requires Coherent()
      ensures n == CountIn(image)
    {
      hide Flatten, FlatKeys;
      FlattenAt(image, RevisionSlot);
      n := if RevisionKey() in keys then keys[RevisionKey()].n else 0;
    }

    method Stream() returns (log: seq<Change>)
      requires Coherent()
      ensures log == EntriesIn(image)
    {
      hide Flatten, FlatKeys;
      FlattenAt(image, StreamSlot);
      log := if StreamKey() in keys then keys[StreamKey()].log else [];
    }

    /** What SMEMBERS of a service and GET of the revision read between operations. */
    method MemberIds(service: string) returns (ids: set<string>)
      requires Valid()
      ensures ids == MembersOf(run.Last(), service)
    {
      hide Flatten, FlatKeys, IdsIn, Slots;
      SlotsRead(run.Last(), service);
      ids := SMembers(ServiceKey(service), MemberSlot(service));
    }

    method CurrentRevision() returns (n: nat)
      requires Valid()
      ensures n == run.Last().revision
    {
      hide Flatten, FlatKeys, CountIn, Slots;
      SlotsRead(run.Last(), "");
      n := Revision();
    }

    method Incr() returns (n: nat)
      requires Coherent()
      modifies `keys, `image
      ensures Coherent() && image == AfterIncr(old(image)) && n == CountIn(old(image)) + 1
    {
      hide Flatten, FlatKeys, Coherent;
      n := Revision();
      n := n + 1;
      Put(RevisionKey(), Counter(n), RevisionSlot);
    }

    method XAdd(c: Change)
      requires Coherent()
      modifies `keys, `image
      ensures Coherent() && image == AfterXAdd(old(image), c)
    {
      hide Flatten, FlatKeys, Coherent;
      var log := Stream();
      Put(StreamKey(), Entries(log + [c]), StreamSlot);
    }

    // ---------- The operations of the store ----------

    /** The command whose effect the keys have taken becomes the next of the run. */
    ghost method Record(c: Command)
      requires IsRun(run) && Legal(c) && image == Slots(Step(run.Last(), c)) && Coherent()
      requires now == Step(run.Last(), c).now
      modifies `run
      ensures Valid() && run == Extend(old(run), c)
    {
      hide Step, Flatten, FlatKeys;
      ExtendIsRun(run, c);
      run := Extend(run, c);
    }

    /** The register script. */
    method Register(p: Instance, token: Token, lease: int) returns (reply: Reply)
      requires Valid() && ValidName(p.service)
      modifies this
      ensures Valid()
      ensures run == Extend(old(run), Command.Register(p, token, Milliseconds(lease)))
      ensures reply == Answer(old(run).Last(), Command.Register(p, token, Milliseconds(lease)))
      ensures !reply.Done? ==> keys == old(keys)
    {
      hide Slots, Flatten, FlatKeys, ValidName, InstanceKey, TokenKey, ServiceKey, MembersOf, Typed;
      hide AfterSAdd, AfterIncr, AfterXAdd, CountIn;
      var px, k := Milliseconds(lease), p.Name();
      HitIffPresent(run, k);
      if InstanceKey(k) in keys {
        reply := AlreadyRegistered;
      } else if px <= 0 {
        reply := BadExpire;
      } else {
        ghost var stored := RegisterSlots(run.Last(), p, token, px);
        Put(InstanceKey(k), Payload(Cell(p, now + px * MILLISECOND)), InstanceSlot(k));
        Put(TokenKey(k), Hash(Lease(token, now + px * MILLISECOND)), TokenSlot(k));
        SAdd(ServiceKey(k.service), k.id, MemberSlot(k.service));
        SAdd(ServicesKey(), k.service, ServicesSlot);
        var revision := Incr();
        XAdd(Upserted(revision, k, p));
        reply := Done(revision);
      }
      Record(Command.Register(p, token, px));
    }

    /** The update script: only the token key is tested, and it keeps its value. */
    method Update(p: Instance, token: Token, lease: int) returns (reply: Reply)
      requires Valid() && ValidName(p.service)
      modifies this
      ensures Valid()
      ensures run == Extend(old(run), Command.Update(p, token, Milliseconds(lease)))
      ensures reply == Answer(old(run).Last(), Command.Update(p, token, Milliseconds(lease)))
      ensures !reply.Done? ==> keys == old(keys)
    {
      hide Slots, Flatten, FlatKeys, ValidName, InstanceKey, TokenKey, ServiceKey, MembersOf, Typed;
      hide AfterIncr, AfterXAdd, CountIn;
      var px, k := Milliseconds(lease), p.Name();
      HitIffPresent(run, k);
      if TokenKey(k) !in keys {
        reply := NotFound;
      } else if keys[TokenKey(k)].lease.token != token {
        reply := LeaseNotOwned;
      } else if px <= 0 {
        reply := BadExpire;
      } else {
        ghost var stored := UpdateSlots(run.Last(), p, token, px);
        var held := keys[TokenKey(k)].lease;
        Put(InstanceKey(k), Payload(Cell(p, now + px * MILLISECOND)), InstanceSlot(k));
        Put(TokenKey(k), Hash(held.(deadline := now + px * MILLISECOND)), TokenSlot(k));
        var revision := Incr();
        XAdd(Upserted(revision, k, p));
        reply := Done(revision);
      }
      Record(Command.Update(p, token, px));
    }

    /** The delete script.  Nothing checks the names: they address whatever pair owns the keys. */
    method Deregister(named: Key, token: Token) returns (reply: Reply)
      requires Valid()
      modifies this
      ensures Valid()
      ensures var c := Remove(Owner(old(run).Last(), named), named, token);
        run == Extend(old(run), c) && reply == Answer(old(run).Last(), c)
      ensures ValidName(named.service) ==> Owner(old(run).Last(), named) == named
      ensures !reply.Done? ==> keys == old(keys)
    {
      hide Slots, Flatten, FlatKeys, ValidName, InstanceKey, TokenKey, ServiceKey, MembersOf, Typed;
      hide AfterSRem, AfterIncr, AfterXAdd, CountIn;
      ghost var key := Owner(run.Last(), named);
      OwnerOfKeys(run, named);
      if TokenKey(named) !in keys {
        reply := NotFound;
      } else if keys[TokenKey(named)].lease.token != token {
        reply := LeaseNotOwned;
      } else {
        ghost var dropped := EraseSlots(run.Last(), key, named);
        Del(InstanceKey(named), InstanceSlot(key));
        Del(TokenKey(named), TokenSlot(key));
        SRem(ServiceKey(named.service), {named.id}, MemberSlot(named.service));
        var revision := Incr();
        XAdd(Deleted(revision, named));
        reply := Done(revision);
      }
      Record(Remove(key, named, token));
    }

    /** The SREM of List as a command of its own. */
    method Prune(service: string, ids: set<string>)
      requires Valid()
      modifies this
      ensures Valid() && run == Extend(old(run), Command.Prune(service, ids))
    {
      hide Flatten, FlatKeys, AfterSRem;
      UnindexSlots(run.Last(), service, ids);
      SRem(ServiceKey(service), ids, MemberSlot(service));
      Record(Command.Prune(service, ids));
    }

    /** Time passes and lapsed keys disappear. */
    method Wait(elapsed: nat)
      requires Valid()
      modifies this
      ensures Valid() && run == Extend(old(run), Tick(elapsed))
    {
      hide Slots, Flatten, FlatKeys, Live, Lapsed, Fits;
      AdvanceSlots(run.Last(), elapsed);
      now := now + elapsed;
      FlattenLive(image, now);
      keys := Live(keys, now);
      image := image - (set s | s in image && Lapsed(image[s], now));
      SlotsRead(Advance(run.Last(), elapsed), "");
      Record(Tick(elapsed));
    }

    /** GET of an instance key, with whatever names the caller gave. */
    method Get(named: Key) returns (found: Option<Instance>)
      requires Valid()
      ensures ValidName(named.service) ==> found == Lookup(run.Last(), named)
      ensures found.Some? ==> ValidName(found.value.service) && found == Lookup(run.Last(), found.value.Name())
      ensures found.Some? ==> InstanceKey(found.value.Name()) == InstanceKey(named)
      ensures found.None? <==> !Owned(run.Last(), named)
    {
      hide Flatten, FlatKeys;
      GetIsLookup(run, named);
      if ValidName(named.service) {
        HitIffPresent(run, named);
      }
      if InstanceKey(named) in keys {
        found := Some(keys[InstanceKey(named)].cell.payload);
      } else {
        found := None;
      }
    }

    /** One command of another client. */
    method Issue(c: Command)
      requires Valid()
      modifies this
      ensures Valid() && run == Apply(old(run), c)
    {
      hide Flatten, FlatKeys, Slots, ValidName, TokenKey, Step;
      match c {
        case Register(p, token, px) =>
          if ValidName(p.service) {
            var _ := Register(p, token, px * MILLISECOND);
          }
        case Update(p, token, px) =>
          if ValidName(p.service) {
            var _ := Update(p, token, px * MILLISECOND);
          }
        case Remove(_, named, token) =>
          var _ := Deregister(named, token);
        case Prune(service, ids) =>
          Prune(service, ids);
        case Tick(elapsed) =>
          Wait(elapsed);
      }
    }

    /** Commands of other clients, whatever they are. */
    method Interfere(env: seq<Command>)
      requires Valid()
      modifies this
      ensures Valid() && Continues(old(run), run) && run == After(old(run), env)
    {
      hide Flatten, FlatKeys, Slots, Step, Apply;
      for i := 0 to |env|
        invariant Valid() && Continues(old(run), run) && run == After(old(run), env[..i])
      {
        ghost var before := run;
        Issue(env[i]);
        ApplyContinues(before, env[i]);
        assert env[..i + 1] == env[..i] + [env[i]];
        AfterMore(old(run), env[..i], env[i]);
      }
      assert env[..|env|] == env;
    }

    /** The GETs of List, one per enumerated id. */
    method Probe(service: string, order: seq<string>, env: seq<seq<Command>>)
      returns (values: seq<Instance>, stale: set<string>, ghost gets: seq<Read>)
      requires Valid() && ValidName(service)
      requires forall i, j :: 0 <= i < j < |order| ==> order[i] != order[j]
      modifies this
      ensures Valid() && Continues(old(run), run)
      ensures |gets| == |order| && ReadsOf(run, service, |old(run).trace| - 1, gets)
      ensures forall j :: 0 <= j < |gets| ==> gets[j].key == Key(service, order[j])
      ensures values == FoundIn(gets) && stale == StaleIds(gets)
      ensures run == After(old(run), Between(env, 1, |order| + 1))
      ensures ReadOnSchedule(old(run), env, gets)
    {
      hide Flatten, FlatKeys, FoundIn, StaleIds, ValidName, After, Slots, ReadsOf, Typed, AllProper, ReadOnSchedule;
      hide Between, Step, InstanceKey, Owned;
      NothingFound();
      AfterNone(run);
      NothingRead(run, service, env);
      gets, values, stale := [], [], {};
      for i := 0 to |order|
        invariant Valid() && Continues(old(run), run)
        invariant |gets| == i && ReadsOf(run, service, |old(run).trace| - 1, gets)
        invariant forall j :: 0 <= j < i ==> gets[j].key == Key(service, order[j])
        invariant values == FoundIn(gets) && stale == StaleIds(gets)
        invariant run == After(old(run), Between(env, 1, i + 1))
        invariant ReadOnSchedule(old(run), env, gets)
      {
        ghost var before := run;
        Interfere(At(env, i + 1));
        ProbingMore(old(run), env, i);
        ReadsContinue(before, run, service, |old(run).trace| - 1, gets);
        var found := Get(Key(service, order[i]));
        ghost var get := Read(|run.trace| - 1, Key(service, order[i]), found);
        FoundAppend(gets, get);
        ReadsAppend(run, service, |old(run).trace| - 1, gets, get);
        ReadOnScheduleMore(old(run), env, gets, get);
        gets := gets + [get];
        if found.Some? {
          values := values + [found.value];
        } else {
          stale := stale + {order[i]};
        }
      }
    }

    /** The SREM of List, unless nothing is stale or the command fails, with others before and after. */
    method Clean(service: string, stale: set<string>, pruned: bool, first: seq<Command>, last: seq<Command>)
      returns (ghost before: Run, ghost cleaned: Run)
      requires Valid()
      modifies this
      ensures Valid() && |before.trace| == |before.cmds| + 1
      ensures Continues(old(run), before) && Continues(before, cleaned) && Continues(cleaned, run)
      ensures before == After(old(run), first) && cleaned == Cleaned(before, service, stale, pruned)
      ensures run == After(cleaned, last)
    {
      hide Flatten, FlatKeys, Slots, After;
      Interfere(first);
      before := run;
      if stale != {} && pruned {
        Prune(service, stale);
      }
      cleaned := run;
      Interfere(last);
    }

    /**
     Store.List.  Before each of its commands other clients may run the commands env gives
     for that point; `pruned` says whether the SREM reached Redis.  The call is a scan of the
     run, and its only write is the SREM of the ids it found stale.
     */
    method List(service: string, env: seq<seq<Command>>, pruned: bool)
      returns (values: seq<Instance>, rev: nat, ghost scan: Scan)
      requires Valid() && ValidName(service)
      modifies this
      ensures Valid() && Continues(old(run), run)
      ensures IsScan(run, scan) && scan.service == service
      ensures |old(run).trace| - 1 <= scan.enumAt && scan.revAt == |run.trace| - 1
      ensures values == FoundIn(scan.gets)
      ensures rev == run.trace[scan.revAt].revision
      ensures run == ListRun(old(run), env, scan, pruned) && OnSchedule(old(run), env, scan, pruned)
    {
      hide Slots, AllProper, Typed, Flatten, FlatKeys, IsScan, ReadsOf, StaleIds, Covers, ValidName, Continues, FoundIn;
      hide After, Between, Cleaned;
      Interfere(At(env, 0));
      ghost var listed := run;
      var ids := MemberIds(service);
      var order := Enumerate(ids);
      var stale: set<string>;
      ghost var gets: seq<Read>;
      values, stale, gets := Probe(service, order, env);
      EnumeratedBy(service, order, gets, MembersOf(listed.Last(), service));
      ghost var probed := run;
      ghost var before, cleaned := Clean(service, stale, pruned, At(env, |order| + 1), At(env, |order| + 2));
      rev := CurrentRevision();
      scan := AssembleScan(service, gets, old(run), listed, probed, before, cleaned, run, pruned);
    }

    /** SMEMBERS of the service set, and the revision read after it. */
    method Services(env: seq<Command>) returns (names: seq<string>, rev: nat, ghost namesAt: nat)
      requires Valid()
      modifies this
      ensures Valid() && Continues(old(run), run)
      ensures namesAt == |old(run).trace| - 1 && namesAt < |run.trace|
      ensures forall s :: s in names <==> s in run.trace[namesAt].services
      ensures forall i, j :: 0 <= i < j < |names| ==> names[i] != names[j]
      ensures forall s :: s in names ==> ValidName(s)
      ensures rev == run.Last().revision && run == After(old(run), env)
    {
      hide Flatten, FlatKeys, IdsIn, CountIn, After;
      namesAt := |run.trace| - 1;
      JointAlways(run, namesAt);
      SlotsRead(run.Last(), "");
      var services := SMembers(ServicesKey(), ServicesSlot);
      names := Enumerate(services);
      Interfere(env);
      rev := CurrentRevision();
    }

    /** XREAD of the stream with COUNT: the next entries of the log, and none past its end. */
    method Changes(after: nat) returns (changes: seq<Change>)
      requires Valid()
      ensures var log := run.Last().log;
        changes == if after <= |log| then log[after..if |log| <= after + 128 then |log| else after + 128] else []
    {
      hide Flatten, FlatKeys, Batch, EntriesIn;
      JointAlways(run, |run.cmds|);
      SlotsRead(run.Last(), "");
      var stream := Stream();
      BatchIsSlice(stream, after);
      changes := Batch(stream, after);
    }
  }

  // ---------- Pieces of List ----------

  /** The payloads a scan collects, in the order of its GETs. */
  function FoundIn(gets: seq<Read>): seq<Instance> {
    if |gets| == 0 then []
    else
      FoundIn(gets[..|gets| - 1]) + match gets[|gets| - 1].found { case Some(v) => [v] case None => [] }
  }

  lemma ApplyContinues(run: Run, c: Command)
    requires |run.trace| > 0
    ensures Continues(run, Apply(run, c))
  {
  }

  lemma NothingRead(run: Run, service: string, env: seq<seq<Command>>)
    requires |run.trace| > 0
    ensures ReadsOf(run, service, |run.trace| - 1, []) && ReadOnSchedule(run, env, [])
    ensures Between(env, 1, 1) == []
  {
  }

  lemma NothingFound()
    ensures FoundIn([]) == [] && StaleIds([]) == {}
  {
  }

  lemma FoundAppend(gets: seq<Read>, g: Read)
    ensures FoundIn(gets + [g]) == FoundIn(gets) + match g.found { case Some(v) => [v] case None => [] }
    ensures StaleIds(gets + [g]) == StaleIds(gets) + if g.found.None? then {g.key.id} else {}
  {
    var all := gets + [g];
    assert all[..|gets|] == gets;
    assert forall i :: 0 <= i < |gets| ==> all[i] == gets[i];
    forall id
      ensures id in StaleIds(all) <==> id in StaleIds(gets) || (g.found.None? && id == g.key.id)
    {
      if id in StaleIds(gets) {
        var i :| 0 <= i < |gets| && gets[i].found == None && gets[i].key.id == id;
        assert all[i].key.id == id;
      }
      if g.found.None? && id == g.key.id {
        assert all[|gets|].key.id == id;
      }
    }
  }

  lemma {:induction false} FoundMember(gets: seq<Read>, v: Instance)
    ensures v in FoundIn(gets) <==> exists i :: 0 <= i < |gets| && gets[i].found == Some(v)
  {
    if |gets| > 0 {
      var front := gets[..|gets| - 1];
      FoundMember(front, v);
      if v in FoundIn(front) {
        var i :| 0 <= i < |front| && front[i].found == Some(v);
        assert gets[i].found == Some(v);
      }
      if i :| 0 <= i < |gets| && gets[i].found == Some(v) {
        assert i < |front| ==> front[i].found == Some(v);
      }
    }
  }

  lemma ReadsContinue(a: Run, b: Run, service: string, enumAt: nat, gets: seq<Read>)
    requires Continues(a, b) && ReadsOf(a, service, enumAt, gets)
    ensures ReadsOf(b, service, enumAt, gets)
  {
  }

  lemma ReadsAppend(run: Run, service: string, enumAt: nat, gets: seq<Read>, g: Read)
    requires ReadsOf(run, service, enumAt, gets)
    requires enumAt <= g.at == |run.trace| - 1 && g.key.service == service
    requires g.found == Lookup(run.trace[g.at], g.key)
    requires forall i :: 0 <= i < |gets| ==> gets[i].key != g.key
    ensures ReadsOf(run, service, enumAt, gets + [g])
  {
  }

  lemma ReadsEndInside(run: Run, service: string, enumAt: nat, gets: seq<Read>)
    requires ReadsOf(run, service, enumAt, gets) && enumAt < |run.trace|
    ensures enumAt <= ReadsEnd(enumAt, gets) < |run.trace|
  {
  }

  /** The pieces of a List call make a scan of the run it leaves behind. */
  lemma AssembleScan(service: string, gets: seq<Read>, start: Run, listed: Run, probed: Run, before: Run,
                     cleaned: Run, end: Run, pruned: bool)
    returns (scan: Scan)
    requires Continues(start, listed)
    requires |listed.trace| > 0 && |before.trace| == |before.cmds| + 1
    requires Continues(listed, probed) && Continues(probed, before)
    requires Continues(before, cleaned) && Continues(cleaned, end)
    requires cleaned == Cleaned(before, service, StaleIds(gets), pruned)
    requires ReadsOf(probed, service, |listed.trace| - 1, gets)
    requires Covers(MembersOf(listed.Last(), service), service, gets)
    ensures IsScan(end, scan)
    ensures Continues(start, end) && |start.trace| <= |listed.trace|
    ensures scan.service == service && scan.gets == gets
    ensures scan.enumAt == |listed.trace| - 1 && scan.revAt == |end.trace| - 1
    ensures scan.pruneAt == if StaleIds(gets) != {} && pruned then Some(|before.cmds|) else None
  {
    hide ReadsOf, Covers, StaleIds, MembersOf, Step, ReadsEnd;
    var enumAt := |listed.trace| - 1;
    ReadsEndInside(probed, service, enumAt, gets);
    ReadsContinue(probed, end, service, enumAt, gets);
    assert end.trace[enumAt] == listed.Last();
    var pruneAt := if StaleIds(gets) != {} && pruned then Some(|before.cmds|) else None;
    if pruneAt.Some? {
      assert end.cmds[|before.cmds|] == cleaned.cmds[|before.cmds|] == Prune(service, StaleIds(gets));
    }
    scan := Scan(service, enumAt, gets, pruneAt, |end.trace| - 1);
  }

  lemma EnumeratedBy(service: string, order: seq<string>, gets: seq<Read>, ids: set<string>)
    requires |gets| == |order| && (forall id :: id in order <==> id in ids)
    requires forall j :: 0 <= j < |gets| ==> gets[j].key == Key(service, order[j])
    ensures Covers(ids, service, gets)
  {
    forall id
      ensures id in ids <==> exists i :: 0 <= i < |gets| && gets[i].key == Key(service, id)
    {
      if id in ids {
        var i :| 0 <= i < |order| && order[i] == id;
        assert gets[i].key == Key(service, id);
      }
    }
  }

  lemma ScanContinues(a: Run, b: Run, s: Scan)
    requires Continues(a, b) && IsScan(a, s)
    ensures IsScan(b, s)
  {
    ReadsContinue(a, b, s.service, s.enumAt, s.gets);
  }
}
