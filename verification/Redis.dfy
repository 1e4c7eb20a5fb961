/**
 The Redis state behind the registry, indexed by pairs, and one atomic step for each
 script and plain write the service issues.  The class in Store.dfy runs the same steps on
 the flat keys and refines this model.

 `due` is a history variable: due[i] is the deadline that was written together with
 log[i].  The stream itself does not carry it.
 */
module RedisModel {
  import opened Types
  import opened Keys

  datatype Cell = Cell(payload: Instance, deadline: int)

  datatype Lease = Lease(token: Token, deadline: int)

  datatype Change =
    | Upserted(revision: nat, key: Key, payload: Instance)
    | Deleted(revision: nat, key: Key)

  datatype Redis = Redis(
    now: int,
    inst: map<Key, Cell>,
    tok: map<Key, Lease>,
    members: map<string, set<string>>,
    services: set<string>,
    revision: nat,
    log: seq<Change>,
    due: seq<int>)

  datatype Reply = Done(revision: nat) | AlreadyRegistered | NotFound | LeaseNotOwned | BadExpire

  /**
   An atomic write.  `Remove` has the pair whose keys the script addresses and the pair the
   request named; they differ only when the flat keys of the two coincide.
   */
  datatype Command =
    | Register(p: Instance, token: Token, px: int)
    | Update(p: Instance, token: Token, px: int)
    | Remove(key: Key, named: Key, token: Token)
    | Prune(service: string, ids: set<string>)
    | Tick(elapsed: nat)

  function MembersOf(r: Redis, service: string): set<string> {
    if service in r.members then r.members[service] else {}
  }

  function Lookup(r: Redis, k: Key): Option<Instance> {
    if k in r.inst then Some(r.inst[k].payload) else None
  }

  /** SET of both keys with one expiry, then INCR and XADD. */
  function Write(r: Redis, p: Instance, token: Token, px: int): Redis {
    var deadline := r.now + px * MILLISECOND;
    r.(inst := r.inst[p.Name() := Cell(p, deadline)],
       tok := r.tok[p.Name() := Lease(token, deadline)],
       revision := r.revision + 1,
       log := r.log + [Upserted(r.revision + 1, p.Name(), p)],
       due := r.due + [deadline])
  }

  function Index(r: Redis, k: Key): Redis {
    r.(members := r.members[k.service := MembersOf(r, k.service) + {k.id}],
       services := r.services + {k.service})
  }

  function Unindex(r: Redis, service: string, ids: set<string>): Redis {
    r.(members := r.members[service := MembersOf(r, service) - ids])
  }

  /** Time passes; keys whose deadline has passed disappear and nothing is logged. */
  function Advance(r: Redis, elapsed: nat): Redis {
    var now := r.now + elapsed;
    r.(now := now,
       inst := r.inst - (set k | k in r.inst && r.inst[k].deadline < now),
       tok := r.tok - (set k | k in r.tok && r.tok[k].deadline < now))
  }

  function Erase(r: Redis, key: Key, named: Key): Redis {
    Unindex(r, named.service, {named.id}).(
      inst := r.inst - {key},
      tok := r.tok - {key},
      revision := r.revision + 1,
      log := r.log + [Deleted(r.revision + 1, named)],
      due := r.due + [r.now])
  }

  function Answer(r: Redis, c: Command): Reply {
    match c
    case Register(p, _, px) =>
      if p.Name() in r.inst then AlreadyRegistered
      else if px <= 0 then BadExpire
      else Done(r.revision + 1)
    case Update(p, token, px) =>
      if p.Name() !in r.tok then NotFound
      else if r.tok[p.Name()].token != token then LeaseNotOwned
      else if px <= 0 then BadExpire
      else Done(r.revision + 1)
    case Remove(key, _, token) =>
      if key !in r.tok then NotFound
      else if r.tok[key].token != token then LeaseNotOwned
      else Done(r.revision + 1)
    case Prune(_, _) => Done(r.revision)
    case Tick(_) => Done(r.revision)
  }

  function Step(r: Redis, c: Command): Redis {
    if !Answer(r, c).Done? then r
    else
      match c
      case Register(p, token, px) => Index(Write(r, p, token, px), p.Name())
      case Update(p, token, px) => Write(r, p, token, px)
      case Remove(key, named, _) => Erase(r, key, named)
      case Prune(service, ids) => Unindex(r, service, ids)
      case Tick(elapsed) => Advance(r, elapsed)
  }

  /**
   What the service layer guarantees of the commands it issues: names are validated before
   a registration, updates carry the name of a registered payload, and a removal that reaches
   another pair's keys was named with a service name the pattern rejects.
   */
  predicate Legal(c: Command) {
    match c
    case Register(p, _, _) => ValidName(p.service)
    case Update(p, _, _) => ValidName(p.service)
    case Remove(key, named, _) => key == named || !ValidName(named.service)
    case Prune(_, _) => true
    case Tick(_) => true
  }

  /** The command succeeds and stores a payload at k. */
  predicate Writes(r: Redis, c: Command, k: Key) {
    (c.Register? || c.Update?) && c.p.Name() == k && Answer(r, c).Done?
  }

  /** The command succeeds and deletes k. */
  predicate Removes(r: Redis, c: Command, k: Key) {
    c.Remove? && c.key == k && Answer(r, c).Done?
  }

  /** What the three scripts keep jointly. */
  ghost predicate Joint(r: Redis) {
    && r.inst.Keys == r.tok.Keys
    && (forall k :: k in r.inst ==>
          && r.inst[k].payload.Name() == k
          && ValidName(k.service)
          && r.inst[k].deadline == r.tok[k].deadline
          && r.now <= r.inst[k].deadline)
    && (forall s :: s in r.services ==> ValidName(s))
    && r.revision == |r.log| == |r.due|
    && (forall i :: 0 <= i < |r.log| ==>
          && r.log[i].revision == i + 1
          && (r.log[i].Upserted? ==> r.log[i].payload.Name() == r.log[i].key && ValidName(r.log[i].key.service)))
  }

  lemma WriteKeepsJoint(r: Redis, p: Instance, token: Token, px: int)
    requires Joint(r) && ValidName(p.service) && px > 0
    ensures Joint(Write(r, p, token, px))
  {
    var n := Write(r, p, token, px);
    assert n.inst.Keys == r.inst.Keys + {p.Name()} == n.tok.Keys;
  }

  lemma AdvanceKeepsJoint(r: Redis, elapsed: nat)
    requires Joint(r)
    ensures Joint(Advance(r, elapsed))
  {
    var n := Advance(r, elapsed);
    assert n.inst.Keys == n.tok.Keys;
  }

  lemma EraseKeepsJoint(r: Redis, key: Key, named: Key)
    requires Joint(r)
    ensures Joint(Erase(r, key, named))
  {
    var n := Erase(r, key, named);
    assert n.inst.Keys == r.inst.Keys - {key} == n.tok.Keys;
  }

  lemma StepKeepsJoint(r: Redis, c: Command)
    requires Joint(r) && Legal(c)
    ensures Joint(Step(r, c))
  {
    if Answer(r, c).Done? {
      match c
      case Register(p, token, px) => WriteKeepsJoint(r, p, token, px);
      case Update(p, token, px) => WriteKeepsJoint(r, p, token, px);
      case Remove(key, named, _) => EraseKeepsJoint(r, key, named);
      case Prune(_, _) =>
      case Tick(elapsed) => AdvanceKeepsJoint(r, elapsed);
    }
  }

  /** How one command can affect one key. */
  lemma StepEffect(r: Redis, c: Command, k: Key)
    requires Joint(r)
    ensures var n := Step(r, c);
      && (k in n.inst <==> k in n.tok)
      && (Writes(r, c, k) ==>
            && k in n.inst
            && n.inst[k] == Cell(c.p, r.now + c.px * MILLISECOND)
            && n.tok[k].token == c.token
            && c.px > 0)
      && (Writes(r, c, k) && c.Register? ==> k !in r.inst)
      && (Writes(r, c, k) && c.Update? ==> k in r.inst && r.tok[k].token == c.token)
      && (Removes(r, c, k) ==> k in r.inst && r.tok[k].token == c.token && k !in n.inst)
      && (!Writes(r, c, k) && k in n.inst ==> k in r.inst && n.inst[k] == r.inst[k] && n.tok[k] == r.tok[k])
      && (k in r.inst && k !in n.inst ==> Removes(r, c, k) || (c.Tick? && r.inst[k].deadline < n.now))
  {
    hide ValidName;
    match c
    case Register(_, _, _) =>
    case Update(_, _, _) =>
    case Remove(_, _, _) =>
    case Prune(_, _) =>
    case Tick(_) =>
  }

  /** The command is a script, and it succeeds. */
  predicate Succeeds(r: Redis, c: Command) {
    (c.Register? || c.Update? || c.Remove?) && Answer(r, c).Done?
  }

  /** A script that succeeds answers the revision of the entry it logs, which is the last. */
  lemma AnswerIsEntry(r: Redis, c: Command)
    requires Joint(r) && Legal(c) && Succeeds(r, c)
    ensures var n, revision := Step(r, c), Answer(r, c).revision;
      && revision == n.revision == |n.log| == |r.log| + 1
      && n.log[revision - 1].revision == revision
      && n.log[revision - 1].key == (if c.Remove? then c.named else c.p.Name())
  {
    hide ValidName;
  }

  /** What a script is told when it is refused, and that nothing else refuses it. */
  lemma AnswerMeans(r: Redis, c: Command, k: Key)
    requires Joint(r) && (c.Register? || c.Update? || c.Remove?)
    requires k == if c.Remove? then c.key else c.p.Name()
    ensures Answer(r, c) == AlreadyRegistered <==> c.Register? && k in r.inst
    ensures Answer(r, c) == NotFound <==> !c.Register? && k !in r.inst
    ensures Answer(r, c) == LeaseNotOwned <==> !c.Register? && k in r.inst && r.tok[k].token != c.token
    ensures Answer(r, c) == BadExpire <==>
            && !c.Remove? && c.px <= 0
            && if c.Register? then k !in r.inst else k in r.inst && r.tok[k].token == c.token
    ensures !Answer(r, c).Done? ==> Step(r, c) == r
  {
    hide ValidName;
  }

  /** Later states extend earlier ones: the clock and the log only grow. */
  predicate Before(a: Redis, b: Redis) {
    && a.now <= b.now
    && a.log <= b.log
    && a.due <= b.due
  }

  lemma StepGrows(r: Redis, c: Command)
    ensures Before(r, Step(r, c))
  {
  }
}
