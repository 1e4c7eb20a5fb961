/**
 Listing under interleaving.  A scan is one Store.List call: SMEMBERS, one GET per id,
 SREM of the ids found stale, GET of the revision, each at its own instant of the run.
 */
module Listing {
  import opened Types
  import opened Keys
  import opened RedisModel
  import opened Runs
  import opened Replay

  datatype Read = Read(at: nat, key: Key, found: Option<Instance>)

  /** pruneAt is None when there was nothing to prune or the SREM failed, which List ignores. */
  datatype Scan = Scan(
    service: string,
    enumAt: nat,
    gets: seq<Read>,
    pruneAt: Option<nat>,
    revAt: nat)

  function StaleIds(gets: seq<Read>): set<string> {
    set i | 0 <= i < |gets| && gets[i].found == None :: gets[i].key.id
  }

  /** The last instant used by the GETs, or the instant before them. */
  function ReadsEnd(start: nat, gets: seq<Read>): nat {
    if |gets| == 0 then start else gets[|gets| - 1].at
  }

  /** The entries are GETs of the enumerated ids at non-decreasing instants. */
  ghost predicate ReadsOf(run: Run, service: string, enumAt: nat, gets: seq<Read>) {
    && (forall i :: 0 <= i < |gets| ==>
          && enumAt <= gets[i].at < |run.trace|
          && gets[i].key.service == service
          && gets[i].found == Lookup(run.trace[gets[i].at], gets[i].key))
    && (forall i, j :: 0 <= i < j < |gets| ==> gets[i].at <= gets[j].at && gets[i].key != gets[j].key)
  }

  /** The GETs are of exactly the given ids. */
  ghost predicate Covers(ids: set<string>, service: string, gets: seq<Read>) {
    forall id :: id in ids <==> exists i :: 0 <= i < |gets| && gets[i].key == Key(service, id)
  }

  ghost predicate IsScan(run: Run, s: Scan) {
    && s.enumAt < |run.trace|
    && ReadsOf(run, s.service, s.enumAt, s.gets)
    && Covers(MembersOf(run.trace[s.enumAt], s.service), s.service, s.gets)
    && ReadsEnd(s.enumAt, s.gets) <= s.revAt < |run.trace|
    && (s.pruneAt.Some? ==>
          && ReadsEnd(s.enumAt, s.gets) <= s.pruneAt.value < s.revAt
          && s.pruneAt.value < |run.cmds|
          && run.cmds[s.pruneAt.value] == Prune(s.service, StaleIds(s.gets)))
  }

  ghost predicate Returned(s: Scan, v: Instance) {
    exists i :: 0 <= i < |s.gets| && s.gets[i].found == Some(v)
  }

  /** Every read of a scan happened between the enumeration and the revision read. */
  lemma ReadInside(run: Run, s: Scan, i: nat)
    requires IsScan(run, s) && i < |s.gets|
    ensures s.enumAt <= s.gets[i].at <= s.revAt
  {
    assert i < |s.gets| - 1 ==> s.gets[i].at <= s.gets[|s.gets| - 1].at;
  }

  /** Soundness: whatever a scan returns was live at its own key at an instant of the call. */
  lemma ReturnedWasLive(run: Run, s: Scan, v: Instance) returns (at: nat)
    requires IsRun(run) && IsScan(run, s) && Returned(s, v)
    ensures s.enumAt <= at <= s.revAt
    ensures v.service == s.service
    ensures v.Name() in run.trace[at].inst && run.trace[at].inst[v.Name()].payload == v
  {
    var i :| 0 <= i < |s.gets| && s.gets[i].found == Some(v);
    ReadInside(run, s, i);
    at := s.gets[i].at;
    JointAlways(run, at);
  }

  /**
   Completeness: a key that was indexed when the scan enumerated and live throughout is
   returned, once, with a payload it held during the call.
   */
  lemma LiveIsReturned(run: Run, s: Scan, id: string) returns (i: nat)
    requires IsRun(run) && IsScan(run, s)
    requires id in MembersOf(run.trace[s.enumAt], s.service)
    requires forall j :: s.enumAt <= j <= s.revAt ==> Key(s.service, id) in run.trace[j].inst
    ensures i < |s.gets| && s.gets[i].key == Key(s.service, id)
    ensures s.gets[i].found.Some? && Returned(s, s.gets[i].found.value)
    ensures s.enumAt <= s.gets[i].at <= s.revAt
    ensures s.gets[i].found.value == run.trace[s.gets[i].at].inst[Key(s.service, id)].payload
    ensures forall j :: 0 <= j < |s.gets| && s.gets[j].key == Key(s.service, id) ==> j == i
  {
    i :| 0 <= i < |s.gets| && s.gets[i].key == Key(s.service, id);
    ReadInside(run, s, i);
  }

  // ---------- The index of members ----------

  /** If the key is live, it is in its service's member set, and its service is known. */
  predicate IndexedKey(r: Redis, k: Key) {
    k in r.inst ==> k.service in r.services && k.id in MembersOf(r, k.service)
  }

  /** Every live instance is in its service's member set, and its service is known. */
  ghost predicate Indexed(r: Redis) {
    forall k :: k in r.inst ==> k.service in r.services && k.id in MembersOf(r, k.service)
  }

  lemma RegisterIndexes(r: Redis, p: Instance, token: Token, px: int)
    requires Indexed(r)
    ensures Indexed(Index(Write(r, p, token, px), p.Name()))
  {
    var n := Index(Write(r, p, token, px), p.Name());
    assert forall s :: MembersOf(r, s) <= MembersOf(n, s);
  }

  lemma EraseKeepsIndex(r: Redis, key: Key, named: Key)
    requires Indexed(r) && (key == named || named !in r.inst)
    ensures Indexed(Erase(r, key, named))
  {
    var n := Erase(r, key, named);
    assert forall s :: MembersOf(n, s) == MembersOf(r, s) - if s == named.service then {named.id} else {};
  }

  lemma PruneKeepsIndexIff(r: Redis, service: string, ids: set<string>)
    requires Indexed(r)
    ensures Indexed(Unindex(r, service, ids)) <==> !(exists id :: id in ids && Key(service, id) in r.inst)
  {
    var n := Unindex(r, service, ids);
    assert forall s :: MembersOf(n, s) == MembersOf(r, s) - if s == service then ids else {};
    if id :| id in ids && Key(service, id) in r.inst {
      assert Key(service, id) in n.inst && id !in MembersOf(n, service);
    }
  }

  /** A command breaks the index exactly when it prunes an id that is live. */
  lemma StepIndexed(r: Redis, c: Command)
    requires Joint(r) && Legal(c) && Indexed(r)
    ensures Indexed(Step(r, c)) <==> !(c.Prune? && exists id :: id in c.ids && Key(c.service, id) in r.inst)
  {
    hide ValidName;
    if Answer(r, c).Done? {
      match c
      case Register(p, token, px) => RegisterIndexes(r, p, token, px);
      case Update(p, _, _) => assert p.Name() in r.inst;
      case Remove(key, named, _) => EraseKeepsIndex(r, key, named);
      case Prune(service, ids) => PruneKeepsIndexIff(r, service, ids);
      case Tick(_) =>
    }
  }

  /** The race for k: a registration landed after this scan found k stale and still stands at n. */
  ghost predicate Raced(run: Run, s: Scan, k: Key, n: nat)
    requires n < |run.trace|
  {
    exists i, m ::
      && 0 <= i < |s.gets|
      && s.gets[i].key == k
      && s.gets[i].found == None
      && s.gets[i].at <= m < n
      && Registered(run, m, k)
      && LiveBetween(run, k, m, n)
  }

  lemma LiveStaleMeansRaced(run: Run, s: Scan, k: Key)
    requires IsRun(run) && IsScan(run, s) && s.pruneAt.Some? && k.service == s.service
    requires k.id in StaleIds(s.gets) && k in run.trace[s.pruneAt.value].inst
    ensures Raced(run, s, k, s.pruneAt.value)
  {
    hide Step, Answer;
    var i :| 0 <= i < |s.gets| && s.gets[i].found == None && s.gets[i].key.id == k.id;
    assert s.gets[i].key == k;
    assert i < |s.gets| - 1 ==> s.gets[i].at <= s.gets[|s.gets| - 1].at;
    var m := NoResurrection(run, k, s.gets[i].at, s.pruneAt.value);
  }

  lemma RacedMeansLiveStale(run: Run, s: Scan, k: Key, n: nat)
    requires IsScan(run, s) && n < |run.trace| && Raced(run, s, k, n)
    ensures k.service == s.service && k.id in StaleIds(s.gets) && k in run.trace[n].inst
  {
    var i, m :|
      && 0 <= i < |s.gets|
      && s.gets[i].key == k
      && s.gets[i].found == None
      && s.gets[i].at <= m < n
      && Registered(run, m, k)
      && LiveBetween(run, k, m, n);
    assert s.gets[i].key.id in StaleIds(s.gets);
  }

  /** The prune of a scan drops a live, indexed key from the index exactly when that race happened. */
  lemma PruneDropsIffRaced(run: Run, s: Scan, k: Key)
    requires IsRun(run) && IsScan(run, s) && s.pruneAt.Some?
    requires k in run.trace[s.pruneAt.value].inst && k.id in MembersOf(run.trace[s.pruneAt.value], k.service)
    ensures k.id !in MembersOf(run.trace[s.pruneAt.value + 1], k.service) <==> Raced(run, s, k, s.pruneAt.value)
  {
    hide Raced, ReadsOf, Covers, StaleIds;
    var n := s.pruneAt.value;
    assert run.trace[n + 1] == Step(run.trace[n], run.cmds[n]);
    if k.service == s.service && k.id in StaleIds(s.gets) {
      LiveStaleMeansRaced(run, s, k);
    }
    if Raced(run, s, k, n) {
      RacedMeansLiveStale(run, s, k, n);
    }
  }

  /** The prune of a scan takes every id whose GET found nothing, and no other, from the index. */
  lemma PruneTakesStale(run: Run, s: Scan, id: string)
    requires IsRun(run) && IsScan(run, s) && s.pruneAt.Some?
    ensures var n := s.pruneAt.value;
      id in MembersOf(run.trace[n + 1], s.service) <==>
        && id in MembersOf(run.trace[n], s.service)
        && !exists i :: 0 <= i < |s.gets| && s.gets[i].key.id == id && s.gets[i].found == None
  {
    hide ReadsOf, Covers;
    var n := s.pruneAt.value;
    assert run.trace[n + 1] == Step(run.trace[n], run.cmds[n]);
    if id in StaleIds(s.gets) {
      var i :| 0 <= i < |s.gets| && s.gets[i].found == None && s.gets[i].key.id == id;
    }
    if i :| 0 <= i < |s.gets| && s.gets[i].key.id == id && s.gets[i].found == None {
      assert s.gets[i].key.id in StaleIds(s.gets);
    }
  }

  /** The command takes k out of its member set by SREM. */
  predicate Prunes(c: Command, k: Key) {
    c.Prune? && c.service == k.service && k.id in c.ids
  }

  /** What one command does to the index entry of a key that stays live. */
  lemma StepKeepsIndexed(r: Redis, c: Command, k: Key)
    requires Joint(r) && Legal(c) && k in r.inst && k in Step(r, c).inst
    ensures var n := Step(r, c);
      && (k.id in MembersOf(n, k.service) <==> k.id in MembersOf(r, k.service) && !Prunes(c, k))
      && (k.service in r.services ==> k.service in n.services)
  {
    hide ValidName;
    match c
    case Register(_, _, _) =>
    case Update(_, _, _) =>
    case Remove(_, _, _) =>
    case Prune(_, _) =>
    case Tick(_) =>
  }

  lemma RegisteredIndexed(run: Run, m: nat, k: Key)
    requires IsRun(run) && Registered(run, m, k)
    ensures k.service in run.trace[m + 1].services && k.id in MembersOf(run.trace[m + 1], k.service)
  {
    assert run.trace[m + 1] == Step(run.trace[m], run.cmds[m]);
  }

  /**
   While a registration stands, its instance is indexed exactly if no prune has taken its id
   since, whatever happened to other keys.
   */
  lemma {:induction false} IndexedIffUnpruned(run: Run, k: Key, m: nat, i: nat)
    requires IsRun(run) && Registered(run, m, k) && m < i < |run.trace| && LiveBetween(run, k, m, i)
    ensures k.service in run.trace[i].services
    ensures k.id in MembersOf(run.trace[i], k.service) <==> forall j :: m < j < i ==> !Prunes(run.cmds[j], k)
    decreases i
  {
    hide Step, Answer, MembersOf, Prunes;
    if i == m + 1 {
      RegisteredIndexed(run, m, k);
    } else {
      IndexedIffUnpruned(run, k, m, i - 1);
      var r, c := run.trace[i - 1], run.cmds[i - 1];
      JointAlways(run, i - 1);
      assert Legal(c) && run.trace[i] == Step(r, c);
      StepKeepsIndexed(r, c, k);
    }
  }

  /** Every prune of k up to i was issued by a scan that no registration of k raced. */
  ghost predicate PrunesUnraced(run: Run, scans: seq<Scan>, k: Key, i: nat)
    requires i < |run.trace|
  {
    forall n {:trigger run.cmds[n]} :: 0 <= n < i && n < |run.cmds| && Prunes(run.cmds[n], k) ==>
      exists j ::
        0 <= j < |scans| && IsScan(run, scans[j]) && scans[j].pruneAt == Some(n) && !Raced(run, scans[j], k, n)
  }

  lemma LivePruneRaced(run: Run, s: Scan, k: Key, n: nat)
    requires IsRun(run) && IsScan(run, s) && s.pruneAt == Some(n) && n < |run.cmds|
    requires Prunes(run.cmds[n], k) && k in run.trace[n].inst
    ensures Raced(run, s, k, n)
  {
    LiveStaleMeansRaced(run, s, k);
  }

  /** A key whose prunes were not raced is indexed whenever it is live, in every reachable state. */
  lemma KeyIndexed(run: Run, scans: seq<Scan>, k: Key, i: nat)
    requires IsRun(run) && i < |run.trace| && PrunesUnraced(run, scans, k, i)
    ensures IndexedKey(run.trace[i], k)
  {
    hide IsScan, Step, Answer, Raced, Prunes;
    if k in run.trace[i].inst {
      var m := Incarnation(run, i, k);
      assert LiveBetween(run, k, m, i);
      IndexedIffUnpruned(run, k, m, i);
      forall n | m < n < i && Prunes(run.cmds[n], k)
        ensures false
      {
        var j :| 0 <= j < |scans| && IsScan(run, scans[j]) && scans[j].pruneAt == Some(n)
                 && !Raced(run, scans[j], k, n);
        LivePruneRaced(run, scans[j], k, n);
      }
    }
  }

  /** So without such races the index is complete in every reachable state. */
  lemma IndexComplete(run: Run, scans: seq<Scan>, i: nat)
    requires IsRun(run) && i < |run.trace| && forall k :: PrunesUnraced(run, scans, k, i)
    ensures Indexed(run.trace[i])
  {
    hide IsScan, Step, PrunesUnraced;
    forall k | k in run.trace[i].inst
      ensures k.service in run.trace[i].services && k.id in MembersOf(run.trace[i], k.service)
    {
      KeyIndexed(run, scans, k, i);
    }
  }

  /** An instance pruned by mistake stays out of the index until it is registered again. */
  lemma {:induction false} LostUntilRegistered(run: Run, k: Key, a: nat, b: nat)
    requires IsRun(run) && a <= b < |run.trace|
    requires k.id !in MembersOf(run.trace[a], k.service)
    requires forall j :: a <= j < b ==> !Registered(run, j, k)
    ensures k.id !in MembersOf(run.trace[b], k.service)
    decreases b
  {
    if a < b {
      LostUntilRegistered(run, k, a, b - 1);
      assert run.trace[b] == Step(run.trace[b - 1], run.cmds[b - 1]);
      assert !Registered(run, b - 1, k);
    }
  }

  /** One command keeps every indexed key's last log entry an upsert. */
  lemma StepKeepsMembersUpserted(r: Redis, c: Command, k: Key)
    requires Joint(r)
    requires k.id in MembersOf(Step(r, c), k.service)
    requires k.id in MembersOf(r, k.service) ==> LastFor(r.log, k) >= 0 && r.log[LastFor(r.log, k)].Upserted?
    ensures var log := Step(r, c).log; LastFor(log, k) >= 0 && log[LastFor(log, k)].Upserted?
  {
    hide ValidName;
    if Answer(r, c).Done? {
      match c
      case Register(p, _, _) => LastForAppend(r.log, Upserted(r.revision + 1, p.Name(), p), k);
      case Update(p, _, _) => LastForAppend(r.log, Upserted(r.revision + 1, p.Name(), p), k);
      case Remove(_, named, _) => LastForAppend(r.log, Deleted(r.revision + 1, named), k);
      case Prune(_, _) =>
      case Tick(_) =>
    }
  }

  lemma NoMembers(r: Redis, service: string)
    requires r.members == map[]
    ensures MembersOf(r, service) == {}
  {
  }

  lemma {:induction false} MembersUpserted(run: Run, i: nat, k: Key)
    requires IsRun(run) && i < |run.trace|
    requires k.id in MembersOf(run.trace[i], k.service)
    ensures var log := run.trace[i].log; LastFor(log, k) >= 0 && log[LastFor(log, k)].Upserted?
  {
    hide Step, Answer, Legal, MembersOf;
    assert i > 0 by {
      NoMembers(run.trace[0], k.service);
    }
    var r, c := run.trace[i - 1], run.cmds[i - 1];
    assert run.trace[i] == Step(r, c);
    JointAlways(run, i - 1);
    if k.id in MembersOf(r, k.service) {
      MembersUpserted(run, i - 1, k);
    }
    StepKeepsMembersUpserted(r, c, k);
  }

  /** An indexed id that is not live is a lease that lapsed, or one removed under another name. */
  lemma StaleOnlyByLapse(run: Run, i: nat, k: Key)
    requires IsRun(run) && i < |run.trace|
    requires k.id in MembersOf(run.trace[i], k.service) && k !in run.trace[i].inst
    ensures var r := run.trace[i]; var n := LastFor(r.log, k);
      && n >= 0 && n < |r.due| && r.log[n].Upserted?
      && (r.due[n] < r.now <==> forall j: nat :: !Misaddressed(run, j, i, k))
  {
    hide Step, Misaddressed;
    MembersUpserted(run, i, k);
    JointAlways(run, i);
    GapIffMisaddressed(run, i, k);
  }
}
