/**
 What list calls return while nothing changes: stretches of a run that leave the instances
 as they are, the listing every call in such a stretch gives, and paging through it.
 */
module Browsing {
  import opened Types
  import opened Keys
  import opened RedisModel
  import opened Runs
  import opened Filters
  import opened Listing
  import opened Watching
  import opened Ordering
  import opened Paging
  import opened Keyspace
  import opened Schedules
  import opened StoreModel
  import opened ServiceModel

  // ---------- Stretches that change nothing ----------

  /** The command leaves the instances alone: a prune, time in which no lease lapses, or a refused script. */
  ghost predicate KeepsInstances(r: Redis, c: Command) {
    match c
    case Prune(_, _) => true
    case Tick(elapsed) => forall k :: k in r.inst ==> r.now + elapsed <= r.inst[k].deadline
    case _ => !Answer(r, c).Done?
  }

  /** It also leaves them indexed: a prune takes only ids that are not live. */
  ghost predicate Idle(r: Redis, c: Command) {
    && KeepsInstances(r, c)
    && (c.Prune? ==> forall id :: id in c.ids ==> Key(c.service, id) !in r.inst)
  }

  ghost predicate Steady(run: Run, a: nat, b: nat)
    requires IsRun(run) && b < |run.trace|
  {
    forall j :: a <= j < b ==> KeepsInstances(run.trace[j], run.cmds[j])
  }

  ghost predicate Unchanged(run: Run, a: nat, b: nat)
    requires IsRun(run) && b < |run.trace|
  {
    forall j :: a <= j < b ==> Idle(run.trace[j], run.cmds[j])
  }

  /** The states agree on everything a listing of the service depends on. */
  ghost predicate SameView(a: Redis, b: Redis, service: string) {
    && a.inst == b.inst
    && forall id :: Key(service, id) in a.inst ==> (id in MembersOf(a, service) <==> id in MembersOf(b, service))
  }

  lemma StepKeepsInstances(r: Redis, c: Command)
    requires KeepsInstances(r, c)
    ensures var n := Step(r, c); n.inst == r.inst && n.services == r.services && n.log == r.log
  {
    if c.Tick? {
      assert Step(r, c).inst == r.inst;
    }
  }

  lemma {:induction false} SteadyKeepsInstances(run: Run, a: nat, b: nat)
    requires IsRun(run) && a <= b < |run.trace| && Steady(run, a, b)
    ensures var s, t := run.trace[a], run.trace[b]; t.inst == s.inst && t.services == s.services && t.log == s.log
  {
    hide Step;
    if a < b {
      SteadyKeepsInstances(run, a, b - 1);
      assert run.trace[b] == Step(run.trace[b - 1], run.cmds[b - 1]);
      StepKeepsInstances(run.trace[b - 1], run.cmds[b - 1]);
    }
  }

  lemma IdleKeepsView(r: Redis, c: Command, service: string)
    requires Idle(r, c)
    ensures SameView(r, Step(r, c), service)
  {
    StepKeepsInstances(r, c);
  }

  /** Over an unchanged stretch every service looks the same, and nothing is logged. */
  lemma {:induction false} UnchangedSameView(run: Run, a: nat, b: nat, service: string)
    requires IsRun(run) && a <= b < |run.trace| && Unchanged(run, a, b)
    ensures SameView(run.trace[a], run.trace[b], service)
    ensures run.trace[b].services == run.trace[a].services && run.trace[b].log == run.trace[a].log
  {
    hide Step;
    if a < b {
      UnchangedSameView(run, a, b - 1, service);
      assert run.trace[b] == Step(run.trace[b - 1], run.cmds[b - 1]);
      IdleKeepsView(run.trace[b - 1], run.cmds[b - 1], service);
      StepKeepsInstances(run.trace[b - 1], run.cmds[b - 1]);
    }
  }

  lemma StaleIsDead(run: Run, a: nat, s: Scan, n: nat, id: string)
    requires IsRun(run) && IsScan(run, s) && s.pruneAt == Some(n) && a <= s.enumAt
    requires n < |run.trace| && Unchanged(run, a, n) && id in StaleIds(s.gets)
    ensures Key(s.service, id) !in run.trace[n].inst
  {
    var i :| 0 <= i < |s.gets| && s.gets[i].found == None && s.gets[i].key.id == id;
    assert s.gets[i].key == Key(s.service, id);
    assert i < |s.gets| - 1 ==> s.gets[i].at <= s.gets[|s.gets| - 1].at;
    UnchangedSameView(run, a, s.gets[i].at, s.service);
    UnchangedSameView(run, a, n, s.service);
  }

  /** The calls' own prunes do not count: while all else is idle, what they take is not live. */
  lemma {:induction false} OwnPrunesIdle(run: Run, a: nat, b: nat, scans: seq<Scan>)
    requires IsRun(run) && a <= b < |run.trace|
    requires forall j :: 0 <= j < |scans| ==> IsScan(run, scans[j]) && a <= scans[j].enumAt
    requires forall n :: a <= n < b ==>
               || Idle(run.trace[n], run.cmds[n])
               || exists j :: 0 <= j < |scans| && scans[j].pruneAt == Some(n)
    ensures Unchanged(run, a, b)
  {
    hide IsScan, Step;
    if a < b {
      var n := b - 1;
      OwnPrunesIdle(run, a, n, scans);
      if !Idle(run.trace[n], run.cmds[n]) {
        var j :| 0 <= j < |scans| && scans[j].pruneAt == Some(n);
        PrunesStale(run, scans[j], n);
        forall id | id in StaleIds(scans[j].gets)
          ensures Key(scans[j].service, id) !in run.trace[n].inst
        {
          StaleIsDead(run, a, scans[j], n, id);
        }
      }
    }
  }

  lemma PrunesStale(run: Run, s: Scan, n: nat)
    requires IsScan(run, s) && s.pruneAt == Some(n)
    ensures n < |run.cmds| && run.cmds[n] == Prune(s.service, StaleIds(s.gets))
  {
  }

  // ---------- Undisturbed scans and calls ----------

  /** Every state the scan read had the instances of r, and its enumeration saw r's view of the service. */
  ghost predicate Undisturbed(run: Run, s: Scan, r: Redis) {
    && s.enumAt < |run.trace|
    && SameView(r, run.trace[s.enumAt], s.service)
    && forall i :: 0 <= i < |s.gets| ==> s.gets[i].at < |run.trace| && run.trace[s.gets[i].at].inst == r.inst
  }

  /** A scan in a steady stretch is undisturbed, prunes of live ids included once it has enumerated. */
  lemma SteadyUndisturbed(run: Run, s: Scan)
    requires IsRun(run) && IsScan(run, s) && s.revAt < |run.trace| && Steady(run, s.enumAt, s.revAt)
    ensures Undisturbed(run, s, run.trace[s.enumAt])
  {
    forall i | 0 <= i < |s.gets|
      ensures run.trace[s.gets[i].at].inst == run.trace[s.enumAt].inst
    {
      ReadInside(run, s, i);
      SteadyKeepsInstances(run, s.enumAt, s.gets[i].at);
    }
  }

  /** A scan in an unchanged stretch sees the state the stretch began with. */
  lemma UnchangedUndisturbed(run: Run, a: nat, b: nat, s: Scan)
    requires IsRun(run) && IsScan(run, s) && a <= s.enumAt && s.revAt <= b < |run.trace| && Unchanged(run, a, b)
    ensures Undisturbed(run, s, run.trace[a])
  {
    ScanSpan(run, s);
    UnchangedSameView(run, a, s.enumAt, s.service);
    forall i | 0 <= i < |s.gets|
      ensures run.trace[s.gets[i].at].inst == run.trace[a].inst
    {
      ReadInside(run, s, i);
      UnchangedSameView(run, a, s.gets[i].at, s.service);
    }
  }

  ghost predicate UndisturbedCall(run: Run, c: ListCall, r: Redis) {
    && (forall j :: 0 <= j < |c.scans| ==> Undisturbed(run, c.scans[j], r))
    && (c.source.AllServices? ==>
          c.source.namesAt < |run.trace| && run.trace[c.source.namesAt].services == r.services)
  }

  lemma UnchangedCall(run: Run, a: nat, b: nat, q: Query, c: ListCall)
    requires IsRun(run) && IsListCall(run, q, c) && a <= CallStart(c) && CallEnd(c) <= b < |run.trace|
    requires Unchanged(run, a, b)
    ensures UndisturbedCall(run, c, run.trace[a])
  {
    hide IsScan, Step;
    ResponseRevision(run, q, c);
    forall j | 0 <= j < |c.scans|
      ensures Undisturbed(run, c.scans[j], run.trace[a])
    {
      UnchangedUndisturbed(run, a, b, c.scans[j]);
    }
    UnchangedSameView(run, a, CallStart(c), "");
  }

  // ---------- A List on its own ----------

  /** With no other client about, the one command a List issues takes only ids that are not live. */
  lemma AloneUnchanged(before: Run, run: Run, s: Scan, pruned: bool)
    requires IsRun(before) && IsRun(run) && IsScan(run, s) && run == ListRun(before, [], s, pruned)
    requires OnSchedule(before, [], s, pruned)
    ensures |before.cmds| <= |run.cmds| && s.enumAt == |before.cmds| && s.revAt <= |run.cmds|
    ensures Continues(before, run) && Unchanged(run, |before.cmds|, |run.cmds|)
  {
    hide IsScan, Step, StaleIds;
    var n := |s.gets|;
    NothingBetween(1, n + 1);
    AfterNone(before);
    AfterNone(Cleaned(before, s.service, StaleIds(s.gets), pruned));
    ScanSpan(run, s);
    var scans := [s];
    forall m | |before.cmds| <= m < |run.cmds|
      ensures exists j :: 0 <= j < |scans| && scans[j].pruneAt == Some(m)
    {
      assert scans[0].pruneAt == Some(m);
    }
    OwnPrunesIdle(run, |before.cmds|, |run.cmds|, scans);
  }

  lemma DeadWasStale(run: Run, s: Scan, r: Redis, id: string)
    requires IsScan(run, s) && Undisturbed(run, s, r) && id in MembersOf(run.trace[s.enumAt], s.service)
    requires Key(s.service, id) !in r.inst
    ensures exists i :: 0 <= i < |s.gets| && s.gets[i].key.id == id && s.gets[i].found == None
  {
    var i :| 0 <= i < |s.gets| && s.gets[i].key == Key(s.service, id);
    assert s.gets[i].found == None;
  }

  /** Such a List, if its SREM reaches Redis, leaves exactly the live ids of the service indexed. */
  lemma AloneCleans(before: Run, run: Run, s: Scan, id: string)
    requires IsRun(before) && IsRun(run) && IsScan(run, s) && run == ListRun(before, [], s, true)
    requires OnSchedule(before, [], s, true)
    ensures id in MembersOf(run.Last(), s.service) <==>
            id in MembersOf(before.Last(), s.service) && Key(s.service, id) in before.Last().inst
  {
    hide IsScan, Step, MembersOf, Undisturbed;
    var a, b, k := |before.cmds|, |run.cmds|, Key(s.service, id);
    AloneUnchanged(before, run, s, true);
    assert run.trace[a] == before.Last();
    UnchangedUndisturbed(run, a, b, s);
    UnchangedSameView(run, a, b, s.service);
    AloneWrites(before, run, s);
    if k !in before.Last().inst && id in MembersOf(before.Last(), s.service) {
      DeadWasStale(run, s, before.Last(), id);
    }
    if s.pruneAt.Some? {
      PruneTakesStale(run, s, id);
    }
  }

  lemma AloneWrites(before: Run, run: Run, s: Scan)
    requires IsRun(before) && run == ListRun(before, [], s, true) && OnSchedule(before, [], s, true)
    ensures if exists i :: 0 <= i < |s.gets| && s.gets[i].found == None
            then s.pruneAt == Some(|before.cmds|) && |run.cmds| == |before.cmds| + 1
            else s.pruneAt == None && run == before
  {
    hide Step;
    NothingBetween(1, |s.gets| + 1);
    AfterNone(before);
    AfterNone(Cleaned(before, s.service, StaleIds(s.gets), true));
    if i :| 0 <= i < |s.gets| && s.gets[i].found == None {
      assert s.gets[i].key.id in StaleIds(s.gets);
    }
  }

  lemma SameReturns(run: Run, r: Redis, s: Scan, t: Scan)
    requires IsRun(run) && IsScan(run, s) && IsScan(run, t) && s.service == t.service
    requires Undisturbed(run, s, r) && Undisturbed(run, t, r)
    ensures multiset(FoundIn(s.gets)) == multiset(FoundIn(t.gets))
  {
    hide IsScan, Step, Undisturbed, FoundIn, Returned;
    ScanDistinct(run, s);
    ScanDistinct(run, t);
    forall v
      ensures v in FoundIn(s.gets) <==> v in FoundIn(t.gets)
    {
      UndisturbedReturns(run, s, r, v);
      UndisturbedReturns(run, t, r, v);
      FoundIffReturned(s, v);
      FoundIffReturned(t, v);
    }
    DistinctSameMembers(FoundIn(s.gets), FoundIn(t.gets), BY_NAME);
  }

  /**
   Listing does not disturb: a List with no other client about leaves every live instance
   stored and indexed as it was and logs nothing, and a second one returns the same values.
   */
  lemma ListRepeats(before: Run, mid: Run, run: Run, s: Scan, t: Scan, pruned: bool, again: bool)
    requires IsRun(before) && IsRun(mid) && IsRun(run) && s.service == t.service
    requires IsScan(mid, s) && mid == ListRun(before, [], s, pruned) && OnSchedule(before, [], s, pruned)
    requires IsScan(run, t) && run == ListRun(mid, [], t, again) && OnSchedule(mid, [], t, again)
    ensures forall service :: SameView(before.Last(), run.Last(), service)
    ensures run.Last().log == before.Last().log
    ensures multiset(FoundIn(t.gets)) == multiset(FoundIn(s.gets))
  {
    hide IsScan, Step, ListRun, OnSchedule, FoundIn, Undisturbed;
    var a, b := |before.cmds|, |run.cmds|;
    AloneUnchanged(before, mid, s, pruned);
    AloneUnchanged(mid, run, t, again);
    assert Unchanged(run, a, b) by {
      forall j | a <= j < b
        ensures Idle(run.trace[j], run.cmds[j])
      {
        if j < |mid.cmds| {
          assert Idle(mid.trace[j], mid.cmds[j]);
        }
      }
    }
    ScanContinues(mid, run, s);
    UnchangedUndisturbed(run, a, b, s);
    UnchangedUndisturbed(run, a, b, t);
    SameReturns(run, run.trace[a], s, t);
    forall service
      ensures SameView(before.Last(), run.Last(), service) && run.Last().log == before.Last().log
    {
      UnchangedSameView(run, a, b, service);
    }
  }

  /** What an undisturbed scan returns. */
  lemma UndisturbedReturns(run: Run, s: Scan, r: Redis, v: Instance)
    requires IsRun(run) && IsScan(run, s) && Undisturbed(run, s, r)
    ensures Returned(s, v) <==>
            && v.service == s.service
            && v.Name() in r.inst && r.inst[v.Name()].payload == v
            && v.id in MembersOf(r, s.service)
  {
    var ids := MembersOf(run.trace[s.enumAt], s.service);
    if Returned(s, v) {
      var i :| 0 <= i < |s.gets| && s.gets[i].found == Some(v);
      JointAlways(run, s.gets[i].at);
      assert s.gets[i].key == v.Name() == Key(s.service, v.id);
      assert v.id in ids;
    }
    if v.service == s.service && v.Name() in r.inst && r.inst[v.Name()].payload == v
       && v.id in MembersOf(r, s.service) {
      assert v.Name() == Key(s.service, v.id);
      assert v.id in ids;
      var i :| 0 <= i < |s.gets| && s.gets[i].key == Key(s.service, v.id);
      assert s.gets[i].found == Some(v);
    }
  }

  /** What a query lists in a state. */
  ghost predicate Visible(r: Redis, q: Query, v: Instance) {
    && v.Name() in r.inst && r.inst[v.Name()].payload == v
    && v.id in MembersOf(r, v.service)
    && (if q.service == "" then v.service in r.services else v.service == q.service)
    && Matches(v, q)
  }

  /** What an undisturbed call returns. */
  lemma CallReturns(run: Run, q: Query, c: ListCall, r: Redis, v: Instance)
    requires IsRun(run) && IsListCall(run, q, c) && UndisturbedCall(run, c, r)
    ensures Matches(v, q) && (exists j :: 0 <= j < |c.scans| && Returned(c.scans[j], v)) <==> Visible(r, q, v)
  {
    hide IsScan, Step, Matches, Returned;
    forall j | 0 <= j < |c.scans|
      ensures Returned(c.scans[j], v) <==>
              && v.service == c.scans[j].service
              && v.Name() in r.inst && r.inst[v.Name()].payload == v
              && v.id in MembersOf(r, v.service)
    {
      UndisturbedReturns(run, c.scans[j], r, v);
    }
    if Visible(r, q, v) {
      assert c.source.Named? ==> c.scans[0].service == v.service;
      var j :| 0 <= j < |c.scans| && c.scans[j].service == v.service;
      assert Returned(c.scans[j], v);
    }
  }

  // ---------- Nothing is listed twice ----------

  const BY_NAME: Instance -> Key := (v: Instance) => v.Name()

  lemma FoundNames(run: Run, service: string, enumAt: nat, gets: seq<Read>, j: nat)
    requires IsRun(run) && ReadsOf(run, service, enumAt, gets) && j < |gets| && gets[j].found.Some?
    ensures gets[j].found.value.Name() == gets[j].key && gets[j].key.service == service
  {
    hide ValidName, Step;
    JointAlways(run, gets[j].at);
  }

  lemma {:induction false} FoundDistinct(run: Run, service: string, enumAt: nat, gets: seq<Read>)
    requires IsRun(run) && ReadsOf(run, service, enumAt, gets)
    ensures DistinctKeys(FoundIn(gets), BY_NAME)
  {
    hide Step, Lookup;
    if |gets| > 0 {
      var front, last := gets[..|gets| - 1], gets[|gets| - 1];
      FoundDistinct(run, service, enumAt, front);
      if last.found.Some? {
        forall i | 0 <= i < |FoundIn(front)|
          ensures FoundIn(front)[i].Name() != last.found.value.Name()
        {
          FoundMember(front, FoundIn(front)[i]);
          var j :| 0 <= j < |front| && front[j].found == Some(FoundIn(front)[i]);
          assert gets[j] == front[j];
          FoundNames(run, service, enumAt, gets, j);
          FoundNames(run, service, enumAt, gets, |gets| - 1);
        }
      }
    }
  }

  lemma ReturnedService(run: Run, s: Scan, v: Instance)
    requires IsRun(run) && IsScan(run, s) && Returned(s, v)
    ensures v.service == s.service
  {
    var at := ReturnedWasLive(run, s, v);
  }

  lemma {:induction false} CollectedDistinct(run: Run, scans: seq<Scan>)
    requires IsRun(run) && forall j :: 0 <= j < |scans| ==> IsScan(run, scans[j])
    requires forall i, j :: 0 <= i < j < |scans| ==> scans[i].service != scans[j].service
    ensures DistinctKeys(Collected(scans), BY_NAME)
  {
    hide IsScan, Step, FoundIn, Returned;
    if |scans| > 0 {
      var front, last := scans[..|scans| - 1], scans[|scans| - 1];
      CollectedDistinct(run, front);
      ScanDistinct(run, last);
      forall v, u | v in Collected(front) && u in FoundIn(last.gets)
        ensures v.Name() != u.Name()
      {
        CollectedMember(front, v);
        var j :| 0 <= j < |front| && Returned(front[j], v);
        ReturnedService(run, scans[j], v);
        FoundIffReturned(last, u);
        ReturnedService(run, last, u);
      }
    }
  }

  lemma ScanDistinct(run: Run, s: Scan)
    requires IsRun(run) && IsScan(run, s)
    ensures DistinctKeys(FoundIn(s.gets), BY_NAME)
  {
    FoundDistinct(run, s.service, s.enumAt, s.gets);
  }

  lemma FoundIffReturned(s: Scan, v: Instance)
    ensures v in FoundIn(s.gets) <==> Returned(s, v)
  {
    FoundMember(s.gets, v);
  }

  lemma {:induction false} FilteredDistinct(values: seq<Instance>, q: Query)
    requires DistinctKeys(values, BY_NAME)
    ensures DistinctKeys(Filtered(values, q), BY_NAME)
  {
    if |values| > 0 {
      var front, last := values[..|values| - 1], values[|values| - 1];
      FilteredDistinct(front, q);
      forall i | 0 <= i < |Filtered(front, q)|
        ensures BY_NAME(Filtered(front, q)[i]) != BY_NAME(last)
      {
        FilteredMember(front, q, Filtered(front, q)[i]);
        var j :| 0 <= j < |front| && front[j] == Filtered(front, q)[i];
        assert values[j] == front[j];
      }
    }
  }

  // ---------- Listings and pages ----------

  /** Every visible instance once, in id order. */
  ghost predicate Lists(r: Redis, q: Query, s: seq<Instance>) {
    && Sorted(s, BY_ID)
    && DistinctKeys(s, BY_NAME)
    && forall v :: v in s <==> Visible(r, q, v)
  }

  /** No two visible instances share an id. */
  ghost predicate IdsDiffer(r: Redis, q: Query) {
    forall v, u :: Visible(r, q, v) && Visible(r, q, u) && v.id == u.id ==> v == u
  }

  /** Within one service they never do. */
  lemma OneServiceIdsDiffer(r: Redis, q: Query)
    requires q.service != ""
    ensures IdsDiffer(r, q)
  {
    hide Matches;
    forall v, u | Visible(r, q, v) && Visible(r, q, u) && v.id == u.id
      ensures v == u
    {
      assert v.Name() == u.Name();
    }
  }

  /** Filtered and sorted in any way, an undisturbed call gives the listing of its state. */
  lemma UndisturbedLists(run: Run, q: Query, c: ListCall, r: Redis, sorted: seq<Instance>)
    requires IsRun(run) && IsListCall(run, q, c) && UndisturbedCall(run, c, r)
    requires Sorted(sorted, BY_ID) && multiset(sorted) == multiset(Filtered(Collected(c.scans), q))
    ensures Lists(r, q, sorted)
  {
    hide IsScan, Undisturbed, Filtered, Collected, Sorted, Visible, Matches, Step;
    var values := Collected(c.scans);
    CollectedDistinct(run, c.scans);
    FilteredDistinct(values, q);
    DistinctPermutes(Filtered(values, q), sorted, BY_NAME);
    SameMembers(sorted, Filtered(values, q));
    forall v
      ensures v in sorted <==> Visible(r, q, v)
    {
      FilteredMember(values, q, v);
      CollectedMember(c.scans, v);
      CallReturns(run, q, c, r, v);
    }
  }

  lemma ListingUntied(r: Redis, q: Query, s: seq<Instance>)
    requires forall v :: v in s <==> Visible(r, q, v)
    ensures Untied(s, BY_ID) <==> IdsDiffer(r, q)
  {
    hide Visible;
    if Untied(s, BY_ID) {
      forall v, u | Visible(r, q, v) && Visible(r, q, u) && v.id == u.id
        ensures v == u
      {
        assert v in s && u in s && BY_ID(v) == BY_ID(u);
      }
    }
  }

  /**
   When the pages of a query cover its answer: for one service always, and for a query by
   selector exactly if no two visible instances of different services share an id.
   */
  lemma PagingExact(run: Run, q: Query, c: ListCall, r: Redis)
    requires IsRun(run) && IsListCall(run, q, c) && UndisturbedCall(run, c, r)
    ensures CoversOnce(Filtered(Collected(c.scans), q), BY_ID) <==> IdsDiffer(r, q)
    ensures q.service != "" ==> CoversOnce(Filtered(Collected(c.scans), q), BY_ID)
  {
    hide IsScan, Undisturbed, Filtered, Collected, Visible, CoversOnce, Step, Untied, IdsDiffer;
    var values := Filtered(Collected(c.scans), q);
    var sorted := SortedPermutation(values, BY_ID);
    UndisturbedLists(run, q, c, r, sorted);
    SameMembers(sorted, values);
    ListingUntied(r, q, values);
    CoversOnceIff(values, BY_ID);
    if q.service != "" {
      OneServiceIdsDiffer(r, q);
    }
  }

  /** The calls fall into the stretch from a to b, and each listing is what its call sorted. */
  ghost predicate CallsWithin(run: Run, a: nat, b: nat, q: Query, calls: seq<ListCall>, listings: seq<seq<Instance>>)
    requires IsRun(run) && b < |run.trace|
  {
    && |calls| == |listings|
    && forall i :: 0 <= i < |calls| ==>
         && IsListCall(run, q, calls[i]) && a <= CallStart(calls[i]) && CallEnd(calls[i]) <= b
         && Sorted(listings[i], BY_ID)
         && multiset(listings[i]) == multiset(Filtered(Collected(calls[i].scans), q))
  }

  lemma CallListing(run: Run, a: nat, b: nat, q: Query, calls: seq<ListCall>, listings: seq<seq<Instance>>, i: nat)
    requires IsRun(run) && b < |run.trace| && Unchanged(run, a, b)
    requires CallsWithin(run, a, b, q, calls, listings) && i < |calls|
    ensures a <= b && Lists(run.trace[a], q, listings[i])
  {
    hide IsScan, Undisturbed, Filtered, Collected, Sorted, Step, Lists, Unchanged;
    ResponseRevision(run, q, calls[i]);
    UnchangedCall(run, a, b, q, calls[i]);
    UndisturbedLists(run, q, calls[i], run.trace[a], listings[i]);
  }

  /**
   Paging covers everything once.  Each call sees the set members in its own order; over an
   unchanged stretch of the run, pages 1, 2, ... give every visible instance exactly once,
   in id order, and nothing follows, provided no two of them share an id.
   */
  lemma PagingCoversOnce(run: Run, a: nat, b: nat, q: Query, calls: seq<ListCall>,
                         listings: seq<seq<Instance>>, size: int)
    requires IsRun(run) && b < |run.trace| && Unchanged(run, a, b)
    requires CallsWithin(run, a, b, q, calls, listings) && a < |run.trace|
    requires q.service != "" || IdsDiffer(run.trace[a], q)
    requires |calls| > 0 && size > 0 && |calls| * size >= |listings[0]|
    ensures FetchAll(listings, size) == listings[0] && Lists(run.trace[a], q, listings[0])
    ensures forall i, later ::
              0 <= i < |listings| && later > |listings| ==> PageOf(listings[i], later, size) == []
  {
    hide IsScan, Filtered, Collected, Sorted, Step, Visible, FetchAll, Unchanged, Untied, IdsDiffer, IsListCall;
    var r := run.trace[a];
    if q.service != "" {
      OneServiceIdsDiffer(r, q);
    }
    CallListing(run, a, b, q, calls, listings, 0);
    forall i | 0 <= i < |listings|
      ensures Sorted(listings[i], BY_ID) && multiset(listings[i]) == multiset(listings[0])
    {
      CallListing(run, a, b, q, calls, listings, i);
      DistinctSameMembers(listings[i], listings[0], BY_NAME);
    }
    ListingUntied(r, q, listings[0]);
    UntiedPages(listings[0], BY_ID, listings, size);
  }
}
