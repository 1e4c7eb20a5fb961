/** ListServices: summaries whose counts add up to the live instances, and paging through them. */
module Summaries {
  import opened Types
  import opened Keys
  import opened RedisModel
  import opened Runs
  import opened Filters
  import opened Listing
  import opened Watching
  import opened Ordering
  import opened Paging
  import opened Keyspace
  import opened Schedules
  import opened StoreModel
  import opened ServiceModel
  import opened Browsing

  // ---------- Summaries ----------

  datatype Summary = Summary(service: string, healthy: nat, draining: nat)

  const BY_SERVICE: Summary -> string := (s: Summary) => s.service

  function CountStatus(values: seq<Instance>, status: Status): nat {
    if |values| == 0 then 0
    else CountStatus(values[..|values| - 1], status) + if values[|values| - 1].status == status then 1 else 0
  }

  function Summarize(s: Scan): Summary {
    Summary(s.service, CountStatus(FoundIn(s.gets), Healthy), CountStatus(FoundIn(s.gets), Draining))
  }

  /** The summaries of the scans that found something to count. */
  function Summarized(scans: seq<Scan>): seq<Summary> {
    if |scans| == 0 then []
    else
      var s := Summarize(scans[|scans| - 1]);
      Summarized(scans[..|scans| - 1]) + if s.healthy + s.draining > 0 then [s] else []
  }

  function Total(summaries: seq<Summary>): nat {
    if |summaries| == 0 then 0
    else
      var s := summaries[|summaries| - 1];
      Total(summaries[..|summaries| - 1]) + s.healthy + s.draining
  }

  /** The counting loop over one service's instances. */
  method CountInstances(values: seq<Instance>) returns (healthy: nat, draining: nat)
    ensures healthy == CountStatus(values, Healthy) && draining == CountStatus(values, Draining)
  {
    healthy, draining := 0, 0;
    for i := 0 to |values|
      invariant healthy == CountStatus(values[..i], Healthy) && draining == CountStatus(values[..i], Draining)
    {
      assert values[..i + 1][..i] == values[..i];
      match values[i].status {
        case Healthy => healthy := healthy + 1;
        case Draining => draining := draining + 1;
        case _ =>
      }
    }
    assert values[..|values|] == values;
  }

  /** One ListServices call: SMEMBERS of the services, the revision, and a scan per name with the prefix. */
  datatype ServicesCall = ServicesCall(namesAt: nat, revAt: nat, names: seq<string>, scans: seq<Scan>)

  ghost predicate IsServicesCall(run: Run, prefix: string, c: ServicesCall) {
    && c.namesAt <= c.revAt < |run.trace|
    && (forall s :: s in c.names <==> s in run.trace[c.namesAt].services && prefix <= s)
    && (forall i, j :: 0 <= i < j < |c.names| ==> c.names[i] != c.names[j])
    && |c.scans| == |c.names| && ScansOf(run, c.names, c.revAt, c.scans)
  }

  /** Service.listServices. */
  method ListServices(store: Store, prefix: string, page: int64, size: int64,
                      env0: seq<Command>, env: seq<seq<seq<Command>>>, pruned: bool)
    returns (listed: seq<Summary>, total: nat, revision: nat, ghost call: ServicesCall, ghost sorted: seq<Summary>)
    requires store.Valid()
    modifies store
    ensures store.Valid() && Continues(old(store.run), store.run)
    ensures IsServicesCall(store.run, prefix, call) && call.namesAt == |old(store.run).cmds|
    ensures Sorted(sorted, BY_SERVICE) && multiset(sorted) == multiset(Summarized(call.scans))
    ensures listed == PageOf(sorted, page as int, size as int) && total == |sorted|
    ensures revision == |store.run.trace[call.revAt].log|
    ensures store.run == ScansRun(After(old(store.run), env0), env, call.scans, pruned)
    ensures call.revAt == |After(old(store.run), env0).cmds|
  {
    hide ScansRun, ListRun, OnSchedule, After, Slots;
    hide Flatten, FlatKeys, ValidName, IsScan, FoundIn, Sorted, CountStatus, ScansOf, Summarized, Continues;
    var all;
    ghost var namesAt;
    all, revision, namesAt := store.Services(env0);
    ghost var named := store.run;
    JointAlways(named, |named.cmds|);
    ghost var names: seq<string>, scans: seq<Scan> := [], [];
    NoScans(store.run, |named.cmds|);
    NoScansRun(named, env, pruned);
    Unmoved(named);
    var summaries: seq<Summary>, scanned := [], 0;
    for i := 0 to |all|
      invariant store.Valid() && Continues(named, store.run)
      invariant forall s :: s in names <==> s in all[..i] && prefix <= s
      invariant forall i, j :: 0 <= i < j < |names| ==> names[i] != names[j]
      invariant |scans| == |names| && ScansOf(store.run, names, |named.cmds|, scans)
      invariant summaries == Summarized(scans) && scanned == |scans|
      invariant store.run == ScansRun(named, env, scans, pruned)
    {
      var name := all[i];
      assert name !in all[..i];
      if prefix != "" && !(prefix <= name) {
        continue;
      }
      ghost var before := store.run;
      var found, current;
      ghost var scan;
      found, current, scan := store.List(name, EnvAt(env, scanned), pruned);
      scanned := scanned + 1;
      ScansRunMore(named, env, scans, scan, pruned);
      Chain(named, before, store.run);
      Kept(named, before, |named.cmds|);
      NamesGrow(before, names, name, |named.cmds|, scans);
      ScansAppend(before, store.run, names + [name], |named.cmds|, scans, scan);
      names := names + [name];
      var healthy, draining := CountInstances(found);
      SummarizedAppend(scans, scan);
      scans := scans + [scan];
      if healthy + draining > 0 {
        summaries := summaries + [Summary(name, healthy, draining)];
      }
    }
    assert all[..|all|] == all;
    Chain(old(store.run), named, store.run);
    Kept(named, store.run, namesAt);
    Kept(named, store.run, |named.cmds|);
    call := ServicesCall(namesAt, |named.cmds|, names, scans);
    var arranged := SortSlice(summaries, BY_SERVICE);
    sorted := arranged;
    listed, total := Page(arranged, page, size), |arranged|;
  }

  lemma Kept(a: Run, b: Run, i: nat)
    requires Continues(a, b) && i < |a.trace|
    ensures i < |b.trace| && b.trace[i] == a.trace[i]
  {
  }

  lemma NoScans(run: Run, from: nat)
    ensures ScansOf(run, [], from, []) && Summarized([]) == []
  {
  }

  lemma NoScansRun(run: Run, env: seq<seq<seq<Command>>>, pruned: bool)
    requires |run.trace| > 0
    ensures ScansRun(run, env, [], pruned) == run
  {
  }

  lemma NamesGrow(before: Run, names: seq<string>, name: string, from: nat, scans: seq<Scan>)
    requires ScansOf(before, names, from, scans) && |scans| == |names|
    ensures ScansOf(before, names + [name], from, scans)
  {
  }

  // ---------- Conservation ----------

  ghost function KeysFound(gets: seq<Read>, status: Status): set<Key> {
    set i | 0 <= i < |gets| && gets[i].found.Some? && gets[i].found.value.status == status :: gets[i].key
  }

  lemma CountAppend(values: seq<Instance>, v: Instance, status: Status)
    ensures CountStatus(values + [v], status) == CountStatus(values, status) + if v.status == status then 1 else 0
  {
    assert (values + [v])[..|values|] == values;
  }

  lemma {:induction false} CountIsCardinality(gets: seq<Read>, status: Status)
    requires forall i, j :: 0 <= i < j < |gets| ==> gets[i].key != gets[j].key
    ensures CountStatus(FoundIn(gets), status) == |KeysFound(gets, status)|
  {
    hide CountStatus;
    if |gets| == 0 {
      NoneCounted(status);
    } else {
      var front, last := gets[..|gets| - 1], gets[|gets| - 1];
      CountIsCardinality(front, status);
      KeysFoundGrow(front, last, status);
      assert front + [last] == gets;
      if last.found.Some? {
        CountAppend(FoundIn(front), last.found.value, status);
      } else {
        assert FoundIn(gets) == FoundIn(front);
      }
    }
  }

  lemma NoneCounted(status: Status)
    ensures CountStatus([], status) == 0 && KeysFound([], status) == {}
  {
  }

  lemma KeysFoundGrow(front: seq<Read>, last: Read, status: Status)
    requires forall i :: 0 <= i < |front| ==> front[i].key != last.key
    ensures var more := if last.found.Some? && last.found.value.status == status then {last.key} else {};
      && KeysFound(front + [last], status) == KeysFound(front, status) + more
      && KeysFound(front, status) !! more
  {
    var all := front + [last];
    forall k
      ensures k in KeysFound(all, status) <==>
              k in KeysFound(front, status) || (last.found.Some? && last.found.value.status == status && k == last.key)
    {
      if k in KeysFound(front, status) {
        var i :| 0 <= i < |front| && front[i].found.Some? && front[i].found.value.status == status && front[i].key == k;
        assert all[i] == front[i];
      }
      assert all[|front|] == last;
    }
  }

  /** The live keys of a service with a given status. */
  ghost function LiveWith(r: Redis, service: string, status: Status): set<Key> {
    set k | k in r.inst && k.service == service && r.inst[k].payload.status == status
  }

  /** The summary of a service with the prefix that has something to count. */
  ghost predicate IsSummary(r: Redis, prefix: string, x: Summary) {
    && x.healthy + x.draining > 0 && prefix <= x.service
    && x.healthy == |LiveWith(r, x.service, Healthy)|
    && x.draining == |LiveWith(r, x.service, Draining)|
  }

  lemma KeyFoundIffLive(run: Run, s: Scan, r: Redis, status: Status, k: Key)
    requires IsRun(run) && IsScan(run, s) && Undisturbed(run, s, r) && Indexed(r)
    ensures k in KeysFound(s.gets, status) <==> k in LiveWith(r, s.service, status)
  {
    hide Step, ValidName;
    if k in KeysFound(s.gets, status) {
      var i :|
        0 <= i < |s.gets| && s.gets[i].found.Some? && s.gets[i].found.value.status == status && s.gets[i].key == k;
    }
    if k in LiveWith(r, s.service, status) {
      assert k == Key(s.service, k.id) && k.id in MembersOf(run.trace[s.enumAt], s.service);
      var i :| 0 <= i < |s.gets| && s.gets[i].key == Key(s.service, k.id);
      assert s.gets[i].found == Some(r.inst[k].payload);
    }
  }

  /** With a complete index an undisturbed scan counts exactly the live instances of its service. */
  lemma SummaryCounts(run: Run, s: Scan, r: Redis, status: Status)
    requires IsRun(run) && IsScan(run, s) && Undisturbed(run, s, r) && Indexed(r)
    ensures CountStatus(FoundIn(s.gets), status) == |LiveWith(r, s.service, status)|
  {
    hide Step, CountStatus, FoundIn, LiveWith, KeysFound, Indexed, Undisturbed, MembersOf;
    CountIsCardinality(s.gets, status);
    forall k
      ensures k in KeysFound(s.gets, status) <==> k in LiveWith(r, s.service, status)
    {
      KeyFoundIffLive(run, s, r, status, k);
    }
    assert KeysFound(s.gets, status) == LiveWith(r, s.service, status);
  }

  ghost predicate UndisturbedAll(run: Run, scans: seq<Scan>, r: Redis) {
    && (forall j :: 0 <= j < |scans| ==> IsScan(run, scans[j]) && Undisturbed(run, scans[j], r))
    && (forall i, j :: 0 <= i < j < |scans| ==> scans[i].service != scans[j].service)
  }

  /** The live keys that some scan's service counts. */
  ghost function Counted(r: Redis, scans: seq<Scan>): set<Key> {
    set k |
      && k in r.inst && Known(r.inst[k].payload.status)
      && exists j :: 0 <= j < |scans| && scans[j].service == k.service
  }

  lemma CountedGrow(r: Redis, front: seq<Scan>, last: Scan)
    requires forall j :: 0 <= j < |front| ==> front[j].service != last.service
    ensures |Counted(r, front + [last])| ==
            |Counted(r, front)| + |LiveWith(r, last.service, Healthy)| + |LiveWith(r, last.service, Draining)|
  {
    hide Counted, LiveWith;
    var h, d := LiveWith(r, last.service, Healthy), LiveWith(r, last.service, Draining);
    CountedUnion(r, front, last);
    assert |Counted(r, front) + h| == |Counted(r, front)| + |h|;
  }

  lemma CountedUnion(r: Redis, front: seq<Scan>, last: Scan)
    requires forall j :: 0 <= j < |front| ==> front[j].service != last.service
    ensures var h, d := LiveWith(r, last.service, Healthy), LiveWith(r, last.service, Draining);
      && Counted(r, front + [last]) == Counted(r, front) + h + d
      && Counted(r, front) !! h && Counted(r, front) + h !! d
  {
    var all := front + [last];
    var h, d := LiveWith(r, last.service, Healthy), LiveWith(r, last.service, Draining);
    forall k
      ensures k in Counted(r, all) <==> k in Counted(r, front) + h + d
    {
      assert all[|front|] == last;
      if j :| 0 <= j < |front| && front[j].service == k.service {
        assert all[j].service == k.service;
      }
      if j :| 0 <= j < |all| && all[j].service == k.service {
        assert j < |front| ==> front[j].service == k.service;
      }
    }
  }

  lemma TotalAppend(summaries: seq<Summary>, s: Summary)
    ensures Total(summaries + [s]) == Total(summaries) + s.healthy + s.draining
  {
    assert (summaries + [s])[..|summaries|] == summaries;
  }

  lemma SummarizedAppend(front: seq<Scan>, last: Scan)
    ensures var s := Summarize(last);
      Summarized(front + [last]) == if s.healthy + s.draining > 0 then Summarized(front) + [s] else Summarized(front)
  {
    assert (front + [last])[..|front|] == front;
  }

  lemma NothingScanned(r: Redis)
    ensures Counted(r, []) == {} && Total(Summarized([])) == 0
  {
  }

  /** The counts of all summaries add up to the live instances of the scanned services. */
  lemma {:induction false} SummariesAddUp(run: Run, scans: seq<Scan>, r: Redis)
    requires IsRun(run) && UndisturbedAll(run, scans, r) && Indexed(r)
    ensures Total(Summarized(scans)) == |Counted(r, scans)|
  {
    hide IsScan, Undisturbed, FoundIn, CountStatus, Counted, Indexed;
    if |scans| == 0 {
      NothingScanned(r);
    } else {
      var front, last := scans[..|scans| - 1], scans[|scans| - 1];
      SummariesAddUp(run, front, r);
      SummaryCounts(run, last, r, Healthy);
      SummaryCounts(run, last, r, Draining);
      assert scans == front + [last];
      CountedGrow(r, front, last);
      TotalAppend(Summarized(front), Summarize(last));
      SummarizedAppend(front, last);
    }
  }

  lemma {:induction false} TotalSplit(a: seq<Summary>, b: seq<Summary>)
    ensures Total(a + b) == Total(a) + Total(b)
  {
    if |b| == 0 {
      assert a + b == a;
    } else {
      TotalSplit(a, b[..|b| - 1]);
      assert a + b == (a + b[..|b| - 1]) + [b[|b| - 1]];
      TotalAppend(a + b[..|b| - 1], b[|b| - 1]);
      assert b == b[..|b| - 1] + [b[|b| - 1]];
    }
  }

  /** Sorting does not change the total. */
  lemma {:induction false} TotalOfPermutation(a: seq<Summary>, b: seq<Summary>)
    requires multiset(a) == multiset(b)
    ensures Total(a) == Total(b)
    decreases |a|
  {
    SameMembers(a, b);
    if |a| > 0 {
      var x := a[|a| - 1];
      assert x in b;
      var i :| 0 <= i < |b| && b[i] == x;
      var a', b' := a[..|a| - 1], b[..i] + b[i + 1..];
      assert a == a' + [x];
      WithoutOne(b, i);
      assert multiset(a) == multiset(a' + [x]) == multiset(a') + multiset{x};
      assert multiset(a') == multiset(a) - multiset{x} && multiset(b') == multiset(b) - multiset{x};
      TotalOfPermutation(a', b');
    }
  }

  lemma WithoutOne(s: seq<Summary>, i: nat)
    requires i < |s|
    ensures multiset(s) == multiset(s[..i] + s[i + 1..]) + multiset{s[i]}
    ensures Total(s) == Total(s[..i] + s[i + 1..]) + s[i].healthy + s[i].draining
  {
    hide Total;
    var front, back := s[..i], s[i + 1..];
    assert s == front + [s[i]] + back;
    TotalSplit(front + [s[i]], back);
    TotalSplit(front, back);
    TotalAppend(front, s[i]);
  }

  lemma {:induction false} SummarizedMember(scans: seq<Scan>, x: Summary)
    ensures x in Summarized(scans) <==>
            x.healthy + x.draining > 0 && exists j :: 0 <= j < |scans| && Summarize(scans[j]) == x
  {
    hide Summarize;
    if |scans| > 0 {
      var front, last := scans[..|scans| - 1], scans[|scans| - 1];
      SummarizedMember(front, x);
      if j :| 0 <= j < |front| && Summarize(front[j]) == x {
        assert Summarize(scans[j]) == x;
      }
      if j :| 0 <= j < |scans| && Summarize(scans[j]) == x {
        assert j < |front| ==> Summarize(front[j]) == x;
      }
    }
  }

  /** Every scan of the call saw the instances of r, and its names were read from the services of r. */
  ghost predicate UndisturbedServices(run: Run, c: ServicesCall, r: Redis) {
    && c.namesAt < |run.trace| && run.trace[c.namesAt].services == r.services
    && forall j :: 0 <= j < |c.scans| ==> Undisturbed(run, c.scans[j], r)
  }

  lemma CallScans(run: Run, prefix: string, c: ServicesCall, r: Redis)
    requires IsServicesCall(run, prefix, c) && UndisturbedServices(run, c, r)
    ensures UndisturbedAll(run, c.scans, r)
    ensures |c.scans| == |c.names| && forall j :: 0 <= j < |c.scans| ==> c.scans[j].service == c.names[j]
    ensures forall s :: s in c.names <==> s in r.services && prefix <= s
  {
    hide IsScan, Undisturbed;
    assert forall j :: 0 <= j < |c.scans| ==> c.scans[j].service == c.names[j];
  }

  /**
   Conservation.  An undisturbed ListServices over a complete index: the totals of the
   returned summaries equal the number of live healthy and draining instances of services
   with the prefix, and a service is listed exactly if it has one, with its exact counts.
   */
  lemma SummariesConserve(run: Run, prefix: string, c: ServicesCall, r: Redis, sorted: seq<Summary>)
    requires IsRun(run) && IsServicesCall(run, prefix, c) && UndisturbedServices(run, c, r) && Indexed(r)
    requires multiset(sorted) == multiset(Summarized(c.scans))
    ensures Total(sorted) == |set k | k in r.inst && Known(r.inst[k].payload.status) && prefix <= k.service|
    ensures forall x :: x in sorted <==> IsSummary(r, prefix, x)
  {
    hide IsScan, Undisturbed, FoundIn, CountStatus, Summarized, Total, LiveWith, Counted, Summarize, IsSummary;
    hide IsServicesCall, UndisturbedServices, UndisturbedAll;
    CallScans(run, prefix, c, r);
    TotalOfPermutation(sorted, Summarized(c.scans));
    SummariesAddUp(run, c.scans, r);
    CountedByPrefix(c.scans, c.names, r, prefix);
    SameMembers(sorted, Summarized(c.scans));
    forall x
      ensures x in sorted <==> IsSummary(r, prefix, x)
    {
      SummaryListed(run, c.scans, c.names, r, prefix, x);
    }
  }

  lemma CountedByPrefix(scans: seq<Scan>, names: seq<string>, r: Redis, prefix: string)
    requires Indexed(r)
    requires |scans| == |names| && forall j :: 0 <= j < |scans| ==> scans[j].service == names[j]
    requires forall s :: s in names <==> s in r.services && prefix <= s
    ensures Counted(r, scans) == set k | k in r.inst && Known(r.inst[k].payload.status) && prefix <= k.service
  {
    forall k | k in r.inst
      ensures prefix <= k.service <==> exists j :: 0 <= j < |scans| && scans[j].service == k.service
    {
      ServiceScanned(scans, names, r, prefix, k.service);
    }
  }

  lemma ServiceScanned(scans: seq<Scan>, names: seq<string>, r: Redis, prefix: string, service: string)
    requires |scans| == |names| && forall j :: 0 <= j < |scans| ==> scans[j].service == names[j]
    requires forall s :: s in names <==> s in r.services && prefix <= s
    ensures service in r.services && prefix <= service <==> exists j :: 0 <= j < |scans| && scans[j].service == service
  {
    if service in names {
      var j :| 0 <= j < |names| && names[j] == service;
      assert scans[j].service == service;
    }
  }

  /** A service without live instances has no summary. */
  lemma UnknownServiceEmpty(r: Redis, service: string, status: Status)
    requires Indexed(r) && service !in r.services
    ensures LiveWith(r, service, status) == {}
  {
  }

  lemma SummaryListed(run: Run, scans: seq<Scan>, names: seq<string>, r: Redis, prefix: string, x: Summary)
    requires IsRun(run) && UndisturbedAll(run, scans, r) && Indexed(r)
    requires |scans| == |names| && forall j :: 0 <= j < |scans| ==> scans[j].service == names[j]
    requires forall s :: s in names <==> s in r.services && prefix <= s
    ensures x in Summarized(scans) <==> IsSummary(r, prefix, x)
  {
    hide IsScan, Undisturbed, FoundIn, CountStatus, LiveWith, Indexed, Summarized, Step;
    SummarizedMember(scans, x);
    ServiceScanned(scans, names, r, prefix, x.service);
    assert forall i :: 0 <= i < |scans| ==> Summarize(scans[i]).service == scans[i].service;
    if j :| 0 <= j < |scans| && scans[j].service == x.service {
      SummaryCounts(run, scans[j], r, Healthy);
      SummaryCounts(run, scans[j], r, Draining);
    } else if x.service !in r.services {
      UnknownServiceEmpty(r, x.service, Healthy);
      UnknownServiceEmpty(r, x.service, Draining);
    }
  }

  /** The unpaged totals of a service query are the counts of its summary. */
  lemma {:induction false} TotalsMatchCounts(values: seq<Instance>, service: string)
    ensures |Filtered(values, Query(service, map[], false))| == CountStatus(values, Healthy)
    ensures |Filtered(values, Query(service, map[], true))| ==
            CountStatus(values, Healthy) + CountStatus(values, Draining)
  {
    if |values| > 0 {
      TotalsMatchCounts(values[..|values| - 1], service);
    }
  }

  /** The totals of an undisturbed service query, with and without draining, are the live counts. */
  lemma PageTotalsAreCounts(run: Run, s: Scan, r: Redis, draining: bool, sorted: seq<Instance>)
    requires IsRun(run) && IsScan(run, s) && Undisturbed(run, s, r) && Indexed(r)
    requires multiset(sorted) == multiset(Filtered(FoundIn(s.gets), Query(s.service, map[], draining)))
    ensures |sorted| == |LiveWith(r, s.service, Healthy)| + if draining then |LiveWith(r, s.service, Draining)| else 0
  {
    hide IsScan, Undisturbed, FoundIn, Filtered, CountStatus, LiveWith;
    SummaryCounts(run, s, r, Healthy);
    SummaryCounts(run, s, r, Draining);
    TotalsMatchCounts(FoundIn(s.gets), s.service);
    SameMembers(sorted, Filtered(FoundIn(s.gets), Query(s.service, map[], draining)));
  }

  // ---------- Paging through the summaries ----------

  /** The summary of every service with something to count, once, in name order. */
  ghost predicate ListsServices(r: Redis, prefix: string, s: seq<Summary>) {
    && Sorted(s, BY_SERVICE)
    && DistinctKeys(s, BY_SERVICE)
    && forall x :: x in s <==> IsSummary(r, prefix, x)
  }

  lemma {:induction false} SummarizedDistinct(scans: seq<Scan>)
    requires forall i, j :: 0 <= i < j < |scans| ==> scans[i].service != scans[j].service
    ensures DistinctKeys(Summarized(scans), BY_SERVICE)
  {
    hide CountStatus, FoundIn;
    if |scans| > 0 {
      var front, last := scans[..|scans| - 1], scans[|scans| - 1];
      SummarizedDistinct(front);
      forall i | 0 <= i < |Summarized(front)|
        ensures Summarized(front)[i].service != last.service
      {
        SummarizedMember(front, Summarized(front)[i]);
        var j :| 0 <= j < |front| && Summarize(front[j]) == Summarized(front)[i];
        assert scans[j] == front[j];
      }
    }
  }

  /** An undisturbed ListServices gives the service listing of its state. */
  lemma UndisturbedListsServices(run: Run, prefix: string, c: ServicesCall, r: Redis, sorted: seq<Summary>)
    requires IsRun(run) && IsServicesCall(run, prefix, c) && UndisturbedServices(run, c, r) && Indexed(r)
    requires Sorted(sorted, BY_SERVICE) && multiset(sorted) == multiset(Summarized(c.scans))
    ensures ListsServices(r, prefix, sorted)
  {
    hide IsScan, Undisturbed, LiveWith, Summarized, Sorted, DistinctKeys, IsSummary;
    hide IsServicesCall, UndisturbedServices;
    CallScans(run, prefix, c, r);
    SummarizedDistinct(c.scans);
    DistinctPermutes(Summarized(c.scans), sorted, BY_SERVICE);
    SummariesConserve(run, prefix, c, r, sorted);
  }

  /** The instant of the call's last read. */
  function ServicesEnd(c: ServicesCall): nat {
    if |c.scans| > 0 then c.scans[|c.scans| - 1].revAt else c.revAt
  }

  /** A call in an unchanged stretch sees the state the stretch began with. */
  lemma UnchangedServices(run: Run, a: nat, b: nat, prefix: string, c: ServicesCall)
    requires IsRun(run) && IsServicesCall(run, prefix, c) && a <= c.namesAt && ServicesEnd(c) <= b < |run.trace|
    requires Unchanged(run, a, b)
    ensures UndisturbedServices(run, c, run.trace[a])
  {
    hide IsScan, Step, Undisturbed;
    var last := |c.scans| - 1;
    if last >= 0 {
      ScanSpan(run, c.scans[last]);
    }
    forall j | 0 <= j < |c.scans|
      ensures Undisturbed(run, c.scans[j], run.trace[a])
    {
      assert j < last ==> c.scans[j].revAt <= c.scans[last].enumAt;
      UnchangedUndisturbed(run, a, b, c.scans[j]);
    }
    UnchangedSameView(run, a, c.namesAt, "");
  }

  /**
   ListServices while nothing changes, with a complete index: it lists exactly the services
   with something to count, with their exact counts, and these add up to the live instances.
   */
  lemma UnchangedListServices(run: Run, a: nat, b: nat, prefix: string, c: ServicesCall, sorted: seq<Summary>)
    requires IsRun(run) && IsServicesCall(run, prefix, c) && a <= c.namesAt && ServicesEnd(c) <= b < |run.trace|
    requires Unchanged(run, a, b) && Indexed(run.trace[a])
    requires Sorted(sorted, BY_SERVICE) && multiset(sorted) == multiset(Summarized(c.scans))
    ensures ListsServices(run.trace[a], prefix, sorted)
    ensures var r := run.trace[a];
      Total(sorted) == |set k | k in r.inst && Known(r.inst[k].payload.status) && prefix <= k.service|
  {
    hide IsScan, Undisturbed, Summarized, Sorted, DistinctKeys, IsSummary, Unchanged, Indexed, Total;
    hide UndisturbedServices;
    UnchangedServices(run, a, b, prefix, c);
    UndisturbedListsServices(run, prefix, c, run.trace[a], sorted);
    SummariesConserve(run, prefix, c, run.trace[a], sorted);
  }

  /** The calls fall into the stretch from a to b, and each listing is what its call sorted. */
  ghost predicate ServicesCallsWithin(run: Run, a: nat, b: nat, prefix: string, calls: seq<ServicesCall>,
                                      listings: seq<seq<Summary>>)
  {
    && |calls| == |listings|
    && forall i :: 0 <= i < |calls| ==>
         && IsServicesCall(run, prefix, calls[i]) && a <= calls[i].namesAt && ServicesEnd(calls[i]) <= b
         && Sorted(listings[i], BY_SERVICE)
         && multiset(listings[i]) == multiset(Summarized(calls[i].scans))
  }

  /**
   Pages of ListServices over an unchanged stretch cover every listed service once, in name
   order, and nothing follows.
   */
  lemma ServicePagingCoversOnce(run: Run, a: nat, b: nat, prefix: string, calls: seq<ServicesCall>,
                                listings: seq<seq<Summary>>, size: int)
    requires IsRun(run) && a < |run.trace| && b < |run.trace| && Unchanged(run, a, b) && Indexed(run.trace[a])
    requires ServicesCallsWithin(run, a, b, prefix, calls, listings)
    requires |calls| > 0 && size > 0 && |calls| * size >= |listings[0]|
    ensures FetchAll(listings, size) == listings[0] && ListsServices(run.trace[a], prefix, listings[0])
    ensures forall i, later ::
              0 <= i < |listings| && later > |listings| ==> PageOf(listings[i], later, size) == []
  {
    hide IsScan, Undisturbed, Summarized, Sorted, DistinctKeys, IsServicesCall, IsSummary, FetchAll, Unchanged, Untied;
    hide Indexed, Total;
    forall i | 0 <= i < |listings|
      ensures ListsServices(run.trace[a], prefix, listings[i]) && multiset(listings[i]) == multiset(listings[0])
    {
      UnchangedListServices(run, a, b, prefix, calls[i], listings[i]);
      UnchangedListServices(run, a, b, prefix, calls[0], listings[0]);
      DistinctSameMembers(listings[i], listings[0], BY_SERVICE);
    }
    DistinctUntied(listings[0], BY_SERVICE);
    UntiedPages(listings[0], BY_SERVICE, listings, size);
  }
}
