/**
 The service layer over the store: the read-then-write calls, listing with its in-place
 filter, and the watch loop.  `env` arguments are other clients' commands between the
 steps of a call; the contracts hold for all of them.
 */
module ServiceModel {
  import opened Types
  import opened Keys
  import opened RedisModel
  import opened Runs
  import opened Calls
  import opened Filters
  import opened Listing
  import opened Watching
  import opened Ordering
  import opened Paging
  import opened Keyspace
  import opened Schedules
  import opened StoreModel

  /** The call was turned down before it wrote, or its script answered. */
  datatype Outcome = Invalid | Missing | Answered(reply: Reply)

  /** The call's command is the last of the run, and it is the one the call should issue. */
  ghost predicate Issued(before: Run, after: Run, o: Origin, token: Token, out: Outcome)
    requires IsRun(after)
  {
    var u := |after.cmds| - 1;
    && Continues(before, after)
    && |before.cmds| < |after.cmds|
    && ExplainedBy(after, u, o)
    && (after.cmds[u].Register? || after.cmds[u].Update?)
    && after.cmds[u].token == token
    && out == Answered(Answer(after.trace[u], after.cmds[u]))
  }

  /** Between the two runs other clients issued env, and the call one command, the last. */
  ghost predicate OneWrite(before: Run, env: seq<Command>, after: Run)
    requires |before.trace| > 0
  {
    |after.cmds| > 0 && after == Extend(After(before, env), after.cmds[|after.cmds| - 1])
  }

  lemma WritesOnce(before: Run, env: seq<Command>, c: Command)
    requires |before.trace| > 0
    ensures OneWrite(before, env, Extend(After(before, env), c))
  {
  }

  /** The last command writes back to the very flat key the request's names address. */
  predicate WritesKeyRead(run: Run, named: Key) {
    && |run.cmds| > 0
    && run.cmds[|run.cmds| - 1].Update?
    && var k := run.cmds[|run.cmds| - 1].p.Name();
       InstanceKey(k) == InstanceKey(named) && (ValidName(named.service) ==> k == named)
  }

  lemma Issues(before: Run, mid: Run, o: Origin, c: Command)
    requires IsRun(before) && IsRun(mid) && Continues(before, mid) && Legal(c)
    requires c.Register? || c.Update?
    requires IsRun(Extend(mid, c)) && ExplainedBy(Extend(mid, c), |mid.cmds|, o)
    ensures Issued(before, Extend(mid, c), o, c.token, Answered(Answer(mid.Last(), c)))
  {
  }

  lemma RenewIssues(before: Run, clocked: Run, mid: Run, got: Instance, token: Token, seconds: nat)
    requires IsRun(before) && IsRun(mid) && IsRun(clocked) && Continues(before, clocked) && Continues(clocked, mid)
    requires Some(got) == Lookup(before.Last(), got.Name()) && ValidName(got.service)
    ensures var p := Renewed(got, LeaseDuration(seconds), clocked.Last().now);
      var c := Command.Update(p, token, Milliseconds(LeaseDuration(seconds)));
      && IsRun(Extend(mid, c))
      && Issued(before, Extend(mid, c), FromRenew(|before.cmds|, |clocked.cmds|, seconds), token,
                Answered(Answer(mid.Last(), c)))
  {
    hide ValidName;
    var p := Renewed(got, LeaseDuration(seconds), clocked.Last().now);
    var c := Command.Update(p, token, Milliseconds(LeaseDuration(seconds)));
    ExtendIsRun(mid, c);
    Issues(before, mid, FromRenew(|before.cmds|, |clocked.cmds|, seconds), c);
  }

  lemma StatusIssues(before: Run, measured: Run, clocked: Run, mid: Run, got: Instance, token: Token, status: Status)
    requires IsRun(before) && IsRun(measured) && IsRun(clocked) && IsRun(mid)
    requires Continues(before, measured) && Continues(measured, clocked) && Continues(clocked, mid)
    requires Some(got) == Lookup(before.Last(), got.Name()) && ValidName(got.service)
    requires status == Healthy || status == Draining
    requires got.leaseExpiresAt > measured.Last().now
    ensures var c := Command.Update(WithStatus(got, status, clocked.Last().now), token,
                                    Milliseconds(got.leaseExpiresAt - measured.Last().now));
      && Continues(before, Extend(mid, c))
      && IsRun(Extend(mid, c))
      && Issued(before, Extend(mid, c), FromStatus(|before.cmds|, |measured.cmds|, |clocked.cmds|, status), token,
                Answered(Answer(mid.Last(), c)))
  {
    hide ValidName;
    var c := Command.Update(WithStatus(got, status, clocked.Last().now), token,
                            Milliseconds(got.leaseExpiresAt - measured.Last().now));
    ExtendIsRun(mid, c);
    Issues(before, mid, FromStatus(|before.cmds|, |measured.cmds|, |clocked.cmds|, status), c);
  }

  /** Service.Register; endpointOk is the outcome of parsing the endpoint as a URL. */
  method Register(store: Store, input: Instance, endpointOk: bool, token: Token, seconds: nat, env: seq<Command>)
    returns (out: Outcome)
    requires store.Valid()
    modifies store
    ensures store.Valid()
    ensures out.Invalid? <==> !(ValidName(input.service) && input.id != "" && endpointOk)
    ensures out.Invalid? ==> store.run == old(store.run)
    ensures !out.Invalid? ==>
              && Issued(old(store.run), store.run, FromRegister(input, seconds, |old(store.run).cmds|), token, out)
              && OneWrite(old(store.run), env, store.run)
  {
    hide Flatten, FlatKeys, ValidName, LeaseDuration, After, OneWrite;
    if !ValidName(input.service) || input.id == "" || !endpointOk {
      return Invalid;
    }
    var lease := LeaseDuration(seconds);
    var p := Prepare(input, lease, store.now);
    ghost var before := store.run;
    store.Interfere(env);
    ghost var mid := store.run;
    var reply := store.Register(p, token, lease);
    Issues(before, mid, FromRegister(input, seconds, |before.cmds|), Command.Register(p, token, Milliseconds(lease)));
    WritesOnce(before, env, Command.Register(p, token, Milliseconds(lease)));
    out := Answered(reply);
  }

  /** Service.Renew, for whatever names the request has. */
  method Renew(store: Store, named: Key, token: Token, seconds: nat, env1: seq<Command>, env2: seq<Command>)
    returns (out: Outcome, ghost origin: Origin)
    requires store.Valid()
    modifies store
    ensures store.Valid()
    ensures !out.Invalid?
    ensures out.Missing? ==> store.run == old(store.run)
    ensures out.Missing? <==> !Owned(old(store.run).Last(), named)
    ensures ValidName(named.service) ==> (out.Missing? <==> named !in old(store.run).Last().inst)
    ensures out.Answered? ==>
              && origin == FromRenew(|old(store.run).cmds|, |After(old(store.run), env1).cmds|, seconds)
              && Issued(old(store.run), store.run, origin, token, out)
              && WritesKeyRead(store.run, named)
              && OneWrite(old(store.run), env1 + env2, store.run)
  {
    hide Flatten, FlatKeys, ValidName, InstanceKey, LeaseDuration, Issued, Answer, Step, Continues, Legal;
    hide After, OneWrite;
    ghost var before := store.run;
    LookupNames(before, named);
    var found := store.Get(named);
    origin := Direct;
    if found.None? {
      return Missing, origin;
    }
    store.Interfere(env1);
    ghost var clocked := store.run;
    var lease := LeaseDuration(seconds);
    var p := Renewed(found.value, lease, store.now);
    store.Interfere(env2);
    ghost var mid := store.run;
    var reply := store.Update(p, token, lease);
    origin := FromRenew(|before.cmds|, |clocked.cmds|, seconds);
    RenewIssues(before, clocked, mid, found.value, token, seconds);
    AfterBoth(before, env1, env2);
    WritesOnce(before, env1 + env2, Command.Update(p, token, Milliseconds(lease)));
    out := Answered(reply);
  }

  lemma Chain(a: Run, b: Run, c: Run)
    requires Continues(a, b) && Continues(b, c)
    ensures Continues(a, c)
  {
  }

  lemma LookupNames(run: Run, k: Key)
    requires IsRun(run)
    ensures Lookup(run.Last(), k).Some? ==> Lookup(run.Last(), k).value.Name() == k
  {
    JointAlways(run, |run.trace| - 1);
  }

  lemma Unmoved(run: Run)
    ensures Continues(run, run)
  {
  }

  /** No live pair owns the key of the names, or the recorded expiry of the one that does has passed. */
  ghost predicate LapsedOrAbsent(r: Redis, named: Key, now: int) {
    forall k :: k in r.inst && InstanceKey(k) == InstanceKey(named) ==> r.inst[k].payload.leaseExpiresAt <= now
  }

  /** Service.SetStatus: the lease keeps its recorded expiry, and what remains of it is measured first. */
  method SetStatus(store: Store, named: Key, token: Token, status: Status,
                   env1: seq<Command>, env2: seq<Command>, env3: seq<Command>)
    returns (out: Outcome, ghost origin: Origin)
    requires store.Valid()
    modifies store
    ensures store.Valid() && Continues(old(store.run), store.run)
    ensures out.Invalid? <==> status != Healthy && status != Draining
    ensures out.Invalid? ==> store.run == old(store.run)
    ensures out.Missing? <==>
            && (status == Healthy || status == Draining)
            && LapsedOrAbsent(old(store.run).Last(), named, After(old(store.run), env1).Last().now)
    ensures out.Missing? ==>
              store.run == if Owned(old(store.run).Last(), named) then After(old(store.run), env1) else old(store.run)
    ensures out.Answered? ==>
              && origin == FromStatus(|old(store.run).cmds|, |After(old(store.run), env1).cmds|,
                                      |After(old(store.run), env1 + env2).cmds|, status)
              && Issued(old(store.run), store.run, origin, token, out)
              && WritesKeyRead(store.run, named)
              && OneWrite(old(store.run), env1 + env2 + env3, store.run)
  {
    hide Flatten, FlatKeys, ValidName, InstanceKey, Issued, Answer, Step, Continues, Legal, After, OneWrite;
    origin := Direct;
    Unmoved(store.run);
    if status != Healthy && status != Draining {
      return Invalid, origin;
    }
    ghost var before := store.run;
    LookupNames(before, named);
    var found := store.Get(named);
    if found.None? {
      return Missing, origin;
    }
    OneOwner(before, found.value.Name(), named);
    store.Interfere(env1);
    ghost var measured := store.run;
    var remaining := found.value.leaseExpiresAt - store.now;
    if remaining <= 0 {
      return Missing, origin;
    }
    store.Interfere(env2);
    ghost var clocked := store.run;
    var p := WithStatus(found.value, status, store.now);
    store.Interfere(env3);
    ghost var mid := store.run;
    var reply := store.Update(p, token, remaining);
    origin := FromStatus(|before.cmds|, |measured.cmds|, |clocked.cmds|, status);
    StatusIssues(before, measured, clocked, mid, found.value, token, status);
    AfterBoth(before, env1, env2);
    AfterBoth(before, env1 + env2, env3);
    WritesOnce(before, env1 + env2 + env3, Command.Update(p, token, Milliseconds(remaining)));
    out := Answered(reply);
  }

  // ---------- Listing ----------

  const BY_ID: Instance -> string := (v: Instance) => v.id

  function Filtered(values: seq<Instance>, q: Query): seq<Instance> {
    if |values| == 0 then []
    else
      Filtered(values[..|values| - 1], q)
      + if Matches(values[|values| - 1], q) then [values[|values| - 1]] else []
  }

  lemma FilteredAppend(values: seq<Instance>, v: Instance, q: Query)
    ensures Filtered(values + [v], q) == Filtered(values, q) + if Matches(v, q) then [v] else []
  {
    assert (values + [v])[..|values|] == values;
  }

  lemma {:induction false} FilteredMember(values: seq<Instance>, q: Query, v: Instance)
    ensures v in Filtered(values, q) <==> v in values && Matches(v, q)
  {
    if |values| > 0 {
      FilteredMember(values[..|values| - 1], q, v);
      assert v in values <==> v in values[..|values| - 1] || v == values[|values| - 1];
    }
  }

  /** The filter writes over the slice it reads: a prefix of the array ends up filtered. */
  method FilterInPlace(a: array<Instance>, q: Query) returns (n: nat)
    modifies a
    ensures n <= a.Length && a[..n] == Filtered(old(a[..]), q)
  {
    hide Filtered, Matches;
    ghost var s := a[..];
    n := 0;
    NoneFiltered(q);
    for i := 0 to a.Length
      invariant 0 <= n <= i
      invariant a[..n] == Filtered(s[..i], q)
      invariant forall j :: i <= j < a.Length ==> a[j] == s[j]
    {
      var v := a[i];
      assert s[..i + 1] == s[..i] + [v];
      FilteredAppend(s[..i], v, q);
      ghost var kept := a[..n];
      if Matches(v, q) {
        a[n] := v;
        n := n + 1;
        assert a[..n] == kept + [v];
      }
    }
    assert s[..a.Length] == s;
  }

  lemma NoneFiltered(q: Query)
    ensures Filtered([], q) == []
  {
  }

  /** Filter and sort the collected values; sort.Slice may order ties either way. */
  method Arrange(values: seq<Instance>, q: Query) returns (sorted: seq<Instance>)
    ensures Sorted(sorted, BY_ID)
    ensures multiset(sorted) == multiset(Filtered(values, q))
  {
    var a := new Instance[|values|](i requires 0 <= i < |values| => values[i]);
    assert a[..] == values;
    var n := FilterInPlace(a, q);
    sorted := SortSlice(a[..n], BY_ID);
  }

  /** All payloads found by the scans, in order. */
  function Collected(scans: seq<Scan>): seq<Instance> {
    if |scans| == 0 then []
    else Collected(scans[..|scans| - 1]) + FoundIn(scans[|scans| - 1].gets)
  }

  lemma {:induction false} CollectedMember(scans: seq<Scan>, v: Instance)
    ensures v in Collected(scans) <==> exists j :: 0 <= j < |scans| && Returned(scans[j], v)
  {
    if |scans| > 0 {
      var front, last := scans[..|scans| - 1], scans[|scans| - 1];
      CollectedMember(front, v);
      FoundMember(last.gets, v);
      if v in Collected(front) {
        var j :| 0 <= j < |front| && Returned(front[j], v);
        assert Returned(scans[j], v);
      }
      if j :| 0 <= j < |scans| && Returned(scans[j], v) {
        assert j < |front| ==> Returned(front[j], v);
      }
    }
  }

  /** The scans of a call so far: one per name, in order, none before `from`. */
  ghost predicate ScansOf(run: Run, names: seq<string>, from: nat, scans: seq<Scan>) {
    && |scans| <= |names|
    && (forall j :: 0 <= j < |scans| ==>
          && IsScan(run, scans[j])
          && scans[j].revAt < |run.trace|
          && scans[j].service == names[j]
          && from <= scans[j].enumAt)
    && (forall i, j :: 0 <= i < j < |scans| ==> scans[i].revAt <= scans[j].enumAt)
  }

  lemma ScansContinue(a: Run, b: Run, names: seq<string>, from: nat, scans: seq<Scan>)
    requires Continues(a, b) && ScansOf(a, names, from, scans)
    ensures ScansOf(b, names, from, scans)
  {
    forall j | 0 <= j < |scans|
      ensures IsScan(b, scans[j])
    {
      ScanContinues(a, b, scans[j]);
    }
  }

  lemma ScansAppend(a: Run, b: Run, names: seq<string>, from: nat, scans: seq<Scan>, s: Scan)
    requires IsRun(a) && Continues(a, b) && ScansOf(a, names, from, scans) && |scans| < |names|
    requires IsScan(b, s) && s.service == names[|scans|] && |a.trace| - 1 <= s.enumAt && from < |a.trace|
    ensures ScansOf(b, names, from, scans + [s])
  {
    ScansContinue(a, b, names, from, scans);
  }

  lemma MaxRevisionAppend(run: Run, first: nat, scans: seq<Scan>, s: Scan)
    requires forall j :: 0 <= j < |scans| ==> scans[j].revAt < |run.trace|
    requires s.revAt < |run.trace|
    ensures var m, current := MaxRevision(run, first, scans), run.trace[s.revAt].revision;
      MaxRevision(run, first, scans + [s]) == if current > m then current else m
  {
    assert (scans + [s])[..|scans|] == scans;
  }

  lemma {:induction false} MaxRevisionContinues(a: Run, b: Run, first: nat, scans: seq<Scan>)
    requires Continues(a, b)
    requires forall j :: 0 <= j < |scans| ==> scans[j].revAt < |a.trace|
    ensures |a.trace| <= |b.trace| && MaxRevision(a, first, scans) == MaxRevision(b, first, scans)
  {
    if |scans| > 0 {
      MaxRevisionContinues(a, b, first, scans[..|scans| - 1]);
    }
  }

  /** One Store.List per name, collecting values and keeping the largest revision. */
  method ScanAll(store: Store, names: seq<string>, first: nat, env: seq<seq<seq<Command>>>, pruned: bool)
    returns (values: seq<Instance>, rev: nat, ghost scans: seq<Scan>)
    requires store.Valid() && forall i :: 0 <= i < |names| ==> ValidName(names[i])
    modifies store
    ensures store.Valid() && Continues(old(store.run), store.run)
    ensures |scans| == |names| && ScansOf(store.run, names, |old(store.run).cmds|, scans)
    ensures values == Collected(scans) && rev == MaxRevision(store.run, first, scans)
    ensures store.run == ScansRun(old(store.run), env, scans, pruned)
  {
    hide Flatten, FlatKeys, ValidName, IsScan, FoundIn, ListRun, OnSchedule;
    values, rev, scans := [], first, [];
    for i := 0 to |names|
      invariant store.Valid() && Continues(old(store.run), store.run)
      invariant |scans| == i && ScansOf(store.run, names, |old(store.run).cmds|, scans)
      invariant values == Collected(scans) && rev == MaxRevision(store.run, first, scans)
      invariant store.run == ScansRun(old(store.run), env, scans, pruned)
    {
      ghost var before := store.run;
      var found, current;
      ghost var scan;
      found, current, scan := store.List(names[i], EnvAt(env, i), pruned);
      ScansRunMore(old(store.run), env, scans, scan, pruned);
      ScansAppend(before, store.run, names, |old(store.run).cmds|, scans, scan);
      MaxRevisionContinues(before, store.run, first, scans);
      MaxRevisionAppend(store.run, first, scans, scan);
      assert (scans + [scan])[..|scans|] == scans;
      scans := scans + [scan];
      values := values + found;
      if current > rev {
        rev := current;
      }
    }
  }

  datatype Response = Rejected | Listed(page: seq<Instance>, total: nat, revision: nat)

  /** The run a list call leaves behind: the service names are read first if the query names none. */
  ghost function CallRun(run: Run, q: Query, env0: seq<Command>, env: seq<seq<seq<Command>>>, scans: seq<Scan>,
                         pruned: bool): (next: Run)
    requires |run.trace| > 0
    ensures |next.trace| > 0
  {
    ScansRun(if q.service == "" then After(run, env0) else run, env, scans, pruned)
  }

  /** What the request must satisfy. */
  predicate Acceptable(q: Query) {
    if q.service == "" then q.selector != map[] else ValidName(q.service)
  }

  /** Service.list, for one service or for all of them by selector. */
  method ListInstances(store: Store, q: Query, page: int64, size: int64,
                       env0: seq<Command>, env: seq<seq<seq<Command>>>, pruned: bool)
    returns (result: Response, ghost call: ListCall, ghost sorted: seq<Instance>)
    requires store.Valid()
    modifies store
    ensures store.Valid() && Continues(old(store.run), store.run)
    ensures result.Rejected? <==>
            (q.service == "" && q.selector == map[]) || (q.service != "" && !ValidName(q.service))
    ensures result.Rejected? ==> store.run == old(store.run)
    ensures result.Listed? ==>
              && store.run == CallRun(old(store.run), q, env0, env, call.scans, pruned)
              && IsListCall(store.run, q, call)
              && |old(store.run).cmds| <= CallStart(call)
              && Sorted(sorted, BY_ID)
              && multiset(sorted) == multiset(Filtered(Collected(call.scans), q))
              && result.page == PageOf(sorted, page as int, size as int)
              && result.total == |sorted|
              && CallEnd(call) < |store.run.trace|
              && result.revision == |store.run.trace[CallEnd(call)].log|
  {
    hide Flatten, FlatKeys, ValidName, IsScan, Sorted, Filtered, Collected, After, ScansRun;
    sorted, call := [], ListCall(Named, []);
    if !Acceptable(q) {
      return Rejected, call, sorted;
    }
    var names, first := [q.service], 0;
    ghost var source := Named;
    ghost var start := store.run;
    if q.service == "" {
      ghost var namesAt;
      names, first, namesAt := store.Services(env0);
      source := AllServices(namesAt, |store.run.trace| - 1);
    }
    ghost var named := store.run;
    var values, rev;
    ghost var scans;
    values, rev, scans := ScanAll(store, names, first, env, pruned);
    call := ListCall(source, scans);
    AssembleCall(q, names, start, named, store.run, call);
    ResponseRevision(store.run, q, call);
    assert FirstRevision(store.run, call) == first;
    var arranged := Arrange(values, q);
    sorted := arranged;
    result := Listed(Page(arranged, page, size), |arranged|, rev);
  }

  lemma AssembleCall(q: Query, names: seq<string>, start: Run, named: Run, end: Run, c: ListCall)
    requires IsRun(start) && IsRun(named) && IsRun(end) && Continues(start, named) && Continues(named, end)
    requires ScansOf(end, names, |named.cmds|, c.scans) && |c.scans| == |names|
    requires forall i, j :: 0 <= i < j < |names| ==> names[i] != names[j]
    requires match c.source
      case Named => q.service != "" && names == [q.service] && start == named
      case AllServices(namesAt, revAt) =>
        && q.service == "" && namesAt == |start.cmds| && revAt == |named.cmds|
        && forall s :: s in names <==> s in named.trace[namesAt].services
    ensures Continues(start, end)
    ensures IsListCall(end, q, c) && |start.cmds| <= CallStart(c)
    ensures c.source.AllServices? ==> end.trace[c.source.revAt] == named.Last()
  {
    hide IsScan;
    if c.source.AllServices? {
      forall s
        ensures s in end.trace[c.source.namesAt].services <==> exists j :: 0 <= j < |c.scans| && c.scans[j].service == s
      {
        if s in names {
          var j :| 0 <= j < |names| && names[j] == s;
          assert c.scans[j].service == s;
        }
      }
    }
  }

  // ---------- The watch loop ----------

  lemma StreamAppend(q: Query, entries: seq<Change>, c: Change)
    ensures Stream(q, entries + [c]) == Stream(q, entries) + if Relevant(q, c) then [ToMsg(q, c)] else []
  {
    assert (entries + [c])[..|entries|] == entries;
  }

  /** The inner loop: one message per relevant change, and the revision of the last change. */
  method SendChanges(q: Query, changes: seq<Change>, from: nat, ghost p: Progress)
    returns (sent: seq<Msg>, revision: nat)
    requires from == p.revision
    ensures Stream(q, p.consumed) + sent == Stream(q, Consume(p, changes).consumed)
    ensures revision == Consume(p, changes).revision
  {
    hide Stream, Selected;
    sent, revision := [], from;
    assert p.consumed + changes[..0] == p.consumed;
    for i := 0 to |changes|
      invariant Stream(q, p.consumed) + sent == Stream(q, p.consumed + changes[..i])
      invariant revision == if i == 0 then from else changes[i - 1].revision
    {
      var value := changes[i];
      revision := value.revision;
      assert p.consumed + changes[..i + 1] == p.consumed + changes[..i] + [value];
      StreamAppend(q, p.consumed + changes[..i], value);
      if q.service != "" && value.key.service != q.service {
        continue;
      }
      if value.Deleted? {
        sent := sent + [Drop(value.revision, value.key)];
      } else if !StreamMatches(value.payload, q) {
        sent := sent + [Drop(value.revision, value.key)];
      } else {
        sent := sent + [Put(value.revision, value.key, value.payload)];
      }
    }
    assert changes[..|changes|] == changes;
  }

  lemma {:induction false} PolledContinues(a: Run, b: Run, start: nat, polls: seq<nat>)
    requires Continues(a, b) && forall i :: 0 <= i < |polls| ==> polls[i] < |a.trace|
    ensures |a.trace| <= |b.trace| && Polled(a, start, polls) == Polled(b, start, polls)
  {
    if |polls| > 0 {
      PolledContinues(a, b, start, polls[..|polls| - 1]);
    }
  }

  lemma PolledAppend(run: Run, start: nat, polls: seq<nat>, at: nat)
    requires forall i :: 0 <= i < |polls| ==> polls[i] < |run.trace|
    requires at < |run.trace|
    ensures Polled(run, start, polls + [at]) ==
            Consume(Polled(run, start, polls), Batch(run.trace[at].log, Polled(run, start, polls).revision))
  {
    assert (polls + [at])[..|polls|] == polls;
  }

  /** The loop of WatchService until the stream is cancelled, after as many rounds as `rounds` has. */
  method Follow(store: Store, q: Query, from: nat, rounds: seq<seq<Command>>)
    returns (sent: seq<Msg>, revision: nat, ghost polls: seq<nat>)
    requires store.Valid()
    modifies store
    ensures store.Valid() && Continues(old(store.run), store.run)
    ensures PollsFrom(store.run, |old(store.run).cmds|, polls)
    ensures sent == Stream(q, Polled(store.run, from, polls).consumed)
    ensures revision == Polled(store.run, from, polls).revision
    ensures OnePollPerRound(old(store.run), rounds, polls)
    ensures store.run == After(old(store.run), Between(rounds, 0, |rounds|))
  {
    hide Flatten, FlatKeys, Slots, AllProper, Typed, Step, Batch, Stream, Polled, Consume, After, Followed;
    sent, revision, polls := [], from, [];
    FollowedNone(store.run, q, from, rounds);
    for i := 0 to |rounds|
      invariant store.Valid() && Continues(old(store.run), store.run)
      invariant Followed(old(store.run), store.run, q, from, rounds[..i], polls, sent, revision)
    {
      ghost var before := store.run;
      store.Interfere(rounds[i]);
      FollowedSoFar(old(store.run), before, store.run, q, from, rounds[..i], polls, sent, revision);
      var changes := store.Changes(revision);
      var more, next := SendChanges(q, changes, revision, Polled(store.run, from, polls));
      FollowedMore(old(store.run), before, store.run, q, from, rounds, i, polls, sent, revision, changes, more, next);
      sent, revision, polls := sent + more, next, polls + [|store.run.trace| - 1];
    }
    assert rounds[..|rounds|] == rounds;
    FollowedAll(old(store.run), store.run, q, from, rounds, polls, sent, revision);
  }

  /** What the loop has done after some rounds. */
  ghost predicate Followed(start: Run, run: Run, q: Query, from: nat, rounds: seq<seq<Command>>, polls: seq<nat>,
                           sent: seq<Msg>, revision: nat)
    requires |start.trace| > 0
  {
    && PollsFrom(run, |start.cmds|, polls)
    && sent == Stream(q, Polled(run, from, polls).consumed)
    && revision == Polled(run, from, polls).revision
    && run == After(start, Between(rounds, 0, |rounds|))
    && OnePollPerRound(start, rounds, polls)
  }

  lemma FollowedNone(run: Run, q: Query, from: nat, rounds: seq<seq<Command>>)
    requires |run.trace| > 0
    ensures Followed(run, run, q, from, rounds[..0], [], [], from)
  {
    NoPolls(run, q, from);
    StartRounds(run, rounds);
  }

  lemma FollowedAll(start: Run, run: Run, q: Query, from: nat, rounds: seq<seq<Command>>, polls: seq<nat>,
                    sent: seq<Msg>, revision: nat)
    requires |start.trace| > 0 && Followed(start, run, q, from, rounds, polls, sent, revision)
    ensures PollsFrom(run, |start.cmds|, polls) && OnePollPerRound(start, rounds, polls)
    ensures sent == Stream(q, Polled(run, from, polls).consumed)
    ensures revision == Polled(run, from, polls).revision
    ensures run == After(start, Between(rounds, 0, |rounds|))
  {
  }

  lemma FollowedSoFar(start: Run, before: Run, run: Run, q: Query, from: nat, rounds: seq<seq<Command>>,
                      polls: seq<nat>, sent: seq<Msg>, revision: nat)
    requires |start.trace| > 0 && Continues(before, run)
    requires Followed(start, before, q, from, rounds, polls, sent, revision)
    ensures PollsFrom(run, |start.cmds|, polls)
    ensures sent == Stream(q, Polled(run, from, polls).consumed)
    ensures revision == Polled(run, from, polls).revision
  {
    hide Stream, Polled, After, OnePollPerRound;
    PollsContinue(before, run, |start.cmds|, polls);
    PolledContinues(before, run, from, polls);
  }

  lemma FollowedMore(start: Run, before: Run, run: Run, q: Query, from: nat, rounds: seq<seq<Command>>, n: nat,
                     polls: seq<nat>, sent: seq<Msg>, revision: nat, changes: seq<Change>, more: seq<Msg>, next: nat)
    requires IsRun(start) && IsRun(run) && Continues(start, run) && Continues(before, run)
    requires n < |rounds| && |before.trace| > 0 && run == After(before, rounds[n])
    requires Followed(start, before, q, from, rounds[..n], polls, sent, revision)
    requires var log := run.Last().log;
      changes ==
      if revision <= |log| then log[revision..if |log| <= revision + 128 then |log| else revision + 128] else []
    requires PollsFrom(run, |start.cmds|, polls)
    requires var p := Polled(run, from, polls);
      Stream(q, p.consumed) + more == Stream(q, Consume(p, changes).consumed) && next == Consume(p, changes).revision
    ensures Followed(start, run, q, from, rounds[..n + 1], polls + [|run.trace| - 1], sent + more, next)
  {
    hide Stream, Polled, Consume, After, OnePollPerRound, Between, Step, Batch;
    FollowedSoFar(start, before, run, q, from, rounds[..n], polls, sent, revision);
    JointAlways(run, |run.cmds|);
    BatchIsSlice(run.Last().log, revision);
    PolledAppend(run, from, polls, |run.trace| - 1);
    PollsAppend(run, |start.cmds|, polls);
    BetweenPrefix(rounds, n, n);
    BetweenPrefix(rounds, n + 1, n + 1);
    AfterRound(start, rounds, n);
    PollPerRoundMore(start, rounds, n, polls);
  }

  /** Poll i reads the state that round i leaves behind. */
  ghost predicate OnePollPerRound(run: Run, rounds: seq<seq<Command>>, polls: seq<nat>)
    requires |run.trace| > 0
  {
    && |polls| == |rounds|
    && forall i :: 0 <= i < |polls| ==> polls[i] == |After(run, Between(rounds, 0, i + 1)).trace| - 1
  }

  lemma StartRounds(run: Run, rounds: seq<seq<Command>>)
    requires |run.trace| > 0
    ensures After(run, Between(rounds, 0, 0)) == run && OnePollPerRound(run, rounds[..0], [])
  {
  }

  lemma AfterRound(run: Run, rounds: seq<seq<Command>>, i: nat)
    requires |run.trace| > 0 && i < |rounds|
    ensures After(run, Between(rounds, 0, i + 1)) == After(After(run, Between(rounds, 0, i)), rounds[i])
  {
    AfterBoth(run, Between(rounds, 0, i), rounds[i]);
  }

  lemma {:induction false} BetweenPrefix(rounds: seq<seq<Command>>, n: nat, i: nat)
    requires i <= n <= |rounds|
    ensures Between(rounds[..n], 0, i) == Between(rounds, 0, i)
  {
    if i > 0 {
      BetweenPrefix(rounds, n, i - 1);
    }
  }

  lemma PollPerRoundMore(run: Run, rounds: seq<seq<Command>>, n: nat, polls: seq<nat>)
    requires |run.trace| > 0 && n < |rounds| && OnePollPerRound(run, rounds[..n], polls)
    ensures OnePollPerRound(run, rounds[..n + 1], polls + [|After(run, Between(rounds, 0, n + 1)).trace| - 1])
  {
    hide After, Between;
    forall i | 0 <= i <= n + 1
      ensures Between(rounds[..n + 1], 0, i) == Between(rounds, 0, i)
    {
      BetweenPrefix(rounds, n + 1, i);
    }
    forall i | 0 <= i <= n
      ensures Between(rounds[..n], 0, i) == Between(rounds, 0, i)
    {
      BetweenPrefix(rounds, n, i);
    }
  }

  lemma NoPolls(run: Run, q: Query, from: nat)
    ensures PollsFrom(run, |run.cmds|, []) && Polled(run, from, []) == Progress(from, [])
    ensures Stream(q, []) == []
  {
  }

  lemma PollsContinue(a: Run, b: Run, from: nat, polls: seq<nat>)
    requires Continues(a, b) && PollsFrom(a, from, polls)
    ensures PollsFrom(b, from, polls)
    ensures forall i :: 0 <= i < |polls| ==> polls[i] < |a.trace| <= |b.trace|
  {
  }

  lemma PollsAppend(run: Run, from: nat, polls: seq<nat>)
    requires PollsFrom(run, from, polls) && from < |run.trace|
    ensures PollsFrom(run, from, polls + [|run.trace| - 1])
    ensures forall i :: 0 <= i < |polls| ==> polls[i] < |run.trace|
  {
  }

  /** WatchService: the snapshot, then every change from the snapshot's revision on. */
  method WatchService(store: Store, q: Query, env0: seq<Command>, env: seq<seq<seq<Command>>>, pruned: bool,
                      rounds: seq<seq<Command>>)
    returns (rejected: bool, sent: seq<Msg>, ghost w: Watch)
    requires store.Valid()
    modifies store
    ensures store.Valid() && Continues(old(store.run), store.run)
    ensures rejected <==> (q.service == "" && q.selector == map[]) || (q.service != "" && !ValidName(q.service))
    ensures rejected ==> sent == [] && store.run == old(store.run)
    ensures !rejected ==>
              && w.q == q && IsWatch(store.run, w) && |old(store.run).cmds| <= CallStart(w.call)
              && CallEnd(w.call) < |store.run.trace|
              && Sorted(w.initial, BY_ID)
              && sent == Snapshots(w.initial) + Stream(q, Polled(store.run, Revision(store.run, w), w.polls).consumed)
              && Client(map[], sent) == Held(store.run, w)
    ensures !rejected ==>
              var listed := CallRun(old(store.run), q, env0, env, w.call.scans, pruned);
              && store.run == After(listed, Between(rounds, 0, |rounds|))
              && OnePollPerRound(listed, rounds, w.polls)
    ensures !rejected ==> forall n: nat :: StoodStill(store.run, w, n) ==> CaughtUp(store.run, w)
  {
    hide Flatten, FlatKeys, Sorted, Snapshots, Stream, IsScan, ValidName, After, CallRun, OnePollPerRound;
    hide StoodStill, CaughtUp, Slots;
    var result;
    ghost var call, sorted;
    result, call, sorted := ListInstances(store, q, 0, 0, env0, env, pruned);
    if result.Rejected? {
      return true, [], Watch(q, call, [], []);
    }
    ghost var listed := store.run;
    var messages, revision;
    ghost var polls;
    messages, revision, polls := Follow(store, q, result.revision, rounds);
    rejected, sent := false, Snapshots(result.page) + messages;
    w := Watch(q, call, sorted, polls);
    AssembleWatch(listed, store.run, w);
    ClientOfBoth(map[], Snapshots(sorted), messages);
    forall n: nat | StoodStill(store.run, w, n)
      ensures CaughtUp(store.run, w)
    {
      StoodStillCatchesUp(store.run, w, n);
    }
  }

  /** The last n polls saw the log as it is now, and n batches cover all of it since the snapshot. */
  ghost predicate StoodStill(run: Run, w: Watch, n: nat)
    requires IsRun(run) && IsWatch(run, w)
  {
    && n <= |w.polls| && CallEnd(w.call) < |run.trace|
    && (forall i :: |w.polls| - n <= i < |w.polls| ==> run.trace[w.polls[i]].log == run.Last().log)
    && |run.Last().log| <= Revision(run, w) + 128 * n
  }

  lemma StoodStillCatchesUp(run: Run, w: Watch, n: nat)
    requires IsRun(run) && IsWatch(run, w) && StoodStill(run, w, n)
    ensures CaughtUp(run, w)
  {
    hide IsScan, Step, Polled;
    var m := |w.polls| - n;
    CatchesUp(run, w, m);
    DeliversExactly(run, CallEnd(w.call), w.polls[..m], |run.trace| - 1);
  }

  /** A client takes messages in as they come, so it may be given them in two parts. */
  lemma {:induction false} ClientOfBoth(m: map<Key, Instance>, first: seq<Msg>, second: seq<Msg>)
    ensures Client(m, first + second) == Client(Client(m, first), second)
  {
    if |second| == 0 {
      assert first + second == first;
    } else {
      var front := second[..|second| - 1];
      ClientOfBoth(m, first, front);
      assert (first + second)[..|first + second| - 1] == first + front;
    }
  }

  lemma AssembleWatch(listed: Run, end: Run, w: Watch)
    requires IsRun(listed) && IsRun(end) && Continues(listed, end) && IsListCall(listed, w.q, w.call)
    requires multiset(w.initial) == multiset(Filtered(Collected(w.call.scans), w.q))
    requires CallEnd(w.call) < |listed.trace| && PollsFrom(end, |listed.cmds|, w.polls)
    ensures IsWatch(end, w)
    ensures Revision(end, w) == |listed.trace[CallEnd(w.call)].log|
  {
    hide Filtered, Collected, IsScan;
    CallContinues(listed, end, w.q, w.call);
    InitialIsReturned(w);
  }

  lemma CallContinues(a: Run, b: Run, q: Query, c: ListCall)
    requires Continues(a, b) && IsListCall(a, q, c)
    ensures IsListCall(b, q, c)
  {
    hide IsScan;
    forall j | 0 <= j < |c.scans|
      ensures IsScan(b, c.scans[j])
    {
      ScanContinues(a, b, c.scans[j]);
    }
  }

  lemma InitialIsReturned(w: Watch)
    requires multiset(w.initial) == multiset(Filtered(Collected(w.call.scans), w.q))
    ensures forall v :: v in w.initial <==>
              Matches(v, w.q) && exists j :: 0 <= j < |w.call.scans| && Returned(w.call.scans[j], v)
  {
    SameMembers(w.initial, Filtered(Collected(w.call.scans), w.q));
    forall v
      ensures v in w.initial <==>
              Matches(v, w.q) && exists j :: 0 <= j < |w.call.scans| && Returned(w.call.scans[j], v)
    {
      FilteredMember(Collected(w.call.scans), w.q, v);
      CollectedMember(w.call.scans, v);
    }
  }
}
