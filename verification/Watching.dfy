/**
 WatchService: a filtered snapshot, then the change log from the snapshot's revision on, in
 batches.  Delivery is exact for every schedule of polls, and the client's map converges
 to the store key by key.
 */
module Watching {
  import opened Types
  import opened RedisModel
  import opened Runs
  import opened Calls
  import opened Replay
  import opened Filters
  import opened Listing

  const BATCH: nat := 128

  // ---------- The list call behind a snapshot ----------

  /** Where the service names came from: the request, or SMEMBERS and GET revision. */
  datatype Source = Named | AllServices(namesAt: nat, revAt: nat)

  datatype ListCall = ListCall(source: Source, scans: seq<Scan>)

  ghost predicate IsListCall(run: Run, q: Query, c: ListCall) {
    && (forall j :: 0 <= j < |c.scans| ==> IsScan(run, c.scans[j]))
    && (forall i, j :: 0 <= i < j < |c.scans| ==>
          c.scans[i].revAt <= c.scans[j].enumAt && c.scans[i].service != c.scans[j].service)
    && (match c.source
        case Named => q.service != "" && |c.scans| == 1 && c.scans[0].service == q.service
        case AllServices(namesAt, revAt) =>
          && q.service == ""
          && namesAt <= revAt < |run.trace|
          && (forall s :: s in run.trace[namesAt].services <==>
                exists j :: 0 <= j < |c.scans| && c.scans[j].service == s)
          && (forall j :: 0 <= j < |c.scans| ==> revAt <= c.scans[j].enumAt))
  }

  function CallStart(c: ListCall): nat
    requires c.source.Named? ==> |c.scans| > 0
  {
    if c.source.Named? then c.scans[0].enumAt else c.source.namesAt
  }

  /** The instant of the last revision read. */
  function CallEnd(c: ListCall): nat
    requires c.source.Named? ==> |c.scans| > 0
  {
    if |c.scans| > 0 then c.scans[|c.scans| - 1].revAt else c.source.revAt
  }

  /** The largest revision read by the scans, starting from the one read with the names. */
  function MaxRevision(run: Run, first: nat, scans: seq<Scan>): nat
    requires forall j :: 0 <= j < |scans| ==> scans[j].revAt < |run.trace|
  {
    if |scans| == 0 then first
    else
      var m, current := MaxRevision(run, first, scans[..|scans| - 1]), run.trace[scans[|scans| - 1].revAt].revision;
      if current > m then current else m
  }

  function FirstRevision(run: Run, c: ListCall): nat
    requires c.source.AllServices? ==> c.source.revAt < |run.trace|
  {
    if c.source.Named? then 0 else run.trace[c.source.revAt].revision
  }

  lemma {:induction false} MaxRevisionIsLast(run: Run, first: nat, scans: seq<Scan>)
    requires IsRun(run)
    requires forall j :: 0 <= j < |scans| ==> scans[j].revAt < |run.trace| && IsScan(run, scans[j])
    requires forall i, j :: 0 <= i < j < |scans| ==> scans[i].revAt <= scans[j].enumAt
    requires |scans| > 0 ==> first <= run.trace[scans[0].revAt].revision
    ensures MaxRevision(run, first, scans) ==
            if |scans| == 0 then first else run.trace[scans[|scans| - 1].revAt].revision
  {
    if |scans| > 1 {
      MaxRevisionIsLast(run, first, scans[..|scans| - 1]);
      var a, b := scans[|scans| - 2].revAt, scans[|scans| - 1].revAt;
      assert IsScan(run, scans[|scans| - 1]);
      ScanSpan(run, scans[|scans| - 1]);
      JointAlways(run, a);
      JointAlways(run, b);
      Grows(run, a, b);
    }
  }

  lemma ScanSpan(run: Run, s: Scan)
    requires IsScan(run, s)
    ensures s.enumAt <= s.revAt < |run.trace|
  {
    if |s.gets| > 0 {
      assert s.enumAt <= s.gets[|s.gets| - 1].at;
    }
  }

  /** The revision of a response is the one its last scan read: the length of the log then. */
  lemma ResponseRevision(run: Run, q: Query, c: ListCall)
    requires IsRun(run) && IsListCall(run, q, c)
    ensures CallStart(c) <= CallEnd(c) < |run.trace|
    ensures forall j :: 0 <= j < |c.scans| ==> CallStart(c) <= c.scans[j].enumAt && c.scans[j].revAt <= CallEnd(c)
    ensures MaxRevision(run, FirstRevision(run, c), c.scans) == |run.trace[CallEnd(c)].log|
  {
    hide IsScan;
    forall j | 0 <= j < |c.scans|
      ensures c.scans[j].enumAt <= c.scans[j].revAt < |run.trace|
      ensures CallStart(c) <= c.scans[j].enumAt && c.scans[j].revAt <= CallEnd(c)
    {
      ScanSpan(run, c.scans[j]);
      ScanSpan(run, c.scans[|c.scans| - 1]);
    }
    if c.source.AllServices? && |c.scans| > 0 {
      JointAlways(run, c.source.revAt);
      JointAlways(run, c.scans[0].revAt);
      Grows(run, c.source.revAt, c.scans[0].revAt);
    }
    MaxRevisionIsLast(run, FirstRevision(run, c), c.scans);
    JointAlways(run, CallEnd(c));
  }

  // ---------- Messages and the client's map ----------

  datatype Msg =
    | Snapshot(instance: Instance)
    | Put(revision: nat, key: Key, instance: Instance)
    | Drop(revision: nat, key: Key)

  function ToMsg(q: Query, c: Change): Msg {
    if c.Upserted? && StreamMatches(c.payload, q) then Put(c.revision, c.key, c.payload)
    else Drop(c.revision, c.key)
  }

  predicate Relevant(q: Query, c: Change) {
    q.service == "" || c.key.service == q.service
  }

  /** The messages for a stretch of the log: entries of other services are skipped. */
  function Stream(q: Query, entries: seq<Change>): seq<Msg> {
    if |entries| == 0 then []
    else
      var last := entries[|entries| - 1];
      Stream(q, entries[..|entries| - 1]) + if Relevant(q, last) then [ToMsg(q, last)] else []
  }

  function Snapshots(values: seq<Instance>): seq<Msg> {
    seq(|values|, i requires 0 <= i < |values| => Snapshot(values[i]))
  }

  function Receive(m: map<Key, Instance>, msg: Msg): map<Key, Instance> {
    match msg
    case Snapshot(v) => m[v.Name() := v]
    case Put(_, key, v) => m[key := v]
    case Drop(_, key) => m - {key}
  }

  /** What a client holds after receiving the messages in order. */
  function Client(m: map<Key, Instance>, msgs: seq<Msg>): map<Key, Instance> {
    if |msgs| == 0 then m
    else Receive(Client(m, msgs[..|msgs| - 1]), msgs[|msgs| - 1])
  }

  lemma {:induction false} SnapshotAt(values: seq<Instance>, k: Key)
    requires forall v, w :: v in values && w in values && v.Name() == k == w.Name() ==> v == w
    ensures var m := Client(map[], Snapshots(values));
      && (k in m <==> exists v :: v in values && v.Name() == k)
      && (k in m ==> m[k] in values && m[k].Name() == k)
  {
    if |values| > 0 {
      var front, last := values[..|values| - 1], values[|values| - 1];
      SnapshotAt(front, k);
      assert Snapshots(values)[..|values| - 1] == Snapshots(front);
      assert forall v :: v in values <==> v in front || v == last;
    }
  }

  /** The effect of a stretch of the log on one key is that of the key's last entry in it. */
  lemma {:induction false} StreamAt(m: map<Key, Instance>, q: Query, entries: seq<Change>, k: Key)
    requires q.service == "" || k.service == q.service
    ensures var n, c := LastFor(entries, k), Client(m, Stream(q, entries));
      && (n < 0 ==> (k in c <==> k in m) && (k in c ==> c[k] == m[k]))
      && (n >= 0 ==> (k in c <==> entries[n].Upserted? && StreamMatches(entries[n].payload, q))
                     && (k in c ==> c[k] == entries[n].payload))
  {
    hide StreamMatches;
    if |entries| > 0 {
      var front, last := entries[..|entries| - 1], entries[|entries| - 1];
      StreamAt(m, q, front, k);
      if Relevant(q, last) {
        var s := Stream(q, front);
        assert Stream(q, entries) == s + [ToMsg(q, last)];
        assert (s + [ToMsg(q, last)])[..|s|] == s;
      } else {
        assert Stream(q, entries) == Stream(q, front);
      }
    }
  }

  /** A watch of one service never touches another service's entries. */
  lemma {:induction false} StreamIgnoresOthers(m: map<Key, Instance>, q: Query, entries: seq<Change>, k: Key)
    requires q.service != "" && k.service != q.service
    ensures var c := Client(m, Stream(q, entries)); (k in c <==> k in m) && (k in c ==> c[k] == m[k])
  {
    hide StreamMatches;
    if |entries| > 0 {
      var front, last := entries[..|entries| - 1], entries[|entries| - 1];
      StreamIgnoresOthers(m, q, front, k);
      var s := Stream(q, front);
      if Relevant(q, last) {
        assert (s + [ToMsg(q, last)])[..|s|] == s;
      } else {
        assert Stream(q, entries) == s;
      }
    }
  }

  /** A message of the stream: which entry it is about. */
  ghost predicate Carries(msg: Msg, c: Change, q: Query) {
    && !msg.Snapshot? && msg.revision == c.revision && msg.key == c.key && Relevant(q, c)
    && (msg.Put? <==> c.Upserted? && StreamMatches(c.payload, q))
    && (msg.Put? ==> msg.instance == c.payload)
  }

  /** The messages are about entries a + 1 to b of the log, in order, one for each relevant entry. */
  ghost predicate Numbers(q: Query, log: seq<Change>, a: nat, b: nat, msgs: seq<Msg>) {
    && (forall i :: 0 <= i < |msgs| ==>
          && !msgs[i].Snapshot? && a < msgs[i].revision <= b <= |log|
          && Carries(msgs[i], log[msgs[i].revision - 1], q))
    && (forall i, j :: 0 <= i < j < |msgs| ==>
          !msgs[i].Snapshot? && !msgs[j].Snapshot? && msgs[i].revision < msgs[j].revision)
    && (forall n :: a <= n < b <= |log| && Relevant(q, log[n]) ==>
          exists i :: 0 <= i < |msgs| && !msgs[i].Snapshot? && msgs[i].revision == n + 1)
  }

  lemma MessageCarries(q: Query, c: Change)
    requires Relevant(q, c)
    ensures Carries(ToMsg(q, c), c, q) && !ToMsg(q, c).Snapshot? && ToMsg(q, c).revision == c.revision
  {
    hide StreamMatches;
  }

  lemma NumbersSkip(q: Query, log: seq<Change>, a: nat, b: nat, msgs: seq<Msg>)
    requires a <= b < |log| && Numbers(q, log, a, b, msgs) && !Relevant(q, log[b])
    ensures Numbers(q, log, a, b + 1, msgs)
  {
    hide Carries, Relevant;
  }

  lemma NumbersMore(q: Query, log: seq<Change>, a: nat, b: nat, msgs: seq<Msg>)
    requires a <= b < |log| && log[b].revision == b + 1 && Numbers(q, log, a, b, msgs) && Relevant(q, log[b])
    ensures Numbers(q, log, a, b + 1, msgs + [ToMsg(q, log[b])])
  {
    hide Carries, ToMsg, Relevant;
    var more := msgs + [ToMsg(q, log[b])];
    MessageCarries(q, log[b]);
    forall n | a <= n < b + 1 && Relevant(q, log[n])
      ensures exists i :: 0 <= i < |more| && !more[i].Snapshot? && more[i].revision == n + 1
    {
      if n < b {
        var i :| 0 <= i < |msgs| && !msgs[i].Snapshot? && msgs[i].revision == n + 1;
        assert more[i] == msgs[i];
      } else {
        assert more[|msgs|] == ToMsg(q, log[b]);
      }
    }
  }

  /** Each streamed message carries the revision of its own entry, and revisions increase. */
  lemma {:induction false} StreamNumbered(q: Query, log: seq<Change>, a: nat, b: nat)
    requires a <= b <= |log| && forall i :: 0 <= i < |log| ==> log[i].revision == i + 1
    ensures Numbers(q, log, a, b, Stream(q, log[a..b]))
    decreases b
  {
    hide StreamMatches, Numbers;
    if a < b {
      StreamNumbered(q, log, a, b - 1);
      assert log[a..b][..b - a - 1] == log[a..b - 1];
      if Relevant(q, log[b - 1]) {
        NumbersMore(q, log, a, b - 1, Stream(q, log[a..b - 1]));
      } else {
        NumbersSkip(q, log, a, b - 1, Stream(q, log[a..b - 1]));
        assert Stream(q, log[a..b]) == Stream(q, log[a..b - 1]);
      }
    } else {
      NothingNumbered(q, log, a);
    }
  }

  lemma NothingNumbered(q: Query, log: seq<Change>, a: nat)
    ensures Numbers(q, log, a, a, [])
  {
  }

  // ---------- Delivery ----------

  /** XREAD: the entries with a larger id than `after`. */
  function NewerThan(log: seq<Change>, after: nat): seq<Change> {
    if |log| == 0 then []
    else
      NewerThan(log[..|log| - 1], after) + if log[|log| - 1].revision > after then [log[|log| - 1]] else []
  }

  /** XREAD with COUNT. */
  function Batch(log: seq<Change>, after: nat): seq<Change> {
    var newer := NewerThan(log, after);
    if |newer| <= BATCH then newer else newer[..BATCH]
  }

  lemma {:induction false} NewerIsSuffix(log: seq<Change>, after: nat)
    requires forall i :: 0 <= i < |log| ==> log[i].revision == i + 1
    ensures NewerThan(log, after) == if after <= |log| then log[after..] else []
  {
    if |log| > 0 {
      NewerIsSuffix(log[..|log| - 1], after);
      if after < |log| {
        assert log[..|log| - 1][after..] + [log[|log| - 1]] == log[after..];
      }
    }
  }

  /** The revision the watch loop continues from, and the entries it has consumed. */
  datatype Progress = Progress(revision: nat, consumed: seq<Change>)

  function Consume(p: Progress, batch: seq<Change>): Progress {
    if |batch| == 0 then p
    else Progress(batch[|batch| - 1].revision, p.consumed + batch)
  }

  /** The loop after polling at the given instants. */
  function Polled(run: Run, start: nat, polls: seq<nat>): Progress
    requires forall i :: 0 <= i < |polls| ==> polls[i] < |run.trace|
  {
    if |polls| == 0 then Progress(start, [])
    else
      var before := Polled(run, start, polls[..|polls| - 1]);
      Consume(before, Batch(run.trace[polls[|polls| - 1]].log, before.revision))
  }

  ghost predicate PollsFrom(run: Run, from: nat, polls: seq<nat>) {
    && (forall i :: 0 <= i < |polls| ==> from <= polls[i] < |run.trace|)
    && (forall i, j :: 0 <= i < j < |polls| ==> polls[i] <= polls[j])
  }

  /** A batch is the next stretch of the log, at most BATCH entries long. */
  lemma BatchIsSlice(log: seq<Change>, after: nat)
    requires forall i :: 0 <= i < |log| ==> log[i].revision == i + 1
    ensures Batch(log, after) ==
            if after <= |log| then log[after..if |log| <= after + BATCH then |log| else after + BATCH] else []
  {
    NewerIsSuffix(log, after);
    assert |log| > after + BATCH ==> log[after..][..BATCH] == log[after..after + BATCH];
  }

  /** One poll of a state continues exactly where the last one stopped. */
  lemma PollContinues(r: Redis, start: nat, p: Progress)
    requires Joint(r) && start <= p.revision <= |r.log| && p.consumed == r.log[start..p.revision]
    ensures var n := Consume(p, Batch(r.log, p.revision));
      && p.revision <= n.revision <= |r.log|
      && n.consumed == r.log[start..n.revision]
      && n.revision == if |r.log| <= p.revision + BATCH then |r.log| else p.revision + BATCH
  {
    hide Batch;
    var to := if |r.log| <= p.revision + BATCH then |r.log| else p.revision + BATCH;
    BatchIsSlice(r.log, p.revision);
    assert r.log[start..p.revision] + r.log[p.revision..to] == r.log[start..to];
    if p.revision < to {
      assert r.log[p.revision..to][to - p.revision - 1] == r.log[to - 1];
    }
  }

  /**
   Delivery without gap, reordering or repetition: whatever the polling instants, empty
   polls included, the consumed entries are the log from the starting revision to the current one.
   */
  lemma {:induction false} DeliversExactly(run: Run, from: nat, polls: seq<nat>, to: nat)
    requires IsRun(run) && from <= to < |run.trace| && PollsFrom(run, from, polls)
    requires forall i :: 0 <= i < |polls| ==> polls[i] <= to
    ensures var start := |run.trace[from].log|; var p := Polled(run, start, polls);
      && start <= p.revision <= |run.trace[to].log|
      && p.consumed == run.trace[to].log[start..p.revision]
  {
    var start := |run.trace[from].log|;
    Grows(run, from, to);
    if |polls| > 0 {
      var at := polls[|polls| - 1];
      DeliversExactly(run, from, polls[..|polls| - 1], at);
      JointAlways(run, at);
      PollContinues(run.trace[at], start, Polled(run, start, polls[..|polls| - 1]));
      Grows(run, at, to);
    }
  }

  /** Once the log stands still, every poll takes the next BATCH entries until none are left. */
  lemma {:induction false} CatchUpBound(run: Run, from: nat, polls: seq<nat>, m: nat)
    requires IsRun(run) && from < |run.trace| && PollsFrom(run, from, polls) && m <= |polls|
    requires forall i :: m <= i < |polls| ==> run.trace[polls[i]].log == run.Last().log
    ensures var start, end := |run.trace[from].log|, |run.Last().log|;
      var reach := Polled(run, start, polls[..m]).revision + BATCH * (|polls| - m);
      Polled(run, start, polls).revision == if end <= reach then end else reach
    decreases |polls|
  {
    hide Step, Batch;
    var start, last := |run.trace[from].log|, |run.trace| - 1;
    if m == |polls| {
      assert polls[..m] == polls;
      DeliversExactly(run, from, polls, last);
    } else {
      var front, at := polls[..|polls| - 1], polls[|polls| - 1];
      assert front[..m] == polls[..m];
      CatchUpBound(run, from, front, m);
      DeliversExactly(run, from, front, at);
      JointAlways(run, at);
      PollContinues(run.trace[at], start, Polled(run, start, front));
    }
  }

  // ---------- Convergence ----------

  /** `initial` is the filtered response in whatever order; polls are the instants of the loop's reads. */
  datatype Watch = Watch(q: Query, call: ListCall, initial: seq<Instance>, polls: seq<nat>)

  ghost predicate IsWatch(run: Run, w: Watch) {
    && IsListCall(run, w.q, w.call)
    && (forall v :: v in w.initial <==>
          Matches(v, w.q) && exists j :: 0 <= j < |w.call.scans| && Returned(w.call.scans[j], v))
    && PollsFrom(run, CallEnd(w.call), w.polls)
  }

  function Revision(run: Run, w: Watch): nat
    requires w.call.source.Named? ==> |w.call.scans| > 0
    requires CallEnd(w.call) < |run.trace|
  {
    |run.trace[CallEnd(w.call)].log|
  }

  function Held(run: Run, w: Watch): map<Key, Instance>
    requires w.call.source.Named? ==> |w.call.scans| > 0
    requires CallEnd(w.call) < |run.trace|
    requires forall i :: 0 <= i < |w.polls| ==> w.polls[i] < |run.trace|
  {
    Client(Client(map[], Snapshots(w.initial)),
           Stream(w.q, Polled(run, Revision(run, w), w.polls).consumed))
  }

  ghost predicate Enumerated(c: ListCall, k: Key) {
    exists j, i :: 0 <= j < |c.scans| && 0 <= i < |c.scans[j].gets| && c.scans[j].gets[i].key == k
  }

  /** The log has an entry about k in [a, b). */
  ghost predicate Mentions(log: seq<Change>, k: Key, a: nat, b: nat) {
    exists n :: a <= n < b && n < |log| && log[n].key == k
  }

  /** The key's lease ran out and no delete was logged for it. */
  predicate LapsedSilently(r: Redis, k: Key, v: Instance)
    requires |r.log| == |r.due|
  {
    var n := LastFor(r.log, k);
    n >= 0 && r.log[n].Upserted? && r.log[n].payload == v && r.due[n] < r.now
  }

  /** The last entry about k is an upsert of v. */
  predicate UpsertOf(log: seq<Change>, k: Key, v: Instance) {
    var n := LastFor(log, k);
    n >= 0 && log[n].Upserted? && log[n].payload == v
  }

  /** The last entry about k is a matching upsert whose deadline has not passed. */
  predicate UnexpiredMatch(r: Redis, k: Key, q: Query) {
    var n := LastFor(r.log, k);
    0 <= n < |r.due| && r.log[n].Upserted? && r.now <= r.due[n] && Matches(r.log[n].payload, q)
  }

  /**
   The instant that decided what a call says about k: its GET of k, or for a key it did not
   read the SMEMBERS that left k out, of the key's service or of the services.
   */
  ghost function DecidedAt(c: ListCall, k: Key): nat
    requires c.source.Named? ==> |c.scans| > 0
  {
    if j, i :| 0 <= j < |c.scans| && 0 <= i < |c.scans[j].gets| && c.scans[j].gets[i].key == k
    then c.scans[j].gets[i].at
    else if j :| 0 <= j < |c.scans| && c.scans[j].service == k.service then c.scans[j].enumAt
    else CallStart(c)
  }

  lemma OneReadPerKey(run: Run, q: Query, c: ListCall, a: nat, i: nat, b: nat, j: nat)
    requires IsListCall(run, q, c) && a < |c.scans| && b < |c.scans|
    requires i < |c.scans[a].gets| && j < |c.scans[b].gets| && c.scans[a].gets[i].key == c.scans[b].gets[j].key
    ensures a == b && i == j
  {
    assert IsScan(run, c.scans[a]) && IsScan(run, c.scans[b]);
    assert c.scans[a].service == c.scans[a].gets[i].key.service;
    assert c.scans[b].service == c.scans[b].gets[j].key.service;
  }

  lemma Finds(c: ListCall, k: Key) returns (j: nat, i: nat)
    requires Enumerated(c, k)
    ensures j < |c.scans| && i < |c.scans[j].gets| && c.scans[j].gets[i].key == k
  {
    j, i :| 0 <= j < |c.scans| && 0 <= i < |c.scans[j].gets| && c.scans[j].gets[i].key == k;
  }

  /** The instant that decided what the call says about k, given the GET of k. */
  lemma DecidedByRead(run: Run, q: Query, c: ListCall, k: Key, j: nat, i: nat)
    requires IsListCall(run, q, c) && j < |c.scans| && i < |c.scans[j].gets| && c.scans[j].gets[i].key == k
    ensures Enumerated(c, k) && DecidedAt(c, k) == c.scans[j].gets[i].at
  {
    hide IsScan;
    forall b, a | 0 <= b < |c.scans| && 0 <= a < |c.scans[b].gets| && c.scans[b].gets[a].key == k
      ensures b == j && a == i
    {
      OneReadPerKey(run, q, c, b, a, j, i);
    }
  }

  /** The same for a key the call did not read. */
  lemma DecidedByListing(c: ListCall, k: Key)
    requires (c.source.Named? ==> |c.scans| > 0) && !Enumerated(c, k)
    ensures if exists j :: 0 <= j < |c.scans| && c.scans[j].service == k.service
            then exists j ::
                   0 <= j < |c.scans| && c.scans[j].service == k.service && DecidedAt(c, k) == c.scans[j].enumAt
            else DecidedAt(c, k) == CallStart(c)
  {
  }

  /** That instant lies inside the call. */
  lemma DecidedInside(run: Run, q: Query, c: ListCall, k: Key)
    requires IsRun(run) && IsListCall(run, q, c)
    ensures CallStart(c) <= DecidedAt(c, k) <= CallEnd(c) < |run.trace|
  {
    hide IsScan;
    ResponseRevision(run, q, c);
    if Enumerated(c, k) {
      var j, i := Finds(c, k);
      DecidedByRead(run, q, c, k, j, i);
      ReadInside(run, c.scans[j], i);
    } else if j :| 0 <= j < |c.scans| && c.scans[j].service == k.service {
      forall b | 0 <= b < |c.scans| && c.scans[b].service == k.service
        ensures CallStart(c) <= c.scans[b].enumAt <= CallEnd(c)
      {
        ScanSpan(run, c.scans[b]);
      }
    }
  }

  /** The state at that instant. */
  ghost function StateSeen(run: Run, w: Watch, k: Key): Redis
    requires IsRun(run) && IsWatch(run, w)
  {
    DecidedInside(run, w.q, w.call, k);
    run.trace[DecidedAt(w.call, k)]
  }

  /** What the call saw of k: what was stored at its GET, or nothing. */
  ghost function Seen(run: Run, w: Watch, k: Key): Option<Instance>
    requires IsRun(run) && IsWatch(run, w)
  {
    if Enumerated(w.call, k) then Lookup(StateSeen(run, w, k), k) else None
  }

  /**
   The change a watcher never hears of: the last entry about k was written after the call
   decided about k and before it read the revision, and it is not what the call saw.  For a
   key left out of the index it may also be older, if it stood there live and unseen.
   */
  ghost predicate Missed(run: Run, w: Watch, k: Key)
    requires IsRun(run) && IsWatch(run, w) && CallEnd(w.call) < |run.trace|
  {
    var r, s, n := run.Last(), StateSeen(run, w, k), LastFor(run.Last().log, k);
    && n < Revision(run, w)
    && (|s.log| <= n || (k in s.inst && !Enumerated(w.call, k)))
    && match Seen(run, w, k)
       case Some(v) => if Matches(v, w.q) then !UpsertOf(r.log, k, v) else UnexpiredMatch(r, k, w.q)
       case None => UnexpiredMatch(r, k, w.q)
  }

  /** The last the watcher was told about k, by the stream or else by the snapshot, is an instance. */
  ghost predicate ToldLast(run: Run, w: Watch, k: Key)
    requires IsRun(run) && IsWatch(run, w) && CallEnd(w.call) < |run.trace|
  {
    var log, n := run.Last().log, LastFor(run.Last().log, k);
    if Revision(run, w) <= n then log[n].Upserted? && StreamMatches(log[n].payload, w.q)
    else Seen(run, w, k).Some? && Matches(Seen(run, w, k).value, w.q)
  }

  /** The last entry about k was streamed, is live, and has a status that lists reject. */
  predicate Overstreamed(run: Run, w: Watch, k: Key)
    requires |run.trace| > 0 && (w.call.source.Named? ==> |w.call.scans| > 0) && CallEnd(w.call) < |run.trace|
  {
    var r := run.Last();
    && Revision(run, w) <= LastFor(r.log, k)
    && k in r.inst && !Known(r.inst[k].payload.status) && Selected(r.inst[k].payload, w.q)
  }

  ghost predicate CaughtUp(run: Run, w: Watch)
    requires IsRun(run) && IsWatch(run, w)
  {
    && CallEnd(w.call) < |run.trace|
    && Polled(run, Revision(run, w), w.polls).revision == |run.Last().log|
  }

  /** A watcher catches up with a log that stands still in one poll per BATCH entries it lacks. */
  lemma CatchesUp(run: Run, w: Watch, m: nat)
    requires IsRun(run) && IsWatch(run, w) && CallEnd(w.call) < |run.trace| && m <= |w.polls|
    requires forall i :: m <= i < |w.polls| ==> run.trace[w.polls[i]].log == run.Last().log
    ensures CaughtUp(run, w) <==>
            |run.Last().log| <= Polled(run, Revision(run, w), w.polls[..m]).revision + BATCH * (|w.polls| - m)
  {
    hide IsScan, Step, Polled;
    CatchUpBound(run, CallEnd(w.call), w.polls, m);
  }

  lemma CaughtUpConsumed(run: Run, from: nat, polls: seq<nat>)
    requires IsRun(run) && from < |run.trace| && PollsFrom(run, from, polls)
    requires Polled(run, |run.trace[from].log|, polls).revision == |run.Last().log|
    ensures |run.trace[from].log| <= |run.Last().log|
    ensures Polled(run, |run.trace[from].log|, polls).consumed == run.Last().log[|run.trace[from].log|..]
  {
    DeliversExactly(run, from, polls, |run.trace| - 1);
  }

  lemma CaughtUpClient(run: Run, w: Watch)
    requires IsRun(run) && IsWatch(run, w) && CaughtUp(run, w)
    ensures var r, rev := run.Last(), Revision(run, w);
      && rev <= |r.log|
      && Held(run, w) == Client(Client(map[], Snapshots(w.initial)), Stream(w.q, r.log[rev..]))
  {
    hide IsScan, Step;
    CaughtUpConsumed(run, CallEnd(w.call), w.polls);
  }

  /** The client's map holds at k what it should, given the store. */
  ghost predicate Converged(r: Redis, held: map<Key, Instance>, k: Key, q: Query) {
    && |r.log| == |r.due|
    && (k in r.inst ==> (k in held <==> Matches(r.inst[k].payload, q)))
    && (k in r.inst && k in held ==> held[k] == r.inst[k].payload)
    && (k in held && k !in r.inst ==> LapsedSilently(r, k, held[k]))
  }

  /** Liveness of a key is what its last log entry says. */
  ghost predicate ByLastEntry(r: Redis, k: Key) {
    && |r.log| == |r.due|
    && var n := LastFor(r.log, k);
       && (k in r.inst <==> n >= 0 && r.log[n].Upserted? && r.now <= r.due[n])
       && (k in r.inst ==> r.inst[k] == Cell(r.log[n].payload, r.due[n]))
  }

  /** An entry after the revision is delivered, and decides unless the two filters differ on it. */
  lemma LaterEntryDecides(r: Redis, m: map<Key, Instance>, q: Query, rev: nat, k: Key)
    requires ByLastEntry(r, k) && rev <= LastFor(r.log, k)
    requires q.service == "" || k.service == q.service
    ensures Converged(r, Client(m, Stream(q, r.log[rev..])), k, q) <==>
            !(k in r.inst && !Known(r.inst[k].payload.status) && Selected(r.inst[k].payload, q))
  {
    hide Selected;
    var n := LastFor(r.log, k);
    StreamAt(m, q, r.log[rev..], k);
    LastForUnique(r.log[rev..], k, n - rev);
    if r.log[n].Upserted? {
      FiltersDifferExactly(r.log[n].payload, q);
    }
  }

  lemma ReturnedAt(run: Run, s: Scan, v: Instance) returns (i: nat)
    requires IsRun(run) && IsScan(run, s) && Returned(s, v)
    ensures i < |s.gets| && s.gets[i].found == Some(v) && s.gets[i].key == v.Name()
  {
    i :| 0 <= i < |s.gets| && s.gets[i].found == Some(v);
    JointAlways(run, s.gets[i].at);
  }

  /** A snapshot delivers for k exactly the matching payload its own GET of k found. */
  lemma SnapshotIsSeen(run: Run, w: Watch, k: Key, v: Instance)
    requires IsRun(run) && IsWatch(run, w)
    ensures v in w.initial && v.Name() == k <==> Seen(run, w, k) == Some(v) && Matches(v, w.q)
  {
    hide IsScan, Step, Matches;
    if v in w.initial && v.Name() == k {
      var j :| 0 <= j < |w.call.scans| && Returned(w.call.scans[j], v);
      var i := ReturnedAt(run, w.call.scans[j], v);
      DecidedByRead(run, w.q, w.call, k, j, i);
      ReadFound(run, w.call.scans[j], i);
    }
    if Seen(run, w, k) == Some(v) && Matches(v, w.q) {
      var j, i := Finds(w.call, k);
      DecidedByRead(run, w.q, w.call, k, j, i);
      ReadFound(run, w.call.scans[j], i);
      assert Returned(w.call.scans[j], v);
      JointAlways(run, DecidedAt(w.call, k));
    }
  }

  lemma ReadFound(run: Run, s: Scan, i: nat)
    requires IsScan(run, s) && i < |s.gets|
    ensures s.gets[i].at < |run.trace| && s.gets[i].found == Lookup(run.trace[s.gets[i].at], s.gets[i].key)
  {
  }

  /** So a snapshot holds at most one payload per key. */
  lemma OnePayloadPerKey(run: Run, w: Watch, k: Key)
    requires IsRun(run) && IsWatch(run, w)
    ensures forall v, u :: v in w.initial && u in w.initial && v.Name() == k == u.Name() ==> v == u
  {
    hide IsScan, Step, Matches, Seen;
    forall v, u | v in w.initial && u in w.initial && v.Name() == k == u.Name()
      ensures v == u
    {
      SnapshotIsSeen(run, w, k, v);
      SnapshotIsSeen(run, w, k, u);
    }
  }

  /** What the client's map holds at k after the snapshot. */
  lemma SnapshotHolds(run: Run, w: Watch, k: Key)
    requires IsRun(run) && IsWatch(run, w)
    ensures var m, seen := Client(map[], Snapshots(w.initial)), Seen(run, w, k);
      && (k in m <==> seen.Some? && Matches(seen.value, w.q))
      && (k in m ==> m[k] == seen.value)
  {
    hide IsScan, Step, Matches, Seen, Client, Snapshots;
    OnePayloadPerKey(run, w, k);
    SnapshotAt(w.initial, k);
    forall v
      ensures v in w.initial && v.Name() == k <==> Seen(run, w, k) == Some(v) && Matches(v, w.q)
    {
      SnapshotIsSeen(run, w, k, v);
    }
  }

  /** With no entry after the revision, the snapshot has to be right about the last entry. */
  lemma SnapshotDecides(r: Redis, m: map<Key, Instance>, q: Query, rev: nat, k: Key)
    requires ByLastEntry(r, k) && rev <= |r.log| && LastFor(r.log, k) < rev
    requires q.service == "" || k.service == q.service
    requires k in m ==> Matches(m[k], q)
    ensures Converged(r, Client(m, Stream(q, r.log[rev..])), k, q) <==>
            if k in m then UpsertOf(r.log, k, m[k]) else !UnexpiredMatch(r, k, q)
  {
    LastForUnique(r.log[rev..], k, -1);
    StreamAt(m, q, r.log[rev..], k);
  }

  lemma WriteIsLogged(run: Run, u: nat, k: Key)
    requires IsRun(run) && Wrote(run, u, k)
    ensures |run.trace[u].log| <= LastFor(run.Last().log, k)
  {
    hide Step, LastFor;
    JointAlways(run, u);
    assert run.trace[u + 1] == Step(run.trace[u], run.cmds[u]);
    StepLogs(run.trace[u], run.cmds[u], k);
    Grows(run, u + 1, |run.trace| - 1);
    assert run.Last().log[|run.trace[u].log|].key == k;
  }

  /** A write to k logs an entry about k, so a last entry from before instant a rules writes since a out. */
  lemma UnwrittenSince(run: Run, k: Key, a: nat)
    requires IsRun(run) && a < |run.trace| && LastFor(run.Last().log, k) < |run.trace[a].log|
    ensures forall u :: a <= u < |run.cmds| ==> !Wrote(run, u, k)
    ensures LastFor(run.trace[a].log, k) == LastFor(run.Last().log, k)
  {
    hide Step, LastFor;
    var last := |run.trace| - 1;
    Grows(run, a, last);
    LastForUnique(run.trace[a].log, k, LastFor(run.Last().log, k));
    forall u | a <= u < |run.cmds|
      ensures !Wrote(run, u, k)
    {
      Grows(run, a, u);
      if Wrote(run, u, k) {
        WriteIsLogged(run, u, k);
      }
    }
  }

  /** What the call saw of a key whose last entry was already there is what that entry says. */
  lemma SeenByLastEntry(run: Run, w: Watch, k: Key)
    requires IsRun(run) && IsWatch(run, w)
    requires LastFor(run.Last().log, k) < |StateSeen(run, w, k).log|
    ensures Seen(run, w, k).Some? ==> UpsertOf(run.Last().log, k, Seen(run, w, k).value)
    ensures UnexpiredMatch(run.Last(), k, w.q) && !Gap(run.Last(), k) ==>
              var s := StateSeen(run, w, k); k in s.inst && UpsertOf(run.Last().log, k, s.inst[k].payload)
  {
    hide Step, Matches, IsScan, Answer, Legal;
    var at, last := DecidedAt(w.call, k), |run.trace| - 1;
    DecidedInside(run, w.q, w.call, k);
    UnwrittenSince(run, k, at);
    Grows(run, at, last);
    LiveByLastEntry(run, at, k);
    LiveByLastEntry(run, last, k);
    if k in run.Last().inst {
      Unwritten(run, k, at, last);
    }
  }

  /** A key removed under another name: the watcher is right exactly if it was not told of an instance last. */
  lemma GapDecides(r: Redis, m: map<Key, Instance>, q: Query, rev: nat, k: Key)
    requires Gap(r, k) && rev <= |r.log| == |r.due| && (q.service == "" || k.service == q.service)
    ensures var n := LastFor(r.log, k);
      && n >= 0 && r.log[n].Upserted?
      && (Converged(r, Client(m, Stream(q, r.log[rev..])), k, q) <==>
            if rev <= n then !StreamMatches(r.log[n].payload, q) else k !in m)
  {
    hide StreamMatches, Matches, Client, Stream;
    var n := LastFor(r.log, k);
    LastForUnique(r.log[rev..], k, if rev <= n then n - rev else -1);
    StreamAt(m, q, r.log[rev..], k);
  }

  /**
   The exact condition, for every run and every key of a watcher that has consumed the
   whole log.  Its map is right about k exactly if no entry about k was missed between the
   instant that decided about k and the revision read, and the stream did not let through
   a live instance of a status lists reject.  If k was removed under another name, the map
   is right exactly if the watcher was not told of an instance at k last.
   */
  lemma ConvergesExactly(run: Run, w: Watch, k: Key)
    requires IsRun(run) && IsWatch(run, w)
    requires w.q.service == "" || k.service == w.q.service
    requires CaughtUp(run, w)
    ensures !Gap(run.Last(), k) ==>
              (Converged(run.Last(), Held(run, w), k, w.q) <==> !Missed(run, w, k) && !Overstreamed(run, w, k))
    ensures Gap(run.Last(), k) ==>
              (Converged(run.Last(), Held(run, w), k, w.q) <==> !ToldLast(run, w, k))
  {
    hide IsScan, Step, Stream, Snapshots, Client, Matches, StreamMatches, ByLastEntry, Converged, Seen, Gap;
    hide UnexpiredMatch, Selected;
    var r, rev, m := run.Last(), Revision(run, w), Client(map[], Snapshots(w.initial));
    CaughtUpClient(run, w);
    JointAlways(run, |run.trace| - 1);
    SnapshotHolds(run, w, k);
    if Gap(r, k) {
      GapDecides(r, m, w.q, rev, k);
    } else {
      DecidedByLastEntry(run, |run.trace| - 1, k);
      if LastFor(r.log, k) < rev {
        SnapshotDecides(r, m, w.q, rev, k);
        MissedExactly(run, w, k);
      } else {
        LaterEntryDecides(r, m, w.q, rev, k);
      }
    }
  }

  lemma MissedExactly(run: Run, w: Watch, k: Key)
    requires IsRun(run) && IsWatch(run, w) && CaughtUp(run, w)
    requires LastFor(run.Last().log, k) < Revision(run, w) && !Gap(run.Last(), k)
    ensures var seen := Seen(run, w, k);
      !Missed(run, w, k) <==>
        if seen.Some? && Matches(seen.value, w.q) then UpsertOf(run.Last().log, k, seen.value)
        else !UnexpiredMatch(run.Last(), k, w.q)
  {
    hide IsScan, Step, Matches, Gap;
    if LastFor(run.Last().log, k) < |StateSeen(run, w, k).log| {
      SeenByLastEntry(run, w, k);
    }
  }

  lemma DecidedByLastEntry(run: Run, i: nat, k: Key)
    requires IsRun(run) && i < |run.trace| && !Gap(run.trace[i], k)
    ensures ByLastEntry(run.trace[i], k)
  {
    hide Gap, Step;
    LiveByLastEntry(run, i, k);
  }

  /** A watch of one service enumerates exactly what its member set held at the first read. */
  lemma NamedCallEnumerates(run: Run, q: Query, c: ListCall, k: Key)
    requires IsListCall(run, q, c) && c.source.Named?
    ensures CallStart(c) < |run.trace|
    ensures Enumerated(c, k) <==> k.service == q.service && k.id in MembersOf(run.trace[CallStart(c)], q.service)
  {
    var s := c.scans[0];
    assert IsScan(run, s);
    if Enumerated(c, k) {
      var j, i :| 0 <= j < |c.scans| && 0 <= i < |c.scans[j].gets| && c.scans[j].gets[i].key == k;
      assert j == 0 && s.gets[i].key == Key(q.service, k.id);
    }
    if k.service == q.service && k.id in MembersOf(run.trace[CallStart(c)], q.service) {
      var i :| 0 <= i < |s.gets| && s.gets[i].key == Key(s.service, k.id);
      assert c.scans[0].gets[i].key == k;
    }
  }

  /**
   When every registration supplies a standard status, the watcher is wrong about a key only
   by missing an entry about it, or by not hearing of its removal under another name.
   */
  lemma WatchConvergesIff(h: History, w: Watch, k: Key)
    requires IsHistory(h) && StandardInputs(h) && IsWatch(h.run, w)
    requires w.q.service == "" || k.service == w.q.service
    requires CaughtUp(h.run, w)
    ensures Joint(h.run.Last())
    ensures Converged(h.run.Last(), Held(h.run, w), k, w.q) <==>
            if Gap(h.run.Last(), k) then !ToldLast(h.run, w, k) else !Missed(h.run, w, k)
  {
    hide IsScan, Step, Missed, Converged, Gap, ToldLast;
    JointAlways(h.run, |h.run.trace| - 1);
    ConvergesExactly(h.run, w, k);
    StatusesStayKnown(h, |h.run.trace| - 1);
    assert KnownStored(h.run.Last());
  }

  /**
   Convergence of a watcher that has consumed the whole log: a live instance is held with
   its current payload exactly if it matches, and anything else held is a lease that lapsed
   without a delete.  It holds for every key that some entry after the revision mentions,
   and for every key that none mentions between the instant that decided about it and the
   revision read, unless it was live at that instant and missing from the index, or was
   removed under another name.
   */
  lemma WatchConverges(h: History, w: Watch, k: Key)
    requires IsHistory(h) && StandardInputs(h) && IsWatch(h.run, w)
    requires w.q.service == "" || k.service == w.q.service
    requires CaughtUp(h.run, w) && !Gap(h.run.Last(), k)
    requires var r, rev, s := h.run.Last(), Revision(h.run, w), StateSeen(h.run, w, k);
      || Mentions(r.log, k, rev, |r.log|)
      || (!Mentions(r.log, k, |s.log|, rev) && (k in s.inst ==> Enumerated(w.call, k)))
    ensures Converged(h.run.Last(), Held(h.run, w), k, w.q)
  {
    hide IsScan, Step, Converged, Seen, Matches, Gap;
    var log := h.run.Last().log;
    WatchConvergesIff(h, w, k);
    assert LastFor(log, k) >= 0 ==> log[LastFor(log, k)].key == k;
  }

  /** Where a key is indexed if live, what a call sees of it is what the deciding state holds. */
  lemma IndexedSeesAll(run: Run, w: Watch, k: Key)
    requires IsRun(run) && IsWatch(run, w) && (w.q.service == "" || k.service == w.q.service)
    ensures IndexedKey(StateSeen(run, w, k), k) ==>
              && (k in StateSeen(run, w, k).inst ==> Enumerated(w.call, k))
              && Seen(run, w, k) == Lookup(StateSeen(run, w, k), k)
  {
    hide IsScan;
    var scans := w.call.scans;
    DecidedInside(run, w.q, w.call, k);
    forall j |
      && 0 <= j < |scans| && scans[j].service == k.service && scans[j].enumAt < |run.trace|
      && k.id in MembersOf(run.trace[scans[j].enumAt], k.service)
      ensures Enumerated(w.call, k)
    {
      ScanCovers(run, scans[j], k);
    }
    if !Enumerated(w.call, k) {
      DecidedByListing(w.call, k);
    }
    assert w.call.source.AllServices? && !(exists j :: 0 <= j < |scans| && scans[j].service == k.service) ==>
             k.service !in run.trace[w.call.source.namesAt].services;
    assert w.call.source.Named? ==> scans[0].service == k.service;
  }

  lemma ScanCovers(run: Run, s: Scan, k: Key)
    requires IsScan(run, s) && k.service == s.service && s.enumAt < |run.trace|
    requires k.id in MembersOf(run.trace[s.enumAt], s.service)
    ensures exists i :: 0 <= i < |s.gets| && s.gets[i].key == k
  {
    assert k == Key(s.service, k.id);
  }

  /**
   Where the index had the key when the call decided about it, a quiet log since then is all
   it takes, for a watch of one service and for one of all services alike.
   */
  lemma IndexedWatchConverges(h: History, w: Watch, k: Key)
    requires IsHistory(h) && StandardInputs(h) && IsWatch(h.run, w)
    requires w.q.service == "" || k.service == w.q.service
    requires CaughtUp(h.run, w) && !Gap(h.run.Last(), k)
    requires var r, rev, s := h.run.Last(), Revision(h.run, w), StateSeen(h.run, w, k);
      Mentions(r.log, k, rev, |r.log|) || (IndexedKey(s, k) && !Mentions(r.log, k, |s.log|, rev))
    ensures Converged(h.run.Last(), Held(h.run, w), k, w.q)
  {
    hide IsScan, Step, Converged, Gap;
    IndexedSeesAll(h.run, w, k);
    WatchConverges(h, w, k);
  }
}
