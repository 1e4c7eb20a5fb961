/**
 Short runs in which simpler claims fail; each shows that a condition of the theorem named
 in its comment is needed.
 */
module Counterexamples {
  import opened Types
  import opened Keys
  import opened RedisModel
  import opened Runs
  import opened Replay
  import opened Calls
  import opened Leases
  import opened Filters
  import opened Listing
  import opened Watching
  import opened Ordering
  import opened Paging
  import opened Schedules
  import opened StoreModel
  import opened ServiceModel
  import opened Browsing

  function Start(): Run {
    Run([Redis(0, map[], map[], map[], {}, 0, [], [])], [])
  }

  const BARE := Instance("a", "x", "http://host", map["zone" := "1"], 1, Healthy, 0, 0, 0)

  /** What a registration for 30 seconds stores, and the expiry its script gets. */
  function Fresh(input: Instance, now: int): Instance {
    Prepare(input, LeaseDuration(30), now)
  }

  const PX := 30_000

  /** The run of the given commands from the empty store. */
  function RunOf(cmds: seq<Command>): (run: Run)
    ensures |run.trace| > 0 && run.trace[0] == Start().trace[0]
  {
    if |cmds| == 0 then Start() else Extend(RunOf(cmds[..|cmds| - 1]), cmds[|cmds| - 1])
  }

  lemma {:induction false} RunOfIsRun(cmds: seq<Command>)
    requires forall i :: 0 <= i < |cmds| ==> Legal(cmds[i])
    ensures IsRun(RunOf(cmds)) && RunOf(cmds).cmds == cmds
  {
    if |cmds| > 0 {
      RunOfIsRun(cmds[..|cmds| - 1]);
      ExtendIsRun(RunOf(cmds[..|cmds| - 1]), cmds[|cmds| - 1]);
    }
  }

  lemma Names()
    ensures ValidName("a") && ValidName("b") && !ValidName("a:b")
  {
    assert "a:b"[1] == ':';
  }

  /** Without updates, tokens are presented by registrations only. */
  lemma NoUpdates(h: History)
    requires IsRun(h.run) && |h.why| == |h.run.cmds|
    requires forall u :: 0 <= u < |h.why| ==> Explained(h, u) && !h.run.cmds[u].Update?
    ensures IsHistory(h)
  {
  }

  /** A key lapses, is found stale, and is registered again before the prune. */
  lemma RaceStates(run: Run, p: Instance, again: Instance)
    requires IsRun(run) && run.trace[0].now == 0 && p.Name() == Key("a", "x") == again.Name()
    requires run.cmds == [Register(p, "t1", PX), Tick(31 * SECOND), Register(again, "t2", PX), Prune("a", {"x"})]
    ensures run.trace[2].now == 31 * SECOND
    ensures MembersOf(run.trace[2], "a") == {"x"} && Key("a", "x") !in run.trace[2].inst
    ensures Registered(run, 2, Key("a", "x")) && Key("a", "x") in run.trace[3].inst
    ensures Lookup(run.trace[4], Key("a", "x")) == Some(again) && MembersOf(run.trace[4], "a") == {}
  {
    hide ValidName;
    var k := Key("a", "x");
    var r := run.trace;
    assert r[1] == Step(r[0], run.cmds[0]) && r[2] == Step(r[1], run.cmds[1]);
    assert r[3] == Step(r[2], run.cmds[2]) && r[4] == Step(r[3], run.cmds[3]);
    assert k !in r[0].inst && Answer(r[0], run.cmds[0]).Done?;
    assert MembersOf(r[1], "a") == {"x"};
    assert r[1].inst[k].deadline == 30 * SECOND;
    assert k !in r[2].inst;
    assert Answer(r[2], run.cmds[2]).Done?;
    assert MembersOf(r[3], "a") == {"x"};
  }

  lemma RaceHistory(run: Run) returns (h: History)
    requires IsRun(run) && run.trace[0].now == 0 && |run.cmds| == 4 && run.trace[2].now == 31 * SECOND
    requires run.cmds == [Register(Fresh(BARE, 0), "t1", PX), Tick(31 * SECOND),
                          Register(Fresh(BARE, 31 * SECOND), "t2", PX), Prune("a", {"x"})]
    ensures h.run == run && IsHistory(h) && StandardInputs(h)
  {
    hide Step, Answer;
    h := History(run, [FromRegister(BARE, 30, 0), Direct, FromRegister(BARE, 30, 2), Direct]);
    assert Explained(h, 0) && Explained(h, 1) && Explained(h, 2) && Explained(h, 3);
    NoUpdates(h);
  }

  lemma RaceScan(run: Run) returns (s: Scan)
    requires |run.trace| == 5 && |run.cmds| == 4 && run.cmds[3] == Prune("a", {"x"})
    requires MembersOf(run.trace[2], "a") == {"x"} && Key("a", "x") !in run.trace[2].inst
    requires Registered(run, 2, Key("a", "x")) && Key("a", "x") in run.trace[3].inst
    ensures IsScan(run, s) && Raced(run, s, Key("a", "x"), 3)
  {
    hide Step, Answer, Registered;
    var k := Key("a", "x");
    s := Scan("a", 2, [Read(2, k, None)], Some(3), 4);
    assert s.gets[0].key == k && s.gets[0].found == None;
    assert StaleIds(s.gets) == {"x"} by {
      assert s.gets[0].key.id in StaleIds(s.gets);
    }
    assert LiveBetween(run, k, 2, 3);
  }

  /** KeyIndexed: a registration between the GET and the SREM of a scan is lost from the index. */
  lemma PruneRace() returns (h: History, s: Scan)
    ensures IsHistory(h) && StandardInputs(h)
    ensures |h.run.cmds| == 4 && IsScan(h.run, s) && Raced(h.run, s, Key("a", "x"), 3)
    ensures Lookup(h.run.Last(), Key("a", "x")) == Some(Fresh(BARE, 31 * SECOND))
    ensures !Indexed(h.run.Last()) && MembersOf(h.run.Last(), "a") == {}
  {
    hide ValidName, Step, Answer, IsScan, Raced, Registered, Prepare, LeaseDuration;
    Names();
    var p, again := Fresh(BARE, 0), Fresh(BARE, 31 * SECOND);
    var cmds := [Register(p, "t1", PX), Tick(31 * SECOND), Register(again, "t2", PX), Prune("a", {"x"})];
    RunOfIsRun(cmds);
    var run := RunOf(cmds);
    RaceStates(run, p, again);
    h := RaceHistory(run);
    s := RaceScan(run);
  }

  /** WatchConverges: an instance lost from the index is not in the snapshot of a later watch. */
  lemma UnseenInstance() returns (h: History, w: Watch)
    ensures IsHistory(h) && StandardInputs(h) && IsWatch(h.run, w) && CaughtUp(h.run, w)
    ensures var k, log := Key("a", "x"), h.run.Last().log; !Mentions(log, k, |StateSeen(h.run, w, k).log|, |log|)
    ensures !Converged(h.run.Last(), Held(h.run, w), Key("a", "x"), w.q)
  {
    hide ValidName, Step, Answer, Converged;
    var race;
    h, race := PruneRace();
    w := Watch(Query("a", map[], true), ListCall(Named, [Scan("a", 4, [], None, 4)]), [], []);
    assert IsScan(h.run, w.call.scans[0]);
    UnseenDiverges(h, w, Fresh(BARE, 31 * SECOND));
  }

  /** Nothing was read, so the enumeration decided. */
  lemma UnseenState(run: Run, w: Watch, k: Key)
    requires IsRun(run) && IsWatch(run, w) && w.call.source.Named? && k.service == "a"
    requires |w.call.scans| == 1 && w.call.scans[0].gets == [] && w.call.scans[0].service == "a"
    requires w.call.scans[0].enumAt == |run.trace| - 1
    ensures !Enumerated(w.call, k) && Seen(run, w, k) == None && StateSeen(run, w, k) == run.Last()
  {
    hide IsScan, Step, Matches;
    assert !Enumerated(w.call, k);
    assert w.call.scans[0].service == k.service;
    DecidedByListing(w.call, k);
  }

  lemma UnseenMatches(run: Run, k: Key, p: Instance, q: Query)
    requires IsRun(run) && Lookup(run.Last(), k) == Some(p)
    requires p.status == Healthy && q == Query("a", map[], true)
    ensures UnexpiredMatch(run.Last(), k, q)
  {
    hide Step;
    LiveByLastEntry(run, |run.trace| - 1, k);
  }

  lemma LiveHasNoGap(r: Redis, k: Key)
    requires k in r.inst
    ensures !Gap(r, k)
  {
  }

  lemma UnseenDiverges(h: History, w: Watch, p: Instance)
    requires IsHistory(h) && StandardInputs(h) && IsWatch(h.run, w) && CaughtUp(h.run, w)
    requires w.q == Query("a", map[], true) && w.call.source.Named?
    requires |w.call.scans| == 1 && w.call.scans[0].gets == [] && w.call.scans[0].service == "a"
    requires w.call.scans[0].enumAt == |h.run.trace| - 1 == w.call.scans[0].revAt
    requires Lookup(h.run.Last(), Key("a", "x")) == Some(p) && p.status == Healthy
    ensures StateSeen(h.run, w, Key("a", "x")) == h.run.Last()
    ensures !Converged(h.run.Last(), Held(h.run, w), Key("a", "x"), w.q)
  {
    hide IsScan, Step, Answer, Converged, Seen, StateSeen, UnexpiredMatch, Enumerated, StandardInputs, TokensAfterIssue;
    hide Explained, Gap;
    var k := Key("a", "x");
    UnseenState(h.run, w, k);
    UnseenMatches(h.run, k, p, w.q);
    LiveHasNoGap(h.run.Last(), k);
    WatchConvergesIff(h, w, k);
  }

  /** An instance is registered and removed again. */
  lemma DeleteStates(run: Run, p: Instance)
    requires IsRun(run) && p.Name() == Key("a", "x")
    requires run.cmds == [Register(p, "t", PX), Remove(Key("a", "x"), Key("a", "x"), "t")]
    ensures var k := Key("a", "x");
      && MembersOf(run.trace[1], "a") == {"x"}
      && Lookup(run.trace[1], k) == Some(p)
      && IndexedKey(run.trace[1], k) && |run.trace[1].log| == 1
      && k !in run.trace[2].inst
      && run.trace[2].log == [Upserted(1, k, p), Deleted(2, k)]
  {
    hide ValidName;
    var k, r := Key("a", "x"), run.trace;
    assert r[1] == Step(r[0], run.cmds[0]) && r[2] == Step(r[1], run.cmds[1]);
    assert k !in r[0].inst && Answer(r[0], run.cmds[0]).Done?;
    assert Answer(r[1], run.cmds[1]).Done?;
  }

  /**
   IndexedWatchConverges: a delete between the snapshot's GET and its revision read is never
   delivered, though the key was indexed.
   */
  lemma MissedDelete() returns (h: History, w: Watch)
    ensures IsHistory(h) && StandardInputs(h) && IsWatch(h.run, w) && CaughtUp(h.run, w)
    ensures IndexedKey(StateSeen(h.run, w, Key("a", "x")), Key("a", "x"))
    ensures Key("a", "x") in Held(h.run, w) && Key("a", "x") !in h.run.Last().inst
    ensures !Converged(h.run.Last(), Held(h.run, w), Key("a", "x"), w.q)
  {
    hide ValidName, Step, Answer, Converged;
    var k, p := Key("a", "x"), Fresh(BARE, 0);
    Names();
    var cmds := [Register(p, "t", PX), Remove(k, k, "t")];
    RunOfIsRun(cmds);
    var run := RunOf(cmds);
    DeleteStates(run, p);
    h := History(run, [FromRegister(BARE, 30, 0), Direct]);
    assert Explained(h, 0) && Explained(h, 1);
    NoUpdates(h);
    var s := Scan("a", 1, [Read(1, k, Some(p))], None, 2);
    assert s.gets[0].key == k;
    assert IsScan(run, s);
    w := Watch(Query("a", map[], true), ListCall(Named, [s]), [p], []);
    OneReadWatch(run, s, p, w);
    MissedDeleteDiverges(h, w, p);
  }

  lemma MissedDeleteDiverges(h: History, w: Watch, p: Instance)
    requires |h.run.trace| == 3 && |h.run.trace[1].log| == 1
    requires p.Name() == Key("a", "x") && h.run.trace[2].log == [Upserted(1, p.Name(), p), Deleted(2, p.Name())]
    requires |w.call.scans| > 0 && w.call.scans[0].gets == [Read(1, p.Name(), Some(p))]
    requires w.q == Query("a", map[], true) && w.initial == [p]
    requires IsHistory(h) && StandardInputs(h) && IsWatch(h.run, w) && CaughtUp(h.run, w)
    requires Revision(h.run, w) == 2
    ensures StateSeen(h.run, w, p.Name()) == h.run.trace[1]
    ensures p.Name() in Held(h.run, w)
    ensures !Converged(h.run.Last(), Held(h.run, w), p.Name(), w.q)
  {
    hide IsScan, Step, Answer, Converged, StandardInputs, TokensAfterIssue, Explained;
    var k := p.Name();
    assert p in w.initial;
    LastForUnique(h.run.Last().log, k, 1);
    DecidedByRead(h.run, w.q, w.call, k, 0, 0);
    SnapshotIsSeen(h.run, w, k, p);
    WatchConvergesIff(h, w, k);
    CaughtUpClient(h.run, w);
    SnapshotAt([p], k);
    StreamAt(Client(map[], Snapshots(w.initial)), w.q, h.run.Last().log[2..], k);
  }

  /** A watch of service "a" whose call read one key, at instant 1. */
  lemma OneReadWatch(run: Run, s: Scan, p: Instance, w: Watch)
    requires IsScan(run, s) && s.service == "a" && s.gets == [Read(1, p.Name(), Some(p))] && p.status == Healthy
    requires w.q == Query("a", map[], true) && w.call == ListCall(Named, [s]) && w.initial == [p]
    requires PollsFrom(run, s.revAt, w.polls)
    ensures IsWatch(run, w)
  {
    hide IsScan;
    forall v
      ensures v in w.initial <==>
              Matches(v, w.q) && exists j :: 0 <= j < |w.call.scans| && Returned(w.call.scans[j], v)
    {
      if v == p {
        assert s.gets[0].found == Some(v);
        assert Returned(w.call.scans[0], v);
      }
    }
  }

  /** Registered, drained, then renewed by a call that had read before the drain. */
  lemma OverlapStates(run: Run, p: Instance, px: int)
    requires IsRun(run) && p.Name() == Key("a", "x") && px > 0
    requires run.cmds == [Register(p, "t", px), Update(p.(status := Draining), "t", px), Update(p, "t", px)]
    ensures run.trace[0].now == run.trace[1].now == run.trace[2].now == run.trace[3].now
    ensures var k := p.Name();
      && Wrote(run, 0, k) && Wrote(run, 1, k) && Wrote(run, 2, k)
      && k in run.trace[1].inst && run.trace[1].inst[k].payload == p
      && k in run.trace[3].inst && run.trace[3].inst[k].payload == p
  {
    hide ValidName;
    var k, r := p.Name(), run.trace;
    assert r[1] == Step(r[0], run.cmds[0]) && r[2] == Step(r[1], run.cmds[1]) && r[3] == Step(r[2], run.cmds[2]);
    assert k !in r[0].inst && Answer(r[0], run.cmds[0]).Done?;
    assert Answer(r[1], run.cmds[1]).Done?;
    assert Answer(r[2], run.cmds[2]).Done?;
  }

  /** StatusAndLeaseIndependent: a renewal that read before a status change undoes it. */
  lemma LostStatus() returns (h: History)
    ensures IsHistory(h) && |h.run.cmds| == 3
    ensures var k := Key("a", "x");
      && k in h.run.Last().inst
      && h.why[1].FromStatus? && h.why[1].status == Draining && Wrote(h.run, 1, k)
      && h.why[2].FromRenew? && Wrote(h.run, 2, k) && !Isolated(h, 2, k)
      && h.run.Last().inst[k].payload.status == Healthy
      && !Agrees(h, 3, k)
  {
    hide ValidName, Step, Answer;
    Names();
    var k, lease, now := Key("a", "x"), LeaseDuration(30), 0;
    var p := Prepare(BARE, lease, now);
    var px := lease / MILLISECOND;
    var cmds := [Register(p, "t", px), Update(p.(status := Draining), "t", px), Update(p, "t", px)];
    RunOfIsRun(cmds);
    var run := RunOf(cmds);
    OverlapStates(run, p, px);
    h := History(run, [FromRegister(BARE, 30, 0), FromStatus(1, 1, 1, Draining), FromRenew(1, 1, 30)]);
    assert Explained(h, 0) && Explained(h, 1) && Explained(h, 2);
    OverlapIsHistory(h);
    assert Desired(h, 1, k) == Some(Wish(Healthy, lease));
    assert Desired(h, 2, k) == Some(Wish(Draining, lease));
    assert Desired(h, 3, k) == Some(Wish(Draining, lease));
  }

  lemma OverlapIsHistory(h: History)
    requires IsRun(h.run) && |h.run.cmds| == 3 == |h.why|
    requires Explained(h, 0) && Explained(h, 1) && Explained(h, 2)
    requires h.why[0].FromRegister? && h.why[1].FromStatus? && h.why[2].FromRenew?
    requires h.why[1].getAt == 1 == h.why[2].getAt
    ensures IsHistory(h)
  {
    hide Step, Answer;
    forall u | 0 <= u < 3
      ensures Explained(h, u)
    {
      assert u == 0 || u == 1 || u == 2;
    }
  }

  /** An instance is registered, and removed under a name that shares its keys. */
  lemma AliasStates(run: Run, p: Instance, named: Key)
    requires IsRun(run) && run.trace[0].now == 0 && p.Name() == Key("a", "b:c") && named != p.Name()
    requires run.cmds == [Register(p, "t", PX), Remove(p.Name(), named, "t")]
    ensures var k := p.Name();
      && MembersOf(run.trace[1], "a") == {"b:c"} && Lookup(run.trace[1], k) == Some(p)
      && IndexedKey(run.trace[1], k) && |run.trace[1].log| == 1
      && Removed(run, 1, k) && k !in run.trace[2].inst
      && run.trace[2].log == [Upserted(1, k, p), Deleted(2, named)]
      && run.trace[2].now == 0 && run.trace[2].due == [30 * SECOND, 0]
      && Gap(run.trace[2], k)
  {
    hide ValidName;
    var r := run.trace;
    assert r[1] == Step(r[0], run.cmds[0]) && r[2] == Step(r[1], run.cmds[1]);
    assert Answer(r[0], run.cmds[0]).Done?;
    assert Answer(r[1], run.cmds[1]).Done?;
    LastForUnique(r[2].log, p.Name(), 0);
  }

  /** LogDeterminesStore: a removal named with a ':' deletes a pair the log does not name. */
  lemma AliasedRemoval() returns (h: History)
    ensures IsHistory(h) && StandardInputs(h)
    ensures |h.run.cmds| == 2 && h.run.cmds[1].Remove?
    ensures InstanceKey(h.run.cmds[1].key) == InstanceKey(h.run.cmds[1].named)
    ensures Misaddressed(h.run, 1, 2, Key("a", "b:c"))
    ensures Joint(h.run.Last()) && !Mirrors(h.run.Last())
    ensures h.run.cmds == [Register(Fresh(BARE.(id := "b:c"), 0), "t", PX),
                           Remove(Key("a", "b:c"), Key("a:b", "c"), "t")]
    ensures h.run.trace[0].now == 0
  {
    hide ValidName, InstanceKey, TokenKey, Mirrors, Joint, Step, Answer, Gap, Prepare, LeaseDuration;
    Names();
    ColonAliases();
    var k, input := Key("a", "b:c"), BARE.(id := "b:c");
    var p := Fresh(input, 0);
    var cmds := [Register(p, "t", PX), Remove(k, Key("a:b", "c"), "t")];
    RunOfIsRun(cmds);
    var run := RunOf(cmds);
    h := AliasHistory(run, input);
    AliasStates(run, p, Key("a:b", "c"));
    GapIffMisaddressed(run, 2, k);
    var j: nat :| Misaddressed(run, j, 2, k);
    assert j == 1;
    LogDeterminesStore(run, 2);
  }

  lemma AliasHistory(run: Run, input: Instance) returns (h: History)
    requires IsRun(run) && run.trace[0].now == 0 && |run.cmds| == 2 && run.cmds[1].Remove?
    requires input.status == Healthy && run.cmds[0] == Register(Fresh(input, 0), "t", PX)
    ensures h.run == run && IsHistory(h) && StandardInputs(h)
  {
    hide Step, Answer;
    h := History(run, [FromRegister(input, 30, 0), Direct]);
    assert Explained(h, 0) && Explained(h, 1);
    NoUpdates(h);
  }

  lemma PolledOnce(run: Run, start: nat, at: nat)
    requires at < |run.trace| && Joint(run.trace[at]) && |run.trace[at].log| == start + 1
    ensures Polled(run, start, [at]).revision == start + 1
  {
    hide Batch, Joint;
    assert [at][..0] == [];
    PollContinues(run.trace[at], start, Progress(start, []));
  }

  /**
   WatchConverges: the removal of an instance under another name is logged where no watcher
   of the instance looks, so a caught-up watcher that missed nothing keeps it.
   */
  lemma UnheardRemoval() returns (h: History, w: Watch)
    ensures IsHistory(h) && StandardInputs(h) && IsWatch(h.run, w) && CaughtUp(h.run, w)
    ensures var k, log := Key("a", "b:c"), h.run.Last().log;
      && IndexedKey(StateSeen(h.run, w, k), k)
      && !Mentions(log, k, |StateSeen(h.run, w, k).log|, |log|)
      && !Missed(h.run, w, k) && !Overstreamed(h.run, w, k)
      && !Converged(h.run.Last(), Held(h.run, w), k, w.q)
  {
    hide ValidName, Step, Answer, Converged, Prepare, LeaseDuration, Joint, Mirrors, Misaddressed, IsScan;
    hide Missed, Overstreamed, Mentions, Gap, InstanceKey;
    h := AliasedRemoval();
    var k, p := Key("a", "b:c"), Fresh(BARE.(id := "b:c"), 0);
    FreshKeeps(BARE.(id := "b:c"), 0);
    AliasStates(h.run, p, Key("a:b", "c"));
    var s := Scan("a", 1, [Read(1, k, Some(p))], None, 1);
    UnheardScan(h.run, s, p);
    w := Watch(Query("a", map[], true), ListCall(Named, [s]), [p], [2]);
    OneReadWatch(h.run, s, p, w);
    PolledOnce(h.run, 1, 2);
    UnheardDiverges(h, w, p);
  }

  lemma FreshKeeps(input: Instance, now: int)
    requires input.status == Healthy
    ensures Fresh(input, now).Name() == input.Name() && Fresh(input, now).status == Healthy
  {
  }

  lemma UnheardScan(run: Run, s: Scan, p: Instance)
    requires |run.trace| > 1 && MembersOf(run.trace[1], "a") == {"b:c"} && p.Name() == Key("a", "b:c")
    requires Lookup(run.trace[1], p.Name()) == Some(p)
    requires s == Scan("a", 1, [Read(1, p.Name(), Some(p))], None, 1)
    ensures IsScan(run, s)
  {
    assert s.gets[0].key == Key("a", "b:c");
  }

  lemma UnheardDiverges(h: History, w: Watch, p: Instance)
    requires |h.run.trace| == 3 && |h.run.trace[1].log| == 1 && p.Name() == Key("a", "b:c") && p.status == Healthy
    requires h.run.trace[2].log == [Upserted(1, p.Name(), p), Deleted(2, Key("a:b", "c"))]
    requires |w.call.scans| == 1 && w.call.scans[0].gets == [Read(1, p.Name(), Some(p))]
    requires w.q == Query("a", map[], true) && w.initial == [p]
    requires IsHistory(h) && StandardInputs(h) && IsWatch(h.run, w) && CaughtUp(h.run, w) && Gap(h.run.Last(), p.Name())
    requires Revision(h.run, w) == 1
    ensures StateSeen(h.run, w, p.Name()) == h.run.trace[1]
    ensures !Mentions(h.run.Last().log, p.Name(), 1, 2)
    ensures !Missed(h.run, w, p.Name()) && !Overstreamed(h.run, w, p.Name())
    ensures !Converged(h.run.Last(), Held(h.run, w), p.Name(), w.q)
  {
    hide IsScan, Step, Answer, Converged, StandardInputs, TokensAfterIssue, Explained;
    var k := p.Name();
    assert p in w.initial;
    LastForUnique(h.run.Last().log, k, 0);
    DecidedByRead(h.run, w.q, w.call, k, 0, 0);
    SnapshotIsSeen(h.run, w, k, p);
    WatchConvergesIff(h, w, k);
  }

  /** Two services register the same id. */
  lemma TwinStates(run: Run, p: Instance, o: Instance)
    requires IsRun(run) && p.Name() == Key("a", "x") && o.Name() == Key("b", "x")
    requires run.cmds == [Register(p, "t1", PX), Register(o, "t2", PX)] && run.trace[0].now == 0
    ensures run.trace[1].now == 0
    ensures var r := run.trace[2];
      && r.services == {"a", "b"}
      && MembersOf(r, "a") == {"x"} == MembersOf(r, "b")
      && Lookup(r, Key("a", "x")) == Some(p) && Lookup(r, Key("b", "x")) == Some(o)
  {
    hide ValidName;
    var r := run.trace;
    assert r[1] == Step(r[0], run.cmds[0]) && r[2] == Step(r[1], run.cmds[1]);
    assert Answer(r[0], run.cmds[0]).Done? && Answer(r[1], run.cmds[1]).Done?;
    assert MembersOf(r[1], "a") == {"x"} && MembersOf(r[1], "b") == {};
  }

  /** One GET of "x" in a service. */
  function OneRead(service: string, at: nat, v: Instance): Scan {
    Scan(service, at, [Read(at, Key(service, "x"), Some(v))], None, at)
  }

  lemma OneReadIsScan(run: Run, service: string, at: nat, v: Instance)
    requires at < |run.trace| && MembersOf(run.trace[at], service) == {"x"}
    requires Lookup(run.trace[at], Key(service, "x")) == Some(v)
    ensures IsScan(run, OneRead(service, at, v))
  {
    assert OneRead(service, at, v).gets[0].key == Key(service, "x");
  }

  /** A call by selector that scans the services in the given order. */
  lemma TwinCall(run: Run, q: Query, a: Scan, b: Scan) returns (c: ListCall)
    requires |run.trace| > 2 && run.trace[2].services == {a.service, b.service} && a.service != b.service
    requires q.service == "" && IsScan(run, a) && IsScan(run, b)
    requires a.enumAt == a.revAt == 2 == b.enumAt == b.revAt
    ensures IsListCall(run, q, c) && CallStart(c) == 2 == CallEnd(c) && c.scans == [a, b]
  {
    hide IsScan;
    c := ListCall(AllServices(2, 2), [a, b]);
    assert c.scans[0].service == a.service && c.scans[1].service == b.service;
  }

  lemma OneReadFinds(service: string, at: nat, v: Instance)
    ensures FoundIn(OneRead(service, at, v).gets) == [v]
  {
    FoundAppend([], Read(at, Key(service, "x"), Some(v)));
    NothingFound();
    assert [] + OneRead(service, at, v).gets == OneRead(service, at, v).gets;
  }

  lemma TwinValues(q: Query, first: string, second: string, at: nat, p: Instance, o: Instance)
    requires Matches(p, q) && Matches(o, q)
    ensures Filtered(Collected([OneRead(first, at, p), OneRead(second, at, o)]), q) == [p, o]
  {
    hide Matches, FoundIn, Filtered, OneRead;
    var a, b := OneRead(first, at, p), OneRead(second, at, o);
    OneReadFinds(first, at, p);
    OneReadFinds(second, at, o);
    assert [a, b][..1] == [a] && [a][..0] == [];
    assert Collected([]) == [];
    assert Collected([a]) == [] + FoundIn(a.gets) == [p];
    assert Collected([a, b]) == Collected([a]) + FoundIn(b.gets) == [p] + [o];
    FilteredAppend([], p, q);
    FilteredAppend([p], o, q);
    NoneFiltered(q);
    assert [] + [p] == [p];
  }

  lemma TwinsMatch(q: Query)
    requires q == Query("", map["zone" := "1"], false)
    ensures Matches(Fresh(BARE, 0), q) && Matches(Fresh(BARE.(service := "b"), 0), q) && Acceptable(q)
  {
    assert "zone" in q.selector;
  }

  lemma TwinsSorted(p: Instance, o: Instance)
    requires p.id == o.id
    ensures Sorted([p, o], BY_ID)
  {
    LessIrreflexive(p.id);
  }

  lemma TwinsVisible(r: Redis, q: Query, p: Instance, o: Instance)
    requires q.service == "" && r.services == {"a", "b"} && MembersOf(r, "a") == {"x"} == MembersOf(r, "b")
    requires p.Name() == Key("a", "x") && Lookup(r, Key("a", "x")) == Some(p) && Matches(p, q)
    requires o.Name() == Key("b", "x") && Lookup(r, Key("b", "x")) == Some(o) && Matches(o, q)
    ensures Visible(r, q, p) && Visible(r, q, o)
  {
  }

  /**
   PagingCoversOnce: two services register the same id, and two calls of a query by selector
   over the unchanged registry, one reading service a first and one service b, give one of
   the instances on both pages and the other on neither.
   */
  lemma TiesBreakPaging() returns (h: History, q: Query, calls: seq<ListCall>, listings: seq<seq<Instance>>)
    ensures IsHistory(h) && StandardInputs(h) && |h.run.trace| == 3
    ensures q.service == "" && Acceptable(q)
    ensures CallsWithin(h.run, 2, 2, q, calls, listings) && |calls| == 2 && |listings[0]| == 2
    ensures var p, o := Fresh(BARE, 0), Fresh(BARE.(service := "b"), 0);
      && Visible(h.run.Last(), q, p) && Visible(h.run.Last(), q, o) && p != o
      && FetchAll(listings, 1) == [p, p]
  {
    hide ValidName, Step, Answer, IsScan, Matches, Filtered, Collected, FetchAll, IsListCall, Visible, Sorted;
    var input, p, o := BARE.(service := "b"), Fresh(BARE, 0), Fresh(BARE.(service := "b"), 0);
    Names();
    var cmds := [Register(p, "t1", PX), Register(o, "t2", PX)];
    RunOfIsRun(cmds);
    var run := RunOf(cmds);
    TwinStates(run, p, o);
    h := TwinHistory(run);
    q := Query("", map["zone" := "1"], false);
    TwinsMatch(q);
    calls := TwinCalls(run, q, p, o);
    listings := [[p, o], [o, p]];
    TwinsSorted(p, o);
    TwinsSorted(o, p);
    OnePerPage(listings, [p, p]);
    TwinsVisible(run.Last(), q, p, o);
  }

  lemma TwinHistory(run: Run) returns (h: History)
    requires run.cmds == [Register(Fresh(BARE, 0), "t1", PX), Register(Fresh(BARE.(service := "b"), 0), "t2", PX)]
    requires IsRun(run) && run.trace[0].now == 0 == run.trace[1].now
    ensures h.run == run && IsHistory(h) && StandardInputs(h)
  {
    hide Step, Answer;
    h := History(run, [FromRegister(BARE, 30, 0), FromRegister(BARE.(service := "b"), 30, 0)]);
    assert Explained(h, 0) && Explained(h, 1);
    NoUpdates(h);
  }

  lemma TwinCalls(run: Run, q: Query, p: Instance, o: Instance) returns (calls: seq<ListCall>)
    requires |run.trace| > 2 && q.service == "" && Matches(p, q) && Matches(o, q)
    requires var r := run.trace[2];
      && r.services == {"a", "b"} && MembersOf(r, "a") == {"x"} == MembersOf(r, "b")
      && Lookup(r, Key("a", "x")) == Some(p) && Lookup(r, Key("b", "x")) == Some(o)
    ensures |calls| == 2
    ensures forall i :: 0 <= i < 2 ==>
              IsListCall(run, q, calls[i]) && CallStart(calls[i]) == 2 == CallEnd(calls[i])
    ensures Filtered(Collected(calls[0].scans), q) == [p, o] && Filtered(Collected(calls[1].scans), q) == [o, p]
  {
    hide IsScan, Matches, Filtered, Collected, IsListCall, CallStart, CallEnd, MembersOf, Lookup;
    OneReadIsScan(run, "a", 2, p);
    OneReadIsScan(run, "b", 2, o);
    var c := TwinCall(run, q, OneRead("a", 2, p), OneRead("b", 2, o));
    var d := TwinCall(run, q, OneRead("b", 2, o), OneRead("a", 2, p));
    TwinValues(q, "a", "b", 2, p, o);
    TwinValues(q, "b", "a", 2, o, p);
    calls := [c, d];
  }

  /** FiltersAgree: a status outside the two standard ones is streamed but never listed. */
  lemma OtherStatusStreams()
    ensures var v, q := BARE.(status := Other(7)), Query("a", map[], true);
      StreamMatches(v, q) && !Matches(v, q) && ToMsg(q, Upserted(1, v.Name(), v)).Put?
  {
    FiltersDifferExactly(BARE.(status := Other(7)), Query("a", map[], true));
  }
}
