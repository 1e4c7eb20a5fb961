/**
 The change log as a source of truth: replaying it and dropping what has expired gives
 back the live instances.
 */
module Replay {
  import opened Types
  import opened Keys
  import opened RedisModel
  import opened Runs

  /** Keeps the last upsert of every key, with the deadline it was written with. */
  function Fold(log: seq<Change>, due: seq<int>): map<Key, Cell>
    requires |log| == |due|
  {
    if |log| == 0 then map[]
    else
      var n := |log| - 1;
      var before := Fold(log[..n], due[..n]);
      match log[n]
      case Upserted(_, key, payload) => before[key := Cell(payload, due[n])]
      case Deleted(_, key) => before - {key}
  }

  function Unexpired(cells: map<Key, Cell>, now: int): map<Key, Cell> {
    cells - (set k | k in cells && cells[k].deadline < now)
  }

  /** The live instances are exactly the unexpired part of the replayed log. */
  ghost predicate Mirrors(r: Redis)
    requires |r.log| == |r.due|
  {
    r.inst == Unexpired(Fold(r.log, r.due), r.now)
  }

  lemma FoldAppend(log: seq<Change>, due: seq<int>, c: Change, d: int)
    requires |log| == |due|
    ensures Fold(log + [c], due + [d]) ==
            if c.Upserted? then Fold(log, due)[c.key := Cell(c.payload, d)] else Fold(log, due) - {c.key}
  {
    assert (log + [c])[..|log|] == log && (due + [d])[..|log|] == due;
  }

  lemma WriteMirrors(r: Redis, p: Instance, token: Token, px: int)
    requires Joint(r) && Mirrors(r) && px > 0
    ensures var n := Write(r, p, token, px); |n.log| == |n.due| && Mirrors(n)
  {
    hide ValidName, Fold;
    var n := Write(r, p, token, px);
    FoldAppend(r.log, r.due, Upserted(r.revision + 1, p.Name(), p), r.now + px * MILLISECOND);
    assert n.inst == Unexpired(Fold(n.log, n.due), n.now);
  }

  lemma EraseMirrors(r: Redis, key: Key, named: Key)
    requires Joint(r) && Mirrors(r) && key in r.inst
    ensures var n := Erase(r, key, named); |n.log| == |n.due| && (Mirrors(n) <==> key == named)
  {
    hide ValidName, Fold;
    var n := Erase(r, key, named);
    FoldAppend(r.log, r.due, Deleted(r.revision + 1, named), r.now);
    if key == named {
      assert n.inst == Unexpired(Fold(n.log, n.due), n.now);
    } else {
      assert key in Unexpired(Fold(n.log, n.due), n.now);
    }
  }

  lemma AdvanceMirrors(r: Redis, elapsed: nat)
    requires Joint(r) && Mirrors(r)
    ensures var n := Advance(r, elapsed); |n.log| == |n.due| && Mirrors(n)
  {
    var n := Advance(r, elapsed);
    assert n.inst == Unexpired(Fold(n.log, n.due), n.now);
  }

  /**
   Every command keeps the log and the store in agreement, except exactly a removal that
   reached one pair's keys under another pair's name.
   */
  lemma StepMirrors(r: Redis, c: Command)
    requires Joint(r) && Legal(c) && Mirrors(r)
    ensures Joint(Step(r, c))
    ensures Mirrors(Step(r, c)) <==> !(c.Remove? && c.key != c.named && Answer(r, c).Done?)
  {
    StepKeepsJoint(r, c);
    if Answer(r, c).Done? {
      match c
      case Register(p, token, px) => WriteMirrors(r, p, token, px);
      case Update(p, token, px) => WriteMirrors(r, p, token, px);
      case Remove(key, named, _) => EraseMirrors(r, key, named);
      case Prune(_, _) =>
      case Tick(elapsed) => AdvanceMirrors(r, elapsed);
    }
  }

  /** Position of the last entry about k, or -1. */
  function LastFor(log: seq<Change>, k: Key): (n: int)
    ensures -1 <= n < |log|
    ensures n >= 0 ==> log[n].key == k
    ensures forall j :: n < j < |log| ==> log[j].key != k
  {
    if |log| == 0 then -1
    else if log[|log| - 1].key == k then |log| - 1
    else LastFor(log[..|log| - 1], k)
  }

  /** There is only one last entry. */
  lemma LastForUnique(log: seq<Change>, k: Key, n: int)
    requires -1 <= n < |log|
    requires n >= 0 ==> log[n].key == k
    requires forall j :: n < j < |log| ==> log[j].key != k
    ensures LastFor(log, k) == n
  {
    var m := LastFor(log, k);
    assert m >= 0 ==> log[m].key == k;
    assert n >= 0 ==> log[n].key == k;
  }

  lemma LastForAppend(log: seq<Change>, c: Change, k: Key)
    ensures LastFor(log + [c], k) == if c.key == k then |log| else LastFor(log, k)
  {
    assert (log + [c])[..|log|] == log;
  }

  /** What the fold holds at a key, read off the key's last entry. */
  lemma {:induction false} FoldAt(log: seq<Change>, due: seq<int>, k: Key)
    requires |log| == |due|
    ensures var n, m := LastFor(log, k), Fold(log, due);
      && (k in m <==> n >= 0 && log[n].Upserted?)
      && (k in m ==> m[k] == Cell(log[n].payload, due[n]))
  {
    if |log| > 0 {
      FoldAt(log[..|log| - 1], due[..|log| - 1], k);
    }
  }

  // ---------- Live keys and their last entries, in every run ----------

  /** A live key holds what its last entry says. */
  predicate LiveAsLogged(r: Redis, k: Key) {
    k in r.inst ==>
      var n := LastFor(r.log, k);
      0 <= n < |r.due| && r.log[n].Upserted? && r.inst[k] == Cell(r.log[n].payload, r.due[n])
  }

  /** The key is gone, but its last entry is an upsert whose deadline has not passed. */
  predicate Gap(r: Redis, k: Key) {
    && k !in r.inst
    && var n := LastFor(r.log, k);
       0 <= n < |r.due| && r.log[n].Upserted? && r.now <= r.due[n]
  }

  /** The command's entry, if it logs one, and the deadline written with it. */
  function Logged(r: Redis, c: Command): Option<(Change, int)> {
    if !Answer(r, c).Done? then None
    else
      match c
      case Register(p, _, px) => Some((Upserted(r.revision + 1, p.Name(), p), r.now + px * MILLISECOND))
      case Update(p, _, px) => Some((Upserted(r.revision + 1, p.Name(), p), r.now + px * MILLISECOND))
      case Remove(_, named, _) => Some((Deleted(r.revision + 1, named), r.now))
      case Prune(_, _) => None
      case Tick(_) => None
  }

  lemma StepAppends(r: Redis, c: Command)
    ensures var n := Step(r, c);
      match Logged(r, c)
      case Some(e) => n.log == r.log + [e.0] && n.due == r.due + [e.1]
      case None => n.log == r.log && n.due == r.due
  {
  }

  /** What one command logs about one key. */
  lemma StepLogs(r: Redis, c: Command, k: Key)
    requires Joint(r)
    ensures var n := Step(r, c); var last := LastFor(n.log, k);
      && |n.log| == |n.due|
      && (match Logged(r, c)
          case Some(e) =>
            if e.0.key == k then last == |r.log| && n.log[last] == e.0 && n.due[last] == e.1
            else last == LastFor(r.log, k)
          case None => last == LastFor(r.log, k))
      && (0 <= last < |r.log| ==> n.log[last] == r.log[last] && n.due[last] == r.due[last])
  {
    hide ValidName, Step, Logged, LastFor;
    StepAppends(r, c);
    if Logged(r, c).Some? {
      LastForAppend(r.log, Logged(r, c).value.0, k);
    }
  }

  /**
   One command opens a gap at k exactly by removing k under another name, and closes one
   exactly by writing k or by reaching its deadline.
   */
  lemma StepGap(r: Redis, c: Command, k: Key)
    requires Joint(r) && Legal(c) && LiveAsLogged(r, k)
    ensures var n := Step(r, c);
      && LiveAsLogged(n, k)
      && (Gap(n, k) <==>
            if Removes(r, c, k) then c.named != k
            else Gap(r, k) && !Writes(r, c, k) && n.now <= r.due[LastFor(r.log, k)])
  {
    hide ValidName, Step;
    StepLogs(r, c, k);
    StepEffect(r, c, k);
    StepGrows(r, c);
    StepKeepsClock(r, c);
    EntryNames(r, k);
  }

  lemma StepKeepsClock(r: Redis, c: Command)
    ensures !c.Tick? ==> Step(r, c).now == r.now
  {
  }

  /** Only validated names are ever upserted. */
  lemma EntryNames(r: Redis, k: Key)
    requires Joint(r)
    ensures var n := LastFor(r.log, k); n >= 0 && r.log[n].Upserted? ==> ValidName(k.service)
  {
  }

  /**
   Command j removed k under another name, nothing was stored at k since, and the lease it
   removed would still stand at i.
   */
  ghost predicate Misaddressed(run: Run, j: nat, i: nat, k: Key)
    requires i < |run.trace|
  {
    && j < i && Removed(run, j, k)
    && k in run.trace[j].inst
    && run.cmds[j].named != k
    && (forall u :: j < u < i ==> !Wrote(run, u, k))
    && run.trace[i].now <= run.trace[j].inst[k].deadline
  }

  lemma MisaddressedStep(run: Run, j: nat, m: nat, k: Key)
    requires IsRun(run) && m < |run.cmds|
    ensures Misaddressed(run, j, m + 1, k) <==>
            if j == m then Removed(run, m, k) && run.cmds[m].named != k
            else
              && Misaddressed(run, j, m, k) && !Wrote(run, m, k)
              && run.trace[m + 1].now <= run.trace[j].inst[k].deadline
    ensures Misaddressed(run, j, m, k) ==> j < m
  {
    hide Step, Answer, ValidName, Legal, Writes;
    OneStep(run, m, k);
    JointAlways(run, m);
    assert run.trace[m + 1] == Step(run.trace[m], run.cmds[m]);
    StepKeepsClock(run.trace[m], run.cmds[m]);
    StepGrows(run.trace[m], run.cmds[m]);
  }

  /** The lease a standing removal took had the deadline of the key's last entry. */
  ghost predicate DeadlineLogged(run: Run, j: nat, i: nat, k: Key)
    requires i < |run.trace| && Misaddressed(run, j, i, k)
  {
    var r := run.trace[i];
    0 <= LastFor(r.log, k) < |r.due| && r.due[LastFor(r.log, k)] == run.trace[j].inst[k].deadline
  }

  lemma DeadlineStaysLogged(run: Run, j: nat, m: nat, k: Key)
    requires IsRun(run) && m < |run.cmds| && LiveAsLogged(run.trace[m], k)
    requires Misaddressed(run, j, m + 1, k)
    requires j != m ==> Misaddressed(run, j, m, k) && DeadlineLogged(run, j, m, k) && Gap(run.trace[m], k)
    ensures DeadlineLogged(run, j, m + 1, k)
  {
    hide Step, ValidName, LastFor;
    var r, c := run.trace[m], run.cmds[m];
    JointAlways(run, m);
    assert Legal(c) && run.trace[m + 1] == Step(r, c);
    StepLogs(r, c, k);
    EntryNames(r, k);
    assert j < m ==> !Wrote(run, m, k);
    assert !Writes(r, c, k);
  }

  /** In every reachable state live keys are as logged, and a gap is a removal under another name that still matters. */
  lemma {:induction false} GapIffMisaddressed(run: Run, i: nat, k: Key)
    requires IsRun(run) && i < |run.trace|
    ensures LiveAsLogged(run.trace[i], k)
    ensures Gap(run.trace[i], k) <==> exists j: nat :: Misaddressed(run, j, i, k)
    ensures forall j: nat :: Misaddressed(run, j, i, k) ==> DeadlineLogged(run, j, i, k)
  {
    hide Step, Joint, Answer, ValidName, Misaddressed, Legal;
    if i > 0 {
      var m := i - 1;
      GapIffMisaddressed(run, m, k);
      JointAlways(run, m);
      assert run.trace[i] == Step(run.trace[m], run.cmds[m]) && Legal(run.cmds[m]);
      StepGap(run.trace[m], run.cmds[m], k);
      forall j: nat
        ensures Misaddressed(run, j, i, k) ==> DeadlineLogged(run, j, i, k)
      {
        MisaddressedStep(run, j, m, k);
        if Misaddressed(run, j, i, k) {
          DeadlineStaysLogged(run, j, m, k);
        }
      }
      GapCarries(run, m, i, k);
    } else {
      NothingMisaddressed(run, k);
    }
  }

  lemma NothingMisaddressed(run: Run, k: Key)
    requires IsRun(run)
    ensures forall j: nat :: !Misaddressed(run, j, 0, k)
  {
  }

  lemma GapCarries(run: Run, m: nat, i: nat, k: Key)
    requires IsRun(run) && m + 1 == i < |run.trace| && LiveAsLogged(run.trace[m], k)
    requires Gap(run.trace[m], k) <==> exists j: nat :: Misaddressed(run, j, m, k)
    requires forall j: nat :: Misaddressed(run, j, m, k) ==> DeadlineLogged(run, j, m, k)
    ensures Gap(run.trace[i], k) <==> exists j: nat :: Misaddressed(run, j, i, k)
  {
    hide Step, Answer, ValidName, Misaddressed, Legal, Writes, LastFor, LiveAsLogged;
    var r, c := run.trace[m], run.cmds[m];
    JointAlways(run, m);
    assert run.trace[i] == Step(r, c) && Legal(c);
    StepGap(r, c, k);
    OneStep(run, m, k);
    forall j: nat
      ensures Misaddressed(run, j, i, k) <==>
              if j == m then Removed(run, m, k) && c.named != k
              else
                && Misaddressed(run, j, m, k) && !Wrote(run, m, k)
                && run.trace[i].now <= r.due[LastFor(r.log, k)]
    {
      MisaddressedStep(run, j, m, k);
    }
    if j: nat :| Misaddressed(run, j, m, k) {
      MisaddressedStep(run, j, m, k);
      assert Gap(r, k) && !Removed(run, m, k);
      assert Misaddressed(run, j, i, k) <==> !Wrote(run, m, k) && run.trace[i].now <= r.due[LastFor(r.log, k)];
    }
    assert Misaddressed(run, m, i, k) <==> Removed(run, m, k) && c.named != k;
  }

  lemma MirrorsIff(r: Redis)
    requires Joint(r) && forall k :: LiveAsLogged(r, k)
    ensures Mirrors(r) <==> forall k :: !Gap(r, k)
  {
    hide ValidName, Fold;
    var replayed := Unexpired(Fold(r.log, r.due), r.now);
    forall k
      ensures k in replayed <==> k in r.inst || Gap(r, k)
      ensures k in r.inst ==> replayed[k] == r.inst[k]
    {
      FoldAt(r.log, r.due, k);
      assert LiveAsLogged(r, k);
    }
    if forall k :: !Gap(r, k) {
      assert r.inst.Keys == replayed.Keys;
      assert r.inst == replayed;
    }
  }

  /**
   In every reachable state the log and the clock determine the live instances, exactly
   unless a removal under another name still stands.
   */
  lemma LogDeterminesStore(run: Run, i: nat)
    requires IsRun(run) && i < |run.trace|
    ensures Joint(run.trace[i])
    ensures Mirrors(run.trace[i]) <==> forall j: nat, k: Key :: !Misaddressed(run, j, i, k)
  {
    hide Step, Misaddressed, Gap, LiveAsLogged, Mirrors;
    JointAlways(run, i);
    forall k
      ensures LiveAsLogged(run.trace[i], k)
      ensures Gap(run.trace[i], k) <==> exists j: nat :: Misaddressed(run, j, i, k)
    {
      GapIffMisaddressed(run, i, k);
    }
    forall j: nat, k: Key
      ensures Misaddressed(run, j, i, k) ==> Gap(run.trace[i], k)
    {
      GapIffMisaddressed(run, i, k);
    }
    MirrorsIff(run.trace[i]);
    if k :| Gap(run.trace[i], k) {
      var j: nat :| Misaddressed(run, j, i, k);
    }
  }

  /** A key removed only under names the pattern accepts never has a gap. */
  lemma ValidNamesLeaveNoGap(run: Run, i: nat, k: Key)
    requires IsRun(run) && i < |run.trace|
    requires forall j :: 0 <= j < i && Removed(run, j, k) ==> ValidName(run.cmds[j].named.service)
    ensures !Gap(run.trace[i], k)
  {
    hide Step, Answer, ValidName;
    forall j | 0 <= j < i && Removed(run, j, k)
      ensures run.cmds[j].named == k
    {
      assert Legal(run.cmds[j]);
    }
    GapIffMisaddressed(run, i, k);
  }

  /**
   A key's last entry in every reachable state: it is an upsert whose deadline has not
   passed exactly if the key is live or was removed under another name, and a live key
   holds its payload and deadline.
   */
  lemma LiveByLastEntry(run: Run, i: nat, k: Key)
    requires IsRun(run) && i < |run.trace|
    ensures Joint(run.trace[i])
    ensures var r := run.trace[i]; var n := LastFor(r.log, k);
      && (k in r.inst || Gap(r, k) <==> n >= 0 && r.log[n].Upserted? && r.now <= r.due[n])
      && (k in r.inst ==> r.inst[k] == Cell(r.log[n].payload, r.due[n]))
  {
    hide Step, ValidName;
    JointAlways(run, i);
    GapIffMisaddressed(run, i, k);
  }
}
