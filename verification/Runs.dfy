/**
 Whole runs: the sequence of atomic commands that reach Redis, whatever calls of whatever
 replicas they belong to, and the states between them.  Lease exclusivity and the absence
 of resurrection are statements about every such run.
 */
module Runs {
  import opened Types
  import opened RedisModel

  datatype Run = Run(trace: seq<Redis>, cmds: seq<Command>)
  {
    function Last(): Redis
      requires |trace| > 0
    {
      trace[|trace| - 1]
    }
  }

  predicate Initial(r: Redis) {
    && r.inst == map[] && r.tok == map[] && r.members == map[] && r.services == {}
    && r.revision == 0 && r.log == [] && r.due == []
  }

  ghost predicate IsRun(run: Run) {
    && |run.trace| == |run.cmds| + 1
    && Initial(run.trace[0])
    && forall i :: 0 <= i < |run.cmds| ==>
         Legal(run.cmds[i]) && run.trace[i + 1] == Step(run.trace[i], run.cmds[i])
  }

  function Extend(run: Run, c: Command): Run
    requires |run.trace| > 0
  {
    Run(run.trace + [Step(run.Last(), c)], run.cmds + [c])
  }

  lemma ExtendIsRun(run: Run, c: Command)
    requires IsRun(run) && Legal(c)
    ensures IsRun(Extend(run, c))
  {
    var e := Extend(run, c);
    forall i | 0 <= i < |e.cmds|
      ensures Legal(e.cmds[i]) && e.trace[i + 1] == Step(e.trace[i], e.cmds[i])
    {
      if i < |run.cmds| {
        assert run.cmds[i] == e.cmds[i];
      }
    }
  }

  /** In every reachable state the keys, deadlines, revision counter and log fit together. */
  lemma {:induction false} JointAlways(run: Run, i: nat)
    requires IsRun(run) && i < |run.trace|
    ensures Joint(run.trace[i])
  {
    if i > 0 {
      JointAlways(run, i - 1);
      assert Legal(run.cmds[i - 1]);
      StepKeepsJoint(run.trace[i - 1], run.cmds[i - 1]);
    }
  }

  lemma {:induction false} Grows(run: Run, a: nat, b: nat)
    requires IsRun(run) && a <= b < |run.trace|
    ensures Before(run.trace[a], run.trace[b])
  {
    if a < b {
      Grows(run, a, b - 1);
      assert run.trace[b] == Step(run.trace[b - 1], run.cmds[b - 1]);
      StepGrows(run.trace[b - 1], run.cmds[b - 1]);
    }
  }

  /** Script u of the run succeeded. */
  predicate Succeeded(run: Run, u: nat) {
    u < |run.cmds| && u < |run.trace| && Succeeds(run.trace[u], run.cmds[u])
  }

  /**
   The revisions that scripts answer number the log: each is the position of the script's own
   entry in every later log, and a later success answers a larger one.
   */
  lemma RevisionsNumberTheLog(run: Run, u: nat, v: nat)
    requires IsRun(run) && Succeeded(run, u) && Succeeded(run, v) && u < v
    ensures var a, b, log := Answer(run.trace[u], run.cmds[u]).revision, Answer(run.trace[v], run.cmds[v]).revision,
                             run.Last().log;
      && 1 <= a < b <= |log|
      && log[a - 1].revision == a && log[b - 1].revision == b
      && log[a - 1].key == (if run.cmds[u].Remove? then run.cmds[u].named else run.cmds[u].p.Name())
  {
    hide Step, Answer, Succeeds;
    JointAlways(run, u);
    JointAlways(run, v);
    assert Legal(run.cmds[u]) && run.trace[u + 1] == Step(run.trace[u], run.cmds[u]);
    assert Legal(run.cmds[v]) && run.trace[v + 1] == Step(run.trace[v], run.cmds[v]);
    AnswerIsEntry(run.trace[u], run.cmds[u]);
    AnswerIsEntry(run.trace[v], run.cmds[v]);
    Grows(run, u + 1, v);
    Grows(run, u + 1, |run.cmds|);
    Grows(run, v + 1, |run.cmds|);
  }

  /** Command u of the run stored a payload at k. */
  predicate Wrote(run: Run, u: nat, k: Key) {
    u < |run.cmds| && u < |run.trace| && Writes(run.trace[u], run.cmds[u], k)
  }

  predicate Registered(run: Run, u: nat, k: Key) {
    Wrote(run, u, k) && run.cmds[u].Register?
  }

  predicate Removed(run: Run, u: nat, k: Key) {
    u < |run.cmds| && u < |run.trace| && Removes(run.trace[u], run.cmds[u], k)
  }

  /** The key is live in every state after a, up to and including b. */
  ghost predicate LiveBetween(run: Run, k: Key, a: nat, b: nat)
    requires b < |run.trace|
  {
    forall j :: a < j <= b ==> k in run.trace[j].inst
  }

  lemma OneStep(run: Run, i: nat, k: Key)
    requires IsRun(run) && i < |run.cmds|
    ensures k in run.trace[i].inst <==> k in run.trace[i].tok
    ensures k in run.trace[i + 1].inst <==> k in run.trace[i + 1].tok
    ensures Wrote(run, i, k) ==>
              && k in run.trace[i + 1].inst
              && run.trace[i + 1].inst[k] == Cell(run.cmds[i].p, run.trace[i].now + run.cmds[i].px * MILLISECOND)
              && run.trace[i + 1].tok[k].token == run.cmds[i].token
              && run.cmds[i].px > 0
    ensures Registered(run, i, k) ==> k !in run.trace[i].inst
    ensures Wrote(run, i, k) && run.cmds[i].Update? ==>
              k in run.trace[i].inst && run.trace[i].tok[k].token == run.cmds[i].token
    ensures Removed(run, i, k) ==>
              && k in run.trace[i].inst && run.trace[i].tok[k].token == run.cmds[i].token
              && k !in run.trace[i + 1].inst
    ensures !Wrote(run, i, k) && k in run.trace[i + 1].inst ==>
              && k in run.trace[i].inst
              && run.trace[i + 1].inst[k] == run.trace[i].inst[k]
              && run.trace[i + 1].tok[k] == run.trace[i].tok[k]
    ensures k in run.trace[i].inst && k !in run.trace[i + 1].inst ==>
              Removed(run, i, k)
              || (run.cmds[i].Tick? && run.trace[i].inst[k].deadline < run.trace[i + 1].now)
  {
    JointAlways(run, i);
    assert Legal(run.cmds[i]);
    StepEffect(run.trace[i], run.cmds[i], k);
  }

  /** A lapsed or removed lease becomes live again only through a new registration. */
  lemma {:induction false} NoResurrection(run: Run, k: Key, a: nat, b: nat) returns (m: nat)
    requires IsRun(run) && a <= b < |run.trace|
    requires k !in run.trace[a].inst && k in run.trace[b].inst
    ensures a <= m < b && Registered(run, m, k) && LiveBetween(run, k, m, b)
    decreases b
  {
    OneStep(run, b - 1, k);
    if k in run.trace[b - 1].inst {
      m := NoResurrection(run, k, a, b - 1);
    } else {
      m := b - 1;
    }
  }

  /** The write that produced what is stored at k now; nothing touched k since. */
  lemma {:induction false} LastWrite(run: Run, i: nat, k: Key) returns (u: nat)
    requires IsRun(run) && i < |run.trace| && k in run.trace[i].inst
    ensures u < i && Wrote(run, u, k)
    ensures forall j {:trigger Wrote(run, j, k)} :: u < j < i ==> !Wrote(run, j, k)
    ensures k in run.trace[i].tok
    ensures run.trace[i].inst[k] == Cell(run.cmds[u].p, run.trace[u].now + run.cmds[u].px * MILLISECOND)
    ensures run.trace[i].tok[k].token == run.cmds[u].token
    ensures LiveBetween(run, k, u, i)
    decreases i
  {
    hide Step, Answer, Legal;
    assert i > 0;
    OneStep(run, i - 1, k);
    if Wrote(run, i - 1, k) {
      u := i - 1;
    } else {
      u := LastWrite(run, i - 1, k);
    }
  }

  /** With no write in between, a key live at b already held the same cell at a. */
  lemma {:induction false} Unwritten(run: Run, k: Key, a: nat, b: nat)
    requires IsRun(run) && a <= b < |run.trace| && k in run.trace[b].inst
    requires forall j :: a <= j < b ==> !Wrote(run, j, k)
    ensures k in run.trace[a].inst && run.trace[a].inst[k] == run.trace[b].inst[k]
    decreases b
  {
    if a < b {
      OneStep(run, b - 1, k);
      Unwritten(run, k, a, b - 1);
    }
  }

  /** The token is the same in every state after a, up to and including b. */
  ghost predicate HeldBetween(run: Run, k: Key, token: Token, a: nat, b: nat)
    requires b < |run.trace|
  {
    forall j :: a < j <= b ==>
      && k in run.trace[j].inst
      && k in run.trace[j].tok
      && run.trace[j].tok[k].token == token
  }

  /** Every successful write to k, or removal of it, strictly between a and b presented `token`. */
  ghost predicate OnlyToken(run: Run, k: Key, token: Token, a: nat, b: nat)
    requires b <= |run.cmds|
  {
    forall j :: a < j < b ==> (Wrote(run, j, k) || Removed(run, j, k) ==> run.cmds[j].token == token)
  }

  /** The lease of k ended at command e: its owner removed it or its deadline passed. */
  ghost predicate Ended(run: Run, k: Key, token: Token, e: nat)
    requires e < |run.cmds| && |run.trace| == |run.cmds| + 1
  {
    && k !in run.trace[e + 1].inst
    && k in run.trace[e].inst
    && ((Removed(run, e, k) && run.cmds[e].token == token)
        || (run.cmds[e].Tick? && run.trace[e].inst[k].deadline < run.trace[e + 1].now))
  }

  /**
   After a registration the lease is held under its token until the owner removes it or the
   deadline passes; e is where that happened, or n if it has not happened yet.
   */
  lemma {:induction false} Reign(run: Run, k: Key, m: nat, n: nat) returns (e: nat)
    requires IsRun(run) && Registered(run, m, k) && m < n < |run.trace|
    ensures m < e <= n
    ensures HeldBetween(run, k, run.cmds[m].token, m, e)
    ensures OnlyToken(run, k, run.cmds[m].token, m, e)
    ensures e < n ==> Ended(run, k, run.cmds[m].token, e)
    decreases n
  {
    hide Step, Answer, Legal;
    if n == m + 1 {
      OneStep(run, m, k);
      e := n;
    } else {
      e := Reign(run, k, m, n - 1);
      if e == n - 1 {
        OneStep(run, n - 1, k);
        if k in run.trace[n].inst {
          e := n;
        }
      }
    }
  }

  /**
   Lease exclusivity: two registrations of one key are separated by the end of the first
   lease, and until then every successful write presented the first token.
   */
  lemma Exclusive(run: Run, k: Key, m: nat, n: nat) returns (e: nat)
    requires IsRun(run) && Registered(run, m, k) && Registered(run, n, k) && m < n
    ensures m < e < n
    ensures Ended(run, k, run.cmds[m].token, e)
    ensures HeldBetween(run, k, run.cmds[m].token, m, e)
    ensures OnlyToken(run, k, run.cmds[m].token, m, e + 1)
  {
    e := Reign(run, k, m, n);
    OneStep(run, n, k);
    OneStep(run, e, k);
  }

  /** The registration a live key belongs to: its lease has been held without a break since. */
  lemma {:induction false} Incarnation(run: Run, i: nat, k: Key) returns (m: nat)
    requires IsRun(run) && i < |run.trace| && k in run.trace[i].inst
    ensures m < i && Registered(run, m, k)
    ensures HeldBetween(run, k, run.cmds[m].token, m, i)
    decreases i
  {
    hide Step, Answer, Legal;
    assert i > 0;
    OneStep(run, i - 1, k);
    if Registered(run, i - 1, k) {
      m := i - 1;
    } else {
      m := Incarnation(run, i - 1, k);
    }
  }
}
