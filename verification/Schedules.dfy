/**
 The run that a call leaves behind, command by command: what other clients issue between
 the call's own steps, given as `env` sequences, and the writes the call issues itself.
 */
module Schedules {
  import opened Types
  import opened Keys
  import opened RedisModel
  import opened Runs
  import opened Listing

  /** b continues a: the same states and commands, then more. */
  ghost predicate Continues(a: Run, b: Run) {
    a.trace <= b.trace && a.cmds <= b.cmds
  }

  /** The registered pair that owns the flat keys of `named`, or `named` itself if none does. */
  ghost function Owner(r: Redis, named: Key): Key {
    if k :| k in r.tok && TokenKey(k) == TokenKey(named) then k else named
  }

  /**
   What reaches Redis of a command another client asks for: names are validated before a
   payload is written, and a removal addresses whatever pair owns the keys of its names.
   */
  ghost function Effective(r: Redis, c: Command): Option<Command> {
    match c
    case Register(p, _, _) => if ValidName(p.service) then Some(c) else None
    case Update(p, _, _) => if ValidName(p.service) then Some(c) else None
    case Remove(_, named, token) => Some(Remove(Owner(r, named), named, token))
    case Prune(_, _) => Some(c)
    case Tick(_) => Some(c)
  }

  ghost function Apply(run: Run, c: Command): (next: Run)
    requires |run.trace| > 0
    ensures |next.trace| > 0
  {
    match Effective(run.Last(), c)
    case Some(e) => Extend(run, e)
    case None => run
  }

  /** The run after other clients' commands, and nothing else. */
  ghost function After(run: Run, env: seq<Command>): (next: Run)
    requires |run.trace| > 0
    ensures |next.trace| > 0
  {
    if |env| == 0 then run else Apply(After(run, env[..|env| - 1]), env[|env| - 1])
  }

  lemma AfterNone(run: Run)
    requires |run.trace| > 0
    ensures After(run, []) == run
  {
  }

  lemma AfterMore(run: Run, env: seq<Command>, c: Command)
    requires |run.trace| > 0
    ensures After(run, env + [c]) == Apply(After(run, env), c)
  {
    assert (env + [c])[..|env|] == env;
  }

  /** Other clients' commands come one after the other, so they may be given in two parts. */
  lemma {:induction false} AfterBoth(run: Run, a: seq<Command>, b: seq<Command>)
    requires |run.trace| > 0
    ensures After(run, a + b) == After(After(run, a), b)
  {
    if |b| == 0 {
      assert a + b == a;
    } else {
      AfterBoth(run, a, b[..|b| - 1]);
      assert a + b == (a + b[..|b| - 1]) + [b[|b| - 1]];
      AfterMore(run, a + b[..|b| - 1], b[|b| - 1]);
    }
  }

  function At(env: seq<seq<Command>>, i: nat): seq<Command> {
    if i < |env| then env[i] else []
  }

  /** The commands of positions i up to n. */
  function Between(env: seq<seq<Command>>, i: nat, n: nat): seq<Command> {
    if n <= i then [] else Between(env, i, n - 1) + At(env, n - 1)
  }

  lemma {:induction false} NothingBetween(i: nat, n: nat)
    ensures Between([], i, n) == []
    decreases n
  {
    if n > i {
      NothingBetween(i, n - 1);
    }
  }

  /** The SREM of a List, if it has something to remove and reaches Redis. */
  function Cleaned(run: Run, service: string, stale: set<string>, pruned: bool): (next: Run)
    requires |run.trace| > 0
    ensures |next.trace| > 0
  {
    if stale != {} && pruned then Extend(run, Prune(service, stale)) else run
  }

  // ---------- A List and its schedule ----------

  /** Where a List stands: env[0] ran before SMEMBERS, env[i + 1] before GET i. */
  ghost function Enumerating(run: Run, env: seq<seq<Command>>): (next: Run)
    requires |run.trace| > 0
    ensures |next.trace| > 0
  {
    After(run, At(env, 0))
  }

  ghost function Probing(run: Run, env: seq<seq<Command>>, n: nat): (next: Run)
    requires |run.trace| > 0
    ensures |next.trace| > 0
  {
    After(Enumerating(run, env), Between(env, 1, n + 1))
  }

  /** GET i reads the state after the commands up to env[i + 1]. */
  ghost predicate ReadOnSchedule(run: Run, env: seq<seq<Command>>, gets: seq<Read>)
    requires |run.trace| > 0
  {
    forall i :: 0 <= i < |gets| ==> gets[i].at == |After(run, Between(env, 1, i + 2)).trace| - 1
  }

  lemma ReadOnScheduleMore(run: Run, env: seq<seq<Command>>, gets: seq<Read>, g: Read)
    requires |run.trace| > 0 && ReadOnSchedule(run, env, gets)
    requires g.at == |After(run, Between(env, 1, |gets| + 2)).trace| - 1
    ensures ReadOnSchedule(run, env, gets + [g])
  {
    hide After, Between;
  }

  lemma ProbingMore(run: Run, env: seq<seq<Command>>, n: nat)
    requires |run.trace| > 0
    ensures After(run, Between(env, 1, n + 2)) == After(After(run, Between(env, 1, n + 1)), At(env, n + 1))
  {
    hide After;
    AfterBoth(run, Between(env, 1, n + 1), At(env, n + 1));
  }

  /** Before the SREM, which follows n GETs. */
  ghost function Pruning(run: Run, env: seq<seq<Command>>, n: nat): (next: Run)
    requires |run.trace| > 0
    ensures |next.trace| > 0
  {
    After(Probing(run, env, n), At(env, n + 1))
  }

  /** The run a List leaves behind: its only write is the SREM of the ids it found stale. */
  ghost function ListRun(run: Run, env: seq<seq<Command>>, s: Scan, pruned: bool): (next: Run)
    requires |run.trace| > 0
    ensures |next.trace| > 0
  {
    After(Cleaned(Pruning(run, env, |s.gets|), s.service, StaleIds(s.gets), pruned), At(env, |s.gets| + 2))
  }

  /** The scan's reads and its SREM fall where the schedule puts them. */
  ghost predicate OnSchedule(run: Run, env: seq<seq<Command>>, s: Scan, pruned: bool)
    requires |run.trace| > 0
  {
    && s.enumAt == |Enumerating(run, env).trace| - 1
    && ReadOnSchedule(Enumerating(run, env), env, s.gets)
    && s.pruneAt == (if StaleIds(s.gets) != {} && pruned then Some(|Pruning(run, env, |s.gets|).cmds|) else None)
  }

  function EnvAt(envs: seq<seq<seq<Command>>>, i: nat): seq<seq<Command>> {
    if i < |envs| then envs[i] else []
  }

  /** The run after one List per scan. */
  ghost function ScansRun(run: Run, envs: seq<seq<seq<Command>>>, scans: seq<Scan>, pruned: bool): (next: Run)
    requires |run.trace| > 0
    ensures |next.trace| > 0
  {
    if |scans| == 0 then run
    else
      var n := |scans| - 1;
      ListRun(ScansRun(run, envs, scans[..n], pruned), EnvAt(envs, n), scans[n], pruned)
  }

  lemma ScansRunMore(run: Run, envs: seq<seq<seq<Command>>>, scans: seq<Scan>, s: Scan, pruned: bool)
    requires |run.trace| > 0
    ensures ScansRun(run, envs, scans + [s], pruned) ==
            ListRun(ScansRun(run, envs, scans, pruned), EnvAt(envs, |scans|), s, pruned)
  {
    assert (scans + [s])[..|scans|] == scans;
  }
}
