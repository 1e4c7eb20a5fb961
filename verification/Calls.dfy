/**
 Which service call each write of a run came from.  A call reads Redis and the clock at
 instants of the run before its script takes effect; any other commands may fall in
 between.  Instants are positions in the trace.
 */
module Calls {
  import opened Types
  import opened RedisModel
  import opened Runs

  const DEFAULT_LEASE: int := 30 * SECOND
  const MIN_SECONDS: nat := 5
  const MAX_SECONDS: nat := 300

  function LeaseDuration(seconds: nat): (lease: int)
    ensures MIN_SECONDS * SECOND <= lease <= MAX_SECONDS * SECOND
    ensures lease % MILLISECOND == 0
    ensures seconds == 0 ==> lease == 30 * SECOND
    ensures 0 < seconds ==> (lease == seconds * SECOND <==> MIN_SECONDS <= seconds <= MAX_SECONDS)
    ensures 0 < seconds < MIN_SECONDS ==> lease == 5 * SECOND
    ensures MAX_SECONDS < seconds ==> lease == 300 * SECOND
  {
    if seconds == 0 then DEFAULT_LEASE
    else if seconds < MIN_SECONDS then MIN_SECONDS * SECOND
    else if seconds > MAX_SECONDS then MAX_SECONDS * SECOND
    else
      assert seconds * SECOND == seconds * 1000 * MILLISECOND;
      seconds * SECOND
  }

  /** prepareInstance: the payload a registration stores. */
  function Prepare(input: Instance, lease: int, now: int): (p: Instance)
    ensures p.Name() == input.Name() && p.endpoint == input.endpoint && p.metadata == input.metadata
    ensures p.registeredAt == p.updatedAt == now && p.leaseExpiresAt - p.registeredAt == lease
    ensures p.weight > 0 && (input.weight > 0 ==> p.weight == input.weight) && (input.weight == 0 ==> p.weight == 100)
    ensures p.status != Unspecified
    ensures p.status == input.status || (input.status == Unspecified && p.status == Healthy)
  {
    input.(registeredAt := now,
           updatedAt := now,
           leaseExpiresAt := now + lease,
           weight := if input.weight == 0 then 100 else input.weight,
           status := if input.status == Unspecified then Healthy else input.status)
  }

  function Renewed(got: Instance, lease: int, now: int): Instance {
    got.(updatedAt := now, leaseExpiresAt := now + lease)
  }

  function WithStatus(got: Instance, status: Status, now: int): Instance {
    got.(status := status, updatedAt := now)
  }

  /**
   The call behind a command.  getAt is the instant of its Get, clockAt of its clock read and
   untilAt of the clock read behind the remaining lease of SetStatus.
   */
  datatype Origin =
    | Direct
    | FromRegister(input: Instance, seconds: nat, clockAt: nat)
    | FromRenew(getAt: nat, clockAt: nat, seconds: nat)
    | FromStatus(getAt: nat, untilAt: nat, clockAt: nat, status: Status)

  datatype History = History(run: Run, why: seq<Origin>)

  /** Command u is what the call o issues after reading what it read. */
  ghost predicate ExplainedBy(run: Run, u: nat, o: Origin)
    requires IsRun(run) && u < |run.cmds|
  {
    var trace, c := run.trace, run.cmds[u];
    match o
    case Direct => !c.Register? && !c.Update?
    case FromRegister(input, seconds, clockAt) =>
      && c.Register?
      && clockAt <= u
      && c.p == Prepare(input, LeaseDuration(seconds), trace[clockAt].now)
      && c.px == LeaseDuration(seconds) / MILLISECOND
    case FromRenew(getAt, clockAt, seconds) =>
      && c.Update?
      && getAt <= clockAt <= u
      && c.p.Name() in trace[getAt].inst
      && c.p == Renewed(trace[getAt].inst[c.p.Name()].payload, LeaseDuration(seconds), trace[clockAt].now)
      && c.px == LeaseDuration(seconds) / MILLISECOND
    case FromStatus(getAt, untilAt, clockAt, status) =>
      && c.Update?
      && getAt <= untilAt <= clockAt <= u
      && (status == Healthy || status == Draining)
      && c.p.Name() in trace[getAt].inst
      && var got := trace[getAt].inst[c.p.Name()].payload;
         var remaining := got.leaseExpiresAt - trace[untilAt].now;
         && remaining > 0
         && c.p == WithStatus(got, status, trace[clockAt].now)
         && c.px == remaining / MILLISECOND
  }

  ghost predicate Explained(h: History, u: nat)
    requires IsRun(h.run) && u < |h.run.cmds| && u < |h.why|
  {
    ExplainedBy(h.run, u, h.why[u])
  }

  predicate Fetches(o: Origin) {
    o.FromRenew? || o.FromStatus?
  }

  /** A token is presented only by calls that began after the registration issuing it had returned. */
  ghost predicate TokensAfterIssue(h: History)
    requires |h.why| == |h.run.cmds|
  {
    forall m: nat, u: nat, k: Key {:trigger Registered(h.run, m, k), Wrote(h.run, u, k)} ::
      Registered(h.run, m, k) && m < u && Wrote(h.run, u, k) && h.run.cmds[u].Update?
      && h.run.cmds[u].token == h.run.cmds[m].token && Fetches(h.why[u])
      ==> m < h.why[u].getAt
  }

  ghost predicate IsHistory(h: History) {
    && IsRun(h.run)
    && |h.why| == |h.run.cmds|
    && (forall u :: 0 <= u < |h.run.cmds| ==> Explained(h, u))
    && TokensAfterIssue(h)
  }

  lemma StepsStay(run: Run, c: Command, u: nat, k: Key)
    requires |run.trace| > 0 && u < |run.cmds| < |run.trace|
    ensures Wrote(Extend(run, c), u, k) <==> Wrote(run, u, k)
    ensures Registered(Extend(run, c), u, k) <==> Registered(run, u, k)
  {
  }

  /**
   Histories grow by explained commands: a service call that presents a token issued before
   its Get keeps the run a history.
   */
  lemma HistoryGrows(h: History, c: Command, o: Origin)
    requires IsHistory(h) && IsRun(Extend(h.run, c))
    requires ExplainedBy(Extend(h.run, c), |h.run.cmds|, o)
    requires Fetches(o) ==>
               forall m: nat, k: Key {:trigger Registered(h.run, m, k)} ::
                 Registered(h.run, m, k) && h.run.cmds[m].token == c.token ==> m < o.getAt
    ensures IsHistory(History(Extend(h.run, c), h.why + [o]))
  {
    hide Step, Answer;
    var e, n := History(Extend(h.run, c), h.why + [o]), |h.run.cmds|;
    forall u: nat | u <= n
      ensures Explained(e, u)
    {
      if u < n {
        assert Explained(h, u);
        assert e.run.cmds[u] == h.run.cmds[u] && e.why[u] == h.why[u];
        assert forall i :: 0 <= i <= u ==> e.run.trace[i] == h.run.trace[i];
      }
    }
    forall m: nat, u: nat, k: Key |
      Registered(e.run, m, k) && m < u && Wrote(e.run, u, k) && e.run.cmds[u].Update?
      && e.run.cmds[u].token == e.run.cmds[m].token && Fetches(e.why[u])
      ensures m < e.why[u].getAt
    {
      StepsStay(h.run, c, m, k);
      if u < n {
        StepsStay(h.run, c, u, k);
      }
    }
  }
}
