/**
 What renewals and status changes keep under any interleaving: the identity of the
 incarnation they belong to, the distance between the Redis deadline and the recorded
 expiry, and, when nothing intervenes, each other's effect.
 */
module Leases {
  import opened Types
  import opened RedisModel
  import opened Runs
  import opened Calls

  /**
   Incarnation fencing.  Whatever is stored at k carries the identity of the registration m
   that issued the current token, and the lease has been held without a break since m.
   */
  lemma {:induction false} Fenced(h: History, i: nat, k: Key) returns (m: nat)
    requires IsHistory(h) && i < |h.run.trace| && k in h.run.trace[i].inst
    ensures m < i && Registered(h.run, m, k)
    ensures HeldBetween(h.run, k, h.run.cmds[m].token, m, i)
    ensures SameIdentity(h.run.trace[i].inst[k].payload, h.run.cmds[m].p)
    decreases i
  {
    var run := h.run;
    m := Incarnation(run, i, k);
    var u := LastWrite(run, i, k);
    assert !(u < m);
    OneStep(run, u, k);
    if run.cmds[u].Register? {
      assert u == m;
    } else {
      assert Explained(h, u);
      var g := h.why[u].getAt;
      assert m < g <= u;
      var m' := Fenced(h, g, k);
      OneStep(run, m, k);
      OneStep(run, m', k);
      assert m' == m;
    }
  }

  /** A successful Renew or SetStatus writes back a payload of the very lease it writes under. */
  lemma WriteStaysInIncarnation(h: History, u: nat, k: Key) returns (m: nat)
    requires IsHistory(h) && Wrote(h.run, u, k) && h.run.cmds[u].Update?
    ensures Fetches(h.why[u]) && m < h.why[u].getAt <= u
    ensures Registered(h.run, m, k) && h.run.cmds[m].token == h.run.cmds[u].token
    ensures HeldBetween(h.run, k, h.run.cmds[u].token, m, u + 1)
    ensures SameIdentity(h.run.cmds[u].p, h.run.cmds[m].p)
  {
    OneStep(h.run, u, k);
    assert Explained(h, u);
    m := Fenced(h, u, k);
    assert h.run.trace[u].tok[k].token == h.run.cmds[m].token;
    var m' := Fenced(h, u + 1, k);
    OneStep(h.run, m, k);
    OneStep(h.run, m', k);
    assert m == m';
  }

  /** No recorded expiry lies further ahead than the longest lease. */
  lemma {:induction false} ExpiryBound(h: History, i: nat, k: Key)
    requires IsHistory(h) && i < |h.run.trace| && k in h.run.trace[i].inst
    ensures h.run.trace[i].inst[k].payload.leaseExpiresAt <= h.run.trace[i].now + MAX_SECONDS * SECOND
    decreases i
  {
    var run := h.run;
    var u := LastWrite(run, i, k);
    assert Explained(h, u);
    if h.why[u].FromStatus? {
      ExpiryBound(h, h.why[u].getAt, k);
      Grows(run, h.why[u].getAt, i);
    } else {
      Grows(run, h.why[u].clockAt, i);
    }
  }

  /** The instant whose clock the lease of a write was computed from. */
  function MeasuredAt(o: Origin): nat
    requires !o.Direct?
  {
    if o.FromStatus? then o.untilAt else o.clockAt
  }

  /**
   Drift does not accumulate.  However many renewals and status changes produced the stored
   instance, its Redis deadline follows its recorded expiry within one millisecond below and
   the delay of the last write u above, and lies at most the longest lease after u.
   */
  lemma DeadlineFollowsExpiry(h: History, i: nat, k: Key) returns (u: nat)
    requires IsHistory(h) && i < |h.run.trace| && k in h.run.trace[i].inst
    ensures u < i && Wrote(h.run, u, k) && !h.why[u].Direct? && MeasuredAt(h.why[u]) <= u
    ensures forall j {:trigger Wrote(h.run, j, k)} :: u < j < i ==> !Wrote(h.run, j, k)
    ensures var cell := h.run.trace[i].inst[k];
      var delay := h.run.trace[u].now - h.run.trace[MeasuredAt(h.why[u])].now;
      && 0 <= delay
      && cell.payload.leaseExpiresAt - MILLISECOND < cell.deadline
      && cell.deadline <= cell.payload.leaseExpiresAt + delay
      && cell.deadline <= h.run.trace[u].now + MAX_SECONDS * SECOND
  {
    var run := h.run;
    u := LastWrite(run, i, k);
    assert Explained(h, u);
    Grows(run, MeasuredAt(h.why[u]), u);
    if h.why[u].FromStatus? {
      var o := h.why[u];
      ExpiryBound(h, o.getAt, k);
      Grows(run, o.getAt, o.untilAt);
    }
  }

  /** A status change whose remaining lease rounds down to 0 ms is refused and changes nothing. */
  lemma ShortRemainderRefused(h: History, u: nat)
    requires IsHistory(h) && u < |h.run.cmds| && h.why[u].FromStatus? && Explained(h, u)
    requires var got := h.run.trace[h.why[u].getAt].inst;
      got[h.run.cmds[u].p.Name()].payload.leaseExpiresAt - h.run.trace[h.why[u].untilAt].now < MILLISECOND
    ensures !Answer(h.run.trace[u], h.run.cmds[u]).Done?
    ensures h.run.trace[u + 1] == h.run.trace[u]
  {
    assert h.run.cmds[u].px == 0;
  }

  /** The status and expiry the successful calls on a key ask for. */
  datatype Wish = Wish(status: Status, expires: int)

  ghost function Desired(h: History, i: nat, k: Key): Option<Wish>
    requires IsHistory(h) && i < |h.run.trace|
  {
    if i == 0 then None
    else
      var c, before := h.run.cmds[i - 1], Desired(h, i - 1, k);
      if !Wrote(h.run, i - 1, k) then before
      else if c.Register? || before.None? then Some(Wish(c.p.status, c.p.leaseExpiresAt))
      else if h.why[i - 1].FromRenew? then Some(before.value.(expires := c.p.leaseExpiresAt))
      else if h.why[i - 1].FromStatus? then Some(before.value.(status := h.why[i - 1].status))
      else before
  }

  ghost predicate Agrees(h: History, i: nat, k: Key)
    requires IsHistory(h) && i < |h.run.trace|
  {
    k in h.run.trace[i].inst ==>
      var v := h.run.trace[i].inst[k].payload; Desired(h, i, k) == Some(Wish(v.status, v.leaseExpiresAt))
  }

  /** No other successful write to k falls between the Get of call u and its script. */
  ghost predicate Isolated(h: History, u: nat, k: Key)
    requires u < |h.why| && Fetches(h.why[u])
  {
    forall j :: h.why[u].getAt <= j < u ==> !Wrote(h.run, j, k)
  }

  /**
   From an agreeing state a successful update keeps agreement exactly when the field it
   writes back unchanged is still current.
   */
  lemma UpdateAgreesIff(h: History, u: nat, k: Key)
    requires IsHistory(h) && Wrote(h.run, u, k) && h.run.cmds[u].Update? && Agrees(h, u, k)
    ensures Fetches(h.why[u]) && h.why[u].getAt <= u
    ensures k in h.run.trace[h.why[u].getAt].inst && k in h.run.trace[u].inst
    ensures var got, now := h.run.trace[h.why[u].getAt].inst[k].payload, h.run.trace[u].inst[k].payload;
      Agrees(h, u + 1, k) <==>
        if h.why[u].FromRenew? then got.status == now.status else got.leaseExpiresAt == now.leaseExpiresAt
  {
    assert Explained(h, u);
    OneStep(h.run, u, k);
  }

  /**
   Status and lease do not interfere: if every successful update of k since a registration
   was isolated, the stored status is the last one set and the stored expiry the one of the
   last renewal, whatever happened under earlier leases.
   */
  lemma {:induction false} StatusAndLeaseIndependent(h: History, m: nat, i: nat, k: Key)
    requires IsHistory(h) && Registered(h.run, m, k) && m < i < |h.run.trace|
    requires forall u {:trigger Wrote(h.run, u, k)} ::
               m < u < i && Wrote(h.run, u, k) && Fetches(h.why[u]) ==> Isolated(h, u, k)
    ensures Agrees(h, i, k)
    decreases i
  {
    OneStep(h.run, i - 1, k);
    if i > m + 1 {
      StatusAndLeaseIndependent(h, m, i - 1, k);
      if Wrote(h.run, i - 1, k) && h.run.cmds[i - 1].Update? {
        UpdateAgreesIff(h, i - 1, k);
        Unwritten(h.run, k, h.why[i - 1].getAt, i - 1);
      }
    }
  }

  /** Whatever is stored at a key says when the call that last wrote it read the clock. */
  lemma UpdatedAtLastWrite(h: History, i: nat, k: Key) returns (u: nat)
    requires IsHistory(h) && i < |h.run.trace| && k in h.run.trace[i].inst
    ensures u < i && Wrote(h.run, u, k) && !h.why[u].Direct? && h.why[u].clockAt <= u
    ensures forall j {:trigger Wrote(h.run, j, k)} :: u < j < i ==> !Wrote(h.run, j, k)
    ensures h.run.trace[i].inst[k].payload.updatedAt == h.run.trace[h.why[u].clockAt].now
  {
    hide Step, Answer;
    u := LastWrite(h.run, i, k);
    assert Explained(h, u);
  }

  /** An instance was registered before it was last updated, and neither lies in the future. */
  lemma TimesInOrder(h: History, i: nat, k: Key)
    requires IsHistory(h) && i < |h.run.trace| && k in h.run.trace[i].inst
    ensures var v := h.run.trace[i].inst[k].payload; v.registeredAt <= v.updatedAt <= h.run.trace[i].now
  {
    hide Step, Answer;
    var u := UpdatedAtLastWrite(h, i, k);
    var m := Fenced(h, i, k);
    OneStep(h.run, m, k);
    assert Explained(h, m);
    Grows(h.run, h.why[u].clockAt, i);
    if u > m {
      OneStep(h.run, u, k);
      var w := WriteStaysInIncarnation(h, u, k);
      assert m <= w && Explained(h, u);
      Grows(h.run, h.why[m].clockAt, h.why[u].clockAt);
    }
  }

  /** updated_at never goes back: an update that no other write overlaps reads a later clock. */
  lemma UpdatesMoveForward(h: History, u: nat, v: nat, k: Key)
    requires IsHistory(h) && Wrote(h.run, u, k) && Wrote(h.run, v, k) && u < v
    requires Fetches(h.why[v]) && Isolated(h, v, k)
    ensures h.run.cmds[u].p.updatedAt <= h.run.cmds[v].p.updatedAt
  {
    hide Step, Answer;
    assert Explained(h, u) && Explained(h, v);
    assert u < h.why[v].getAt;
    Grows(h.run, h.why[u].clockAt, h.why[v].clockAt);
  }
}
