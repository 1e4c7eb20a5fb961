/** The two filters: one for snapshots and lists, one for streamed changes. */
module Filters {
  import opened Types
  import opened RedisModel
  import opened Runs
  import opened Calls

  datatype Query = Query(service: string, selector: map<string, string>, includeDraining: bool)

  /** A missing metadata key reads as the empty string. */
  predicate Selected(v: Instance, q: Query) {
    forall key :: key in q.selector ==>
      (if key in v.metadata then v.metadata[key] else "") == q.selector[key]
  }

  /** The filter of List. */
  predicate Matches(v: Instance, q: Query) {
    if v.status == Draining && !q.includeDraining then false
    else if v.status != Healthy && v.status != Draining then false
    else Selected(v, q)
  }

  /** The filter of the watch stream, which does not look at other statuses. */
  predicate StreamMatches(v: Instance, q: Query) {
    if v.status == Draining && !q.includeDraining then false
    else Selected(v, q)
  }

  /** Asking for draining instances adds exactly the selected draining ones. */
  lemma DrainingOnlyAdds(v: Instance, q: Query)
    ensures Matches(v, q.(includeDraining := true)) <==>
            Matches(v, q.(includeDraining := false)) || (v.status == Draining && Selected(v, q))
  {
    assert Selected(v, q.(includeDraining := true)) <==> Selected(v, q);
    assert Selected(v, q.(includeDraining := false)) <==> Selected(v, q);
  }

  /** A selector is the conjunction of its entries. */
  lemma SelectorsConjoin(v: Instance, q: Query, key: string, value: string)
    requires key !in q.selector
    ensures Matches(v, q.(selector := q.selector[key := value])) <==>
            Matches(v, q) && (if key in v.metadata then v.metadata[key] else "") == value
  {
    var narrow := q.(selector := q.selector[key := value]);
    assert key in narrow.selector;
    assert Selected(v, narrow) <==> Selected(v, q) && (if key in v.metadata then v.metadata[key] else "") == value by {
      if Selected(v, narrow) {
        forall x | x in q.selector
          ensures (if x in v.metadata then v.metadata[x] else "") == q.selector[x]
        {
          assert x in narrow.selector && narrow.selector[x] == q.selector[x];
        }
      }
    }
  }

  predicate Known(s: Status) {
    s == Healthy || s == Draining
  }

  /** The filters differ on exactly the selected instances with any other status. */
  lemma FiltersDifferExactly(v: Instance, q: Query)
    ensures Matches(v, q) != StreamMatches(v, q) <==> !Known(v.status) && Selected(v, q)
  {
  }

  /** Every registration of the run supplied unspecified, healthy or draining. */
  ghost predicate StandardInputs(h: History) {
    forall u :: 0 <= u < |h.why| && h.why[u].FromRegister? ==>
      Known(h.why[u].input.status) || h.why[u].input.status == Unspecified
  }

  ghost predicate KnownStored(r: Redis) {
    && (forall k :: k in r.inst ==> Known(r.inst[k].payload.status))
    && (forall n :: 0 <= n < |r.log| && r.log[n].Upserted? ==> Known(r.log[n].payload.status))
  }

  /** Then every stored and every logged payload is healthy or draining, in every state. */
  lemma {:induction false} StatusesStayKnown(h: History, i: nat)
    requires IsHistory(h) && StandardInputs(h) && i < |h.run.trace|
    ensures forall j :: 0 <= j <= i ==> KnownStored(h.run.trace[j])
  {
    if i > 0 {
      StatusesStayKnown(h, i - 1);
      assert Explained(h, i - 1);
      var c := h.run.cmds[i - 1];
      if c.Register? || c.Update? {
        if h.why[i - 1].FromRenew? {
          assert KnownStored(h.run.trace[h.why[i - 1].getAt]);
        }
        assert Known(c.p.status);
      }
      assert KnownStored(h.run.trace[i - 1]);
      KnownStep(h.run.trace[i - 1], c);
    }
  }

  lemma KnownStep(r: Redis, c: Command)
    requires KnownStored(r)
    requires c.Register? || c.Update? ==> Known(c.p.status)
    ensures KnownStored(Step(r, c))
  {
  }

  /** On every reachable payload the snapshot and the stream decide alike, for every query. */
  lemma FiltersAgree(h: History, i: nat, k: Key, n: nat, q: Query)
    requires IsHistory(h) && StandardInputs(h) && i < |h.run.trace|
    ensures k in h.run.trace[i].inst ==>
              (Matches(h.run.trace[i].inst[k].payload, q) <==> StreamMatches(h.run.trace[i].inst[k].payload, q))
    ensures n < |h.run.trace[i].log| && h.run.trace[i].log[n].Upserted? ==>
              (Matches(h.run.trace[i].log[n].payload, q) <==> StreamMatches(h.run.trace[i].log[n].payload, q))
  {
    StatusesStayKnown(h, i);
    assert KnownStored(h.run.trace[i]);
  }
}
