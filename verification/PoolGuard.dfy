/** The same-pool guard of the quote check (src/arbitrage.rs) and what it means for
    the hop pairs the cache indexes. */
module PoolGuard {
  import opened Text
  import opened AmountPatch
  import opened RouteSignature
  import opened HopKeys
  import opened RouteStore
  import opened Metis

  /** The pool of a hop, when it names one. */
  function PoolOf(hop: Json): Option<string> {
    match SwapInfo(hop)
    case Some(si) => StringField(si, "ammKey")
    case None => None
  }

  predicate Visits(hops: seq<Json>, pool: string) {
    exists i :: 0 <= i < |hops| && PoolOf(hops[i]) == Some(pool)
  }

  method PoolsOf(hops: seq<Json>) returns (pools: seq<string>)
    ensures forall pool :: pool in pools <==> Visits(hops, pool)
  {
    pools := [];
    for i := 0 to |hops|
      invariant forall pool :: pool in pools <==> Visits(hops[..i], pool)
    {
      VisitsOneMore(hops, i);
      if PoolOf(hops[i]).Some? {
        pools := pools + [PoolOf(hops[i]).value];
      }
    }
    assert hops[..|hops|] == hops;
  }

  lemma VisitsOneMore(hops: seq<Json>, i: nat)
    requires i < |hops|
    ensures forall pool :: Visits(hops[..i + 1], pool) <==> Visits(hops[..i], pool) || PoolOf(hops[i]) == Some(pool)
  {
    var longer, shorter := hops[..i + 1], hops[..i];
    forall pool ensures Visits(longer, pool) <==> Visits(shorter, pool) || PoolOf(hops[i]) == Some(pool) {
      if Visits(shorter, pool) {
        var k :| 0 <= k < |shorter| && PoolOf(shorter[k]) == Some(pool);
        assert longer[k] == shorter[k];
      }
      if PoolOf(hops[i]) == Some(pool) { assert longer[i] == hops[i]; }
      if Visits(longer, pool) {
        var k :| 0 <= k < |longer| && PoolOf(longer[k]) == Some(pool);
        if k < i { assert shorter[k] == longer[k]; }
      }
    }
  }

  /** The two quotes share a pool. */
  method RoutesSharePool(q1: Quote, q2: Quote) returns (shared: bool)
    ensures shared <==> exists pool :: Visits(Items(q1.routePlan), pool) && Visits(Items(q2.routePlan), pool)
  {
    var pools := PoolsOf(Items(q1.routePlan));
    var hops := Items(q2.routePlan);
    for i := 0 to |hops|
      invariant forall k :: 0 <= k < i ==> PoolOf(hops[k]).Some? ==> PoolOf(hops[k]).value !in pools
    {
      if PoolOf(hops[i]).Some? && PoolOf(hops[i]).value in pools {
        assert Visits(hops, PoolOf(hops[i]).value);
        return true;
      }
    }
    return false;
  }

  /** Past the guard, the two hops of an indexed pair go through different pools, so
      the two halves of its key differ as well. */
  lemma GuardedPairDiffers(q1: Quote, q2: Quote, floor: u64)
    requires !(exists pool :: Visits(Items(q1.routePlan), pool) && Visits(Items(q2.routePlan), pool))
    requires |Items(q1.routePlan)| == |Items(q2.routePlan)| == 1 && MergeQuotes(q1, q2, floor).Merged?
    ensures var hops := PlanHops(MergeQuotes(q1, q2, floor).quote.routePlan);
            hops.Some? ==> hops.value.0.pool != hops.value.1.pool
  {
    var plan := MergeQuotes(q1, q2, floor).quote.routePlan;
    var a, b := Items(q1.routePlan), Items(q2.routePlan);
    assert plan.items == a + b && plan.items[0] == a[0] && plan.items[1] == b[0];
    if PlanHops(plan).Some? {
      assert PoolOf(a[0]) == Some(PlanHops(plan).value.0.pool);
      assert PoolOf(b[0]) == Some(PlanHops(plan).value.1.pool);
      assert Visits(a, PlanHops(plan).value.0.pool) && Visits(b, PlanHops(plan).value.1.pool);
    }
  }
}
