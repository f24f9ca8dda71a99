/** How long the two generations keep a route (src/template_cache.rs). */
module StoreRetention {
  import opened Text
  import opened Decimal
  import opened RouteSignature
  import opened HopKeys
  import opened RouteStore

  ghost predicate Present(st: StoreInner, r: nat) {
    r in st.routesHot || r in st.routesCold
  }

  /** Whether this operation calls `push_hot_route`. */
  predicate IsPush(st: StoreInner, op: Op) {
    match op
    case InsertOp(sig, _, _, _, _) => sig !in st.routesHot && sig !in st.routesCold
    case GetOp(sig) => sig !in st.routesHot && sig in st.routesCold
    case _ => false
  }

  function Pushes(st: StoreInner, ops: seq<Op>): nat
    decreases |ops|
  {
    if ops == [] then 0
    else (if IsPush(st, ops[0]) then 1 else 0) + Pushes(Apply(st, ops[0]), ops[1..])
  }

  /** How many more pushes route `r` is sure to outlive; negative if absent. A hot
      route first waits for its generation to fill, and then for the next one. */
  function Slack(st: StoreInner, r: nat): int {
    var hot := |st.routesHot|;
    if r in st.routesHot then if hot < ROUTE_SEG_CAP then 2 * ROUTE_SEG_CAP - hot else ROUTE_SEG_CAP
    else if r in st.routesCold then if hot < ROUTE_SEG_CAP then ROUTE_SEG_CAP - hot else 0
    else -1
  }

  /** A push of another, new route costs exactly one. */
  lemma PushSlack(st: StoreInner, sig: nat, t: RouteTemplate, r: nat)
    requires sig !in st.routesHot && sig !in st.routesCold && sig != r && Slack(st, r) >= 0
    ensures Slack(PushHotRoute(st, sig, t), r) == Slack(st, r) - 1
  {
    assert |map[sig := t]| == 1;
    assert |st.routesHot[sig := t]| == |st.routesHot| + 1;
  }

  lemma SameKeysSlack(st: StoreInner, st': StoreInner, r: nat)
    requires st'.routesHot.Keys == st.routesHot.Keys && st'.routesCold.Keys == st.routesCold.Keys
    ensures Slack(st', r) == Slack(st, r)
  {
    assert |st.routesHot.Keys| == |st.routesHot| && |st'.routesHot.Keys| == |st'.routesHot|;
  }

  lemma PromoteSlack(st: StoreInner, sig: nat, r: nat)
    requires Consistent(st) && sig in st.routesCold && Slack(st, r) >= 1
    ensures Slack(Promote(st, sig).store, r) >= Slack(st, r) - 1
  {
    var taken := st.(routesCold := st.routesCold - {sig});
    var t := CountHit(st.routesCold[sig]);
    if sig == r {
      assert r in PushHotRoute(taken, sig, t).routesHot;
    } else {
      PushSlack(taken, sig, t, r);
    }
  }

  lemma NonPushKeepsKeys(st: StoreInner, op: Op)
    requires !IsPush(st, op)
    ensures Apply(st, op).routesHot.Keys == st.routesHot.Keys && Apply(st, op).routesCold.Keys == st.routesCold.Keys
  {
  }

  lemma SlackStep(st: StoreInner, op: Op, r: nat)
    requires Consistent(st) && Slack(st, r) >= if IsPush(st, op) then 1 else 0
    ensures Slack(Apply(st, op), r) >= Slack(st, r) - if IsPush(st, op) then 1 else 0
  {
    if IsPush(st, op) {
      match op
      case InsertOp(sig, ixs, inAmount, quotedOut, plan) =>
        var t := FirstCapture(sig, ixs, inAmount, quotedOut);
        PushSlack(st, sig, t, r);
        SameKeysSlack(PushHotRoute(st, sig, t), Apply(st, op), r);
      case GetOp(sig) => PromoteSlack(st, sig, r);
    } else {
      NonPushKeepsKeys(st, op);
      SameKeysSlack(st, Apply(st, op), r);
    }
  }

  lemma {:induction false} Outlives(st: StoreInner, ops: seq<Op>, r: nat)
    requires Consistent(st) && Pushes(st, ops) <= Slack(st, r)
    ensures Present(ApplyAll(st, ops), r)
    decreases |ops|
  {
    if ops != [] {
      SlackStep(st, ops[0], r);
      ApplyKeepsConsistent(st, ops[0]);
      Outlives(Apply(st, ops[0]), ops[1..], r);
    }
  }

  /** A route in the hot generation is still retrievable after any operations that
      push at most `ROUTE_SEG_CAP` routes. */
  lemma RetainedThroughCapPushes(st: StoreInner, ops: seq<Op>, r: nat)
    requires Consistent(st) && r in st.routesHot && Pushes(st, ops) <= ROUTE_SEG_CAP
    ensures Present(ApplyAll(st, ops), r)
    ensures AtomicGet(ApplyAll(st, ops), r).found.Some?
  {
    Outlives(st, ops, r);
  }

  /** Stretches of operations, each followed by a lookup of `r`. */
  function Visit(st: StoreInner, stretches: seq<seq<Op>>, r: nat): StoreInner
    decreases |stretches|
  {
    if stretches == [] then st
    else Visit(AtomicGet(ApplyAll(st, stretches[0]), r).store, stretches[1..], r)
  }

  ghost predicate ShortStretches(st: StoreInner, stretches: seq<seq<Op>>, r: nat)
    decreases |stretches|
  {
    stretches != [] ==>
      && Pushes(st, stretches[0]) <= ROUTE_SEG_CAP
      && ShortStretches(AtomicGet(ApplyAll(st, stretches[0]), r).store, stretches[1..], r)
  }

  lemma LookupReheats(st: StoreInner, r: nat)
    requires Consistent(st) && Present(st, r)
    ensures r in AtomicGet(st, r).store.routesHot && Consistent(AtomicGet(st, r).store)
  {
    ApplyKeepsConsistent(st, GetOp(r));
  }

  lemma {:induction false} PrefixPushes(st: StoreInner, ops: seq<Op>, m: nat)
    requires m <= |ops|
    ensures Pushes(st, ops[..m]) <= Pushes(st, ops)
    decreases |ops|
  {
    hide Apply, IsPush;
    if m > 0 {
      PrefixPushes(Apply(st, ops[0]), ops[1..], m - 1);
      assert ops[..m][0] == ops[0] && ops[..m][1..] == ops[1..][..m - 1];
    }
  }

  /** A route looked up at least once in every `ROUTE_SEG_CAP` pushes is never
      evicted: it is stored after every single operation of every stretch, and so
      every one of those lookups finds it, however long the run. */
  lemma {:induction false} VisitedNeverEvicted(st: StoreInner, stretches: seq<seq<Op>>, r: nat, n: nat, m: nat)
    requires Consistent(st) && r in st.routesHot && ShortStretches(st, stretches, r)
    requires n < |stretches| && m <= |stretches[n]|
    ensures Present(ApplyAll(Visit(st, stretches[..n], r), stretches[n][..m]), r)
    ensures AtomicGet(ApplyAll(Visit(st, stretches[..n], r), stretches[n]), r).found.Some?
    decreases |stretches|
  {
    hide Consistent, ROUTE_SEG_CAP, Present, AtomicGet;
    if n == 0 {
      PrefixPushes(st, stretches[0], m);
      RetainedThroughCapPushes(st, stretches[0][..m], r);
      RetainedThroughCapPushes(st, stretches[0], r);
      assert stretches[..0] == [];
    } else {
      var settled := ApplyAll(st, stretches[0]);
      RetainedThroughCapPushes(st, stretches[0], r);
      ApplyAllKeepsConsistent(st, stretches[0]);
      LookupReheats(settled, r);
      VisitedNeverEvicted(AtomicGet(settled, r).store, stretches[1..], r, n - 1, m);
      assert stretches[..n][0] == stretches[0] && stretches[..n][1..] == stretches[1..][..n - 1];
    }
  }

  // ------------------------------------------------ the bound is exact

  /** Operations that insert one new route after another. */
  ghost predicate AllFresh(st: StoreInner, ops: seq<Op>)
    decreases |ops|
  {
    ops != [] ==>
      && ops[0].InsertOp? && ops[0].sig < U128_MODULUS && !Present(st, ops[0].sig)
      && AllFresh(Apply(st, ops[0]), ops[1..])
  }

  /** Every signature these operations store fits its 128 bits. */
  predicate OpsFit(ops: seq<Op>) {
    forall op :: op in ops && op.InsertOp? ==> op.sig < U128_MODULUS
  }

  function Size(st: StoreInner): nat {
    |st.routesHot| + |st.routesCold|
  }

  lemma {:induction false} FreshSig(used: set<nat>, limit: nat) returns (sig: nat)
    requires |used| < limit
    ensures sig < limit && sig !in used
    decreases limit
  {
    if limit - 1 in used {
      assert |used - {limit - 1}| == |used| - 1;
      sig := FreshSig(used - {limit - 1}, limit - 1);
    } else {
      sig := limit - 1;
    }
  }

  function PlainInsert(sig: nat): Op {
    InsertOp(sig, SwapIxs([], [], Instruction("", [], ""), None, []), 0, 0, Null)
  }

  lemma PushSize(st: StoreInner, sig: nat, t: RouteTemplate)
    ensures Size(PushHotRoute(st, sig, t)) <= Size(st) + 1
  {
    assert |map[sig := t]| == 1;
    if sig in st.routesHot { assert st.routesHot[sig := t].Keys == st.routesHot.Keys; }
    else { assert |st.routesHot[sig := t]| == |st.routesHot| + 1; }
  }

  lemma FreshIsPush(st: StoreInner, op: Op)
    requires op.InsertOp? && !Present(st, op.sig)
    ensures IsPush(st, op)
    ensures var pushed := PushHotRoute(st, op.sig, FirstCapture(op.sig, op.ixs, op.inAmount, op.quotedOut));
            && Apply(st, op).routesHot == pushed.routesHot && Apply(st, op).routesCold == pushed.routesCold
  {
    hide FirstCapture, PushHotRoute, PlanPairKey;
  }

  /** As long as signatures last there are new routes to insert. */
  lemma {:induction false} ManyFresh(st: StoreInner, m: nat) returns (ops: seq<Op>)
    requires Size(st) + m <= U128_MODULUS
    ensures |ops| == m && AllFresh(st, ops)
    decreases m
  {
    if m == 0 {
      ops := [];
    } else {
      hide Apply, PushHotRoute, FirstCapture;
      KeysSize(st);
      var sig := FreshSig(st.routesHot.Keys + st.routesCold.Keys, U128_MODULUS);
      var op := PlainInsert(sig);
      FreshIsPush(st, op);
      PushSize(st, sig, FirstCapture(sig, op.ixs, 0, 0));
      var rest := ManyFresh(Apply(st, op), m - 1);
      ops := [op] + rest;
      assert ops[1..] == rest;
    }
  }

  lemma KeysSize(st: StoreInner)
    ensures |st.routesHot.Keys + st.routesCold.Keys| <= Size(st)
  {
    var hot, cold := st.routesHot.Keys, st.routesCold.Keys;
    assert hot + cold == hot + (cold - hot);
    SubsetSize(cold - hot, cold);
    assert |hot| == |st.routesHot| && |cold| == |st.routesCold|;
  }

  lemma {:induction false} FreshFits(st: StoreInner, ops: seq<Op>)
    requires AllFresh(st, ops)
    ensures OpsFit(ops) && Pushes(st, ops) == |ops|
    decreases |ops|
  {
    hide Apply, IsPush;
    if ops != [] {
      FreshIsPush(st, ops[0]);
      FreshFits(Apply(st, ops[0]), ops[1..]);
      assert forall op :: op in ops ==> op == ops[0] || op in ops[1..];
    }
  }

  /** Inserts of new routes use the slack up, one by one, and then drop the route. */
  lemma {:induction false} FreshEvicts(st: StoreInner, ops: seq<Op>, r: nat)
    requires AllFresh(st, ops) && Slack(st, r) >= 0 && |ops| == Slack(st, r) + 1
    ensures !Present(ApplyAll(st, ops), r)
    decreases |ops|
  {
    hide Apply, PushHotRoute, FirstCapture;
    var op := ops[0];
    FreshIsPush(st, op);
    PushSlack(st, op.sig, FirstCapture(op.sig, op.ixs, op.inAmount, op.quotedOut), r);
    if |ops| > 1 {
      FreshEvicts(Apply(st, op), ops[1..], r);
    } else {
      assert ops[1..] == [] && ApplyAll(Apply(st, op), []) == Apply(st, op);
    }
  }

  /** One push more than the slack can evict: inserts of that many new routes do. */
  lemma OneMorePushEvicts(st: StoreInner, r: nat) returns (ops: seq<Op>)
    requires Present(st, r) && Size(st) + 2 * ROUTE_SEG_CAP + 1 <= U128_MODULUS
    ensures OpsFit(ops) && Pushes(st, ops) == |ops| == Slack(st, r) + 1 && !Present(ApplyAll(st, ops), r)
  {
    hide AllFresh, Pushes, OpsFit, Apply, ApplyAll;
    ops := ManyFresh(st, Slack(st, r) + 1);
    FreshFits(st, ops);
    FreshEvicts(st, ops, r);
  }

  /** Retention, exactly: a stored route survives all operations with at most `m`
      pushes if and only if `m` is at most its slack. */
  lemma RetainedExactly(st: StoreInner, r: nat, m: nat)
    requires Consistent(st) && Present(st, r) && Size(st) + 2 * ROUTE_SEG_CAP + 1 <= U128_MODULUS
    ensures (forall ops :: OpsFit(ops) && Pushes(st, ops) <= m ==> Present(ApplyAll(st, ops), r)) <==> m <= Slack(st, r)
  {
    hide Consistent, Pushes, OpsFit, ApplyAll;
    if m <= Slack(st, r) {
      forall ops | OpsFit(ops) && Pushes(st, ops) <= m ensures Present(ApplyAll(st, ops), r) {
        Outlives(st, ops, r);
      }
    } else {
      var ops := OneMorePushEvicts(st, r);
    }
  }

  // ------------------------------------------------ size

  ghost predicate Bounded(st: StoreInner, bound: nat) {
    |st.routesHot| <= bound && |st.routesCold| <= bound
  }

  lemma PushBounded(st: StoreInner, sig: nat, t: RouteTemplate, bound: nat)
    requires Bounded(st, bound) && bound >= ROUTE_SEG_CAP
    ensures Bounded(PushHotRoute(st, sig, t), bound)
  {
    assert |map[sig := t]| == 1;
    if sig !in st.routesHot { assert |st.routesHot[sig := t]| == |st.routesHot| + 1; }
    else { assert st.routesHot[sig := t].Keys == st.routesHot.Keys; }
  }

  lemma ApplyBounded(st: StoreInner, op: Op, bound: nat)
    requires Bounded(st, bound) && bound >= ROUTE_SEG_CAP
    ensures Bounded(Apply(st, op), bound)
  {
    if IsPush(st, op) {
      match op
      case InsertOp(sig, ixs, inAmount, quotedOut, plan) =>
        PushBounded(st, sig, FirstCapture(sig, ixs, inAmount, quotedOut), bound);
      case GetOp(sig) =>
        var taken := st.(routesCold := st.routesCold - {sig});
        assert taken.routesCold.Keys <= st.routesCold.Keys;
        SubsetSize(taken.routesCold.Keys, st.routesCold.Keys);
        PushBounded(taken, sig, CountHit(st.routesCold[sig]), bound);
    } else {
      var st' := Apply(st, op);
      NonPushKeepsKeys(st, op);
      assert |st'.routesHot.Keys| == |st'.routesHot| && |st'.routesCold.Keys| == |st'.routesCold|;
    }
  }

  lemma SubsetSize(a: set<nat>, b: set<nat>)
    requires a <= b
    ensures |a| <= |b|
  {
    assert b == a + (b - a);
  }

  /** Neither generation ever exceeds the cap in a run from an empty store, nor
      max(cap, n) in a run from a store that was loaded with n routes. */
  lemma {:induction false} SegmentsBounded(st: StoreInner, ops: seq<Op>, loaded: nat)
    requires Bounded(st, loaded)
    ensures Bounded(ApplyAll(st, ops), if loaded > ROUTE_SEG_CAP then loaded else ROUTE_SEG_CAP)
    decreases |ops|
  {
    if ops != [] {
      var bound := if loaded > ROUTE_SEG_CAP then loaded else ROUTE_SEG_CAP;
      ApplyBounded(st, ops[0], bound);
      SegmentsBounded(Apply(st, ops[0]), ops[1..], bound);
    }
  }
}
