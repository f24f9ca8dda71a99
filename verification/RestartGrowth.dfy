/** The size of the store across restarts (src/template_cache.rs). A flush writes
    both generations, and a load puts everything it reads into hot without looking
    at the cap. */
module RestartGrowth {
  import opened Text
  import opened Decimal
  import opened RouteSignature
  import opened HopKeys
  import opened RouteStore
  import opened Persistence
  import opened StoreRetention

  // ------------------------------------------------ one load

  /** A load from a flush makes one hot generation out of both. */
  lemma LoadedSize(st: StoreInner, file: RouteFile, hops: map<HopKey, HopTemplate>)
    requires Consistent(st) && SigsFit(st) && IsFlushOf(file, st)
    ensures var loaded := LoadRoutes(EMPTY_STORE.(hops := hops), file);
            && |loaded.routesHot| == |st.routesHot| + |st.routesCold| && loaded.routesCold == map[]
  {
    hide IsFlushOf, LoadRoutes, SigsFit, Reunited, KeyedBySig, KeyedByHop;
    RoutesRoundTrip(st, file, hops);
    ReunitedKeys(st);
    DisjointSizes(st.routesHot, st.routesCold, Reunited(st));
  }

  lemma ReunitedKeys(st: StoreInner)
    ensures Reunited(st).Keys == st.routesHot.Keys + st.routesCold.Keys
  {
  }

  lemma DisjointSizes<K, V>(a: map<K, V>, b: map<K, V>, both: map<K, V>)
    requires a.Keys !! b.Keys && both.Keys == a.Keys + b.Keys
    ensures |both| == |a| + |b|
  {
    assert |a.Keys + b.Keys| == |a.Keys| + |b.Keys|;
    assert |both.Keys| == |both| && |a.Keys| == |a| && |b.Keys| == |b|;
  }

  lemma LoadedOk(st: StoreInner, file: RouteFile, hops: map<HopKey, HopTemplate>)
    requires Consistent(st) && SigsFit(st) && IsFlushOf(file, st) && KeyedByHop(hops)
    ensures var loaded := LoadRoutes(EMPTY_STORE.(hops := hops), file);
            Consistent(loaded) && SigsFit(loaded)
  {
    hide IsFlushOf, LoadRoutes;
    RoutesRoundTrip(st, file, hops);
    forall s | s in Reunited(st) ensures Reunited(st)[s].routeSignature == s && s < U128_MODULUS {
      if s in st.routesCold { assert Reunited(st)[s] == Emptied(st.routesCold[s]); }
      else { assert Reunited(st)[s] == Emptied(st.routesHot[s]); }
    }
  }

  // ------------------------------------------------ how large a process gets

  /** The most that a store which starts with `loaded` routes in hot can hold. */
  function Peak(loaded: nat): nat {
    ROUTE_SEG_CAP + if loaded < ROUTE_SEG_CAP then ROUTE_SEG_CAP else loaded
  }

  /** Either nothing was rotated yet, or the hot generation is within the cap. */
  ghost predicate Within(st: StoreInner, most: nat) {
    || (|st.routesCold| == 0 && |st.routesHot| <= most)
    || (|st.routesHot| <= ROUTE_SEG_CAP && |st.routesCold| <= most)
  }

  lemma PushWithin(st: StoreInner, sig: nat, t: RouteTemplate, most: nat)
    requires Within(st, most) && most >= ROUTE_SEG_CAP && sig !in st.routesHot
    ensures Within(PushHotRoute(st, sig, t), most)
  {
    assert |map[sig := t]| == 1;
    assert |st.routesHot[sig := t]| == |st.routesHot| + 1;
  }

  lemma TakenWithin(st: StoreInner, sig: nat, most: nat)
    requires Within(st, most)
    ensures Within(st.(routesCold := st.routesCold - {sig}), most)
  {
    var left := st.routesCold - {sig};
    assert left.Keys <= st.routesCold.Keys;
    SubsetSize(left.Keys, st.routesCold.Keys);
    assert |left.Keys| == |left| && |st.routesCold.Keys| == |st.routesCold|;
  }

  lemma SameKeysWithin(st: StoreInner, st': StoreInner, most: nat)
    requires Within(st, most)
    requires st'.routesHot.Keys == st.routesHot.Keys && st'.routesCold.Keys == st.routesCold.Keys
    ensures Within(st', most)
  {
    assert |st.routesHot.Keys| == |st.routesHot| && |st'.routesHot.Keys| == |st'.routesHot|;
    assert |st.routesCold.Keys| == |st.routesCold| && |st'.routesCold.Keys| == |st'.routesCold|;
  }

  lemma ApplyWithin(st: StoreInner, op: Op, most: nat)
    requires Within(st, most) && most >= ROUTE_SEG_CAP
    ensures Within(Apply(st, op), most)
  {
    hide Within, PushHotRoute, FirstCapture;
    if !IsPush(st, op) {
      NonPushKeepsKeys(st, op);
      SameKeysWithin(st, Apply(st, op), most);
    } else if op.InsertOp? {
      var pushed := PushHotRoute(st, op.sig, FirstCapture(op.sig, op.ixs, op.inAmount, op.quotedOut));
      PushWithin(st, op.sig, FirstCapture(op.sig, op.ixs, op.inAmount, op.quotedOut), most);
      FreshIsPush(st, op);
      SameKeysWithin(pushed, Apply(st, op), most);
    } else {
      TakenWithin(st, op.sig, most);
      PushWithin(st.(routesCold := st.routesCold - {op.sig}), op.sig, CountHit(st.routesCold[op.sig]), most);
    }
  }

  lemma {:induction false} ApplyAllWithin(st: StoreInner, ops: seq<Op>, most: nat)
    requires Within(st, most) && most >= ROUTE_SEG_CAP
    ensures Size(ApplyAll(st, ops)) <= most + ROUTE_SEG_CAP
    decreases |ops|
  {
    if ops != [] {
      hide Apply, Within;
      ApplyWithin(st, ops[0], most);
      ApplyAllWithin(Apply(st, ops[0]), ops[1..], most);
    }
  }

  // ------------------------------------------------ and that it gets so large

  lemma FreshSizes(st: StoreInner, op: Op)
    requires op.InsertOp? && !Present(st, op.sig)
    ensures |st.routesHot| < ROUTE_SEG_CAP ==>
              |Apply(st, op).routesHot| == |st.routesHot| + 1 && Apply(st, op).routesCold == st.routesCold
    ensures |st.routesHot| >= ROUTE_SEG_CAP ==>
              |Apply(st, op).routesHot| == 1 && Apply(st, op).routesCold == st.routesHot
  {
    hide FirstCapture, Apply;
    FreshIsPush(st, op);
    var t := FirstCapture(op.sig, op.ixs, op.inAmount, op.quotedOut);
    assert |map[op.sig := t]| == 1;
    assert |st.routesHot[op.sig := t]| == |st.routesHot| + 1;
  }

  lemma {:induction false} FreshFill(st: StoreInner, ops: seq<Op>)
    requires AllFresh(st, ops) && |st.routesHot| + |ops| <= ROUTE_SEG_CAP
    ensures |ApplyAll(st, ops).routesHot| == |st.routesHot| + |ops|
    ensures ApplyAll(st, ops).routesCold == st.routesCold
    decreases |ops|
  {
    if ops != [] {
      hide Apply;
      FreshSizes(st, ops[0]);
      FreshFill(Apply(st, ops[0]), ops[1..]);
    }
  }

  lemma FreshRotate(st: StoreInner, ops: seq<Op>)
    requires AllFresh(st, ops) && |st.routesHot| >= ROUTE_SEG_CAP == |ops|
    ensures |ApplyAll(st, ops).routesHot| == ROUTE_SEG_CAP && ApplyAll(st, ops).routesCold == st.routesHot
  {
    hide Apply;
    FreshSizes(st, ops[0]);
    FreshFill(Apply(st, ops[0]), ops[1..]);
  }

  lemma {:induction false} ApplyAllConcat(st: StoreInner, a: seq<Op>, b: seq<Op>)
    ensures ApplyAll(st, a + b) == ApplyAll(ApplyAll(st, a), b)
    decreases |a|
  {
    hide Apply;
    if a == [] {
      assert a + b == b;
    } else {
      assert (a + b)[1..] == a[1..] + b;
      ApplyAllConcat(Apply(st, a[0]), a[1..], b);
    }
  }

  /** From a store with an empty cold generation new routes reach the peak. */
  lemma PeakReached(st: StoreInner) returns (ops: seq<Op>)
    requires st.routesCold == map[] && Size(st) + 2 * ROUTE_SEG_CAP <= U128_MODULUS
    ensures OpsFit(ops) && Size(ApplyAll(st, ops)) == Peak(|st.routesHot|)
  {
    hide ApplyAll, AllFresh, OpsFit;
    if |st.routesHot| >= ROUTE_SEG_CAP {
      ops := ManyFresh(st, ROUTE_SEG_CAP);
      FreshFits(st, ops);
      FreshRotate(st, ops);
    } else {
      var fill := ManyFresh(st, ROUTE_SEG_CAP - |st.routesHot|);
      FreshFits(st, fill);
      FreshFill(st, fill);
      var full := ApplyAll(st, fill);
      var more := ManyFresh(full, ROUTE_SEG_CAP);
      FreshFits(full, more);
      FreshRotate(full, more);
      ops := fill + more;
      ApplyAllConcat(st, fill, more);
      BothFit(fill, more);
    }
  }

  lemma BothFit(a: seq<Op>, b: seq<Op>)
    requires OpsFit(a) && OpsFit(b)
    ensures OpsFit(a + b)
  {
  }

  /** The size of a process that loaded some routes, exactly: no operations take it
      past `bound` if and only if the peak for that many routes is within it. */
  lemma LoadedPeakExactly(st: StoreInner, bound: nat)
    requires st.routesCold == map[] && Size(st) + 2 * ROUTE_SEG_CAP <= U128_MODULUS
    ensures (forall ops :: OpsFit(ops) ==> Size(ApplyAll(st, ops)) <= bound) <==> Peak(|st.routesHot|) <= bound
  {
    hide ApplyAll, OpsFit;
    if Peak(|st.routesHot|) <= bound {
      forall ops | OpsFit(ops) ensures Size(ApplyAll(st, ops)) <= bound {
        ApplyAllWithin(st, ops, Peak(|st.routesHot|) - ROUTE_SEG_CAP);
      }
    } else {
      var ops := PeakReached(st);
    }
  }

  /** The documented bound of twice the cap holds in a process if and only if it
      loaded no more routes than one generation may hold. */
  lemma DocumentedBoundExactly(st: StoreInner)
    requires st.routesCold == map[] && Size(st) + 2 * ROUTE_SEG_CAP <= U128_MODULUS
    ensures (forall ops :: OpsFit(ops) ==> Size(ApplyAll(st, ops)) <= 2 * ROUTE_SEG_CAP)
            <==> |st.routesHot| <= ROUTE_SEG_CAP
  {
    hide ApplyAll, OpsFit, Size;
    LoadedPeakExactly(st, 2 * ROUTE_SEG_CAP);
  }

  // ------------------------------------------------ over restarts

  lemma InsertFits(st: StoreInner, op: Op)
    requires SigsFit(st) && op.InsertOp? && op.sig < U128_MODULUS
    ensures SigsFit(Apply(st, op))
  {
    hide FirstCapture, SeenAgain, PlanPairKey, PushHotRoute;
    PushFits(st, op.sig, FirstCapture(op.sig, op.ixs, op.inAmount, op.quotedOut));
  }

  lemma GetFits(st: StoreInner, sig: nat)
    requires SigsFit(st)
    ensures SigsFit(AtomicGet(st, sig).store)
  {
    hide PushHotRoute;
    if sig !in st.routesHot && sig in st.routesCold {
      PushFits(st.(routesCold := st.routesCold - {sig}), sig, CountHit(st.routesCold[sig]));
    }
  }

  lemma ApplyFits(st: StoreInner, op: Op)
    requires SigsFit(st) && (op.InsertOp? ==> op.sig < U128_MODULUS)
    ensures SigsFit(Apply(st, op))
  {
    hide InsertRoute, AtomicGet, RecordHopItems;
    match op
    case InsertOp(_, _, _, _, _) => InsertFits(st, op);
    case GetOp(sig) => GetFits(st, sig);
    case _ =>
  }

  lemma {:induction false} ApplyAllFits(st: StoreInner, ops: seq<Op>)
    requires Consistent(st) && SigsFit(st) && OpsFit(ops)
    ensures Consistent(ApplyAll(st, ops)) && SigsFit(ApplyAll(st, ops))
    decreases |ops|
  {
    if ops != [] {
      hide Apply, Consistent, SigsFit;
      assert ops[0] in ops;
      ApplyKeepsConsistent(st, ops[0]);
      ApplyFits(st, ops[0]);
      ApplyAllFits(Apply(st, ops[0]), ops[1..]);
    }
  }

  /** One process: it works on the store, flushes, and the next one loads the file
      after it has loaded some hops. */
  ghost predicate Restarted(st: StoreInner, ops: seq<Op>, file: RouteFile, hops: map<HopKey, HopTemplate>,
                            next: StoreInner) {
    && OpsFit(ops) && IsFlushOf(file, ApplyAll(st, ops)) && KeyedByHop(hops)
    && next == LoadRoutes(EMPTY_STORE.(hops := hops), file)
  }

  /** The stores that `k` processes in a row can leave to the next one. */
  ghost predicate AfterRestarts(k: nat, st: StoreInner) {
    if k == 0 then st == EMPTY_STORE
    else exists before, ops, file, hops :: AfterRestarts(k - 1, before) && Restarted(before, ops, file, hops, st)
  }

  /** The largest of them. */
  function Grown(k: nat): nat {
    if k == 0 then 0 else (k + 1) * ROUTE_SEG_CAP
  }

  ghost predicate Loaded(st: StoreInner) {
    Consistent(st) && SigsFit(st) && st.routesCold == map[]
  }

  lemma RestartSize(st: StoreInner, ops: seq<Op>, file: RouteFile, hops: map<HopKey, HopTemplate>, next: StoreInner)
    requires Loaded(st) && Restarted(st, ops, file, hops, next)
    ensures Loaded(next) && |next.routesHot| == Size(ApplyAll(st, ops))
  {
    hide Consistent, SigsFit, OpsFit, IsFlushOf, LoadRoutes, ApplyAll, KeyedByHop;
    ApplyAllFits(st, ops);
    LoadedSize(ApplyAll(st, ops), file, hops);
    LoadedOk(ApplyAll(st, ops), file, hops);
  }

  lemma EmptyIsLoaded()
    ensures Loaded(EMPTY_STORE)
  {
  }

  lemma PeakOfGrown(k: nat, loaded: nat)
    requires k > 0 && loaded <= Grown(k - 1)
    ensures Peak(loaded) <= Grown(k)
    ensures loaded == Grown(k - 1) ==> Peak(loaded) == Grown(k)
  {
  }

  lemma {:induction false} AtMostGrown(k: nat, st: StoreInner)
    requires AfterRestarts(k, st)
    ensures Loaded(st) && |st.routesHot| <= Grown(k)
  {
    hide Loaded, Restarted, Grown, Peak, ApplyAll;
    if k == 0 {
      EmptyIsLoaded();
      assert |EMPTY_STORE.routesHot| == 0;
    } else {
      var before, ops, file, hops :| AfterRestarts(k - 1, before) && Restarted(before, ops, file, hops, st);
      AtMostGrown(k - 1, before);
      RestartSize(before, ops, file, hops, st);
      PeakOfGrown(k, |before.routesHot|);
      ProcessPeak(before, ops);
    }
  }

  lemma ProcessPeak(st: StoreInner, ops: seq<Op>)
    requires Loaded(st)
    ensures Size(ApplyAll(st, ops)) <= Peak(|st.routesHot|)
  {
    hide ApplyAll, Consistent, SigsFit;
    ApplyAllWithin(st, ops, Peak(|st.routesHot|) - ROUTE_SEG_CAP);
  }

  lemma SomeFlush(st: StoreInner) returns (file: RouteFile)
    ensures IsFlushOf(file, st)
  {
    var hotOrder := SomeOrder(st.routesHot.Keys);
    var coldOrder := SomeOrder(st.routesCold.Keys);
    EnumeratedIn(hotOrder, st.routesHot.Keys);
    EnumeratedIn(coldOrder, st.routesCold.Keys);
    file := FlushFile(st, hotOrder, coldOrder);
  }

  lemma {:induction false} GrownReached(k: nat) returns (st: StoreInner)
    requires Grown(k) + 2 * ROUTE_SEG_CAP <= U128_MODULUS
    ensures AfterRestarts(k, st) && Loaded(st) && |st.routesHot| == Grown(k)
  {
    hide Loaded, Restarted, ApplyAll, IsFlushOf, LoadRoutes, OpsFit;
    if k == 0 {
      st := EMPTY_STORE;
      EmptyIsLoaded();
      assert |EMPTY_STORE.routesHot| == 0;
    } else {
      var before := GrownReached(k - 1);
      st := PeakThenRestart(before);
      PeakOfGrown(k, |before.routesHot|);
      var ops, file, hops :| Restarted(before, ops, file, hops, st);
      assert AfterRestarts(k, st);
    }
  }

  lemma PeakThenRestart(st: StoreInner) returns (next: StoreInner)
    requires Loaded(st) && |st.routesHot| + 2 * ROUTE_SEG_CAP <= U128_MODULUS
    ensures exists ops, file, hops :: Restarted(st, ops, file, hops, next)
    ensures Loaded(next) && |next.routesHot| == Peak(|st.routesHot|)
  {
    hide Consistent, SigsFit, ApplyAll, IsFlushOf, LoadRoutes, OpsFit;
    assert |st.routesCold| == 0;
    var ops := PeakReached(st);
    var file := SomeFlush(ApplyAll(st, ops));
    var hops: map<HopKey, HopTemplate> := map[];
    next := LoadRoutes(EMPTY_STORE.(hops := hops), file);
    assert KeyedByHop(hops) && Restarted(st, ops, file, hops, next);
    RestartSize(st, ops, file, hops, next);
  }

  /** Restarts make the store grow without a bound of its own: after `k` of them the
      hot generation of every run is within `bound` if and only if `bound` is at least
      `k + 1` caps, as long as signatures last. It starts empty. */
  lemma GrowthExactly(k: nat, bound: nat)
    requires Grown(k) + 2 * ROUTE_SEG_CAP <= U128_MODULUS
    ensures (forall st :: AfterRestarts(k, st) ==> |st.routesHot| <= bound) <==> Grown(k) <= bound
  {
    hide AfterRestarts, Loaded, Grown;
    if Grown(k) <= bound {
      forall st | AfterRestarts(k, st) ensures |st.routesHot| <= bound { AtMostGrown(k, st); }
    } else {
      var st := GrownReached(k);
    }
  }

  /** The failing input: one restart is enough. A process that started empty leaves
      twice the cap to the next one, all of it hot, and that one grows to three
      times the cap. */
  lemma OneRestartPassesBound() returns (st: StoreInner, ops: seq<Op>)
    ensures AfterRestarts(1, st) && |st.routesHot| == 2 * ROUTE_SEG_CAP && st.routesCold == map[]
    ensures OpsFit(ops) && Size(ApplyAll(st, ops)) == 3 * ROUTE_SEG_CAP
  {
    hide AfterRestarts, ApplyAll, OpsFit, Consistent, SigsFit;
    st := GrownReached(1);
    assert |st.routesCold| == 0;
    ops := PeakReached(st);
  }
}
