/** The tiers the scanner tries before asking Metis (src/arbitrage.rs), run on the
    store object. */
module RouteServing {
  import opened Text
  import opened AmountPatch
  import opened RouteSignature
  import opened HopKeys
  import opened RouteStore
  import opened Metis
  import opened TemplateFidelity
  import opened StoreFidelity
  import opened Transparency
  import opened HopPairServing

  datatype Outcome =
    | FromSignature(ixs: SwapIxs)
    | FromHopPair(ixs: SwapIxs)
    | AskMetis
    | DropNoServe

  /** What Tier 1 relies on: Metis answers by route, and no captured stream but the
      plan's own has its signature. */
  ghost predicate Told(metis: Model, origins: set<Origin>, plan: Json) {
    AnswersByRoute(metis) && NoCollision(origins, plan) && Readable(plan) && AllReadable(origins)
  }

  /** Looking a route up does not change whether it can be served. */
  lemma LookAgain(st: StoreInner, sig: nat, amount: u64)
    ensures Servable(AtomicGet(st, sig).store, sig, amount) <==> Servable(st, sig, amount)
  {
  }

  lemma ServedFound(metis: Model, origins: set<Origin>, st: StoreInner, sig: nat, amount: u64)
    requires StoreOk(metis, origins, st)
    ensures Served(st, sig, amount).Some? <==> Servable(st, sig, amount)
    ensures Served(st, sig, amount).Some? ==> FromCapture(metis, origins, sig, amount, Served(st, sig, amount).value)
  {
    hide StoreOk, Faithful, AtomicGet, ServeRoute, CanServe, FromCapture;
    LookOk(metis, origins, st, sig);
    var found := AtomicGet(st, sig).found;
    if found.Some? { ServesExactly(metis, origins, sig, found.value, amount, Floor(amount)); }
  }

  /** One merged quote through the tiers, with nothing else running between them.
      Tier 1 serves exactly when the template stored under the plan's signature can
      serve the amount. Tier 2 serves exactly when Tier 1 cannot, every hop is known,
      and the template the hop-pair index names can; that is never a template of the
      plan's own signature, unless one is captured between the tiers. What comes
      from memory is Metis's answer to a plan captured under the signature used,
      and under Tier 1, when Metis answers by route and no captured stream collides,
      its answer to this very plan. */
  method Source(store: TemplateStore, plan: Json, amount: u64, serveRoute: bool, serveFromMetis: bool,
                ghost metis: Model, ghost origins: set<Origin>)
    returns (outcome: Outcome)
    requires StoreOk(metis, origins, store.Inner())
    modifies store
    ensures StoreOk(metis, origins, store.Inner())
    ensures outcome.FromSignature? <==> serveRoute && Servable(old(store.Inner()), RouteSig(plan), amount)
    ensures outcome.FromSignature? ==> FromCapture(metis, origins, RouteSig(plan), amount, outcome.ixs)
    ensures outcome.FromSignature? && Told(metis, origins, plan) ==> outcome.ixs == Instructions(metis(plan), amount)
    ensures outcome.FromHopPair? <==>
      && serveRoute && !Servable(old(store.Inner()), RouteSig(plan), amount)
      && MissingHops(old(store.hops), Items(plan)) == 0
      && var indexed := IndexedSig(old(store.Inner()), plan);
         indexed.Some? && Servable(AtomicGet(old(store.Inner()), RouteSig(plan)).store, indexed.value, amount)
    ensures outcome.FromHopPair? ==>
      var indexed := IndexedSig(old(store.Inner()), plan);
      && indexed.Some? && indexed.value != RouteSig(plan)
      && FromCapture(metis, origins, indexed.value, amount, outcome.ixs)
    ensures !serveRoute ==> store.Inner() == old(store.Inner())
    ensures outcome.AskMetis? ==> serveFromMetis
    ensures outcome.DropNoServe? ==> !serveFromMetis
  {
    hide StoreOk, Servable, FromCapture, MissingHops, RouteSig, AtomicGet, Told, Instructions,
         PlanPairKey, ServedByHops;
    var sig := ComputeRouteSig(plan);
    var onChainFloor := Floor(amount);
    LookAgain(store.Inner(), sig, amount);
    LookKeepsIndex(store.Inner(), sig, plan);
    if serveRoute {
      var ixs := ServeBySig(store, sig, amount, onChainFloor, metis, origins);
      if ixs.Some? {
        AnswerIfSound(metis, origins, plan, amount, ixs.value);
        return FromSignature(ixs.value);
      }
    }
    var allHit, missing := store.CheckHops(plan);
    if allHit && serveRoute {
      var ixs := ServeByHops(store, plan, amount, onChainFloor, metis, origins);
      if ixs.Some? {
        return FromHopPair(ixs.value);
      }
    }
    outcome := if serveFromMetis then AskMetis else DropNoServe;
  }

  lemma LookKeepsIndex(st: StoreInner, sig: nat, plan: Json)
    ensures IndexedSig(AtomicGet(st, sig).store, plan) == IndexedSig(st, plan)
  {
    hide PlanPairKey;
  }

  lemma AnswerIfSound(metis: Model, origins: set<Origin>, plan: Json, amount: u64, ixs: SwapIxs)
    requires FromCapture(metis, origins, RouteSig(plan), amount, ixs)
    ensures Told(metis, origins, plan) ==> ixs == Instructions(metis(plan), amount)
  {
    hide AnswersByRoute, NoCollision, Readable, AllReadable, FromCapture, RouteSig, Instructions;
    if Told(metis, origins, plan) {
      CapturedIsAnswer(metis, origins, plan, amount, ixs);
    }
  }

  /** Tier 1: what the stored template serves, and a recorded hit when it does. */
  method ServeBySig(store: TemplateStore, sig: nat, amount: u64, onChainFloor: u64,
                    ghost metis: Model, ghost origins: set<Origin>)
    returns (served: Option<SwapIxs>)
    requires StoreOk(metis, origins, store.Inner())
    modifies store
    ensures StoreOk(metis, origins, store.Inner())
    ensures store.hopPairIndex == old(store.hopPairIndex) && store.hops == old(store.hops)
    ensures served == Served(old(store.Inner()), sig, amount)
    ensures served.Some? <==> Servable(old(store.Inner()), sig, amount)
    ensures served.Some? ==> FromCapture(metis, origins, sig, amount, served.value)
    ensures served.None? ==> store.Inner() == AtomicGet(old(store.Inner()), sig).store
  {
    hide StoreOk, Servable, FromCapture, PushHotRoute;
    ServedFound(metis, origins, store.Inner(), sig, amount);
    LookOk(metis, origins, store.Inner(), sig);
    LookKeepsRest(store.Inner(), sig);
    var found := store.GetRoute(sig);
    if found.None? {
      return None;
    }
    served := ServeRoute(found.value, amount, onChainFloor);
    if served.Some? {
      HitOk(metis, origins, store.Inner(), sig);
      store.RecordHit(sig);
    }
  }

  lemma LookKeepsRest(st: StoreInner, sig: nat)
    ensures AtomicGet(st, sig).store.hops == st.hops && AtomicGet(st, sig).store.hopPairIndex == st.hopPairIndex
  {
  }

  /** Tier 2: what the template the index names serves, exactly when there is one
      that can; the hit is recorded under that template's own signature. */
  method ServeByHops(store: TemplateStore, plan: Json, amount: u64, onChainFloor: u64,
                     ghost metis: Model, ghost origins: set<Origin>)
    returns (served: Option<SwapIxs>)
    requires StoreOk(metis, origins, store.Inner())
    modifies store
    ensures StoreOk(metis, origins, store.Inner())
    ensures served == ServedByHops(old(store.Inner()), plan, amount)
    ensures var indexed := IndexedSig(old(store.Inner()), plan);
            && (served.Some? <==> indexed.Some? && Servable(old(store.Inner()), indexed.value, amount))
            && (served.Some? ==> FromCapture(metis, origins, indexed.value, amount, served.value))
  {
    hide StoreOk, Servable, FromCapture, PushHotRoute, IndexedSig;
    ghost var indexed := IndexedSig(store.Inner(), plan);
    if indexed.Some? {
      ServedFound(metis, origins, store.Inner(), indexed.value, amount);
      LookOk(metis, origins, store.Inner(), indexed.value);
    }
    var found := store.GetRouteForHops(plan);
    if found.None? {
      return None;
    }
    served := ServeRoute(found.value, amount, onChainFloor);
    if served.Some? {
      HitOk(metis, origins, store.Inner(), found.value.routeSignature);
      store.RecordHit(found.value.routeSignature);
    }
  }

  lemma PushedIsHot(st: StoreInner, sig: nat, t: RouteTemplate, plan: Json)
    ensures var st' := IndexPair(PushHotRoute(st, sig, t), plan, sig);
            sig in st'.routesHot && st'.routesHot[sig] == t
  {
  }

  lemma HopsKeepRoutes(st: StoreInner, plan: Json, slot: Option<nat>, sig: nat, amount: u64)
    requires Servable(st, sig, amount)
    ensures Servable(RecordHops(st, plan, slot), sig, amount)
  {
  }

  /** The variant cached for this amount, in the generation the route is found in. */
  function CachedFor(st: StoreInner, sig: nat, amount: u64): Option<SwapIxs> {
    if sig in st.routesHot then
      if amount in st.routesHot[sig].amountVariants then Some(st.routesHot[sig].amountVariants[amount]) else None
    else if sig in st.routesCold && amount in st.routesCold[sig].amountVariants then
      Some(st.routesCold[sig].amountVariants[amount])
    else None
  }

  /** A cached variant is served as it is, whatever the offsets. */
  lemma CachedIsServed(st: StoreInner, sig: nat, amount: u64)
    requires CachedFor(st, sig, amount).Some?
    ensures Served(st, sig, amount) == CachedFor(st, sig, amount) && Servable(st, sig, amount)
  {
    hide PushHotRoute;
  }

  lemma InsertCaches(st: StoreInner, sig: nat, ixs: SwapIxs, amount: u64, quotedOut: u64, plan: Json)
    ensures var cached := CachedFor(st, sig, amount);
            CachedFor(InsertRoute(st, sig, ixs, amount, quotedOut, plan), sig, amount)
            == Some(if cached.Some? then cached.value else ixs)
  {
    if sig !in st.routesHot && sig !in st.routesCold {
      var t := FirstCapture(sig, ixs, amount, quotedOut);
      PushedIsHot(st, sig, t, plan);
      assert t.amountVariants == map[amount := ixs];
    }
  }

  /** After a capture the route serves that amount: with the answer cached for it
      before, if there was one, and with the captured one if not. */
  lemma InsertServes(st: StoreInner, sig: nat, ixs: SwapIxs, amount: u64, quotedOut: u64, plan: Json)
    ensures var st', cached := InsertRoute(st, sig, ixs, amount, quotedOut, plan), CachedFor(st, sig, amount);
            && Servable(st', sig, amount)
            && Served(st', sig, amount) == Some(if cached.Some? then cached.value else ixs)
  {
    hide InsertRoute, Served, Servable, CachedFor;
    InsertCaches(st, sig, ixs, amount, quotedOut, plan);
    CachedIsServed(InsertRoute(st, sig, ixs, amount, quotedOut, plan), sig, amount);
  }

  /** Tier 3 on success: save the captured instruction and its hops. */
  method SaveCapture(store: TemplateStore, plan: Json, amount: u64, slot: Option<nat>,
                     ixs: SwapIxs, ghost metis: Model, ghost origins: set<Origin>)
    requires StoreOk(metis, origins, store.Inner())
    requires ixs == Instructions(metis(plan), amount)
    modifies store
    ensures StoreOk(metis, origins + {OriginOf(plan)}, store.Inner())
    ensures Servable(store.Inner(), RouteSig(plan), amount)
    ensures MissingHops(store.hops, Items(plan)) == 0 || PlanHops(plan).None?
  {
    hide StoreOk, Servable, OriginOf, RouteSig, InsertRoute, Instructions;
    var sig := ComputeRouteSig(plan);
    CaptureOk(metis, origins, store.Inner(), plan, amount);
    InsertServes(store.Inner(), sig, ixs, amount, Floor(amount), plan);
    store.Insert(sig, ixs, amount, Floor(amount), plan);
    HopsKeepRoutes(store.Inner(), plan, slot, sig, amount);
    HopsOk(metis, origins + {OriginOf(plan)}, store.Inner(), plan, slot);
    if PlanHops(plan).Some? { SameHopsKnown(store.hops, plan, plan, slot); }
    store.Record(plan, slot);
  }
}
