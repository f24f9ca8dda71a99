/** The whole store against Metis (src/template_cache.rs): every section that runs
    under the lock, and a restart, keep every template faithful to captures under
    its signature, and every index entry to a capture of its pair. */
module StoreFidelity {
  import opened Text
  import opened Decimal
  import opened AmountPatch
  import opened RouteSignature
  import opened HopKeys
  import opened RouteStore
  import opened Persistence
  import opened Metis
  import opened TemplateFidelity

  ghost predicate AllFaithful(metis: Model, origins: set<Origin>, routes: map<nat, RouteTemplate>) {
    forall s :: s in routes ==> Faithful(metis, origins, s, routes[s])
  }

  /** An index entry names a route that was captured for that very pair. */
  ghost predicate EntryOrigin(origins: set<Origin>, key: string, sig: nat) {
    exists o :: o in origins && o.sig == sig && o.pairKey == Some(key)
  }

  ghost predicate IndexGenuine(origins: set<Origin>, index: map<string, nat>) {
    forall k :: k in index ==> EntryOrigin(origins, k, index[k])
  }

  ghost predicate StoreOk(metis: Model, origins: set<Origin>, st: StoreInner) {
    && Consistent(st) && SigsFit(st)
    && AllFaithful(metis, origins, st.routesHot) && AllFaithful(metis, origins, st.routesCold)
    && IndexGenuine(origins, st.hopPairIndex)
  }

  // ------------------------------------------------ one section at a time

  lemma PushFaithful(metis: Model, origins: set<Origin>, st: StoreInner, sig: nat, t: RouteTemplate)
    requires AllFaithful(metis, origins, st.routesHot) && AllFaithful(metis, origins, st.routesCold)
    requires Faithful(metis, origins, sig, t)
    ensures AllFaithful(metis, origins, PushHotRoute(st, sig, t).routesHot)
    ensures AllFaithful(metis, origins, PushHotRoute(st, sig, t).routesCold)
  {
    hide Faithful;
  }

  lemma PushOk(metis: Model, origins: set<Origin>, st: StoreInner, sig: nat, t: RouteTemplate)
    requires StoreOk(metis, origins, st) && Faithful(metis, origins, sig, t)
    requires sig !in st.routesHot && sig !in st.routesCold && t.routeSignature == sig < U128_MODULUS
    ensures StoreOk(metis, origins, PushHotRoute(st, sig, t))
  {
    hide Faithful, Consistent, SigsFit, PushHotRoute, IndexGenuine;
    PushKeepsConsistent(st, sig, t);
    PushFits(st, sig, t);
    PushFaithful(metis, origins, st, sig, t);
  }

  /** A template replaced by a faithful one under the same signature. */
  lemma ReplaceOk(metis: Model, origins: set<Origin>, st: StoreInner, sig: nat, t: RouteTemplate)
    requires StoreOk(metis, origins, st) && Faithful(metis, origins, sig, t) && t.routeSignature == sig
    ensures sig in st.routesHot ==> StoreOk(metis, origins, st.(routesHot := st.routesHot[sig := t]))
    ensures sig in st.routesCold ==> StoreOk(metis, origins, st.(routesCold := st.routesCold[sig := t]))
  {
    hide Faithful, IndexGenuine;
  }

  lemma HitOk(metis: Model, origins: set<Origin>, st: StoreInner, sig: nat)
    requires StoreOk(metis, origins, st)
    ensures StoreOk(metis, origins, RecordRouteHit(st, sig))
  {
    hide Faithful, SigsFit, IndexGenuine;
    if sig in st.routesHot {
      CountedAndEmptiedFaithful(metis, origins, sig, st.routesHot[sig]);
      ReplaceOk(metis, origins, st, sig, CountHit(st.routesHot[sig]));
    } else if sig in st.routesCold {
      CountedAndEmptiedFaithful(metis, origins, sig, st.routesCold[sig]);
      ReplaceOk(metis, origins, st, sig, CountHit(st.routesCold[sig]));
    }
  }

  lemma TakenOk(metis: Model, origins: set<Origin>, st: StoreInner, sig: nat)
    requires StoreOk(metis, origins, st)
    ensures StoreOk(metis, origins, st.(routesCold := st.routesCold - {sig}))
  {
    hide Faithful, IndexGenuine;
  }

  /** Looking up changes nothing that matters, and finds what the store holds. */
  lemma LookOk(metis: Model, origins: set<Origin>, st: StoreInner, sig: nat)
    requires StoreOk(metis, origins, st)
    ensures StoreOk(metis, origins, AtomicGet(st, sig).store)
    ensures AtomicGet(st, sig).found.Some? ==>
      && Faithful(metis, origins, sig, AtomicGet(st, sig).found.value)
      && AtomicGet(st, sig).found.value.routeSignature == sig
  {
    hide Faithful, IndexGenuine, PushHotRoute;
    if sig !in st.routesHot && sig in st.routesCold {
      TakenOk(metis, origins, st, sig);
      CountedAndEmptiedFaithful(metis, origins, sig, st.routesCold[sig]);
      PushOk(metis, origins, st.(routesCold := st.routesCold - {sig}), sig, CountHit(st.routesCold[sig]));
    }
  }

  lemma HopsOk(metis: Model, origins: set<Origin>, st: StoreInner, plan: Json, slot: Option<nat>)
    requires StoreOk(metis, origins, st)
    ensures StoreOk(metis, origins, RecordHops(st, plan, slot))
  {
    hide Faithful, IndexGenuine;
    RecordKeepsKeyed(st.hops, Items(plan), slot);
  }

  // ------------------------------------------------ captures

  lemma MoreCapturesOk(metis: Model, origins: set<Origin>, more: set<Origin>, st: StoreInner)
    requires StoreOk(metis, origins, st) && origins <= more
    ensures StoreOk(metis, more, st)
  {
    hide Faithful, SigsFit, Consistent;
    forall s | s in st.routesHot ensures Faithful(metis, more, s, st.routesHot[s]) {
      MoreCapturesFaithful(metis, origins, more, s, st.routesHot[s]);
    }
    forall s | s in st.routesCold ensures Faithful(metis, more, s, st.routesCold[s]) {
      MoreCapturesFaithful(metis, origins, more, s, st.routesCold[s]);
    }
    forall k | k in st.hopPairIndex ensures EntryOrigin(more, k, st.hopPairIndex[k]) {
      var o :| o in origins && o.sig == st.hopPairIndex[k] && o.pairKey == Some(k);
      assert o in more;
    }
  }

  lemma IndexOk(metis: Model, origins: set<Origin>, st: StoreInner, o: Origin)
    requires StoreOk(metis, origins, st) && o in origins && o == OriginOf(o.plan) && o.sig < U128_MODULUS
    ensures StoreOk(metis, origins, IndexPair(st, o.plan, o.sig))
  {
    hide Faithful, RouteSig, PlanPairKey, PlanHops, Consistent;
    var st' := IndexPair(st, o.plan, o.sig);
    forall k | k in st'.hopPairIndex ensures EntryOrigin(origins, k, st'.hopPairIndex[k]) {
      if k in st.hopPairIndex { assert EntryOrigin(origins, k, st.hopPairIndex[k]); }
    }
    assert IndexGenuine(origins, st'.hopPairIndex);
    IndexKeepsConsistent(st, o.plan, o.sig);
  }

  lemma IndexKeepsConsistent(st: StoreInner, plan: Json, sig: nat)
    requires Consistent(st)
    ensures Consistent(IndexPair(st, plan, sig))
  {
  }

  /** Capturing Metis's answer to the plan itself. */
  lemma InsertOk(metis: Model, origins: set<Origin>, st: StoreInner, o: Origin, amount: u64)
    requires StoreOk(metis, origins, st) && o in origins && o == OriginOf(o.plan) && o.sig < U128_MODULUS
    ensures StoreOk(metis, origins,
                    InsertRoute(st, o.sig, Instructions(metis(o.plan), amount), amount, Floor(amount), o.plan))
  {
    hide Faithful, RouteSig, PlanPairKey, PlanHops, SigsFit, IndexGenuine, PushHotRoute, IndexPair;
    var ixs := Instructions(metis(o.plan), amount);
    if o.sig in st.routesHot {
      SeenAgainFaithful(metis, origins, o, st.routesHot[o.sig], amount);
      ReplaceOk(metis, origins, st, o.sig, SeenAgain(st.routesHot[o.sig], ixs, amount));
    } else if o.sig in st.routesCold {
      SeenAgainFaithful(metis, origins, o, st.routesCold[o.sig], amount);
      ReplaceOk(metis, origins, st, o.sig, SeenAgain(st.routesCold[o.sig], ixs, amount));
    } else {
      FirstCaptureFaithful(metis, origins, o, amount);
      var t := FirstCapture(o.sig, ixs, amount, Floor(amount));
      PushOk(metis, origins, st, o.sig, t);
      IndexOk(metis, origins, PushHotRoute(st, o.sig, t), o);
    }
  }

  lemma CaptureOk(metis: Model, origins: set<Origin>, st: StoreInner, plan: Json, amount: u64)
    requires StoreOk(metis, origins, st)
    ensures StoreOk(metis, origins + {OriginOf(plan)},
                    InsertRoute(st, RouteSig(plan), Instructions(metis(plan), amount), amount, Floor(amount), plan))
  {
    hide StoreOk, Signature, PlanPairKey, PlanHops, InsertRoute;
    SignatureFits(Stream(Hops(plan)));
    MoreCapturesOk(metis, origins, origins + {OriginOf(plan)}, st);
    InsertOk(metis, origins + {OriginOf(plan)}, st, OriginOf(plan), amount);
  }

  // ------------------------------------------------ restarts

  lemma ReunitedOk(metis: Model, origins: set<Origin>, st: StoreInner, hops: map<HopKey, HopTemplate>)
    requires StoreOk(metis, origins, st) && KeyedByHop(hops)
    ensures StoreOk(metis, origins, StoreInner(Reunited(st), map[], hops, st.hopPairIndex))
  {
    hide Faithful, IndexGenuine;
    forall s | s in Reunited(st)
      ensures Faithful(metis, origins, s, Reunited(st)[s]) && Reunited(st)[s].routeSignature == s
      ensures s in st.routesHot || s in st.routesCold
    {
      ReunitedRoute(metis, origins, st, s);
    }
  }

  lemma ReunitedRoute(metis: Model, origins: set<Origin>, st: StoreInner, s: nat)
    requires StoreOk(metis, origins, st) && s in Reunited(st)
    ensures Faithful(metis, origins, s, Reunited(st)[s]) && Reunited(st)[s].routeSignature == s
    ensures s in st.routesHot || s in st.routesCold
  {
    hide Faithful, IndexGenuine, SigsFit;
    if s in st.routesCold {
      assert Reunited(st)[s] == Emptied(st.routesCold[s]);
      CountedAndEmptiedFaithful(metis, origins, s, st.routesCold[s]);
    } else {
      assert Reunited(st)[s] == Emptied(st.routesHot[s]);
      CountedAndEmptiedFaithful(metis, origins, s, st.routesHot[s]);
    }
  }

  /** What a restart loads from a flush is again in order. */
  lemma ReloadOk(metis: Model, origins: set<Origin>, st: StoreInner, file: RouteFile, hops: map<HopKey, HopTemplate>)
    requires StoreOk(metis, origins, st) && IsFlushOf(file, st) && KeyedByHop(hops)
    ensures StoreOk(metis, origins, LoadRoutes(EMPTY_STORE.(hops := hops), file))
  {
    hide Faithful, IndexGenuine, AllFaithful, LoadRoutes, IsFlushOf;
    RoutesRoundTrip(st, file, hops);
    ReunitedOk(metis, origins, st, hops);
  }
}
