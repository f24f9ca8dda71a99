/** Tier 2: routes found through the pair of their hops (src/template_cache.rs,
    src/arbitrage.rs). What it serves belongs to the route that was captured, and
    when that is, and is not, what Metis answers to the query. */
module HopPairServing {
  import opened Text
  import opened Decimal
  import opened AmountPatch
  import opened RouteSignature
  import opened HopKeys
  import opened RouteStore
  import opened Metis
  import opened TemplateFidelity
  import opened StoreFidelity
  import opened Transparency

  // ------------------------------------------------ the same pair of hops

  ghost predicate SameHops(a: Option<(HopKey, HopKey)>, b: Option<(HopKey, HopKey)>) {
    if a.None? || b.None? then a == b
    else SameHop(a.value.0, b.value.0) && SameHop(a.value.1, b.value.1)
  }

  ghost predicate CleanHops(hops: Option<(HopKey, HopKey)>) {
    hops.Some? ==>
      && Without(hops.value.0, ':') && Without(hops.value.0, '|')
      && Without(hops.value.1, ':') && Without(hops.value.1, '|')
  }

  ghost predicate CleanOrigins(origins: set<Origin>) {
    forall o :: o in origins ==> CleanHops(o.hops)
  }

  lemma PairKeyDetermines(a: Option<(HopKey, HopKey)>, b: Option<(HopKey, HopKey)>)
    requires CleanHops(a) && CleanHops(b)
    requires HopsPairKey(a).Some? && HopsPairKey(a) == HopsPairKey(b)
    ensures a.Some? && b.Some? && SameHops(a, b)
  {
    PairKeyInjective(a.value.0, a.value.1, b.value.0, b.value.1);
  }

  // ------------------------------------------------ from streams to hop keys

  /** The swapInfo of a hop, empty when it has none. */
  function InfoOf(hop: Json): map<string, Json> {
    match SwapInfo(hop) case Some(si) => si case None => map[]
  }

  lemma HopFromInfo(hop: Json)
    ensures HashedFields(hop) == HashedFieldsOf(InfoOf(hop)) && FromHop(hop) == FromSwapInfo(InfoOf(hop))
  {
  }

  /** Hop by hop, the JSON types make no difference to the hop keys. */
  ghost predicate TypesAgree(p: Json, q: Json) {
    forall i :: 0 <= i < |Items(p)| && i < |Items(q)| ==> ReadAlike(InfoOf(Items(p)[i]), InfoOf(Items(q)[i]))
  }

  /** Plans with equal printed fields have equal hop keys, hop by hop, exactly when
      their types agree. */
  lemma HopKeysExactly(p: Json, q: Json)
    requires Hops(p) == Hops(q)
    ensures |Items(p)| == |Items(q)|
    ensures (forall i :: 0 <= i < |Items(p)| ==> FromHop(Items(p)[i]) == FromHop(Items(q)[i])) <==> TypesAgree(p, q)
  {
    hide FromSwapInfo, ReadAlike, HashedFieldsOf, SwapInfo, InfoOf, FromHop;
    assert |Hops(p)| == |Items(p)| && |Hops(q)| == |Items(q)|;
    forall i | 0 <= i < |Items(p)|
      ensures FromHop(Items(p)[i]) == FromHop(Items(q)[i]) <==> ReadAlike(InfoOf(Items(p)[i]), InfoOf(Items(q)[i]))
    {
      HopFromInfo(Items(p)[i]);
      HopFromInfo(Items(q)[i]);
      assert Hops(p)[i] == Hops(q)[i];
      HopKeyExactly(InfoOf(Items(p)[i]), InfoOf(Items(q)[i]));
    }
  }

  lemma EqualHopsEqualPair(p: Json, q: Json)
    requires |Items(p)| == |Items(q)|
    requires forall i :: 0 <= i < |Items(p)| ==> FromHop(Items(p)[i]) == FromHop(Items(q)[i])
    ensures PlanHops(p) == PlanHops(q)
  {
    hide FromHop;
    if |Items(p)| == 2 {
      assert FromHop(Items(p)[0]) == FromHop(Items(q)[0]) && FromHop(Items(p)[1]) == FromHop(Items(q)[1]);
    }
  }

  // ------------------------------------------------ what Tier 2 serves

  function ServedByHops(st: StoreInner, query: Json, amount: u64): Option<SwapIxs> {
    match IndexedSig(st, query)
    case Some(sig) => Served(st, sig, amount)
    case None => None
  }

  /** Something is served exactly when the index names a stored template that can
      serve, and it is Metis's answer to a plan captured under that signature. */
  lemma TierTwoServesCaptured(metis: Model, events: seq<Event>, w: World, query: Json, amount: u64)
    requires Reaches(metis, events, w)
    ensures var indexed := IndexedSig(w.store, query);
            var served := ServedByHops(w.store, query, amount);
            && (served.Some? <==> indexed.Some? && Servable(w.store, indexed.value, amount))
            && (served.Some? ==> FromCapture(metis, w.captured, indexed.value, amount, served.value))
  {
    hide Reaches, Served, Servable, IndexedSig;
    var indexed := IndexedSig(w.store, query);
    if indexed.Some? { ServedIsCaptured(metis, events, w, indexed.value, amount); }
  }

  /** An index entry was made by a capture of exactly the pair it is looked up by. */
  lemma IndexedOrigin(metis: Model, events: seq<Event>, w: World, query: Json) returns (c: Origin)
    requires Reaches(metis, events, w) && IndexedSig(w.store, query).Some?
    ensures c in w.captured && c == OriginOf(c.plan) && c.sig == IndexedSig(w.store, query).value
    ensures PlanPairKey(c.plan) == PlanPairKey(query) && PlanPairKey(query).Some?
  {
    hide Reaches, AllFaithful, Consistent, DiskOk, FileOk, RouteSig, PlanPairKey, PlanHops;
    ReachableOk(metis, events, w);
    var key := PlanPairKey(query).value;
    assert EntryOrigin(w.captured, key, w.store.hopPairIndex[key]);
    c :| c in w.captured && c.sig == w.store.hopPairIndex[key] && c.pairKey == Some(key);
  }

  /** Captured streams with one signature are one stream. */
  ghost predicate StreamsDistinct(captured: set<Origin>) {
    forall o :: o in captured ==> NoCollision(captured, o.plan)
  }

  /** The types of captures that print alike agree. */
  ghost predicate CaptureTypesAgree(captured: set<Origin>) {
    forall o, p :: o in captured && p in captured && Hops(o.plan) == Hops(p.plan) ==> TypesAgree(o.plan, p.plan)
  }

  /** Two captures under one signature have the same hops. */
  lemma SameSignatureSameHops(captured: set<Origin>, o: Origin, c: Origin)
    requires o in captured && c in captured && o.sig == c.sig == RouteSig(c.plan)
    requires StreamsDistinct(captured) && AllReadable(captured) && CaptureTypesAgree(captured)
    ensures PlanHops(o.plan) == PlanHops(c.plan)
  {
    hide RouteSig, Stream, Hops, Readable, AllHave, AllParsable, TypesAgree, PlanHops;
    assert NoCollision(captured, c.plan);
    StreamIsCanonicalFor(o.plan, c.plan);
    HopKeysExactly(o.plan, c.plan);
    EqualHopsEqualPair(o.plan, c.plan);
  }

  lemma StreamIsCanonicalFor(p: Json, q: Json)
    requires Readable(p) && Readable(q) && Stream(Hops(p)) == Stream(Hops(q))
    ensures Hops(p) == Hops(q)
  {
    hide Stream, Hops, AllHave, AllParsable;
    StreamIsCanonical(p, q);
  }

  /** Two hops name the same pool and mints in their swapInfo and go the same way. */
  ghost predicate TradesAlike(h: Json, j: Json) {
    && SwapInfo(h).Some? && SwapInfo(j).Some?
    && var s, t := SwapInfo(h).value, SwapInfo(j).value;
       && "ammKey" in s && "ammKey" in t && s["ammKey"].Str? && s["ammKey"] == t["ammKey"]
       && "inputMint" in s && "inputMint" in t && s["inputMint"].Str? && s["inputMint"] == t["inputMint"]
       && "outputMint" in s && "outputMint" in t && s["outputMint"].Str? && s["outputMint"] == t["outputMint"]
       && ExtractDirection(DexRead(s), s) == ExtractDirection(DexRead(t), t)
  }

  lemma SameHopTrades(h: Json, j: Json)
    requires FromHop(h).Some? && FromHop(j).Some? && SameHop(FromHop(h).value, FromHop(j).value)
    ensures TradesAlike(h, j)
  {
    hide ExtractDirection, DexOf, FromSwapInfo;
    var s, t := SwapInfo(h).value, SwapInfo(j).value;
    HopKeyMeans(s);
    HopKeyMeans(t);
    NoLabel();
    assert DexRead(s) == FromHop(h).value.dex && DexRead(t) == FromHop(j).value.dex;
  }

  lemma SamePairTrades(p: Json, q: Json)
    requires PlanHops(p).Some? && SameHops(PlanHops(p), PlanHops(q))
    ensures p.Array? && |p.items| == 2 && q.Array? && |q.items| == 2
    ensures TradesAlike(p.items[0], q.items[0]) && TradesAlike(p.items[1], q.items[1])
  {
    hide TradesAlike, FromHop, SameHop;
    SameHopTrades(p.items[0], q.items[0]);
    SameHopTrades(p.items[1], q.items[1]);
  }

  /** Tier-2 soundness: if captured streams do not collide and captures that print
      alike agree in their types, then every plan captured under the signature the
      index names is a two-hop route like the query: first hop and second hop name
      the same pool and mints in the same order and direction, however often its
      template was evicted, captured again or reloaded. */
  lemma HopPairLookupSound(metis: Model, events: seq<Event>, w: World, query: Json, o: Origin)
    requires Reaches(metis, events, w) && IndexedSig(w.store, query).Some?
    requires StreamsDistinct(w.captured) && AllReadable(w.captured) && CaptureTypesAgree(w.captured)
    requires CleanHops(PlanHops(query)) && CleanOrigins(w.captured)
    requires o in w.captured && o.sig == IndexedSig(w.store, query).value
    ensures PlanHops(o.plan).Some? && SameHops(PlanHops(o.plan), PlanHops(query))
    ensures o.plan.Array? && |o.plan.items| == 2 && query.Array? && |query.items| == 2
    ensures TradesAlike(o.plan.items[0], query.items[0]) && TradesAlike(o.plan.items[1], query.items[1])
  {
    hide TradesAlike, Reaches, StreamsDistinct, AllReadable, CaptureTypesAgree, CleanHops, IndexedSig, RouteSig,
         PlanHops, HopsPairKey, SameHops;
    var c := IndexedOrigin(metis, events, w, query);
    SameSignatureSameHops(w.captured, o, c);
    assert CleanHops(c.hops) && c.hops == PlanHops(c.plan);
    PairKeyDetermines(PlanHops(c.plan), PlanHops(query));
    SamePairTrades(o.plan, query);
  }

  // ------------------------------------------------ when it is Metis's answer

  /** Metis answers alike on two-hop plans with the same hops: nothing but pool,
      mints and direction makes a difference to it. */
  ghost predicate AnswersByHops(metis: Model) {
    forall p, q :: PlanHops(p).Some? && SameHops(PlanHops(p), PlanHops(q)) ==> metis(p) == metis(q)
  }

  /** Under that stronger assumption on Metis, Tier 2 is transparent for the query:
      it yields nothing, or exactly what Metis answers to the query. */
  lemma TierTwoIsTransparent(metis: Model, events: seq<Event>, w: World, query: Json, amount: u64)
    requires Reaches(metis, events, w) && AnswersByHops(metis)
    requires StreamsDistinct(w.captured) && AllReadable(w.captured) && CaptureTypesAgree(w.captured)
    requires CleanHops(PlanHops(query)) && CleanOrigins(w.captured)
    ensures var indexed := IndexedSig(w.store, query);
            ServedByHops(w.store, query, amount)
            == if indexed.Some? && Servable(w.store, indexed.value, amount)
               then Some(Instructions(metis(query), amount)) else None
  {
    hide Reaches, StreamsDistinct, AllReadable, CaptureTypesAgree, CleanHops, IndexedSig, PlanHops, SameHops,
         ServedByHops, Servable, Instructions, CleanOrigins;
    TierTwoServesCaptured(metis, events, w, query, amount);
    var indexed, served := IndexedSig(w.store, query), ServedByHops(w.store, query, amount);
    if served.Some? {
      var o :| o in w.captured && o.sig == indexed.value && served.value == Instructions(metis(o.plan), amount);
      HopPairLookupSound(metis, events, w, query, o);
    }
  }

  /** A Metis that answers by route and tells `p` from every other route. */
  function Telling(p: Json): Model {
    (q: Json) =>
      var here := Instruction(if Hops(q) == Hops(p) then "here" else "elsewhere", [], "");
      Shape(SwapIxs([], [], here, None, []), [], [])
  }

  lemma TellingTells(p: Json, q: Json, amount: u64)
    ensures AnswersByRoute(Telling(p))
    ensures Hops(q) != Hops(p) ==> Instructions(Telling(p)(p), amount) != Instructions(Telling(p)(q), amount)
  {
    hide Hops, Framed, Floor;
    assert "here"[1] != "elsewhere"[1];
    var x, y := Instructions(Telling(p)(p), amount), Instructions(Telling(p)(q), amount);
    assert Hops(q) != Hops(p) ==> x.swap.programId != y.swap.programId;
  }

  /** Plans that every route-answering Metis answers alike are one route. */
  lemma AnswersAgreeExactly(p: Json, query: Json, amount: u64)
    ensures (forall metis :: AnswersByRoute(metis) ==>
               Instructions(metis(p), amount) == Instructions(metis(query), amount))
            <==> Hops(p) == Hops(query)
  {
    hide Hops, Instructions, Telling;
    if Hops(p) != Hops(query) { TellingTells(p, query, amount); }
  }

  /** What Tier 2 serves, if anything, is Metis's answer to the query. */
  ghost predicate TierTwoRight(metis: Model, w: World, query: Json, amount: u64) {
    var served := ServedByHops(w.store, query, amount);
    served.Some? ==> served.value == Instructions(metis(query), amount)
  }

  /** `c` makes the index entry the query finds, and `o` shares its signature. */
  ghost predicate SharesIndex(c: Json, o: Json, query: Json) {
    PlanPairKey(c).Some? && PlanPairKey(c) == PlanPairKey(query) && RouteSig(o) == RouteSig(c)
  }

  /** Capturing both, `c` first, serves the query what was captured for `o`. */
  lemma TwoCapturesServe(metis: Model, c: Json, o: Json, query: Json, amount: u64)
    returns (events: seq<Event>, w: World)
    requires SharesIndex(c, o, query)
    ensures Reaches(metis, events, w)
    ensures ServedByHops(w.store, query, amount) == Some(Instructions(metis(o), amount))
  {
    hide Instructions, RouteSig, PlanHops, HopsPairKey, Happen, Reaches, InsertRoute, ServedByHops;
    var other: u64 := if amount == 0 then 1 else 0;
    var v;
    events, v, w := TwoCaptures(metis, c, other, o, amount);
    JustCaptured(metis, c, other);
    SecondCapture(v.store, RouteSig(c), Instructions(metis(o), amount), amount, o);
    ServesVariant(w.store, RouteSig(c), query, amount);
  }

  lemma TwoCaptures(metis: Model, c: Json, other: u64, o: Json, amount: u64)
    returns (events: seq<Event>, v: World, w: World)
    ensures v == Happen(metis, NEW_WORLD, Capture(c, other)) && Reaches(metis, events, w)
    ensures w.store == InsertRoute(v.store, RouteSig(o), Instructions(metis(o), amount), amount, Floor(amount), o)
  {
    hide RouteSig, OriginOf, InsertRoute, Instructions;
    events := [Capture(c, other), Capture(o, amount)];
    v := Happen(metis, NEW_WORLD, events[0]);
    assert events[..1] == [events[0]] && events[..1][..0] == [];
    assert Reaches(metis, [], NEW_WORLD) && Enabled(NEW_WORLD, events[0]);
    assert Reaches(metis, events[..1], v) && Enabled(v, events[1]);
    w := Happen(metis, v, events[1]);
  }

  lemma SecondCapture(st: StoreInner, sig: nat, ixs: SwapIxs, amount: u64, plan: Json)
    requires sig in st.routesHot && amount !in st.routesHot[sig].amountVariants
    ensures var st' := InsertRoute(st, sig, ixs, amount, Floor(amount), plan);
            && sig in st'.routesHot && amount in st'.routesHot[sig].amountVariants
            && st'.routesHot[sig].amountVariants[amount] == ixs && st'.hopPairIndex == st.hopPairIndex
  {
  }

  lemma ServesVariant(st: StoreInner, sig: nat, query: Json, amount: u64)
    requires IndexedSig(st, query) == Some(sig) && sig in st.routesHot && amount in st.routesHot[sig].amountVariants
    ensures ServedByHops(st, query, amount) == Some(st.routesHot[sig].amountVariants[amount])
  {
    hide IndexedSig;
  }

  /** In all runs and at all amounts. */
  ghost predicate RightInAllRuns(metis: Model, query: Json) {
    forall events, w, amount :: Reaches(metis, events, w) ==> TierTwoRight(metis, w, query, amount)
  }

  /** Metis answers as it answers the query every plan that shares a signature with a
      plan of the query's hop pair. */
  ghost predicate PairAnsweredAlike(metis: Model, query: Json) {
    forall c, o, amount {:trigger SharesIndex(c, o, query), Instructions(metis(o), amount)} ::
      SharesIndex(c, o, query) ==> Instructions(metis(o), amount) == Instructions(metis(query), amount)
  }

  lemma AlikeIsRight(metis: Model, query: Json, events: seq<Event>, w: World, amount: u64)
    requires PairAnsweredAlike(metis, query) && Reaches(metis, events, w)
    ensures TierTwoRight(metis, w, query, amount)
  {
    hide Reaches, ServedByHops, Instructions, IndexedSig, RouteSig, PlanPairKey, Servable, OriginOf;
    TierTwoServesCaptured(metis, events, w, query, amount);
    var served := ServedByHops(w.store, query, amount);
    if served.Some? {
      var o :| o in w.captured && o.sig == IndexedSig(w.store, query).value
               && served.value == Instructions(metis(o.plan), amount);
      ReachableGenuine(metis, events, w, o);
      var c := IndexedOrigin(metis, events, w, query);
      ReachableGenuine(metis, events, w, c);
      assert SharesIndex(c.plan, o.plan, query);
    }
  }

  /** Tier 2, exactly and without assumptions: whatever it serves is Metis's answer to
      the query, in all runs and at all amounts, if and only if Metis answers as it
      answers the query every plan that shares a signature with a plan of the
      query's hop pair. */
  lemma TierTwoExactly(metis: Model, query: Json)
    ensures RightInAllRuns(metis, query) <==> PairAnsweredAlike(metis, query)
  {
    if PairAnsweredAlike(metis, query) {
      hide PairAnsweredAlike, TierTwoRight, Reaches;
      forall events, w, amount | Reaches(metis, events, w) ensures TierTwoRight(metis, w, query, amount) {
        AlikeIsRight(metis, query, events, w, amount);
      }
    } else {
      hide SharesIndex, Reaches, ServedByHops, Instructions;
      var c, o, amount :| SharesIndex(c, o, query)
                         && Instructions(metis(o), amount) != Instructions(metis(query), amount);
      var events, w := TwoCapturesServe(metis, c, o, query, amount);
      assert !TierTwoRight(metis, w, query, amount);
    }
  }

  // ------------------------------------------------ a pair that Tier 2 confuses

  /** A key of swapInfo that no hop key reads. */
  predicate Unread(k: string) {
    k !in ["ammKey", "inputMint", "outputMint", "label", "side"] && k !in DIRECTION_NAMES
  }

  lemma {:induction false} UnreadDirection(si: map<string, Json>, k: string, v: Json, names: seq<string>)
    requires k !in names
    ensures FirstBool(si[k := v], names) == FirstBool(si, names)
  {
    if names != [] {
      assert names[0] in names;
      UnreadDirection(si, k, v, names[1..]);
    }
  }

  lemma UnreadChangesNothing(si: map<string, Json>, k: string, v: Json)
    requires Unread(k)
    ensures FromSwapInfo(si[k := v]) == FromSwapInfo(si)
  {
    hide DexOf, FirstBool;
    UnreadDirection(si, k, v, DIRECTION_NAMES);
    var read := ["ammKey", "inputMint", "outputMint", "label", "side"];
    assert read[0] in read && read[1] in read && read[2] in read && read[3] in read && read[4] in read;
  }

  /** Twins: plans that differ in one boolean no hop key reads have the same hops,
      and the signature tells them apart. */
  lemma TwinsShareHops(p: Json, q: Json, i: nat, k: string)
    requires FlippedAt(p, q, i, k) && Unread(k) && !IsAmount(k)
    ensures PlanHops(p) == PlanHops(q) && RouteSig(p) != RouteSig(q)
  {
    hide FromSwapInfo, RouteSig, Unread, IsAmount;
    FlippedBooleanSeparates(p, q, i, k);
    var si := SwapInfo(p.items[i]).value;
    UnreadChangesNothing(si, k, Bool(!si[k].b));
    forall j | 0 <= j < |Items(p)| ensures FromHop(Items(p)[j]) == FromHop(Items(q)[j]) {
      if j == i { assert FromHop(p.items[i]) == FromSwapInfo(si); }
    }
    EqualHopsEqualPair(p, q);
  }

  /** After its own hops were recorded, a plan with the same hops misses none. */
  lemma SameHopsKnown(hops: map<HopKey, HopTemplate>, p: Json, q: Json, slot: Option<nat>)
    requires PlanHops(p).Some? && PlanHops(p) == PlanHops(q)
    ensures MissingHops(RecordHopItems(hops, Items(p), slot), Items(q)) == 0
  {
    hide FromHop, MissingHops, RecordHopItems;
    RecordedIsKnown(hops, Items(p), slot, 0);
    RecordedIsKnown(hops, Items(p), slot, 1);
    var seen := RecordHopItems(hops, Items(p), slot);
    forall i | 0 <= i < |Items(q)| ensures FromHop(Items(q)[i]).Some? && FromHop(Items(q)[i]).value in seen {
      assert FromHop(Items(q)[i]) == FromHop(Items(p)[i]);
    }
    MissingMeans(seen, Items(q));
  }

  lemma JustCaptured(metis: Model, p: Json, amount: u64)
    requires PlanPairKey(p).Some?
    ensures var st := Happen(metis, NEW_WORLD, Capture(p, amount)).store;
            && st.hops == map[] && st.routesCold == map[] && st.routesHot.Keys == {RouteSig(p)}
            && st.routesHot[RouteSig(p)].amountVariants == map[amount := Instructions(metis(p), amount)]
            && st.hopPairIndex == map[PlanPairKey(p).value := RouteSig(p)]
  {
    hide RouteSig, PlanHops, HopsPairKey, Instructions, Offsets;
  }

  lemma CapturedThenSeen(metis: Model, p: Json, amount: u64, slot: Option<nat>) returns (w: World)
    ensures Reaches(metis, [Capture(p, amount), SeeHops(p, slot)], w)
    ensures w.store == RecordHops(Happen(metis, NEW_WORLD, Capture(p, amount)).store, p, slot)
  {
    hide RouteSig, OriginOf, InsertRoute, RecordHops, Instructions;
    var events := [Capture(p, amount), SeeHops(p, slot)];
    var v := Happen(metis, NEW_WORLD, events[0]);
    assert events[..1] == [events[0]] && events[..1][..0] == [];
    assert Reaches(metis, [], NEW_WORLD) && Enabled(NEW_WORLD, events[0]);
    assert Reaches(metis, events[..1], v) && Enabled(v, events[1]);
    w := Happen(metis, v, events[1]);
  }

  /** Tier 2 can be wrong for the query: capture any plan and then ask for another
      with the same hops and another signature. Tier 1 finds nothing, all hops are
      known, and Tier 2 serves the instructions of the captured plan, which for some
      Metis that answers by route is not what Metis answers to the query. */
  lemma TierTwoCanDiffer(p: Json, query: Json, amount: u64, slot: Option<nat>) returns (metis: Model, w: World)
    requires PlanHops(p).Some? && PlanHops(p) == PlanHops(query) && RouteSig(p) != RouteSig(query)
    ensures AnswersByRoute(metis) && Reaches(metis, [Capture(p, amount), SeeHops(p, slot)], w)
    ensures Served(w.store, RouteSig(query), amount) == None
    ensures MissingHops(w.store.hops, Items(query)) == 0
    ensures ServedByHops(w.store, query, amount) == Some(Instructions(metis(p), amount))
    ensures Instructions(metis(p), amount) != Instructions(metis(query), amount)
  {
    hide Instructions, Telling, PlanHops, PairKey, MissingHops, RecordHopItems, Signature, Stream, Hops, Happen,
         Reaches, AnswersByRoute;
    metis := Telling(p);
    TellingTells(p, query, amount);
    assert Hops(p) != Hops(query);
    w := CapturedThenSeen(metis, p, amount, slot);
    JustCaptured(metis, p, amount);
    SameHopsKnown(map[], p, query, slot);
  }

  lemma ShortNameUnread(k: string)
    requires |k| == 1
    ensures Unread(k) && !IsAmount(k)
  {
    var read := ["ammKey", "inputMint", "outputMint", "label", "side"];
    assert |read[0]| == 6 && |read[1]| == 9 && |read[2]| == 10 && |read[3]| == 5 && |read[4]| == 4;
    assert |DIRECTION_NAMES[0]| == 6 && |DIRECTION_NAMES[1]| == 4;
    assert |DIRECTION_NAMES[2]| == 4 && |DIRECTION_NAMES[3]| == 3;
  }

  // ------------------------------------------------ over every Metis

  /** The plan with its first hop's unread field `x` set to something else. */
  function TwinOf(plan: Json): Json
    requires plan.Array? && plan.items != [] && SwapInfo(plan.items[0]).Some?
  {
    WithField(plan, 0, "x", Str(PrintedAt(SwapInfo(plan.items[0]).value, "x") + "!"))
  }

  lemma TwinDiffers(plan: Json)
    requires PlanHops(plan).Some?
    ensures plan.Array? && plan.items != [] && SwapInfo(plan.items[0]).Some?
    ensures PlanHops(TwinOf(plan)) == PlanHops(plan) && Hops(TwinOf(plan)) != Hops(plan)
  {
    hide FromSwapInfo, Unread;
    var si, twin := SwapInfo(plan.items[0]).value, TwinOf(plan);
    var other := Str(PrintedAt(si, "x") + "!");
    ShortNameUnread("x");
    UnreadChangesNothing(si, "x", other);
    assert SwapInfo(twin.items[0]) == Some(si["x" := other]) && twin.items[1] == plan.items[1];
    assert HashedFields(twin.items[0])["x"] == PrintedAt(si, "x") + "!";
    assert "x" in HashedFields(plan.items[0]) ==> HashedFields(plan.items[0])["x"] == PrintedAt(si, "x");
    assert Hops(twin)[0] != Hops(plan)[0];
  }

  ghost predicate AlwaysRight(query: Json) {
    forall metis :: AnswersByRoute(metis) ==> RightInAllRuns(metis, query)
  }

  /** No query with a hop pair is safe under Tier 2: a query gets nothing but Metis's
      answer, for every Metis that answers by route and in all runs, if and only if it
      has no hop pair to be looked up by. */
  lemma TierTwoForEveryMetis(query: Json)
    ensures AlwaysRight(query) <==> PlanPairKey(query).None?
  {
    if PlanPairKey(query).None? {
      hide AnswersByRoute, Reaches, TierTwoRight, PlanPairKey;
      forall metis | AnswersByRoute(metis) ensures RightInAllRuns(metis, query) {
        forall events, w, amount | Reaches(metis, events, w) ensures TierTwoRight(metis, w, query, amount) {
          NoPairNoService(metis, w, query, amount);
        }
      }
    } else {
      NotAlwaysRight(query);
    }
  }

  lemma NotAlwaysRight(query: Json)
    requires PlanPairKey(query).Some?
    ensures !AlwaysRight(query)
  {
    hide AnswersByRoute, RightInAllRuns, Instructions, Hops, RouteSig, TwinOf, PairKey, FromHop;
    TwinDiffers(query);
    var twin := TwinOf(query);
    assert SharesIndex(twin, twin, query);
    if AlwaysRight(query) {
      forall metis | AnswersByRoute(metis) ensures Instructions(metis(twin), 0) == Instructions(metis(query), 0) {
        TierTwoExactly(metis, query);
      }
      AnswersAgreeExactly(twin, query, 0);
    }
  }

  lemma NoPairNoService(metis: Model, w: World, query: Json, amount: u64)
    requires PlanPairKey(query).None?
    ensures TierTwoRight(metis, w, query, amount)
  {
    hide Served, PlanPairKey;
  }

  // ------------------------------------------------ a concrete pair

  function PlainHop(pool: string, input: string, output: string, extra: bool): Json {
    Object(map["swapInfo" := Object(map["ammKey" := Str(pool), "inputMint" := Str(input), "outputMint" := Str(output),
                                        "x" := Bool(extra)])])
  }

  function PlainPlan(extra: bool): Json {
    Array([PlainHop("P", "A", "B", extra), PlainHop("Q", "B", "A", false)])
  }

  lemma PlainHopIdentified(pool: string, input: string, output: string, extra: bool)
    ensures FromHop(PlainHop(pool, input, output, extra)).Some?
  {
    hide DexOf, ExtractDirection;
    assert |"ammKey"| == 6 && |"inputMint"| == 9 && |"outputMint"| == 10 && |"x"| == 1;
  }

  lemma PlainPlansFlipped()
    ensures FlippedAt(PlainPlan(true), PlainPlan(false), 0, "x")
  {
    var p, q := PlainPlan(true), PlainPlan(false);
    assert |"ammKey"| == 6 && |"inputMint"| == 9 && |"outputMint"| == 10 && |"x"| == 1;
    assert SwapInfo(q.items[0]).value == SwapInfo(p.items[0]).value["x" := Bool(false)];
    assert q.items[1] == p.items[1];
  }

  /** One such pair: two hops, with an extra boolean on the first. */
  lemma PlainPlansAreTwins()
    ensures PlanHops(PlainPlan(true)).Some? && PlanHops(PlainPlan(true)) == PlanHops(PlainPlan(false))
    ensures RouteSig(PlainPlan(true)) != RouteSig(PlainPlan(false))
  {
    hide RouteSig, FromHop, PlainHop, FlippedAt, Unread, IsAmount;
    PlainPlansFlipped();
    ShortNameUnread("x");
    TwinsShareHops(PlainPlan(true), PlainPlan(false), 0, "x");
    PlainHopIdentified("P", "A", "B", true);
    PlainHopIdentified("Q", "B", "A", false);
  }
}
