/** The two-generation template store (src/template_cache.rs). Each section the
    source runs under its lock is one function on the store's contents; the class
    holds the contents in fields and its methods are proved against them. */
module RouteStore {
  import opened Text
  import opened Base64
  import opened Decimal
  import opened AmountPatch
  import opened RouteSignature
  import opened HopKeys

  const ROUTE_SEG_CAP: nat := 2_000

  datatype AccountMeta = AccountMeta(pubkey: string, isSigner: bool, isWritable: bool)

  datatype Instruction = Instruction(programId: string, accounts: seq<AccountMeta>, data: string)

  datatype SwapIxs = SwapIxs(
    computeBudget: seq<Instruction>, setup: seq<Instruction>, swap: Instruction,
    cleanup: Option<Instruction>, lookupTables: seq<string>)

  datatype RouteTemplate = RouteTemplate(
    routeSignature: nat, swapIxs: SwapIxs, templateInAmount: u64, templateQuotedOut: u64,
    inAmountOffset: Option<nat>, quotedOutOffset: Option<nat>,
    amountVariants: map<u64, SwapIxs>, seenCount: nat, hitCount: nat)

  /** The identifying fields are those of the key it is stored under. */
  datatype HopTemplate = HopTemplate(
    key: HopKey, seenCount: nat, firstSeenSlot: Option<nat>, lastSeenSlot: Option<nat>)

  datatype StoreInner = StoreInner(
    routesHot: map<nat, RouteTemplate>, routesCold: map<nat, RouteTemplate>,
    hops: map<HopKey, HopTemplate>, hopPairIndex: map<string, nat>)

  const EMPTY_STORE: StoreInner := StoreInner(map[], map[], map[], map[])

  // ------------------------------------------------ serving a template

  function WrappingAdd(a: u64, b: u64): u64 { (a + b) % U64_MODULUS }

  function WrappingSub(a: u64, b: u64): u64 { (a - b) % U64_MODULUS }

  /** The cached variant for this amount, else the base instruction patched. The
      caller's floor is not consulted. */
  function ServeRoute(t: RouteTemplate, newIn: u64, callerOut: u64): Option<SwapIxs> {
    if newIn in t.amountVariants then Some(t.amountVariants[newIn])
    else if t.inAmountOffset.None? || t.quotedOutOffset.None? then None
    else
      var newOut := WrappingAdd(newIn, WrappingSub(t.templateQuotedOut, t.templateInAmount));
      match PatchedB64(t.swapIxs.swap.data, t.inAmountOffset.value, t.quotedOutOffset.value, newIn, newOut)
      case None => None
      case Some(data) => Some(t.swapIxs.(swap := t.swapIxs.swap.(data := data)))
  }

  // ------------------------------------------------ routes

  function PushHotRoute(st: StoreInner, sig: nat, t: RouteTemplate): StoreInner {
    if |st.routesHot| >= ROUTE_SEG_CAP then
      st.(routesCold := st.routesHot, routesHot := map[sig := t])
    else
      st.(routesHot := st.routesHot[sig := t])
  }

  datatype ReadOutcome = Done(found: Option<RouteTemplate>) | NeedsWrite

  /** `get_route` under the read lock. */
  function ReadPhase(st: StoreInner, sig: nat): ReadOutcome {
    if sig in st.routesHot then Done(Some(st.routesHot[sig]))
    else if sig in st.routesCold then NeedsWrite
    else Done(None)
  }

  datatype Lookup = Lookup(store: StoreInner, found: Option<RouteTemplate>)

  function CountHit(t: RouteTemplate): RouteTemplate {
    t.(hitCount := t.hitCount + 1)
  }

  function Promote(st: StoreInner, sig: nat): Lookup
    requires sig in st.routesCold
  {
    var t := CountHit(st.routesCold[sig]);
    Lookup(PushHotRoute(st.(routesCold := st.routesCold - {sig}), sig, t), Some(t))
  }

  /** `get_route` under the write lock, possibly much later. */
  function WritePhase(st: StoreInner, sig: nat): Lookup {
    if sig in st.routesCold then Promote(st, sig)
    else Lookup(st, if sig in st.routesHot then Some(st.routesHot[sig]) else None)
  }

  /** A lookup in one indivisible step. */
  function AtomicGet(st: StoreInner, sig: nat): Lookup {
    if sig in st.routesHot then Lookup(st, Some(st.routesHot[sig]))
    else if sig in st.routesCold then Promote(st, sig)
    else Lookup(st, None)
  }

  function RecordRouteHit(st: StoreInner, sig: nat): StoreInner {
    if sig in st.routesHot then
      st.(routesHot := st.routesHot[sig := CountHit(st.routesHot[sig])])
    else if sig in st.routesCold then
      st.(routesCold := st.routesCold[sig := CountHit(st.routesCold[sig])])
    else st
  }

  /** Another capture of a known route: count it, cache this amount if new. */
  function SeenAgain(t: RouteTemplate, ixs: SwapIxs, inAmount: u64): RouteTemplate {
    t.(seenCount := t.seenCount + 1,
       amountVariants := if inAmount in t.amountVariants then t.amountVariants
                         else t.amountVariants[inAmount := ixs])
  }

  /** The same, said of the whole template: variants it has keep their answers. */
  ghost function Recaptured(t: RouteTemplate, ixs: SwapIxs, inAmount: u64): RouteTemplate {
    RouteTemplate(t.routeSignature, t.swapIxs, t.templateInAmount, t.templateQuotedOut, t.inAmountOffset,
                  t.quotedOutOffset, map[inAmount := ixs] + t.amountVariants, t.seenCount + 1, t.hitCount)
  }

  function Offsets(ixs: SwapIxs, inAmount: u64, quotedOut: u64): Option<(nat, nat)> {
    match Decode(ixs.swap.data)
    case None => None
    case Some(data) => Discovered(data, inAmount, quotedOut)
  }

  function FirstCapture(sig: nat, ixs: SwapIxs, inAmount: u64, quotedOut: u64): RouteTemplate {
    var offsets := Offsets(ixs, inAmount, quotedOut);
    RouteTemplate(sig, ixs, inAmount, quotedOut,
                  if offsets.Some? then Some(offsets.value.0) else None,
                  if offsets.Some? then Some(offsets.value.1) else None,
                  map[inAmount := ixs], 1, 0)
  }

  /** The pair of amounts occurs just here in the decoded data, or it occurs nowhere
      and the amount alone just here. */
  ghost predicate AmountsAt(ixs: SwapIxs, inAmount: u64, quotedOut: u64, p: nat) {
    var data, pair := Decode(ixs.swap.data), Le64(inAmount) + Le64(quotedOut);
    && data.Some?
    && (OnlyMatch(data.value, pair, p) || (NoMatch(data.value, pair) && OnlyMatch(data.value, Le64(inAmount), p)))
  }

  /** A first capture has itself as base and only variant, and offsets exactly when the
      amounts are found in the data. */
  ghost predicate IsFirstCapture(t: RouteTemplate, sig: nat, ixs: SwapIxs, inAmount: u64, quotedOut: u64) {
    && t == RouteTemplate(sig, ixs, inAmount, quotedOut, t.inAmountOffset, t.quotedOutOffset,
                          map[inAmount := ixs], 1, 0)
    && t.quotedOutOffset == (if t.inAmountOffset.Some? then Some(t.inAmountOffset.value + 8) else None)
    && forall p: nat :: t.inAmountOffset == Some(p) <==> AmountsAt(ixs, inAmount, quotedOut, p)
  }

  lemma OffsetsMean(ixs: SwapIxs, inAmount: u64, quotedOut: u64, p: nat, q: nat)
    ensures Offsets(ixs, inAmount, quotedOut) == Some((p, q)) <==> q == p + 8 && AmountsAt(ixs, inAmount, quotedOut, p)
  {
    hide Discovered, OnlyMatch, NoMatch, Decode, Le64;
    var data := Decode(ixs.swap.data);
    if data.Some? { DiscoveredExactly(data.value, inAmount, quotedOut, p, q); }
  }

  lemma FirstCaptureMeans(sig: nat, ixs: SwapIxs, inAmount: u64, quotedOut: u64)
    ensures IsFirstCapture(FirstCapture(sig, ixs, inAmount, quotedOut), sig, ixs, inAmount, quotedOut)
  {
    hide Offsets, AmountsAt;
    var t, offsets := FirstCapture(sig, ixs, inAmount, quotedOut), Offsets(ixs, inAmount, quotedOut);
    if offsets.Some? { OffsetsMean(ixs, inAmount, quotedOut, offsets.value.0, offsets.value.1); }
    forall p: nat ensures t.inAmountOffset == Some(p) <==> AmountsAt(ixs, inAmount, quotedOut, p) {
      OffsetsMean(ixs, inAmount, quotedOut, p, p + 8);
    }
  }

  lemma SeenAgainMeans(t: RouteTemplate, ixs: SwapIxs, inAmount: u64)
    ensures SeenAgain(t, ixs, inAmount) == Recaptured(t, ixs, inAmount)
  {
    assert map[inAmount := ixs] + t.amountVariants
           == if inAmount in t.amountVariants then t.amountVariants else t.amountVariants[inAmount := ixs];
  }

  function IndexPair(st: StoreInner, plan: Json, sig: nat): StoreInner {
    match PlanPairKey(plan)
    case None => st
    case Some(key) => if key in st.hopPairIndex then st else st.(hopPairIndex := st.hopPairIndex[key := sig])
  }

  function InsertRoute(st: StoreInner, sig: nat, ixs: SwapIxs, inAmount: u64, quotedOut: u64, plan: Json): StoreInner {
    if sig in st.routesHot then
      st.(routesHot := st.routesHot[sig := SeenAgain(st.routesHot[sig], ixs, inAmount)])
    else if sig in st.routesCold then
      st.(routesCold := st.routesCold[sig := SeenAgain(st.routesCold[sig], ixs, inAmount)])
    else
      IndexPair(PushHotRoute(st, sig, FirstCapture(sig, ixs, inAmount, quotedOut)), plan, sig)
  }

  /** The pairs a plan adds to the index, if they are free. */
  function OwnPair(plan: Json, sig: nat): map<string, nat> {
    match PlanPairKey(plan) case Some(key) => map[key := sig] case None => map[]
  }

  lemma IndexPairMeans(st: StoreInner, plan: Json, sig: nat)
    ensures IndexPair(st, plan, sig) == st.(hopPairIndex := OwnPair(plan, sig) + st.hopPairIndex)
  {
    hide PlanPairKey;
    if PlanPairKey(plan).Some? {
      var key := PlanPairKey(plan).value;
      assert map[key := sig] + st.hopPairIndex
             == if key in st.hopPairIndex then st.hopPairIndex else st.hopPairIndex[key := sig];
    } else {
      assert map[] + st.hopPairIndex == st.hopPairIndex;
    }
  }

  lemma InsertMeans(st: StoreInner, sig: nat, ixs: SwapIxs, inAmount: u64, quotedOut: u64, plan: Json)
    ensures var st' := InsertRoute(st, sig, ixs, inAmount, quotedOut, plan);
            if sig in st.routesHot then
              st' == st.(routesHot := st.routesHot[sig := Recaptured(st.routesHot[sig], ixs, inAmount)])
            else if sig in st.routesCold then
              st' == st.(routesCold := st.routesCold[sig := Recaptured(st.routesCold[sig], ixs, inAmount)])
            else
              && sig in st'.routesHot && IsFirstCapture(st'.routesHot[sig], sig, ixs, inAmount, quotedOut)
              && st'.hops == st.hops && st'.hopPairIndex == OwnPair(plan, sig) + st.hopPairIndex
  {
    hide SeenAgain, Recaptured, FirstCapture, IsFirstCapture, IndexPair, OwnPair;
    if sig in st.routesHot {
      SeenAgainMeans(st.routesHot[sig], ixs, inAmount);
    } else if sig in st.routesCold {
      SeenAgainMeans(st.routesCold[sig], ixs, inAmount);
    } else {
      FirstCaptureMeans(sig, ixs, inAmount, quotedOut);
      IndexPairMeans(PushHotRoute(st, sig, FirstCapture(sig, ixs, inAmount, quotedOut)), plan, sig);
    }
  }

  /** The index half of a Tier-2 lookup, under its own read lock. */
  function IndexedSig(st: StoreInner, plan: Json): Option<nat> {
    match PlanPairKey(plan)
    case None => None
    case Some(key) => if key in st.hopPairIndex then Some(st.hopPairIndex[key]) else None
  }

  // ------------------------------------------------ hops

  function RecordHop(hops: map<HopKey, HopTemplate>, key: HopKey, slot: Option<nat>): map<HopKey, HopTemplate> {
    var t := if key in hops then hops[key] else HopTemplate(key, 0, slot, slot);
    hops[key := t.(seenCount := t.seenCount + 1, lastSeenSlot := slot)]
  }

  function RecordHopItems(hops: map<HopKey, HopTemplate>, items: seq<Json>, slot: Option<nat>)
    : map<HopKey, HopTemplate>
  {
    if items == [] then hops
    else
      var n := |items| - 1;
      var before := RecordHopItems(hops, items[..n], slot);
      match FromHop(items[n])
      case Some(key) => RecordHop(before, key, slot)
      case None => before
  }

  function Items(plan: Json): seq<Json> {
    if plan.Array? then plan.items else []
  }

  function RecordHops(st: StoreInner, plan: Json, slot: Option<nat>): StoreInner {
    st.(hops := RecordHopItems(st.hops, Items(plan), slot))
  }

  function MissingHops(hops: map<HopKey, HopTemplate>, items: seq<Json>): nat {
    if items == [] then 0
    else
      var n := |items| - 1;
      var key := FromHop(items[n]);
      MissingHops(hops, items[..n]) + if key.Some? && key.value in hops then 0 else 1
  }

  /** The places of hops that are unknown or cannot be identified. */
  ghost function Unknown(hops: map<HopKey, HopTemplate>, items: seq<Json>): set<nat> {
    set i: nat | i < |items| && (FromHop(items[i]).None? || FromHop(items[i]).value !in hops)
  }

  lemma {:induction false} MissingCounts(hops: map<HopKey, HopTemplate>, items: seq<Json>)
    ensures MissingHops(hops, items) == |Unknown(hops, items)|
  {
    hide FromHop;
    if items != [] {
      var n := |items| - 1;
      MissingCounts(hops, items[..n]);
      var before, key := Unknown(hops, items[..n]), FromHop(items[n]);
      assert Unknown(hops, items) == if key.Some? && key.value in hops then before else before + {n};
    }
  }

  /** The places where a hop occurs. */
  ghost function Places(items: seq<Json>, key: HopKey): set<nat> {
    set i: nat | i < |items| && FromHop(items[i]) == Some(key)
  }

  /** How often `key` was counted between two contents of the store. */
  ghost predicate SeenTimes(hops: map<HopKey, HopTemplate>, after: map<HopKey, HopTemplate>, key: HopKey, n: nat,
                            slot: Option<nat>) {
    && (key in after <==> key in hops || n > 0)
    && (key in hops && n == 0 ==> after[key] == hops[key])
    && (key in hops && n > 0 ==>
          after[key] == hops[key].(seenCount := hops[key].seenCount + n, lastSeenSlot := slot))
    && (key !in hops && n > 0 ==> after[key] == HopTemplate(key, n, slot, slot))
  }

  lemma NowhereIn(hops: map<HopKey, HopTemplate>, key: HopKey, slot: Option<nat>)
    ensures |Places([], key)| == 0 && SeenTimes(hops, hops, key, 0, slot)
  {
    assert Places([], key) == {};
  }

  lemma OneMorePlace(items: seq<Json>, key: HopKey)
    requires items != []
    ensures var n := |items| - 1;
            |Places(items, key)| == |Places(items[..n], key)| + if FromHop(items[n]) == Some(key) then 1 else 0
  {
    hide FromHop;
    var n, before := |items| - 1, Places(items[..|items| - 1], key);
    assert Places(items, key) == if FromHop(items[n]) == Some(key) then before + {n} else before;
  }

  lemma RecordOneCounts(hops: map<HopKey, HopTemplate>, before: map<HopKey, HopTemplate>, recorded: HopKey,
                        key: HopKey, n: nat, slot: Option<nat>)
    requires SeenTimes(hops, before, key, n, slot)
    ensures SeenTimes(hops, RecordHop(before, recorded, slot), key, n + if recorded == key then 1 else 0, slot)
  {
  }

  /** Recording a plan counts each hop as often as it occurs, with the slot as the last
      one seen and, for a new hop, the first one too; other hops stay as they are. */
  lemma {:induction false} RecordedCounts(hops: map<HopKey, HopTemplate>, items: seq<Json>, slot: Option<nat>,
                                          key: HopKey)
    ensures SeenTimes(hops, RecordHopItems(hops, items, slot), key, |Places(items, key)|, slot)
  {
    hide FromHop, Places, SeenTimes, RecordHop;
    if items == [] {
      NowhereIn(hops, key, slot);
    } else {
      var n := |items| - 1;
      RecordedCounts(hops, items[..n], slot, key);
      OneMorePlace(items, key);
      if FromHop(items[n]).Some? {
        RecordOneCounts(hops, RecordHopItems(hops, items[..n], slot), FromHop(items[n]).value, key,
                        |Places(items[..n], key)|, slot);
      }
    }
  }

  // ------------------------------------------------ the store object

  class TemplateStore {
    var routesHot: map<nat, RouteTemplate>
    var routesCold: map<nat, RouteTemplate>
    var hops: map<HopKey, HopTemplate>
    var hopPairIndex: map<string, nat>

    function Inner(): StoreInner
      reads this
    {
      StoreInner(routesHot, routesCold, hops, hopPairIndex)
    }

    constructor ()
      ensures Inner() == EMPTY_STORE
    {
      routesHot, routesCold, hops, hopPairIndex := map[], map[], map[], map[];
    }

    /** The new route is hot. Every other route stays too, unless the hot generation
        was full: then it becomes the cold one, and exactly the routes that were
        only cold leave. */
    method PushHot(sig: nat, t: RouteTemplate)
      modifies this
      ensures Inner() == PushHotRoute(old(Inner()), sig, t)
      ensures sig in routesHot && routesHot[sig] == t
      ensures hops == old(hops) && hopPairIndex == old(hopPairIndex)
      ensures forall s :: s != sig && s in old(routesHot) ==>
                            (s in routesHot && routesHot[s] == old(routesHot)[s])
                            || (s in routesCold && routesCold[s] == old(routesHot)[s])
      ensures forall s :: s != sig && s in old(routesCold) && s !in old(routesHot) ==>
                            if |old(routesHot)| < ROUTE_SEG_CAP
                            then s in routesCold && routesCold[s] == old(routesCold)[s]
                            else s !in routesHot && s !in routesCold
      ensures forall s :: s in routesHot || s in routesCold ==> s == sig || s in old(routesHot) || s in old(routesCold)
    {
      if |routesHot| >= ROUTE_SEG_CAP {
        routesCold := routesHot;
        routesHot := map[];
      }
      routesHot := routesHot[sig := t];
    }

    /** Both phases with nothing in between. A hot route is found as it is and nothing
        changes; a cold one is found with one more hit and is hot from then on; any
        other is not found. */
    method GetRoute(sig: nat) returns (found: Option<RouteTemplate>)
      modifies this
      ensures Lookup(Inner(), found) == AtomicGet(old(Inner()), sig)
      ensures sig in old(routesHot) ==> found == Some(old(routesHot)[sig]) && Inner() == old(Inner())
      ensures sig !in old(routesHot) && sig in old(routesCold) ==>
                && found == Some(old(routesCold)[sig].(hitCount := old(routesCold)[sig].hitCount + 1))
                && sig in routesHot && routesHot[sig] == found.value
                && (|old(routesHot)| < 2_000 ==> sig !in routesCold && routesHot == old(routesHot)[sig := found.value])
                && (|old(routesHot)| >= 2_000 ==> routesCold == old(routesHot) && routesHot == map[sig := found.value])
      ensures sig !in old(routesHot) && sig !in old(routesCold) ==> found == None && Inner() == old(Inner())
      ensures hops == old(hops) && hopPairIndex == old(hopPairIndex)
    {
      if sig in routesHot {
        return Some(routesHot[sig]);
      }
      if sig !in routesCold {
        return None;
      }
      found := GetRouteWriteLocked(sig);
    }

    method GetRouteWriteLocked(sig: nat) returns (found: Option<RouteTemplate>)
      modifies this
      ensures Lookup(Inner(), found) == WritePhase(old(Inner()), sig)
    {
      if sig in routesCold {
        var t := routesCold[sig];
        routesCold := routesCold - {sig};
        t := t.(hitCount := t.hitCount + 1);
        PushHot(sig, t);
        return Some(t);
      }
      found := if sig in routesHot then Some(routesHot[sig]) else None;
    }

    /** Of everything stored only one hit counter changes: that of the route, by one,
        in the generation it is found in, hot before cold. */
    method RecordHit(sig: nat)
      modifies this
      ensures Inner() == RecordRouteHit(old(Inner()), sig)
      ensures routesHot.Keys == old(routesHot).Keys && routesCold.Keys == old(routesCold).Keys
      ensures hops == old(hops) && hopPairIndex == old(hopPairIndex)
      ensures forall s :: s in routesHot && s != sig ==> routesHot[s] == old(routesHot)[s]
      ensures forall s :: s in routesCold && s != sig ==> routesCold[s] == old(routesCold)[s]
      ensures sig in routesHot ==>
                && routesHot[sig] == old(routesHot)[sig].(hitCount := old(routesHot)[sig].hitCount + 1)
                && routesCold == old(routesCold)
      ensures sig !in routesHot && sig in routesCold ==>
                routesCold[sig] == old(routesCold)[sig].(hitCount := old(routesCold)[sig].hitCount + 1)
    {
      if sig in routesHot {
        var t := routesHot[sig];
        routesHot := routesHot[sig := t.(hitCount := t.hitCount + 1)];
      } else if sig in routesCold {
        var t := routesCold[sig];
        routesCold := routesCold[sig := t.(hitCount := t.hitCount + 1)];
      }
    }

    /** A known route is counted and gets this amount's variant unless it has one, in
        the generation it is in. A new one is hot with this capture as its base, its
        offsets those found in the decoded data, and its pair is indexed unless the
        pair is taken. */
    method Insert(sig: nat, ixs: SwapIxs, inAmount: u64, quotedOut: u64, plan: Json)
      modifies this
      ensures Inner() == InsertRoute(old(Inner()), sig, ixs, inAmount, quotedOut, plan)
      ensures sig in old(routesHot) ==>
                Inner() == old(Inner()).(routesHot := old(routesHot)[
                  sig := Recaptured(old(routesHot)[sig], ixs, inAmount)])
      ensures sig !in old(routesHot) && sig in old(routesCold) ==>
                Inner() == old(Inner()).(routesCold := old(routesCold)[
                  sig := Recaptured(old(routesCold)[sig], ixs, inAmount)])
      ensures sig !in old(routesHot) && sig !in old(routesCold) ==>
                && sig in routesHot && IsFirstCapture(routesHot[sig], sig, ixs, inAmount, quotedOut)
                && hops == old(hops)
                && hopPairIndex == OwnPair(plan, sig) + old(hopPairIndex)
    {
      hide Discovered, IsFirstCapture, PlanPairKey, Decode, SeenAgain, Recaptured, OwnPair, IndexPair, FirstCapture;
      InsertMeans(Inner(), sig, ixs, inAmount, quotedOut, plan);
      var offsets: Option<(nat, nat)> := None;
      var data := Decode(ixs.swap.data);
      if data.Some? {
        offsets := DiscoverOffsets(data.value, inAmount, quotedOut);
      }
      if sig in routesHot {
        routesHot := routesHot[sig := SeenAgain(routesHot[sig], ixs, inAmount)];
        return;
      }
      if sig in routesCold {
        routesCold := routesCold[sig := SeenAgain(routesCold[sig], ixs, inAmount)];
        return;
      }
      InsertNew(sig, ixs, inAmount, quotedOut, offsets, plan);
    }

    method InsertNew(sig: nat, ixs: SwapIxs, inAmount: u64, quotedOut: u64, offsets: Option<(nat, nat)>, plan: Json)
      requires offsets == Offsets(ixs, inAmount, quotedOut)
      modifies this
      ensures Inner() == IndexPair(PushHotRoute(old(Inner()), sig, FirstCapture(sig, ixs, inAmount, quotedOut)),
                                   plan, sig)
    {
      hide Offsets, PlanPairKey;
      var t := RouteTemplate(
        sig, ixs, inAmount, quotedOut,
        if offsets.Some? then Some(offsets.value.0) else None,
        if offsets.Some? then Some(offsets.value.1) else None,
        map[inAmount := ixs], 1, 0);
      PushHot(sig, t);
      var key := PlanPairKey(plan);
      if key.Some? && key.value !in hopPairIndex {
        hopPairIndex := hopPairIndex[key.value := sig];
      }
    }

    /** Tier-2 lookup: the index, then the route it names. */
    method GetRouteForHops(plan: Json) returns (found: Option<RouteTemplate>)
      modifies this
      ensures match IndexedSig(old(Inner()), plan)
              case None => Inner() == old(Inner()) && found == None
              case Some(sig) => Lookup(Inner(), found) == AtomicGet(old(Inner()), sig)
    {
      var key := PlanPairKey(plan);
      if key.None? || key.value !in hopPairIndex {
        return None;
      }
      found := GetRoute(hopPairIndex[key.value]);
    }

    method CheckHops(plan: Json) returns (allHit: bool, missing: nat)
      ensures missing == MissingHops(hops, Items(plan)) && (allHit <==> missing == 0)
      ensures missing == |Unknown(hops, Items(plan))|
    {
      MissingCounts(hops, Items(plan));
      missing := 0;
      var items := Items(plan);
      for i := 0 to |items|
        invariant missing == MissingHops(hops, items[..i])
      {
        assert items[..i + 1][..i] == items[..i];
        var key := FromHop(items[i]);
        if !(key.Some? && key.value in hops) {
          missing := missing + 1;
        }
      }
      assert items[..|items|] == items;
      allHit := missing == 0;
    }

    /** Every hop of the plan is counted as often as it occurs in it. */
    method Record(plan: Json, slot: Option<nat>)
      modifies this`hops
      ensures Inner() == RecordHops(old(Inner()), plan, slot)
      ensures forall key :: SeenTimes(old(hops), hops, key, |Places(Items(plan), key)|, slot)
    {
      hide FromHop, RecordHop, Places, SeenTimes;
      ghost var after := RecordHopItems(hops, Items(plan), slot);
      forall key ensures SeenTimes(hops, after, key, |Places(Items(plan), key)|, slot) {
        RecordedCounts(hops, Items(plan), slot, key);
      }
      var items := Items(plan);
      for i := 0 to |items|
        invariant hops == RecordHopItems(old(hops), items[..i], slot)
      {
        assert items[..i + 1][..i] == items[..i];
        var key := FromHop(items[i]);
        if key.Some? {
          RecordOne(key.value, slot);
        }
      }
      assert items[..|items|] == items;
    }

    method RecordOne(key: HopKey, slot: Option<nat>)
      modifies this`hops
      ensures hops == RecordHop(old(hops), key, slot)
    {
      if key !in hops {
        hops := hops[key := HopTemplate(key, 0, slot, slot)];
      }
      var t := hops[key];
      hops := hops[key := t.(seenCount := t.seenCount + 1, lastSeenSlot := slot)];
    }
  }

  // ------------------------------------------------ what every section keeps

  ghost predicate KeyedBySig(routes: map<nat, RouteTemplate>) {
    forall s :: s in routes ==> routes[s].routeSignature == s
  }

  ghost predicate KeyedByHop(hops: map<HopKey, HopTemplate>) {
    forall k :: k in hops ==> hops[k].key == k
  }

  /** Generations are disjoint and every entry sits under its own key. */
  ghost predicate Consistent(st: StoreInner) {
    && st.routesHot.Keys !! st.routesCold.Keys
    && KeyedBySig(st.routesHot) && KeyedBySig(st.routesCold)
    && KeyedByHop(st.hops)
  }

  /** The operations on the store, as the lock serializes them. */
  datatype Op =
    | InsertOp(sig: nat, ixs: SwapIxs, inAmount: u64, quotedOut: u64, plan: Json)
    | GetOp(sig: nat)
    | HitOp(sig: nat)
    | HopsOp(plan: Json, slot: Option<nat>)

  function Apply(st: StoreInner, op: Op): StoreInner {
    match op
    case InsertOp(sig, ixs, inAmount, quotedOut, plan) => InsertRoute(st, sig, ixs, inAmount, quotedOut, plan)
    case GetOp(sig) => AtomicGet(st, sig).store
    case HitOp(sig) => RecordRouteHit(st, sig)
    case HopsOp(plan, slot) => RecordHops(st, plan, slot)
  }

  function ApplyAll(st: StoreInner, ops: seq<Op>): StoreInner
    decreases |ops|
  {
    if ops == [] then st else ApplyAll(Apply(st, ops[0]), ops[1..])
  }

  lemma PushKeepsConsistent(st: StoreInner, sig: nat, t: RouteTemplate)
    requires Consistent(st) && sig !in st.routesHot && sig !in st.routesCold && t.routeSignature == sig
    ensures Consistent(PushHotRoute(st, sig, t))
  {
  }

  lemma InsertKeepsConsistent(st: StoreInner, sig: nat, ixs: SwapIxs, inAmount: u64, quotedOut: u64, plan: Json)
    requires Consistent(st)
    ensures Consistent(InsertRoute(st, sig, ixs, inAmount, quotedOut, plan))
  {
    if sig !in st.routesHot && sig !in st.routesCold {
      PushKeepsConsistent(st, sig, FirstCapture(sig, ixs, inAmount, quotedOut));
    }
  }

  lemma PromoteKeepsConsistent(st: StoreInner, sig: nat)
    requires Consistent(st) && sig in st.routesCold
    ensures Consistent(Promote(st, sig).store)
  {
    PushKeepsConsistent(st.(routesCold := st.routesCold - {sig}), sig, CountHit(st.routesCold[sig]));
  }

  lemma HitKeepsConsistent(st: StoreInner, sig: nat)
    requires Consistent(st)
    ensures Consistent(RecordRouteHit(st, sig))
  {
  }

  lemma {:induction false} RecordKeepsKeyed(hops: map<HopKey, HopTemplate>, items: seq<Json>, slot: Option<nat>)
    requires KeyedByHop(hops)
    ensures KeyedByHop(RecordHopItems(hops, items, slot))
  {
    if items != [] {
      RecordKeepsKeyed(hops, items[..|items| - 1], slot);
    }
  }

  lemma {:induction false} RecordKeepsHops(hops: map<HopKey, HopTemplate>, items: seq<Json>, slot: Option<nat>)
    ensures hops.Keys <= RecordHopItems(hops, items, slot).Keys
  {
    if items != [] { RecordKeepsHops(hops, items[..|items| - 1], slot); }
  }

  lemma {:induction false} RecordedIsKnown(hops: map<HopKey, HopTemplate>, items: seq<Json>, slot: Option<nat>, i: nat)
    requires i < |items| && FromHop(items[i]).Some?
    ensures FromHop(items[i]).value in RecordHopItems(hops, items, slot)
  {
    hide FromHop;
    if i < |items| - 1 { RecordedIsKnown(hops, items[..|items| - 1], slot, i); }
  }

  /** No hop is missing exactly when each identifies itself and is known. */
  lemma {:induction false} MissingMeans(hops: map<HopKey, HopTemplate>, items: seq<Json>)
    ensures MissingHops(hops, items) == 0
            <==> forall i :: 0 <= i < |items| ==> FromHop(items[i]).Some? && FromHop(items[i]).value in hops
  {
    hide FromHop;
    if items != [] {
      var n := |items| - 1;
      MissingMeans(hops, items[..n]);
      assert forall i :: 0 <= i < n ==> items[..n][i] == items[i];
    }
  }

  lemma ApplyKeepsConsistent(st: StoreInner, op: Op)
    requires Consistent(st)
    ensures Consistent(Apply(st, op))
  {
    match op
    case InsertOp(sig, ixs, inAmount, quotedOut, plan) =>
      InsertKeepsConsistent(st, sig, ixs, inAmount, quotedOut, plan);
    case GetOp(sig) =>
      if sig !in st.routesHot && sig in st.routesCold { PromoteKeepsConsistent(st, sig); }
    case HitOp(sig) => HitKeepsConsistent(st, sig);
    case HopsOp(plan, slot) => RecordKeepsKeyed(st.hops, Items(plan), slot);
  }

  lemma {:induction false} ApplyAllKeepsConsistent(st: StoreInner, ops: seq<Op>)
    requires Consistent(st)
    ensures Consistent(ApplyAll(st, ops))
    decreases |ops|
  {
    if ops != [] {
      ApplyKeepsConsistent(st, ops[0]);
      ApplyAllKeepsConsistent(Apply(st, ops[0]), ops[1..]);
    }
  }
}
