/** The cache is transparent: what it serves is what Metis would have returned, in
    every store a run can reach (src/template_cache.rs, src/arbitrage.rs). */
module Transparency {
  import opened Text
  import opened Decimal
  import opened AmountPatch
  import opened RouteSignature
  import opened HopKeys
  import opened RouteStore
  import opened Persistence
  import opened Metis
  import opened TemplateFidelity
  import opened StoreFidelity

  // ------------------------------------------------ runs

  /** The store, the two halves of the disk, and the record of all captures. */
  datatype World = World(store: StoreInner, routeFile: Option<RouteFile>, hopDir: HopDir, captured: set<Origin>)

  datatype Event =
    | Capture(plan: Json, amount: u64)
    | Look(sig: nat)
    | Hit(sig: nat)
    | SeeHops(plan: Json, slot: Option<nat>)
    | FlushRoutes(file: RouteFile)
    | FlushHops(written: HopDir)
    | Restart(list: seq<HopTemplate>)

  const NEW_WORLD: World := World(EMPTY_STORE, None, map[], {})

  /** A flush writes what the store holds, of the hops perhaps not all files before
      the process ends; a restart walks the directory there is. */
  ghost predicate Enabled(w: World, e: Event) {
    match e
    case FlushRoutes(file) => IsFlushOf(file, w.store)
    case FlushHops(written) => IsPartOfHopFlush(written, w.store.hops)
    case Restart(list) => ListsDir(list, w.hopDir)
    case _ => true
  }

  /** A process loads the hops first and then the routes. */
  function Reloaded(w: World, list: seq<HopTemplate>): StoreInner {
    var fromHops := EMPTY_STORE.(hops := LoadHops(map[], list));
    match w.routeFile case Some(file) => LoadRoutes(fromHops, file) case None => fromHops
  }

  function Happen(metis: Model, w: World, e: Event): World {
    match e
    case Capture(plan, amount) =>
      w.(store := InsertRoute(w.store, RouteSig(plan), Instructions(metis(plan), amount), amount, Floor(amount), plan),
         captured := w.captured + {OriginOf(plan)})
    case Look(sig) => w.(store := AtomicGet(w.store, sig).store)
    case Hit(sig) => w.(store := RecordRouteHit(w.store, sig))
    case SeeHops(plan, slot) => w.(store := RecordHops(w.store, plan, slot))
    case FlushRoutes(file) => w.(routeFile := Some(file))
    case FlushHops(written) => w.(hopDir := w.hopDir + written)
    case Restart(list) => w.(store := Reloaded(w, list))
  }

  predicate IsStoreEvent(e: Event) {
    e.Capture? || e.Look? || e.Hit? || e.SeeHops?
  }

  /** The operation on the store an event stands for; a capture inserts Metis's answer
      under the plan's signature, with the floor of the amount as quoted output. */
  function OpOf(metis: Model, e: Event): Op
    requires IsStoreEvent(e)
  {
    match e
    case Capture(plan, amount) =>
      InsertOp(RouteSig(plan), Instructions(metis(plan), amount), amount, Floor(amount), plan)
    case Look(sig) => GetOp(sig)
    case Hit(sig) => HitOp(sig)
    case SeeHops(plan, slot) => HopsOp(plan, slot)
  }

  /** Within a process a run is a sequence of store operations, and neither half of the
      disk changes with them; flushes change the disk alone. */
  lemma EventsAreOps(metis: Model, w: World, e: Event)
    ensures IsStoreEvent(e) ==> Happen(metis, w, e).store == Apply(w.store, OpOf(metis, e))
    ensures IsStoreEvent(e) || e.Restart? ==>
              Happen(metis, w, e).routeFile == w.routeFile && Happen(metis, w, e).hopDir == w.hopDir
    ensures e.FlushRoutes? || e.FlushHops? ==> Happen(metis, w, e).store == w.store
  {
    hide InsertRoute, AtomicGet, RecordRouteHit, RecordHops, RouteSig, Instructions, Reloaded;
  }

  /** The worlds a run from an empty store and an empty disk can reach. */
  ghost predicate Reaches(metis: Model, events: seq<Event>, w: World) {
    if events == [] then w == NEW_WORLD
    else
      var n := |events| - 1;
      exists v :: Reaches(metis, events[..n], v) && Enabled(v, events[n]) && w == Happen(metis, v, events[n])
  }

  // ------------------------------------------------ what every run keeps

  ghost predicate Genuine(captured: set<Origin>) {
    forall o :: o in captured ==> o == OriginOf(o.plan)
  }

  /** The route file was written from a store in order. */
  ghost predicate FileOk(metis: Model, captured: set<Origin>, file: RouteFile) {
    exists st :: StoreOk(metis, captured, st) && IsFlushOf(file, st)
  }

  ghost predicate DiskOk(w: World) {
    NoEmptyFile(w.hopDir) && StemsKnown(w.hopDir, w.store.hops)
  }

  ghost predicate WorldOk(metis: Model, w: World) {
    && StoreOk(metis, w.captured, w.store) && Genuine(w.captured) && DiskOk(w)
    && (w.routeFile.Some? ==> FileOk(metis, w.captured, w.routeFile.value))
  }

  lemma CaptureKeeps(metis: Model, w: World, plan: Json, amount: u64)
    requires WorldOk(metis, w)
    ensures WorldOk(metis, Happen(metis, w, Capture(plan, amount)))
  {
    hide StoreOk, OriginOf, RouteSig, IsFlushOf, StemsKnown, NoEmptyFile;
    var more := w.captured + {OriginOf(plan)};
    CaptureOk(metis, w.captured, w.store, plan, amount);
    OriginOfPlan(plan);
    InsertKeepsHops(w.store, RouteSig(plan), Instructions(metis(plan), amount), amount, Floor(amount), plan);
    if w.routeFile.Some? {
      var st :| StoreOk(metis, w.captured, st) && IsFlushOf(w.routeFile.value, st);
      MoreCapturesOk(metis, w.captured, more, st);
      assert FileOk(metis, more, w.routeFile.value);
    }
  }

  lemma OriginOfPlan(plan: Json)
    ensures OriginOf(plan).plan == plan && OriginOf(plan).sig == RouteSig(plan)
    ensures OriginOf(plan).hops == PlanHops(plan) && OriginOf(plan).pairKey == PlanPairKey(plan)
  {
  }

  lemma InsertKeepsHops(st: StoreInner, sig: nat, ixs: SwapIxs, inAmount: u64, quotedOut: u64, plan: Json)
    ensures InsertRoute(st, sig, ixs, inAmount, quotedOut, plan).hops == st.hops
  {
    hide Offsets, FirstCapture, SeenAgain, PlanPairKey;
  }

  lemma StoreEventKeeps(metis: Model, w: World, e: Event)
    requires WorldOk(metis, w) && (e.Look? || e.Hit? || e.SeeHops?)
    ensures WorldOk(metis, Happen(metis, w, e))
  {
    hide StoreOk, Genuine, FileOk, StemsKnown;
    match e
    case Look(sig) => LookOk(metis, w.captured, w.store, sig);
    case Hit(sig) => HitOk(metis, w.captured, w.store, sig);
    case SeeHops(plan, slot) =>
      HopsOk(metis, w.captured, w.store, plan, slot);
      RecordKeepsHops(w.store.hops, Items(plan), slot);
      StemsStayKnown(w.hopDir, w.store.hops, RecordHopItems(w.store.hops, Items(plan), slot));
  }

  lemma HopFlushKeeps(metis: Model, w: World, written: HopDir)
    requires WorldOk(metis, w) && IsPartOfHopFlush(written, w.store.hops)
    ensures WorldOk(metis, w.(hopDir := w.hopDir + written))
  {
    hide Genuine, FileOk, IsPartOfHopFlush, HoldsOwn, HasStem;
    PartStems(w.store.hops, written);
  }

  lemma RestartKeeps(metis: Model, w: World, list: seq<HopTemplate>)
    requires WorldOk(metis, w) && ListsDir(list, w.hopDir)
    ensures WorldOk(metis, w.(store := Reloaded(w, list)))
  {
    hide StoreOk, Genuine, StemsKnown, NoEmptyFile, KeyedByHop, LoadRoutes, ListsDir, LoadHops;
    var hops := LoadHops(map[], list);
    LoadedStems(w.hopDir, list);
    if w.routeFile.Some? {
      var st :| StoreOk(metis, w.captured, st) && IsFlushOf(w.routeFile.value, st);
      ReloadOk(metis, w.captured, st, w.routeFile.value, hops);
      ReloadKeepsHops(metis, w.captured, st, w.routeFile.value, hops);
    } else {
      OnlyHopsOk(metis, w.captured, hops);
    }
  }

  lemma ReloadKeepsHops(metis: Model, captured: set<Origin>, st: StoreInner, file: RouteFile,
                        hops: map<HopKey, HopTemplate>)
    requires StoreOk(metis, captured, st) && IsFlushOf(file, st)
    ensures LoadRoutes(EMPTY_STORE.(hops := hops), file).hops == hops
  {
    hide AllFaithful, IndexGenuine, IsFlushOf, LoadRoutes;
    RoutesRoundTrip(st, file, hops);
  }

  lemma OnlyHopsOk(metis: Model, captured: set<Origin>, hops: map<HopKey, HopTemplate>)
    requires KeyedByHop(hops)
    ensures StoreOk(metis, captured, EMPTY_STORE.(hops := hops))
  {
    hide Faithful;
  }

  lemma HappenOk(metis: Model, w: World, e: Event)
    requires WorldOk(metis, w) && Enabled(w, e)
    ensures WorldOk(metis, Happen(metis, w, e))
  {
    hide StoreOk, Genuine, DiskOk, IsFlushOf, IsPartOfHopFlush, ListsDir, Reloaded, RouteSig, OriginOf, InsertRoute;
    match e
    case Capture(plan, amount) => CaptureKeeps(metis, w, plan, amount);
    case FlushRoutes(file) => RouteFlushKeeps(metis, w, file);
    case FlushHops(written) => HopFlushKeeps(metis, w, written);
    case Restart(list) => RestartKeeps(metis, w, list);
    case _ => StoreEventKeeps(metis, w, e);
  }

  lemma RouteFlushKeeps(metis: Model, w: World, file: RouteFile)
    requires WorldOk(metis, w) && IsFlushOf(file, w.store)
    ensures WorldOk(metis, w.(routeFile := Some(file)))
  {
    hide StoreOk, Genuine, IsFlushOf, StemsKnown, NoEmptyFile;
    assert FileOk(metis, w.captured, file);
  }

  lemma {:induction false} ReachableOk(metis: Model, events: seq<Event>, w: World)
    requires Reaches(metis, events, w)
    ensures WorldOk(metis, w)
  {
    hide Happen, Enabled;
    if events == [] {
      NewWorldOk(metis);
    } else {
      hide WorldOk;
      var n := |events| - 1;
      var v :| Reaches(metis, events[..n], v) && Enabled(v, events[n]) && w == Happen(metis, v, events[n]);
      ReachableOk(metis, events[..n], v);
      HappenOk(metis, v, events[n]);
    }
  }

  lemma NewWorldOk(metis: Model)
    ensures WorldOk(metis, NEW_WORLD)
  {
    hide Faithful;
    var none: map<HopKey, HopTemplate> := map[];
    assert KeyedByHop(none) && EMPTY_STORE == EMPTY_STORE.(hops := none);
    OnlyHopsOk(metis, {}, none);
  }

  /** Records are made by captures only. */
  lemma {:induction false} OriginsAreGenuine(metis: Model, events: seq<Event>, w: World, o: Origin)
    requires Reaches(metis, events, w) && o in w.captured
    ensures exists i :: 0 <= i < |events| && events[i].Capture? && o == OriginOf(events[i].plan)
  {
    hide OriginOf, Enabled, Reloaded, RouteSig, AtomicGet, RecordRouteHit, RecordHops, InsertRoute, Instructions;
    if events != [] {
      var n := |events| - 1;
      var v :| Reaches(metis, events[..n], v) && Enabled(v, events[n]) && w == Happen(metis, v, events[n]);
      if o in v.captured {
        OriginsAreGenuine(metis, events[..n], v, o);
        var i :| 0 <= i < n && events[..n][i].Capture? && o == OriginOf(events[..n][i].plan);
        assert events[i] == events[..n][i];
      } else {
        assert events[n].Capture? && o == OriginOf(events[n].plan);
      }
    }
  }

  // ------------------------------------------------ Tier 1

  /** Whatever a lookup finds in a reachable store is faithful to the plans that
      were captured under that signature. */
  lemma ReachableLookup(metis: Model, events: seq<Event>, w: World, sig: nat)
    requires Reaches(metis, events, w)
    ensures AtomicGet(w.store, sig).found.Some? ==>
      && Faithful(metis, w.captured, sig, AtomicGet(w.store, sig).found.value)
      && AtomicGet(w.store, sig).found.value.routeSignature == sig
  {
    hide StoreOk, Faithful, AtomicGet, Reaches;
    ReachableOk(metis, events, w);
    LookOk(metis, w.captured, w.store, sig);
  }

  /** What Tier 1 serves for a plan. */
  function Served(st: StoreInner, sig: nat, amount: u64): Option<SwapIxs> {
    match AtomicGet(st, sig).found
    case Some(t) => ServeRoute(t, amount, Floor(amount))
    case None => None
  }

  predicate Servable(st: StoreInner, sig: nat, amount: u64) {
    AtomicGet(st, sig).found.Some? && CanServe(AtomicGet(st, sig).found.value, amount)
  }

  /** Without any assumption on hashes or on Metis: something is served exactly when
      the stored template can serve, and it is Metis's answer to some plan captured
      under the signature. */
  lemma ServedIsCaptured(metis: Model, events: seq<Event>, w: World, sig: nat, amount: u64)
    requires Reaches(metis, events, w)
    ensures Served(w.store, sig, amount).Some? <==> Servable(w.store, sig, amount)
    ensures Served(w.store, sig, amount).Some? ==>
              FromCapture(metis, w.captured, sig, amount, Served(w.store, sig, amount).value)
  {
    hide Faithful, AtomicGet, Reaches, ServeRoute, CanServe, FromCapture;
    ReachableLookup(metis, events, w, sig);
    var found := AtomicGet(w.store, sig).found;
    if found.Some? { ServesExactly(metis, w.captured, sig, found.value, amount, Floor(amount)); }
  }

  /** Every hop names its pool, and no key or value holds a separator. */
  ghost predicate Readable(plan: Json) {
    AllHave(Hops(plan), "ammKey") && AllParsable(Hops(plan))
  }

  ghost predicate AllReadable(captured: set<Origin>) {
    forall o :: o in captured ==> Readable(o.plan)
  }

  /** No captured byte stream other than the query's own has its signature. */
  ghost predicate NoCollision(captured: set<Origin>, query: Json) {
    forall o :: o in captured && o.sig == RouteSig(query) ==> Stream(Hops(o.plan)) == Stream(Hops(query))
  }

  lemma SameStreamSameAnswer(metis: Model, p: Json, q: Json)
    requires AnswersByRoute(metis) && Readable(p) && Readable(q) && Stream(Hops(p)) == Stream(Hops(q))
    ensures metis(p) == metis(q)
  {
    hide AllHave, AllParsable, Hops, Stream;
    StreamIsCanonical(p, q);
  }

  /** An answer captured under the query's signature is the answer to the query. */
  lemma CapturedIsAnswer(metis: Model, captured: set<Origin>, query: Json, amount: u64, ixs: SwapIxs)
    requires FromCapture(metis, captured, RouteSig(query), amount, ixs)
    requires AnswersByRoute(metis) && NoCollision(captured, query) && Readable(query) && AllReadable(captured)
    ensures ixs == Instructions(metis(query), amount)
  {
    hide AnswersByRoute, Readable, RouteSig, Instructions;
    var o :| o in captured && o.sig == RouteSig(query) && ixs == Instructions(metis(o.plan), amount);
    SameStreamSameAnswer(metis, o.plan, query);
  }

  /** One plan through Tier 1. */
  lemma TierOneExactly(metis: Model, events: seq<Event>, w: World, query: Json, amount: u64)
    requires Reaches(metis, events, w) && AnswersByRoute(metis)
    requires NoCollision(w.captured, query) && Readable(query) && AllReadable(w.captured)
    ensures Served(w.store, RouteSig(query), amount)
            == if Servable(w.store, RouteSig(query), amount) then Some(Instructions(metis(query), amount)) else None
  {
    hide Reaches, Served, Servable, AnswersByRoute, Readable, AllReadable, NoCollision, RouteSig, Instructions,
         FromCapture;
    var served := Served(w.store, RouteSig(query), amount);
    ServedIsCaptured(metis, events, w, RouteSig(query), amount);
    if served.Some? { CapturedIsAnswer(metis, w.captured, query, amount, served.value); }
  }

  /** Cache transparency. Suppose Metis answers by route, and no other captured
      stream has the query's signature. Then in every reachable store and for every
      amount, serving the route of a merged quote yields either nothing or exactly
      the response Metis gives to that quote; it yields something exactly when the
      stored template has this amount cached or its offsets known. */
  lemma CacheIsTransparent(metis: Model, events: seq<Event>, w: World, q1: Quote, q2: Quote, amount: u64)
    requires Reaches(metis, events, w) && AnswersByRoute(metis)
    requires MergeQuotes(q1, q2, Floor(amount)).Merged? && q1.inAmount == Print(amount)
    requires var plan := MergeQuotes(q1, q2, Floor(amount)).quote.routePlan;
             NoCollision(w.captured, plan) && Readable(plan) && AllReadable(w.captured)
    ensures var m := MergeQuotes(q1, q2, Floor(amount)).quote;
            var sig := RouteSig(m.routePlan);
            && SwapInstructions(metis, m).Some?
            && Served(w.store, sig, amount)
               == if Servable(w.store, sig, amount) then SwapInstructions(metis, m) else None
  {
    hide Reaches, Served, Servable, AnswersByRoute, Readable, AllReadable, NoCollision, RouteSig, Instructions,
         SwapInstructions, MergeQuotes;
    TierOneExactly(metis, events, w, MergeQuotes(q1, q2, Floor(amount)).quote.routePlan, amount);
    MergedInstructions(metis, q1, q2, amount);
  }

  // ------------------------------------------------ plans that cannot collide

  /** The two streams differ in exactly one byte, or not at all. */
  ghost predicate Near(a: string, b: string) {
    a == b || exists s, c, d, t :: a == s + [c] + t && b == s + [d] + t && c != d
  }

  lemma NearStreamsNeverCollide(p: Json, q: Json)
    requires Near(Stream(Hops(p)), Stream(Hops(q))) && RouteSig(p) == RouteSig(q)
    ensures Stream(Hops(p)) == Stream(Hops(q))
  {
    hide Stream, Hops, Fold;
    var a, b := Stream(Hops(p)), Stream(Hops(q));
    if a != b {
      var s, c, d, t :| a == s + [c] + t && b == s + [d] + t && c != d;
      OneByteSeparates(SEED1, s, c, d, t);
      SignatureHalves(a);
      SignatureHalves(b);
    }
  }

  /** A plan with one hashed boolean flipped is near. */
  lemma FlippedIsNear(p: Json, q: Json, i: nat, k: string)
    requires FlippedAt(p, q, i, k) && !IsAmount(k)
    ensures Near(Stream(Hops(q)), Stream(Hops(p)))
  {
    hide Stream, Hops, IsAmount;
    var v, w := FlippedHops(p, q, i, k);
    var s, t := ValueInStream(Hops(p), i, k);
    assert Stream(Hops(q)) == s + [w[0]] + t && Stream(Hops(p)) == s + [v[0]] + t;
  }

  /** Where every capture is near the query, as the same route in other directions
      is, the signature alone keeps them apart: no assumption on collisions. */
  lemma NearCapturesAreSafe(metis: Model, events: seq<Event>, w: World, query: Json, amount: u64)
    requires Reaches(metis, events, w) && AnswersByRoute(metis) && Readable(query) && AllReadable(w.captured)
    requires forall o :: o in w.captured ==> Near(Stream(Hops(o.plan)), Stream(Hops(query)))
    ensures Served(w.store, RouteSig(query), amount)
            == if Servable(w.store, RouteSig(query), amount) then Some(Instructions(metis(query), amount)) else None
  {
    hide Reaches, Served, Servable, AnswersByRoute, Readable, AllReadable, RouteSig, Instructions, Near, OriginOf,
         WorldOk;
    forall o | o in w.captured && o.sig == RouteSig(query)
      ensures Stream(Hops(o.plan)) == Stream(Hops(query))
    {
      ReachableGenuine(metis, events, w, o);
      NearStreamsNeverCollide(o.plan, query);
    }
    TierOneExactly(metis, events, w, query, amount);
  }

  lemma ReachableGenuine(metis: Model, events: seq<Event>, w: World, o: Origin)
    requires Reaches(metis, events, w) && o in w.captured
    ensures o == OriginOf(o.plan) && o.sig == RouteSig(o.plan)
  {
    hide Reaches, StoreOk, DiskOk, FileOk, RouteSig;
    ReachableOk(metis, events, w);
  }

  // ------------------------------------------------ exactly when

  ghost predicate Transparent(metis: Model, w: World, query: Json, amount: u64) {
    Served(w.store, RouteSig(query), amount).Some? ==>
      Served(w.store, RouteSig(query), amount).value == Instructions(metis(query), amount)
  }

  /** After one capture the route is served what was captured, to whichever plan
      has its signature. */
  lemma OneCaptureServes(metis: Model, p: Json, amount: u64) returns (w: World)
    ensures Reaches(metis, [Capture(p, amount)], w)
    ensures Served(w.store, RouteSig(p), amount) == Some(Instructions(metis(p), amount))
  {
    hide RouteSig, OriginOf, PlanPairKey;
    var events := [Capture(p, amount)];
    assert events[..0] == [] && Reaches(metis, [], NEW_WORLD);
    w := Happen(metis, NEW_WORLD, Capture(p, amount));
    assert Enabled(NEW_WORLD, Capture(p, amount));
    assert RouteSig(p) in w.store.routesHot;
  }

  /** Transparency of Tier 1 without assumptions, exactly: a query gets nothing but
      Metis's answer, in all runs and at all amounts, if and only if Metis answers
      every plan with the query's signature as it answers the query. */
  lemma TransparentExactly(metis: Model, query: Json)
    ensures (forall events, w, amount :: Reaches(metis, events, w) ==> Transparent(metis, w, query, amount))
            <==> (forall p, amount {:trigger Instructions(metis(p), amount)} :: RouteSig(p) == RouteSig(query) ==>
                    Instructions(metis(p), amount) == Instructions(metis(query), amount))
  {
    hide RouteSig, Served, Servable, Instructions, Reaches;
    if forall p, amount {:trigger Instructions(metis(p), amount)} :: RouteSig(p) == RouteSig(query) ==>
         Instructions(metis(p), amount) == Instructions(metis(query), amount)
    {
      forall events, w, amount | Reaches(metis, events, w) ensures Transparent(metis, w, query, amount) {
        ServedIsCaptured(metis, events, w, RouteSig(query), amount);
        if Served(w.store, RouteSig(query), amount).Some? {
          var o :| o in w.captured && o.sig == RouteSig(query)
                   && Served(w.store, RouteSig(query), amount).value == Instructions(metis(o.plan), amount);
          ReachableGenuine(metis, events, w, o);
        }
      }
    } else {
      var p, amount :| RouteSig(p) == RouteSig(query)
                       && Instructions(metis(p), amount) != Instructions(metis(query), amount);
      var w := OneCaptureServes(metis, p, amount);
      assert !Transparent(metis, w, query, amount);
    }
  }

  // ------------------------------------------------ the disk

  /** Every flush of a reachable store reloads to the union of its generations,
      variants emptied, with the whole index. */
  lemma ReachableRoundTrip(metis: Model, events: seq<Event>, w: World, file: RouteFile, hops: map<HopKey, HopTemplate>)
    requires Reaches(metis, events, w) && IsFlushOf(file, w.store)
    ensures LoadRoutes(EMPTY_STORE.(hops := hops), file)
            == StoreInner(Reunited(w.store), map[], hops, w.store.hopPairIndex)
  {
    hide Reaches, IsFlushOf, LoadRoutes, AllFaithful, IndexGenuine;
    ReachableOk(metis, events, w);
    RoutesRoundTrip(w.store, file, hops);
  }

  /** And its hops reload exactly, whatever earlier flushes of the run, whole or
      partial, in this process or before, have left in the directory, if and only if
      no two of them share file stem and template id. */
  lemma ReachableHopsRoundTrip(metis: Model, events: seq<Event>, w: World)
    requires Reaches(metis, events, w)
    ensures (forall written, list :: IsHopFlushOf(written, w.store.hops) && ListsDir(list, w.hopDir + written) ==>
               LoadHops(map[], list) == w.store.hops)
            <==> SlotsDistinct(w.store.hops.Keys)
    ensures (forall k :: k in w.store.hops ==> Without(k, ':')) ==> SlotsDistinct(w.store.hops.Keys)
  {
    hide Reaches, IsHopFlushOf, ListsDir, LoadHops, AllFaithful, IndexGenuine, SlotsDistinct, Without;
    ReachableOk(metis, events, w);
    HopsReloadExactly(w.store.hops, w.hopDir);
    if forall k :: k in w.store.hops ==> Without(k, ':') { ColonFreeDistinct(w.store.hops.Keys); }
  }

  /** Within a process an index entry, once made, is never changed. */
  lemma IndexNeverOverwritten(metis: Model, w: World, e: Event, key: string)
    requires key in w.store.hopPairIndex && !e.Restart?
    ensures key in Happen(metis, w, e).store.hopPairIndex
    ensures Happen(metis, w, e).store.hopPairIndex[key] == w.store.hopPairIndex[key]
  {
    hide RouteSig, OriginOf, PlanPairKey, FirstCapture, SeenAgain, Instructions, RecordHopItems, Reloaded;
  }
}
