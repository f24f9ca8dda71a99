/** Flushing the store to disk records and loading them back
    (src/template_cache.rs). Files are values; the JSON text and the file system
    are not part of the model. Hash maps enumerate their entries in some order,
    which the model leaves arbitrary. */
module Persistence {
  import opened Text
  import opened Decimal
  import opened AmountPatch
  import opened HopKeys
  import opened RouteStore

  /** The signature as a decimal string; the variants are not stored. */
  datatype RouteRecord = RouteRecord(
    sig: string, swapIxs: SwapIxs, templateInAmount: u64, templateQuotedOut: u64,
    inAmountOffset: Option<nat>, quotedOutOffset: Option<nat>, seenCount: nat, hitCount: nat)

  datatype RouteFile = RouteFile(schemaVersion: nat, routes: seq<RouteRecord>, hopPairs: map<string, string>)

  function FromTemplate(t: RouteTemplate): RouteRecord {
    RouteRecord(Print(t.routeSignature), t.swapIxs, t.templateInAmount, t.templateQuotedOut,
                t.inAmountOffset, t.quotedOutOffset, t.seenCount, t.hitCount)
  }

  /** The record of a template, field by field. */
  ghost predicate RecordFor(r: RouteRecord, t: RouteTemplate) {
    r.sig == Print(t.routeSignature) && SameFields(r, t)
  }

  ghost predicate SameFields(r: RouteRecord, t: RouteTemplate) {
    && r.swapIxs == t.swapIxs
    && r.templateInAmount == t.templateInAmount && r.templateQuotedOut == t.templateQuotedOut
    && r.inAmountOffset == t.inAmountOffset && r.quotedOutOffset == t.quotedOutOffset
    && r.seenCount == t.seenCount && r.hitCount == t.hitCount
  }

  function ToTemplate(r: RouteRecord, sig: nat): RouteTemplate {
    RouteTemplate(sig, r.swapIxs, r.templateInAmount, r.templateQuotedOut,
                  r.inAmountOffset, r.quotedOutOffset, map[], r.seenCount, r.hitCount)
  }

  // ------------------------------------------------ routes to disk

  /** `order` lists every element of `keys` once. */
  ghost predicate Enumerates<K>(order: seq<K>, keys: set<K>)
    decreases |order|
  {
    if order == [] then keys == {}
    else
      var n := |order| - 1;
      order[n] in keys && Enumerates(order[..n], keys - {order[n]})
  }

  lemma {:induction false} SomeOrder<K>(keys: set<K>) returns (order: seq<K>)
    ensures Enumerates(order, keys)
    decreases |keys|
  {
    if keys == {} {
      order := [];
    } else {
      var k :| k in keys;
      var rest := SomeOrder(keys - {k});
      order := rest + [k];
      assert order[..|rest|] == rest;
    }
  }

  lemma {:induction false} EnumeratedIn<K>(order: seq<K>, keys: set<K>)
    requires Enumerates(order, keys)
    ensures forall i :: 0 <= i < |order| ==> order[i] in keys
    decreases |order|
  {
    if order != [] {
      EnumeratedIn(order[..|order| - 1], keys - {order[|order| - 1]});
      assert forall i :: 0 <= i < |order| - 1 ==> order[i] == order[..|order| - 1][i];
    }
  }

  lemma {:induction false} EnumeratedAll<K>(order: seq<K>, keys: set<K>, k: K)
    requires Enumerates(order, keys) && k in keys
    ensures k in order
    decreases |order|
  {
    var n := |order| - 1;
    if order[n] != k {
      EnumeratedAll(order[..n], keys - {order[n]}, k);
      assert order[..n] + [order[n]] == order;
    }
  }

  function RecordsOf(routes: map<nat, RouteTemplate>, order: seq<nat>): seq<RouteRecord>
    decreases |order|
  {
    if order == [] then []
    else
      var n := |order| - 1;
      RecordsOf(routes, order[..n]) + if order[n] in routes then [FromTemplate(routes[order[n]])] else []
  }

  ghost predicate RecordedIn(records: seq<RouteRecord>, t: RouteTemplate) {
    exists r :: r in records && RecordFor(r, t)
  }

  ghost predicate IsRecordOf(routes: map<nat, RouteTemplate>, keys: set<nat>, r: RouteRecord) {
    exists s :: s in keys && s in routes && RecordFor(r, routes[s])
  }

  /** One record for each of the routes, and no other. */
  lemma {:induction false} RecordsMean(routes: map<nat, RouteTemplate>, order: seq<nat>, keys: set<nat>)
    requires Enumerates(order, keys) && keys <= routes.Keys
    ensures |RecordsOf(routes, order)| == |keys|
    ensures forall s :: s in keys ==> RecordedIn(RecordsOf(routes, order), routes[s])
    ensures forall r :: r in RecordsOf(routes, order) ==> IsRecordOf(routes, keys, r)
    decreases |order|
  {
    if order != [] {
      var n := |order| - 1;
      var last, before, all := order[n], RecordsOf(routes, order[..n]), RecordsOf(routes, order);
      RecordsMean(routes, order[..n], keys - {last});
      assert FromTemplate(routes[last]) in all && RecordFor(FromTemplate(routes[last]), routes[last]);
      forall s | s in keys && s != last ensures RecordedIn(all, routes[s]) {
        var r :| r in before && RecordFor(r, routes[s]);
        assert r in all;
      }
      forall r | r in before ensures IsRecordOf(routes, keys, r) {
        assert IsRecordOf(routes, keys - {last}, r);
      }
    }
  }

  function PrintedIndex(index: map<string, nat>): map<string, string> {
    map k | k in index :: Print(index[k])
  }

  function FlushFile(st: StoreInner, hotOrder: seq<nat>, coldOrder: seq<nat>): RouteFile {
    RouteFile(1, RecordsOf(st.routesHot, hotOrder) + RecordsOf(st.routesCold, coldOrder),
              PrintedIndex(st.hopPairIndex))
  }

  ghost predicate IsFlushOf(file: RouteFile, st: StoreInner) {
    exists hotOrder, coldOrder ::
      && Enumerates(hotOrder, st.routesHot.Keys) && Enumerates(coldOrder, st.routesCold.Keys)
      && file == FlushFile(st, hotOrder, coldOrder)
  }

  method CollectRecords(routes: map<nat, RouteTemplate>) returns (records: seq<RouteRecord>, ghost order: seq<nat>)
    ensures Enumerates(order, routes.Keys) && records == RecordsOf(routes, order)
  {
    records, order := [], [];
    var left := routes.Keys;
    while left != {}
      invariant left <= routes.Keys
      invariant Enumerates(order, routes.Keys - left) && records == RecordsOf(routes, order)
      decreases left
    {
      var k :| k in left;
      records := records + [FromTemplate(routes[k])];
      assert (order + [k])[..|order|] == order;
      assert routes.Keys - (left - {k}) - {k} == routes.Keys - left;
      order := order + [k];
      left := left - {k};
    }
    assert routes.Keys - left == routes.Keys;
  }

  /** One record for each stored route of either generation, and the index with its
      signatures printed. */
  ghost predicate Records(file: RouteFile, st: StoreInner) {
    && file.schemaVersion == 1 && |file.routes| == |st.routesHot| + |st.routesCold|
    && (forall s :: s in st.routesHot ==> RecordedIn(file.routes, st.routesHot[s]))
    && (forall s :: s in st.routesCold ==> RecordedIn(file.routes, st.routesCold[s]))
    && (forall r :: r in file.routes ==>
          IsRecordOf(st.routesHot, st.routesHot.Keys, r) || IsRecordOf(st.routesCold, st.routesCold.Keys, r))
    && file.hopPairs.Keys == st.hopPairIndex.Keys
    && (forall k :: k in st.hopPairIndex ==> file.hopPairs[k] == Print(st.hopPairIndex[k]))
  }

  lemma RecordedInMore(some: seq<RouteRecord>, all: seq<RouteRecord>, t: RouteTemplate)
    requires RecordedIn(some, t) && forall r :: r in some ==> r in all
    ensures RecordedIn(all, t)
  {
  }

  lemma FlushRecords(file: RouteFile, st: StoreInner)
    requires IsFlushOf(file, st)
    ensures Records(file, st)
  {
    hide RecordedIn, IsRecordOf, Enumerates, RecordsOf;
    var hotOrder, coldOrder :|
      && Enumerates(hotOrder, st.routesHot.Keys) && Enumerates(coldOrder, st.routesCold.Keys)
      && file == FlushFile(st, hotOrder, coldOrder);
    var hot, cold := RecordsOf(st.routesHot, hotOrder), RecordsOf(st.routesCold, coldOrder);
    RecordsMean(st.routesHot, hotOrder, st.routesHot.Keys);
    RecordsMean(st.routesCold, coldOrder, st.routesCold.Keys);
    assert file.routes == hot + cold;
    assert |st.routesHot.Keys| == |st.routesHot| && |st.routesCold.Keys| == |st.routesCold|;
    forall s | s in st.routesHot ensures RecordedIn(file.routes, st.routesHot[s]) {
      RecordedInMore(hot, file.routes, st.routesHot[s]);
    }
    forall s | s in st.routesCold ensures RecordedIn(file.routes, st.routesCold[s]) {
      RecordedInMore(cold, file.routes, st.routesCold[s]);
    }
  }

  method FlushRoutesToDisk(store: TemplateStore) returns (file: RouteFile)
    ensures IsFlushOf(file, store.Inner()) && Records(file, store.Inner())
  {
    ghost var hotOrder: seq<nat>;
    ghost var coldOrder: seq<nat>;
    var hot, cold;
    hot, hotOrder := CollectRecords(store.routesHot);
    cold, coldOrder := CollectRecords(store.routesCold);
    file := RouteFile(1, hot + cold, PrintedIndex(store.hopPairIndex));
    assert file == FlushFile(store.Inner(), hotOrder, coldOrder);
    FlushRecords(file, store.Inner());
  }

  // ------------------------------------------------ routes from disk

  function LoadRecord(st: StoreInner, r: RouteRecord): StoreInner {
    match Parse(r.sig, U128_MODULUS)
    case None => st
    case Some(sig) =>
      if sig in st.routesHot || sig in st.routesCold then st
      else st.(routesHot := st.routesHot[sig := ToTemplate(r, sig)])
  }

  function LoadRecords(st: StoreInner, records: seq<RouteRecord>): StoreInner {
    if records == [] then st
    else LoadRecord(LoadRecords(st, records[..|records| - 1]), records[|records| - 1])
  }

  /** Existing entries win; unreadable signatures are skipped. */
  function LoadPairs(index: map<string, nat>, pairs: map<string, string>): map<string, nat> {
    (map k | k in pairs && Parse(pairs[k], U128_MODULUS).Some? :: Parse(pairs[k], U128_MODULUS).value) + index
  }

  function LoadRoutes(st: StoreInner, file: RouteFile): StoreInner {
    var st' := LoadRecords(st, file.routes);
    st'.(hopPairIndex := LoadPairs(st'.hopPairIndex, file.hopPairs))
  }

  /** The first record whose signature reads as `s`. */
  function FirstRecord(records: seq<RouteRecord>, s: nat): Option<RouteRecord> {
    if records == [] then None
    else if Parse(records[0].sig, U128_MODULUS) == Some(s) then Some(records[0])
    else FirstRecord(records[1..], s)
  }

  /** What loading does to the route `s`: a stored one stays, another comes from its
      first record, into hot, without variants. */
  ghost predicate LoadedFrom(records: seq<RouteRecord>, before: StoreInner, hot: map<nat, RouteTemplate>, s: nat) {
    if s in before.routesHot then s in hot && hot[s] == before.routesHot[s]
    else if s in before.routesCold then s !in hot
    else
      match FirstRecord(records, s)
      case None => s !in hot
      case Some(r) => s in hot && IsLoaded(r, s, hot[s])
  }

  ghost predicate IsLoaded(r: RouteRecord, s: nat, t: RouteTemplate) {
    SameFields(r, t) && t.routeSignature == s && t.amountVariants == map[]
  }

  lemma {:induction false} FirstRecordAppend(records: seq<RouteRecord>, r: RouteRecord, s: nat)
    ensures FirstRecord(records + [r], s)
            == if FirstRecord(records, s).None? && Parse(r.sig, U128_MODULUS) == Some(s) then Some(r)
               else FirstRecord(records, s)
  {
    if records == [] {
      assert [r][1..] == [] && records + [r] == [r];
    } else {
      assert (records + [r])[1..] == records[1..] + [r];
      FirstRecordAppend(records[1..], r, s);
    }
  }

  lemma LoadRecordMeans(before: StoreInner, records: seq<RouteRecord>, st: StoreInner, r: RouteRecord, s: nat)
    requires LoadedFrom(records, before, st.routesHot, s) && st.routesCold == before.routesCold
    ensures LoadedFrom(records + [r], before, LoadRecord(st, r).routesHot, s)
    ensures LoadRecord(st, r) == st.(routesHot := LoadRecord(st, r).routesHot)
  {
    hide FirstRecord, Parse;
    FirstRecordAppend(records, r, s);
  }

  lemma {:induction false} LoadRecordsMean(st: StoreInner, records: seq<RouteRecord>, s: nat)
    ensures LoadedFrom(records, st, LoadRecords(st, records).routesHot, s)
    ensures LoadRecords(st, records) == st.(routesHot := LoadRecords(st, records).routesHot)
  {
    hide FirstRecord, LoadRecord, LoadedFrom;
    if records == [] {
      NothingFirst(st, s);
    } else {
      var n := |records| - 1;
      LoadRecordsMean(st, records[..n], s);
      LoadRecordMeans(st, records[..n], LoadRecords(st, records[..n]), records[n], s);
      assert records[..n] + [records[n]] == records;
    }
  }

  lemma NothingFirst(st: StoreInner, s: nat)
    ensures LoadedFrom([], st, st.routesHot, s)
  {
  }

  lemma LoadRoutesMean(st: StoreInner, file: RouteFile)
    ensures var after, index := LoadRoutes(st, file), LoadRoutes(st, file).hopPairIndex;
            && (forall s :: LoadedFrom(file.routes, st, after.routesHot, s))
            && after.routesCold == st.routesCold && after.hops == st.hops
            && (forall k :: k in index <==>
                  k in st.hopPairIndex || (k in file.hopPairs && Parse(file.hopPairs[k], U128_MODULUS).Some?))
            && (forall k :: k in index ==>
                  if k in st.hopPairIndex then index[k] == st.hopPairIndex[k]
                  else Parse(file.hopPairs[k], U128_MODULUS) == Some(index[k]))
  {
    hide LoadedFrom, LoadRecords, Parse;
    forall s ensures LoadedFrom(file.routes, st, LoadRecords(st, file.routes).routesHot, s) {
      LoadRecordsMean(st, file.routes, s);
    }
    LoadRecordsMean(st, file.routes, 0);
  }

  method LoadRoutesFromDisk(store: TemplateStore, file: RouteFile) returns (count: nat)
    modifies store
    ensures store.Inner() == LoadRoutes(old(store.Inner()), file)
    ensures count == |store.routesHot| - |old(store.routesHot)|
    ensures forall s :: LoadedFrom(file.routes, old(store.Inner()), store.routesHot, s)
    ensures store.routesCold == old(store.routesCold) && store.hops == old(store.hops)
    ensures forall k :: k in store.hopPairIndex <==>
              k in old(store.hopPairIndex)
              || (k in file.hopPairs && Parse(file.hopPairs[k], U128_MODULUS).Some?)
    ensures forall k :: k in store.hopPairIndex ==>
              if k in old(store.hopPairIndex) then store.hopPairIndex[k] == old(store.hopPairIndex)[k]
              else Parse(file.hopPairs[k], U128_MODULUS) == Some(store.hopPairIndex[k])
  {
    hide LoadedFrom, LoadPairs, LoadRecord;
    LoadRoutesMean(store.Inner(), file);
    count := 0;
    for i := 0 to |file.routes|
      invariant store.Inner() == LoadRecords(old(store.Inner()), file.routes[..i])
      invariant count == |store.routesHot| - |old(store.routesHot)|
      invariant store.hopPairIndex == old(store.hopPairIndex)
    {
      assert file.routes[..i + 1][..i] == file.routes[..i];
      var added := LoadOne(store, file.routes[i]);
      if added {
        count := count + 1;
      }
    }
    assert file.routes[..|file.routes|] == file.routes;
    LoadPairsInto(store, file.hopPairs);
  }

  method LoadOne(store: TemplateStore, rec: RouteRecord) returns (added: bool)
    modifies store`routesHot
    ensures store.Inner() == LoadRecord(old(store.Inner()), rec)
    ensures |store.routesHot| == |old(store.routesHot)| + if added then 1 else 0
  {
    var sig := Parse(rec.sig, U128_MODULUS);
    if sig.None? || sig.value in store.routesHot || sig.value in store.routesCold {
      return false;
    }
    store.routesHot := store.routesHot[sig.value := ToTemplate(rec, sig.value)];
    added := true;
  }

  method LoadPairsInto(store: TemplateStore, pairs: map<string, string>)
    modifies store`hopPairIndex
    ensures store.hopPairIndex == LoadPairs(old(store.hopPairIndex), pairs)
  {
    var left := pairs.Keys;
    while left != {}
      invariant left <= pairs.Keys
      invariant store.hopPairIndex == LoadPairs(old(store.hopPairIndex), pairs - left)
      decreases left
    {
      var k :| k in left;
      LoadPairsStep(old(store.hopPairIndex), pairs, left, k);
      var sig := Parse(pairs[k], U128_MODULUS);
      if sig.Some? && k !in store.hopPairIndex {
        store.hopPairIndex := store.hopPairIndex[k := sig.value];
      }
      left := left - {k};
    }
    assert pairs - left == pairs;
  }

  lemma LoadPairsStep(index: map<string, nat>, pairs: map<string, string>, left: set<string>, k: string)
    requires k in left && left <= pairs.Keys
    ensures var before, sig := LoadPairs(index, pairs - left), Parse(pairs[k], U128_MODULUS);
            LoadPairs(index, pairs - (left - {k}))
            == if sig.Some? && k !in before then before[k := sig.value] else before
  {
    var before, after := LoadPairs(index, pairs - left), LoadPairs(index, pairs - (left - {k}));
    var sig := Parse(pairs[k], U128_MODULUS);
    assert k in before <==> k in index;
    var expected := if sig.Some? && k !in before then before[k := sig.value] else before;
    forall j ensures j in after <==> j in expected {
      if j != k { assert j in pairs - left <==> j in pairs - (left - {k}); }
    }
    forall j | j in after ensures after[j] == expected[j] {
      if j != k { assert j in pairs - left <==> j in pairs - (left - {k}); }
    }
  }

  // ------------------------------------------------ the route round trip

  function Emptied(t: RouteTemplate): RouteTemplate {
    t.(amountVariants := map[])
  }

  function Selected(routes: map<nat, RouteTemplate>, keys: set<nat>): map<nat, RouteTemplate> {
    map s | s in routes && s in keys :: Emptied(routes[s])
  }

  /** Both generations in one, with the variants emptied. */
  function Reunited(st: StoreInner): map<nat, RouteTemplate> {
    Selected(st.routesHot, st.routesHot.Keys) + Selected(st.routesCold, st.routesCold.Keys)
  }

  ghost predicate SigsFit(st: StoreInner) {
    && (forall s :: s in st.routesHot || s in st.routesCold ==> s < U128_MODULUS)
    && (forall k :: k in st.hopPairIndex ==> st.hopPairIndex[k] < U128_MODULUS)
  }

  lemma PushFits(st: StoreInner, sig: nat, t: RouteTemplate)
    requires SigsFit(st) && sig < U128_MODULUS
    ensures SigsFit(PushHotRoute(st, sig, t)) && PushHotRoute(st, sig, t).hopPairIndex == st.hopPairIndex
  {
  }

  lemma SelectedStep(hot: map<nat, RouteTemplate>, routes: map<nat, RouteTemplate>, keys: set<nat>, s: nat)
    requires s in keys && s in routes && s !in hot
    ensures s !in hot + Selected(routes, keys - {s})
    ensures (hot + Selected(routes, keys - {s}))[s := Emptied(routes[s])] == hot + Selected(routes, keys)
  {
  }

  /** Loading the records of some routes adds exactly those routes. */
  lemma {:induction false} LoadsRecordsOf(st: StoreInner, routes: map<nat, RouteTemplate>, order: seq<nat>,
                                          keys: set<nat>)
    requires Enumerates(order, keys) && keys <= routes.Keys && KeyedBySig(routes)
    requires st.routesHot.Keys !! keys && st.routesCold == map[]
    requires forall s :: s in keys ==> s < U128_MODULUS
    ensures LoadRecords(st, RecordsOf(routes, order)) == st.(routesHot := st.routesHot + Selected(routes, keys))
    decreases |order|
  {
    if order == [] {
      assert st.routesHot + Selected(routes, {}) == st.routesHot;
    } else {
      var n := |order| - 1;
      var s := order[n];
      LoadsRecordsOf(st, routes, order[..n], keys - {s});
      var before, r := RecordsOf(routes, order[..n]), FromTemplate(routes[s]);
      assert (before + [r])[..|before|] == before;
      ParseOfPrint(s, U128_MODULUS);
      assert ToTemplate(r, s) == Emptied(routes[s]);
      SelectedStep(st.routesHot, routes, keys, s);
    }
  }

  lemma {:induction false} LoadRecordsConcat(st: StoreInner, a: seq<RouteRecord>, b: seq<RouteRecord>)
    ensures LoadRecords(st, a + b) == LoadRecords(LoadRecords(st, a), b)
  {
    if b == [] {
      assert a + b == a;
    } else {
      assert (a + b)[..|a + b| - 1] == a + b[..|b| - 1];
      LoadRecordsConcat(st, a, b[..|b| - 1]);
    }
  }

  lemma PairsRoundTrip(index: map<string, nat>)
    requires forall k :: k in index ==> index[k] < U128_MODULUS
    ensures LoadPairs(map[], PrintedIndex(index)) == index
  {
    forall k | k in index ensures Parse(PrintedIndex(index)[k], U128_MODULUS) == Some(index[k]) {
      ParseOfPrint(index[k], U128_MODULUS);
    }
  }

  lemma GenerationsRoundTrip(st: StoreInner, hotOrder: seq<nat>, coldOrder: seq<nat>, hops: map<HopKey, HopTemplate>)
    requires Consistent(st) && SigsFit(st)
    requires Enumerates(hotOrder, st.routesHot.Keys) && Enumerates(coldOrder, st.routesCold.Keys)
    ensures LoadRecords(EMPTY_STORE.(hops := hops), FlushFile(st, hotOrder, coldOrder).routes)
            == StoreInner(Reunited(st), map[], hops, map[])
  {
    var hot, cold := RecordsOf(st.routesHot, hotOrder), RecordsOf(st.routesCold, coldOrder);
    var start := EMPTY_STORE.(hops := hops);
    LoadsRecordsOf(start, st.routesHot, hotOrder, st.routesHot.Keys);
    var half := LoadRecords(start, hot);
    assert half.routesHot == Selected(st.routesHot, st.routesHot.Keys);
    LoadsRecordsOf(half, st.routesCold, coldOrder, st.routesCold.Keys);
    LoadRecordsConcat(start, hot, cold);
  }

  /** Loading a flush into a store that holds only hops restores the union of both
      generations, variants emptied, and the whole hop-pair index. */
  lemma RoutesRoundTrip(st: StoreInner, file: RouteFile, hops: map<HopKey, HopTemplate>)
    requires Consistent(st) && SigsFit(st) && IsFlushOf(file, st)
    ensures LoadRoutes(EMPTY_STORE.(hops := hops), file) == StoreInner(Reunited(st), map[], hops, st.hopPairIndex)
  {
    var hotOrder, coldOrder :|
      && Enumerates(hotOrder, st.routesHot.Keys) && Enumerates(coldOrder, st.routesCold.Keys)
      && file == FlushFile(st, hotOrder, coldOrder);
    GenerationsRoundTrip(st, hotOrder, coldOrder, hops);
    PairsRoundTrip(st.hopPairIndex);
  }

  // ------------------------------------------------ hops

  /** One file per DEX, its templates keyed by template id. */
  datatype DexHopFile = DexHopFile(schemaVersion: nat, dex: DexKind, templates: map<string, HopTemplate>)

  type HopDir = map<string, DexHopFile>

  function StoreHop(dir: HopDir, key: HopKey, t: HopTemplate): HopDir {
    var stem := FileStem(key.dex);
    var file := if stem in dir then dir[stem] else DexHopFile(1, key.dex, map[]);
    dir[stem := file.(templates := file.templates[TemplateId(key) := t])]
  }

  function GroupHops(hops: map<HopKey, HopTemplate>, order: seq<HopKey>): HopDir
    requires forall i :: 0 <= i < |order| ==> order[i] in hops
  {
    if order == [] then map[]
    else
      var n := |order| - 1;
      StoreHop(GroupHops(hops, order[..n]), order[n], hops[order[n]])
  }

  ghost predicate IsHopFlushOf(dir: HopDir, hops: map<HopKey, HopTemplate>) {
    exists order ::
      && Enumerates(order, hops.Keys) && (forall i :: 0 <= i < |order| ==> order[i] in hops)
      && dir == GroupHops(hops, order)
  }

  /** Writing replaces the file of each DEX that has hops. */
  method FlushHopsToDisk(store: TemplateStore, before: HopDir) returns (dir: HopDir)
    ensures exists written :: IsHopFlushOf(written, store.hops) && dir == before + written
  {
    var byDex: HopDir := map[];
    var left := store.hops.Keys;
    ghost var order: seq<HopKey> := [];
    while left != {}
      invariant left <= store.hops.Keys && Enumerates(order, store.hops.Keys - left)
      invariant forall i :: 0 <= i < |order| ==> order[i] in store.hops
      invariant byDex == GroupHops(store.hops, order)
      decreases left
    {
      var key :| key in left;
      byDex := StoreHop(byDex, key, store.hops[key]);
      assert (order + [key])[..|order|] == order;
      assert store.hops.Keys - (left - {key}) - {key} == store.hops.Keys - left;
      order := order + [key];
      left := left - {key};
    }
    assert store.hops.Keys - left == store.hops.Keys;
    assert IsHopFlushOf(byDex, store.hops);
    dir := before + byDex;
  }

  /** Files of the first schema, each naming the DEX of its stem. */
  ghost predicate WellNamed(dir: HopDir) {
    forall stem :: stem in dir ==> dir[stem].schemaVersion == 1 && FileStem(dir[stem].dex) == stem
  }

  lemma {:induction false} GroupedWellNamed(hops: map<HopKey, HopTemplate>, order: seq<HopKey>)
    requires forall i :: 0 <= i < |order| ==> order[i] in hops
    ensures WellNamed(GroupHops(hops, order))
  {
    hide FileStem, TemplateId;
    if order != [] { GroupedWellNamed(hops, order[..|order| - 1]); }
  }

  ghost predicate InDir(dir: HopDir, t: HopTemplate) {
    exists stem, id :: stem in dir && id in dir[stem].templates && dir[stem].templates[id] == t
  }

  /** Walking the directory lists every template it holds, in some order. */
  ghost predicate ListsDir(list: seq<HopTemplate>, dir: HopDir) {
    forall t :: t in list <==> InDir(dir, t)
  }

  function LoadHops(hops: map<HopKey, HopTemplate>, list: seq<HopTemplate>): map<HopKey, HopTemplate> {
    if list == [] then hops
    else
      var n := |list| - 1;
      var before := LoadHops(hops, list[..n]);
      if list[n].key in before then before else before[list[n].key := list[n]]
  }

  /** The first hop record listed for a key. */
  function FirstHop(list: seq<HopTemplate>, key: HopKey): Option<HopTemplate> {
    if list == [] then None else if list[0].key == key then Some(list[0]) else FirstHop(list[1..], key)
  }

  lemma {:induction false} FirstHopAppend(list: seq<HopTemplate>, t: HopTemplate, key: HopKey)
    ensures FirstHop(list + [t], key)
            == if FirstHop(list, key).None? && t.key == key then Some(t) else FirstHop(list, key)
  {
    if list == [] {
      assert [t][1..] == [] && list + [t] == [t];
    } else {
      assert (list + [t])[1..] == list[1..] + [t];
      FirstHopAppend(list[1..], t, key);
    }
  }

  lemma {:induction false} LoadKeepsFirst(hops: map<HopKey, HopTemplate>, list: seq<HopTemplate>, key: HopKey)
    ensures var after := LoadHops(hops, list);
            (if key in after then Some(after[key]) else None)
            == if key in hops then Some(hops[key]) else FirstHop(list, key)
  {
    if list != [] {
      var n := |list| - 1;
      LoadKeepsFirst(hops, list[..n], key);
      FirstHopAppend(list[..n], list[n], key);
      assert list[..n] + [list[n]] == list;
    }
  }

  /** A known hop stays; any other is the first one listed for its key. */
  method LoadFromDisk(store: TemplateStore, list: seq<HopTemplate>) returns (count: nat)
    modifies store`hops
    ensures store.hops == LoadHops(old(store.hops), list) && count == |list|
    ensures forall key :: (if key in store.hops then Some(store.hops[key]) else None)
              == if key in old(store.hops) then Some(old(store.hops)[key]) else FirstHop(list, key)
  {
    forall key
      ensures var after := LoadHops(store.hops, list);
              (if key in after then Some(after[key]) else None)
              == if key in store.hops then Some(store.hops[key]) else FirstHop(list, key)
    {
      LoadKeepsFirst(store.hops, list, key);
    }
    count := 0;
    for i := 0 to |list|
      invariant store.hops == LoadHops(old(store.hops), list[..i]) && count == i
    {
      assert list[..i + 1][..i] == list[..i];
      if list[i].key !in store.hops {
        store.hops := store.hops[list[i].key := list[i]];
      }
      count := count + 1;
    }
    assert list[..|list|] == list;
  }

  ghost predicate StoredAt(dir: HopDir, k: HopKey, t: HopTemplate) {
    var stem := FileStem(k.dex);
    stem in dir && TemplateId(k) in dir[stem].templates && dir[stem].templates[TemplateId(k)] == t
  }

  ghost predicate HasSlot(dir: HopDir, stem: string, id: string) {
    stem in dir && id in dir[stem].templates
  }

  ghost predicate IsSlotOf(k: HopKey, stem: string, id: string) {
    stem == FileStem(k.dex) && id == TemplateId(k)
  }

  /** The directory holds, in the slot of each key, exactly its template. */
  ghost predicate Holds(dir: HopDir, hops: map<HopKey, HopTemplate>, keys: set<HopKey>)
    requires keys <= hops.Keys
  {
    && (forall k :: k in keys ==> StoredAt(dir, k, hops[k]))
    && (forall stem, id :: HasSlot(dir, stem, id) ==> exists k :: k in keys && IsSlotOf(k, stem, id))
  }

  /** No two of these keys share file stem and template id. */
  ghost predicate SlotsDistinct(keys: set<HopKey>) {
    forall j, k :: j in keys && k in keys && j != k ==>
                     FileStem(j.dex) != FileStem(k.dex) || TemplateId(j) != TemplateId(k)
  }

  /** Colon-free keys have slots of their own. */
  lemma ColonFreeDistinct(keys: set<HopKey>)
    requires forall k :: k in keys ==> Without(k, ':')
    ensures SlotsDistinct(keys)
  {
    hide FileStem, TemplateId, Without;
    forall j, k | j in keys && k in keys && j != k
      ensures FileStem(j.dex) != FileStem(k.dex) || TemplateId(j) != TemplateId(k)
    {
      if FileStem(j.dex) == FileStem(k.dex) && TemplateId(j) == TemplateId(k) { StoredIdInjective(j, k); }
    }
  }

  lemma StoreHopStores(dir: HopDir, key: HopKey, t: HopTemplate)
    ensures StoredAt(StoreHop(dir, key, t), key, t)
    ensures forall k, u ::
              StoredAt(dir, k, u) && (FileStem(k.dex) != FileStem(key.dex) || TemplateId(k) != TemplateId(key))
              ==> StoredAt(StoreHop(dir, key, t), k, u)
    ensures forall stem, id ::
              HasSlot(StoreHop(dir, key, t), stem, id) ==> HasSlot(dir, stem, id) || IsSlotOf(key, stem, id)
  {
  }

  lemma StoreHopHolds(dir: HopDir, hops: map<HopKey, HopTemplate>, keys: set<HopKey>, key: HopKey)
    requires keys <= hops.Keys && key in hops && key !in keys && Holds(dir, hops, keys)
    requires SlotsDistinct(keys + {key})
    ensures Holds(StoreHop(dir, key, hops[key]), hops, keys + {key})
  {
    StoreHopStores(dir, key, hops[key]);
    var dir' := StoreHop(dir, key, hops[key]);
    forall k | k in keys ensures StoredAt(dir', k, hops[k]) {
      assert k in keys + {key} && key in keys + {key};
    }
    forall stem, id | HasSlot(dir', stem, id) ensures exists k :: k in keys + {key} && IsSlotOf(k, stem, id) {
      if IsSlotOf(key, stem, id) {
        assert key in keys + {key};
      } else {
        var k :| k in keys && IsSlotOf(k, stem, id);
        assert k in keys + {key};
      }
    }
  }

  lemma {:induction false} GroupHopsHolds(hops: map<HopKey, HopTemplate>, order: seq<HopKey>, keys: set<HopKey>)
    requires Enumerates(order, keys) && keys <= hops.Keys
    requires forall i :: 0 <= i < |order| ==> order[i] in hops
    requires SlotsDistinct(keys)
    ensures Holds(GroupHops(hops, order), hops, keys)
    decreases |order|
  {
    if order != [] {
      var n := |order| - 1;
      GroupHopsHolds(hops, order[..n], keys - {order[n]});
      StoreHopHolds(GroupHops(hops, order[..n]), hops, keys - {order[n]}, order[n]);
      assert keys - {order[n]} + {order[n]} == keys;
    }
  }

  lemma FlushHolds(hops: map<HopKey, HopTemplate>, written: HopDir)
    requires IsHopFlushOf(written, hops) && SlotsDistinct(hops.Keys)
    ensures Holds(written, hops, hops.Keys)
  {
    var order :| Enumerates(order, hops.Keys) && (forall i :: 0 <= i < |order| ==> order[i] in hops)
                 && written == GroupHops(hops, order);
    GroupHopsHolds(hops, order, hops.Keys);
  }

  /** What loading leaves: the first template listed for each key. */
  lemma {:induction false} LoadHopsMeans(list: seq<HopTemplate>)
    ensures forall t :: t in list ==> t.key in LoadHops(map[], list)
    ensures forall k :: k in LoadHops(map[], list) ==>
                          LoadHops(map[], list)[k] in list && LoadHops(map[], list)[k].key == k
  {
    if list != [] {
      LoadHopsMeans(list[..|list| - 1]);
    }
  }

  lemma DirListsHops(dir: HopDir, hops: map<HopKey, HopTemplate>, t: HopTemplate)
    requires Holds(dir, hops, hops.Keys) && KeyedByHop(hops)
    ensures InDir(dir, t) <==> t.key in hops && hops[t.key] == t
  {
    if InDir(dir, t) {
      var stem, id :| stem in dir && id in dir[stem].templates && dir[stem].templates[id] == t;
      assert HasSlot(dir, stem, id);
      var k :| k in hops.Keys && IsSlotOf(k, stem, id);
      assert StoredAt(dir, k, hops[k]);
    }
    if t.key in hops && hops[t.key] == t {
      assert t.key in hops.Keys && StoredAt(dir, t.key, t);
      assert HasSlot(dir, FileStem(t.key.dex), TemplateId(t.key));
    }
  }

  lemma LoadIsExact(hops: map<HopKey, HopTemplate>, list: seq<HopTemplate>)
    requires KeyedByHop(hops) && forall t :: t in list <==> t.key in hops && hops[t.key] == t
    ensures LoadHops(map[], list) == hops
  {
    LoadHopsMeans(list);
    forall k | k in hops ensures k in LoadHops(map[], list) {
      assert hops[k] in list;
    }
  }

  // ------------------------------------------------ the directory over a run

  ghost predicate HasStem(hops: map<HopKey, HopTemplate>, stem: string) {
    exists k :: k in hops && FileStem(k.dex) == stem
  }

  /** Every file is of a DEX that has hops. */
  ghost predicate StemsKnown(dir: HopDir, hops: map<HopKey, HopTemplate>) {
    forall stem :: stem in dir ==> HasStem(hops, stem)
  }

  ghost predicate HoldsOwn(file: DexHopFile, stem: string) {
    exists id :: id in file.templates && FileStem(file.templates[id].key.dex) == stem
  }

  /** No file is without a hop of its own DEX. */
  ghost predicate NoEmptyFile(dir: HopDir) {
    forall stem :: stem in dir ==> HoldsOwn(dir[stem], stem)
  }

  lemma StoreHopOwn(dir: HopDir, key: HopKey, t: HopTemplate)
    requires NoEmptyFile(dir) && t.key == key
    ensures NoEmptyFile(StoreHop(dir, key, t))
    ensures StoreHop(dir, key, t).Keys == dir.Keys + {FileStem(key.dex)}
  {
    hide FileStem, TemplateId;
    var dir' := StoreHop(dir, key, t);
    forall stem | stem in dir' ensures HoldsOwn(dir'[stem], stem) {
      if stem == FileStem(key.dex) {
        assert TemplateId(key) in dir'[stem].templates;
      } else {
        assert HoldsOwn(dir[stem], stem);
      }
    }
  }

  function OrderStems(order: seq<HopKey>): set<string> {
    if order == [] then {} else OrderStems(order[..|order| - 1]) + {FileStem(order[|order| - 1].dex)}
  }

  lemma {:induction false} GroupStems(hops: map<HopKey, HopTemplate>, order: seq<HopKey>)
    requires KeyedByHop(hops) && forall i :: 0 <= i < |order| ==> order[i] in hops
    ensures NoEmptyFile(GroupHops(hops, order)) && GroupHops(hops, order).Keys == OrderStems(order)
  {
    hide FileStem, StoreHop, HoldsOwn;
    if order == [] {
      assert GroupHops(hops, order) == map[];
    } else {
      var n := |order| - 1;
      GroupStems(hops, order[..n]);
      StoreHopOwn(GroupHops(hops, order[..n]), order[n], hops[order[n]]);
    }
  }

  lemma {:induction false} OrderStemsMean(order: seq<HopKey>, keys: set<HopKey>, stem: string)
    requires Enumerates(order, keys)
    ensures stem in OrderStems(order) <==> exists k :: k in keys && FileStem(k.dex) == stem
    decreases |order|
  {
    hide FileStem;
    if order != [] {
      var n := |order| - 1;
      var last := order[n];
      OrderStemsMean(order[..n], keys - {last}, stem);
      if k :| k in keys && FileStem(k.dex) == stem { assert k == last || k in keys - {last}; }
    }
  }

  /** A flush writes one file for each DEX that has hops, and no other. */
  lemma WrittenStems(hops: map<HopKey, HopTemplate>, written: HopDir)
    requires KeyedByHop(hops) && IsHopFlushOf(written, hops)
    ensures NoEmptyFile(written) && forall stem :: stem in written <==> HasStem(hops, stem)
    ensures WellNamed(written)
  {
    hide FileStem, KeyedByHop, WellNamed;
    var order :| Enumerates(order, hops.Keys) && (forall i :: 0 <= i < |order| ==> order[i] in hops)
                 && written == GroupHops(hops, order);
    GroupStems(hops, order);
    GroupedWellNamed(hops, order);
    forall stem ensures stem in written <==> HasStem(hops, stem) {
      OrderStemsMean(order, hops.Keys, stem);
      if k :| k in hops.Keys && FileStem(k.dex) == stem { assert k in hops; }
    }
  }

  /** Some of the files of a flush, as when the process ends between two of them. */
  ghost predicate IsPartOfHopFlush(written: HopDir, hops: map<HopKey, HopTemplate>) {
    exists whole :: IsHopFlushOf(whole, hops) && written.Keys <= whole.Keys
                    && forall stem :: stem in written ==> written[stem] == whole[stem]
  }

  lemma PartStems(hops: map<HopKey, HopTemplate>, written: HopDir)
    requires KeyedByHop(hops) && IsPartOfHopFlush(written, hops)
    ensures NoEmptyFile(written) && StemsKnown(written, hops)
  {
    hide KeyedByHop, IsHopFlushOf, HoldsOwn, HasStem;
    var whole :| IsHopFlushOf(whole, hops) && written.Keys <= whole.Keys
                 && forall stem :: stem in written ==> written[stem] == whole[stem];
    WrittenStems(hops, whole);
  }

  /** After a load every file on disk is of a DEX the store knows. */
  lemma LoadedStems(dir: HopDir, list: seq<HopTemplate>)
    requires NoEmptyFile(dir) && ListsDir(list, dir)
    ensures StemsKnown(dir, LoadHops(map[], list)) && KeyedByHop(LoadHops(map[], list))
  {
    hide FileStem;
    LoadHopsMeans(list);
    forall stem | stem in dir ensures HasStem(LoadHops(map[], list), stem) {
      assert HoldsOwn(dir[stem], stem);
      var id :| id in dir[stem].templates && FileStem(dir[stem].templates[id].key.dex) == stem;
      var t := dir[stem].templates[id];
      assert InDir(dir, t) && t in list;
      assert t.key in LoadHops(map[], list);
    }
  }

  lemma StemsStayKnown(dir: HopDir, hops: map<HopKey, HopTemplate>, more: map<HopKey, HopTemplate>)
    requires StemsKnown(dir, hops) && hops.Keys <= more.Keys
    ensures StemsKnown(dir, more)
  {
    forall stem | stem in dir ensures HasStem(more, stem) {
      assert HasStem(hops, stem);
      var k :| k in hops && FileStem(k.dex) == stem;
      assert k in more;
    }
  }

  lemma WrittenCovers(hops: map<HopKey, HopTemplate>, before: HopDir, written: HopDir)
    requires KeyedByHop(hops) && IsHopFlushOf(written, hops) && StemsKnown(before, hops)
    ensures before + written == written
  {
    hide KeyedByHop, IsHopFlushOf, HasStem, NoEmptyFile;
    WrittenStems(hops, written);
  }

  /** Flushing the hops and loading them into an empty store restores every hop
      with its counters, when no two of them share a slot. Older files change
      nothing, as long as they are of DEX kinds the store still knows. */
  lemma HopsRoundTrip(hops: map<HopKey, HopTemplate>, before: HopDir, written: HopDir, list: seq<HopTemplate>)
    requires KeyedByHop(hops) && SlotsDistinct(hops.Keys)
    requires IsHopFlushOf(written, hops) && StemsKnown(before, hops)
    requires ListsDir(list, before + written)
    ensures LoadHops(map[], list) == hops
  {
    hide KeyedByHop, IsHopFlushOf, StemsKnown, Holds, InDir, LoadHops, SlotsDistinct;
    WrittenCovers(hops, before, written);
    FlushHolds(hops, written);
    forall t ensures t in list <==> t.key in hops && hops[t.key] == t {
      DirListsHops(written, hops, t);
    }
    LoadIsExact(hops, list);
  }

  // ------------------------------------------------ when hops overwrite each other

  /** Every template lies in the slot of its own key. */
  ghost predicate OwnSlots(dir: HopDir) {
    forall stem, id :: HasSlot(dir, stem, id) ==> IsSlotOf(dir[stem].templates[id].key, stem, id)
  }

  lemma StoreHopOwnSlot(dir: HopDir, key: HopKey, t: HopTemplate)
    requires OwnSlots(dir) && t.key == key
    ensures OwnSlots(StoreHop(dir, key, t))
  {
    hide FileStem, TemplateId;
    var dir' := StoreHop(dir, key, t);
    forall stem, id | HasSlot(dir', stem, id) ensures IsSlotOf(dir'[stem].templates[id].key, stem, id) {
      if !IsSlotOf(key, stem, id) { assert HasSlot(dir, stem, id); }
    }
  }

  lemma {:induction false} GroupOwnSlots(hops: map<HopKey, HopTemplate>, order: seq<HopKey>)
    requires KeyedByHop(hops) && forall i :: 0 <= i < |order| ==> order[i] in hops
    ensures OwnSlots(GroupHops(hops, order))
  {
    hide OwnSlots, StoreHop;
    if order == [] {
      NothingOwn();
    } else {
      var n := |order| - 1;
      GroupOwnSlots(hops, order[..n]);
      StoreHopOwnSlot(GroupHops(hops, order[..n]), order[n], hops[order[n]]);
    }
  }

  lemma NothingOwn()
    ensures OwnSlots(map[])
  {
  }

  lemma FoundInSlot(dir: HopDir, t: HopTemplate)
    requires OwnSlots(dir) && InDir(dir, t)
    ensures StoredAt(dir, t.key, t)
  {
    var stem, id :| stem in dir && id in dir[stem].templates && dir[stem].templates[id] == t;
    assert HasSlot(dir, stem, id);
  }

  /** Two hops with one slot do not both come back. */
  lemma SharedSlotLoses(hops: map<HopKey, HopTemplate>, written: HopDir, list: seq<HopTemplate>, j: HopKey, k: HopKey)
    requires KeyedByHop(hops) && IsHopFlushOf(written, hops) && ListsDir(list, written)
    requires j in hops && k in hops && j != k && FileStem(j.dex) == FileStem(k.dex) && TemplateId(j) == TemplateId(k)
    ensures LoadHops(map[], list) != hops
  {
    hide FileStem, TemplateId, OwnSlots, InDir;
    var order :| Enumerates(order, hops.Keys) && (forall i :: 0 <= i < |order| ==> order[i] in hops)
                 && written == GroupHops(hops, order);
    GroupOwnSlots(hops, order);
    LoadHopsMeans(list);
    if LoadHops(map[], list) == hops {
      assert hops[j] in list && hops[k] in list;
      FoundInSlot(written, hops[j]);
      FoundInSlot(written, hops[k]);
    }
  }

  lemma SomeHopFlush(hops: map<HopKey, HopTemplate>) returns (written: HopDir)
    ensures IsHopFlushOf(written, hops)
  {
    var order := SomeOrder(hops.Keys);
    EnumeratedIn(order, hops.Keys);
    written := GroupHops(hops, order);
  }

  lemma SomeListing(dir: HopDir) returns (list: seq<HopTemplate>)
    ensures ListsDir(list, dir)
  {
    var all := set stem, id | stem in dir && id in dir[stem].templates :: dir[stem].templates[id];
    list := SomeOrder(all);
    EnumeratedIn(list, all);
    forall t ensures t in list <==> InDir(dir, t) {
      if InDir(dir, t) { EnumeratedAll(list, all, t); }
    }
  }

  /** The hop round trip, exactly: every flush reloads to the very hops that were
      stored if and only if no two of them share file stem and template id. */
  lemma HopsReloadExactly(hops: map<HopKey, HopTemplate>, before: HopDir)
    requires KeyedByHop(hops) && StemsKnown(before, hops)
    ensures (forall written, list :: IsHopFlushOf(written, hops) && ListsDir(list, before + written) ==>
               LoadHops(map[], list) == hops)
            <==> SlotsDistinct(hops.Keys)
  {
    hide KeyedByHop, StemsKnown, IsHopFlushOf, ListsDir, LoadHops, FileStem, TemplateId;
    if SlotsDistinct(hops.Keys) {
      forall written, list | IsHopFlushOf(written, hops) && ListsDir(list, before + written)
        ensures LoadHops(map[], list) == hops
      {
        HopsRoundTrip(hops, before, written, list);
      }
    } else {
      var j, k :| j in hops.Keys && k in hops.Keys && j != k && FileStem(j.dex) == FileStem(k.dex)
                  && TemplateId(j) == TemplateId(k);
      var written := SomeHopFlush(hops);
      WrittenCovers(hops, before, written);
      var list := SomeListing(before + written);
      SharedSlotLoses(hops, written, list, j, k);
    }
  }
}
