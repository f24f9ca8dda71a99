# Verification of the arbitrage engine's concurrent core

This project models, in Dafny, the parts of the engine whose correctness is not
visible from one function body, and proves what they promise over every input,
every run and every interleaving.

- **The route template cache** (`RouteSignature`, `HopKeys`, `AmountPatch`, `Base64`,
  `Decimal`, `RouteStore`, `StoreRetention`, `StoreLinearizability`, `Persistence`,
  `RestartGrowth`, `Metis`, `TemplateFidelity`, `StoreFidelity`, `ConcurrentFidelity`,
  `Transparency`, `HopPairServing`, `RouteServing`, `PoolGuard`): the structural 128-bit
  signature, the byte-offset search and the base64 patcher, the two-generation map
  with its hop-pair index, persistence, and what the cache serves compared with a
  fresh `/swap-instructions` call. Tier 1 is transparent: under the two named
  hypotheses below it serves nothing or exactly what the call returns. Tier 2 serves
  what the call returned for another route with the same pair of hops; when that is
  and is not what it returns for the query is stated exactly.
- **The worker pool** (`WorkerPool` and its `Balance`, `Items`, `Ages`, `Requeues` and
  `Slots` companions, `WorkerLoop`): a LIFO stack behind a counting semaphore, gauges
  and counters, two rate limiters, and a reporter that drains the counters, as a
  transition system whose actions are single operations on shared state. `WorkerLoop`
  holds the same operations as methods on the shared fields; each is proved to be one
  action, so every theorem about reachable pools holds of those fields.
- **The rate limiter** (`RateLimiting`), **the calendar** (`Calendar`), **the per-token
  ledger** (`TokenLedger`, `TokenReport`) and **the token refresh loop** (`TokenRefresh`).

Run `dafny verify dfyconfig.toml` in this directory to check the whole project.

## Assumptions

- **Metis.** What the swap-instruction call answers is modelled as a function of the
  whole route plan and the two amounts, whose data is `pre ++ LE64(amount) ++
  LE64(floor) ++ post`, with `pre`, `post` and the other fields fixed per plan
  (`Metis.Model`, `Metis.WithAmounts`). This is what src/metis.rs:206-209 and the
  comment at src/template_cache.rs:273-282 rely on.
- **Hypotheses of single theorems**, each named and stated where it is used. Tier 1:
  `Metis.AnswersByRoute` (plans with equal hashed swapInfo fields are answered
  alike; amounts within a plan and fields outside swapInfo are not hashed) and
  `Transparency.NoCollision` (no captured byte stream but the query's own has its
  signature), with plans `Readable` so that streams determine routes. Tier 2:
  `HopPairServing.AnswersByHops`, `StreamsDistinct` and `CaptureTypesAgree`.
  `Transparency.ServedIsCaptured`, `TransparentExactly` and
  `HopPairServing.TierTwoExactly` need none of them.
- **Atomic steps.** Operations on atomics, on the semaphore and sections under one
  lock are single steps in a sequentially consistent order. Clock readings never
  decrease.
- **Integers.** `u64` amounts and floors wrap where the code adds with `+` in a build
  without overflow checks, and saturate where it says so. Counters are unbounded.
- **Text.** A `string` holds one `char` per UTF-8 byte, the order Rust compares by.
- **Outside answers.** HTTP, gRPC and build results are arbitrary values chosen afresh
  at every step; the clock is a parameter.

## Where the code differs from its comments

- The multiplier at src/template_cache.rs:31 is 2^32+0x1b3, not the 64-bit FNV prime.
  It is odd, which is all the results need; nothing here claims FNV conformance.
- The bound of twice the cap (src/template_cache.rs:8-10) fails after loading. A flush
  writes both generations and loading puts all of them into hot without checking the
  cap (src/template_cache.rs:695), so the bound holds in a process if and only if it
  loaded at most one cap of routes (`RestartGrowth.DocumentedBoundExactly`), one restart
  can already pass it (`RestartGrowth.OneRestartPassesBound`), and every further restart
  can add a cap: `RestartGrowth.GrowthExactly`.
- Tier 2 is described as serving the same route when an unstable swapInfo field
  differs (src/arbitrage.rs:574-577). It is used only when the query's own signature
  cannot be served, so its answer is for a route with another signature (when nothing
  runs between the tiers; a spawned task, src/arbitrage.rs:618-662, can capture the
  query's own plan between the lookups at lines 561 and 579-584, and then the index may
  name the query's own signature). For a given Metis it is right for the query in all
  runs exactly when `HopPairServing.TierTwoExactly` says; for every Metis that answers
  by route it never is (`TierTwoForEveryMetis`), and `TierTwoCanDiffer` is a run.
- The refresh loop subtracts whole seconds, so its 60-second margin is really a
  little over 59 seconds: prompt exchanges within 60 seconds and tokens with 70 seconds
  left do not suffice. `TokenRefresh.FreshnessExactly` gives the exact condition.
- Timestamps sort like instants up to the end of year 9999 and no further:
  `Calendar.IsoSortsExactly`.
- The rate slot is taken before the transaction is built, so the limits bound grants
  and, through `WorkerPoolSlots.EverySlotSpent`, the number of sends, not the times
  at which sends happen.
- `push_to_queue` stamps an item before it pushes it, so the age counts from the stamp.

## Model

| member | source | states |
|---|---|---|
| `RouteSignature.Fnv1a64` | src/template_cache.rs:25-60 | One pass over a plan, key by key and byte by byte, is the fold of the mixing step over the canonical byte stream of its hops, for any seed. |
| `RouteSignature.FeedKeys` | src/template_cache.rs:35-58 | Going through the sorted keys and skipping the amounts feeds exactly the text of the sorted non-amount fields. |
| `RouteSignature.ComputeRouteSig` | src/template_cache.rs:19-23 | The signature is the two passes from the two seeds side by side, a function of the byte stream alone. |
| `RouteSignature.StreamIsCanonical` | src/template_cache.rs:35-58 | Two plans whose hops all have an `ammKey` and whose keys and values avoid `=` and `;` feed the same bytes if and only if they agree hop by hop on every printed non-amount field. The stream is a function of those fields alone, so key order, amounts and fields outside swapInfo never matter. |
| `RouteSignature.HashedFieldsMean` | src/template_cache.rs:37-54 | A field is hashed exactly when it is there and none of `inAmount`, `outAmount`, `feeAmount`; strings and numbers by their text, booleans as `T` or `F`, anything else as nothing. |
| `RouteSignature.SignedFieldsExactly` | src/template_cache.rs:35-58 | Setting one swapInfo field changes what is hashed if and only if it is none of the three amounts and it was absent or printed otherwise; setting an amount leaves the signature as it is. |
| `RouteSignature.OnlyRouteIsSigned` | src/template_cache.rs:35-58 | Plans whose hops agree on every swapInfo field but the three amounts have the same signature, whatever else they hold. |
| `RouteSignature.BoundariesNeedAmmKey` | src/template_cache.rs:35-58 | Without an `ammKey` in every hop two different hop lists can feed the same bytes: a concrete pair, and the bytes. |
| `RouteSignature.FoldInjective` | src/template_cache.rs:25-60 | A whole pass is injective in its starting state, because xor and multiplication by the odd constant are bijections modulo 2^64. |
| `RouteSignature.OneByteSeparates` | src/template_cache.rs:25-60 | Two streams that differ in exactly one byte always give different results, from any seed. |
| `RouteSignature.HalvesDiffer` | src/template_cache.rs:15-23 | The two 64-bit halves of any signature are never equal. |
| `RouteSignature.FlippedBooleanSeparates` | src/template_cache.rs:25-60 | Two plans that differ in exactly one hashed boolean of one hop differ in both 64-bit halves of their signatures. |
| `RouteSignature.TimesUndone` | src/template_cache.rs:30-32 | Multiplying by the constant 2^32+0x1b3 modulo 2^64 is undone by multiplying by its inverse. |
| `RouteSignature.ByteThenTimes` | src/template_cache.rs:28-33 | A byte is mixed in before the multiplication: from state zero one byte gives its multiple of 2^32+0x1b3. |
| `RouteSignature.XorBits` | src/template_cache.rs:30 | The mixing is exclusive or, digit by binary digit. |
| `RouteSignature.NoHopsSignature` | src/template_cache.rs:19-23 | A plan without hops has the two seeds of the source, side by side, as its signature. |
| `HopKeys.TemplateIdInjective` | src/template_cache.rs:172-216 | With colon-free pool and mints the printed id determines pool, mints, direction and hash, although `a2b:true` itself holds a colon. |
| `HopKeys.ColonsCollide` | src/template_cache.rs:200-216 | A colon inside a field can make two different hops print the same id: a concrete pair. |
| `HopKeys.PairKeyInjective` | src/template_cache.rs:483-505 | With fields free of `:` and `|` the joined pair key determines both hops in order. |
| `HopKeys.FileStemInjective` | src/template_cache.rs:112-125 | Different DEX kinds get different file stems. |
| `HopKeys.StoredIdInjective` | src/template_cache.rs:112-125 | File stem and template id together determine the whole hop key. |
| `HopKeys.SignatureForgetsTypes` | src/template_cache.rs:43-56 | A concrete pair that feeds the hash identical bytes and gives different hop keys: a boolean direction and the string that prints alike. |
| `HopKeys.HopKeyExactly` | src/template_cache.rs:141-196 | Two swapInfos with equal printed fields give equal hop keys if and only if the JSON types of the fields a hop key reads make no difference: same identified fields, and label and direction read alike. |
| `HopKeys.HopKeyMeans` | src/template_cache.rs:183-196 | A hop is identified if and only if pool and both mints are strings; its key holds just these three, in their places, the DEX of the label if it is a string, the direction read for that DEX, and accounts hash 0. |
| `HopKeys.DirectionMeans` | src/template_cache.rs:141-165 | Only Whirlpools and AlphaQ have a boolean direction, the first boolean among the four names in order; only Aldrin has a side, `bid` or `ask` in any case; all else has none. |
| `HopKeys.DexMeans` | src/template_cache.rs:79-110 | Each DEX kind by what the lower-case label contains, families in order; `swap_v2` and `swapv2` add nothing to `v2`. |
| `HopKeys.LowerMeans` | src/template_cache.rs:80 | Lower-casing changes capital ASCII letters only, each to its small letter. |
| `HopKeys.StemNamesDex` | src/template_cache.rs:79-125 | Every file stem, read as a label, names its own DEX. |
| `HopKeys.TemplateIdText` | src/template_cache.rs:200-216 | The id is pool, input mint, output mint, direction and 0, in that order, with colons. |
| `HopKeys.PairKeyText` | src/template_cache.rs:483-505 | A plan has a pair key if and only if it has exactly two hops and both are identified, and it is their ids in order with a bar. |
| `AmountPatch.DiscoverOffsets` | src/template_cache.rs:284-321 | Both sliding passes compute the answer given by the exact number of matches. |
| `AmountPatch.DiscoveredExactly` | src/template_cache.rs:284-321 | The search answers (p, p+8) if and only if p is the one adjacent pair match, or there is no pair match and p is the one amount match; the answer is in bounds and its two words are disjoint. |
| `AmountPatch.UniqueMatchIsTrueOffset` | src/template_cache.rs:271-321 | In data that does hold the pair, whatever the search returns is where the pair really is. |
| `AmountPatch.PatchAmountsB64` | src/template_cache.rs:323-341 | Overwriting the decoded buffer in place gives the patched text, or nothing when the text does not decode or a word is out of range. |
| `AmountPatch.CopyFromSlice` | src/template_cache.rs:334-337 | The word lands at its offset and the rest of the buffer is unchanged. |
| `AmountPatch.PatchReadsBack` | src/template_cache.rs:323-341 | The last patch reads back, the first one too when the words do not overlap, every other byte and the length are unchanged, and all of it survives base64. |
| `AmountPatch.PatchMovesFrame` | src/template_cache.rs:323-341 | Patching the pair inside its frame gives the frame around the new pair. |
| `AmountPatch.Le64ReadsBack` | src/template_cache.rs:285-287 | Eight little-endian bytes read back as the number. |
| `AmountPatch.LowByteFirst` | src/template_cache.rs:285-287 | The low byte of an amount comes first. |
| `Base64.DecodeOfEncode` | src/template_cache.rs:330-340 | Decoding an encoding gives the bytes back (section 4 of RFC 4648). |
| `Base64.EncodeOfDecode` | src/template_cache.rs:330-331 | Canonical: the only text that decodes to given bytes is their encoding (section 3.5 of RFC 4648). |
| `Base64.AlphabetInOrder` | src/template_cache.rs:330-340 | The standard alphabet in its order (table 1 of RFC 4648). |
| `Base64.SplitIsGroup` | src/template_cache.rs:330-340 | Three bytes and their four sextets are one 24-bit number, high part first (section 4 of RFC 4648). |
| `Base64.EncodedShape` | src/template_cache.rs:330-340 | Encodings come in fours and end in exactly as many `=` as the last group lacks bytes. |
| `Decimal.ParseOfPrint` | src/template_cache.rs:794-819 | A printed number parses back exactly when it fits the width, for 64 and 128 bits alike. |
| `Decimal.ParseExactly` | src/template_cache.rs:680-701 | Exactly the digit strings below the modulus parse, with or without a plus sign, each to its number. |
| `Decimal.PrintInjective` | src/template_cache.rs:794-819 | Different numbers print differently. |
| `RouteStore.TemplateStore.GetRoute` | src/template_cache.rs:402-420 | A hot route is found unchanged and nothing changes; a cold one is found with one more hit and is hot from then on, the hot generation becoming the cold one when it held 2000; others are not found. Both sections back to back are one atomic lookup. |
| `RouteStore.TemplateStore.PushHot` | src/template_cache.rs:533-538 | The new route is hot; every other route stays unless hot was full, and then exactly the routes that were only cold leave; hops and index stay. |
| `RouteStore.TemplateStore.RecordHit` | src/template_cache.rs:423-430 | Of everything stored only one hit counter changes, by one: that of the route in the generation it is found in, hot before cold. |
| `RouteStore.TemplateStore.Insert` | src/template_cache.rs:436-505 | A known route is seen once more and gets the variant for a new amount, keeping those it has, in the generation it is in; a new one is hot with the capture as base and only variant, seen once, with offsets exactly where the amounts are found in the decoded data; its hop pair is indexed unless the key is taken. |
| `RouteStore.TemplateStore.GetRouteForHops` | src/template_cache.rs:507-531 | The lookup through the index is the lookup of the indexed signature; without an index entry it finds nothing and changes nothing. |
| `RouteStore.TemplateStore.CheckHops` | src/template_cache.rs:543-560 | The count is the number of places in the plan whose hop is unknown or cannot be identified, and all hops hit exactly when it is zero (so for a plan without hops too). |
| `RouteStore.MissingMeans` | src/template_cache.rs:543-560 | No hop is missing if and only if each identifies itself and is known. |
| `RouteStore.TemplateStore.Record` | src/template_cache.rs:563-586 | Every hop is counted as often as it occurs in the plan, with this slot as the last seen, and the first seen when it is new; all other hops stay. |
| `RouteStore.RecordedCounts` | src/template_cache.rs:563-586 | The same about the specification, for every key and every list of hops. |
| `RouteStore.TemplateStore.constructor` | src/template_cache.rs:388-398 | A new store is empty. |
| `RouteStore.ApplyKeepsConsistent` | src/template_cache.rs:377-538 | Every operation keeps hot and cold disjoint and every entry under its own signature. |
| `RouteStore.ApplyAllKeepsConsistent` | src/template_cache.rs:377-538 | So does every sequence of operations. |
| `StoreRetention.RetainedExactly` | src/template_cache.rs:402-420 | A stored route survives all operations with at most m pushes if and only if m is at most its slack: twice the cap less the hot routes for a hot route, the cap less the hot routes for a cold one (one cap and none when hot is over the cap); as long as 128-bit signatures last. |
| `StoreRetention.RetainedThroughCapPushes` | src/template_cache.rs:402-420 | So a hot route is still retrievable after any operations that push at most `ROUTE_SEG_CAP` routes, whatever the store holds. |
| `StoreRetention.VisitedNeverEvicted` | src/template_cache.rs:402-420 | A route looked up at least once in every `ROUTE_SEG_CAP` pushes is stored after every single operation of the run, and every one of those lookups finds it. |
| `StoreRetention.OneMorePushEvicts` | src/template_cache.rs:533-538 | From any store one push more than the slack can evict: a sequence of inserts of new routes that does. |
| `StoreRetention.SegmentsBounded` | src/template_cache.rs:402-538 | Neither generation ever exceeds max(cap, n) from a store whose generations hold at most n routes each; from an empty store that is the cap. |
| `RestartGrowth.LoadedSize` | src/template_cache.rs:670-733 | What is loaded from a flush is all hot, and as many routes as both generations held. |
| `RestartGrowth.LoadedPeakExactly` | src/template_cache.rs:436-538 | In a process that loaded n routes no operations take the store past a bound if and only if the bound is at least max(cap, n) + cap, as long as 128-bit signatures last. |
| `RestartGrowth.DocumentedBoundExactly` | src/template_cache.rs:8-10 | So the documented bound of twice the cap holds in a process if and only if it loaded at most one cap of routes. |
| `RestartGrowth.GrowthExactly` | src/template_cache.rs:670-733 | After k flushes and restarts of a store that started empty, the loaded hot generation is within a bound in all runs if and only if the bound is at least k + 1 caps (for k = 0 it is empty), as long as 128-bit signatures last. |
| `RestartGrowth.OneRestartPassesBound` | src/template_cache.rs:670-704 | The failing input: one restart of a full store loads twice the cap, and operations after it reach three times the cap. |
| `StoreLinearizability.Linearizable` | src/template_cache.rs:402-531 | With the lock sections of lookups by signature and by hop pair interleaved arbitrarily with all other operations, store and answers are those of an atomic history, and generations stay disjoint with every entry under its own signature. |
| `StoreLinearizability.PendingWasCalled` | src/template_cache.rs:402-531 | A lookup still waiting was called earlier with that query and its thread has called nothing since, so the atomic instant lies between call and return. |
| `StoreLinearizability.WriteIsAtomicGet` | src/template_cache.rs:409-419 | The write section alone, re-checking hot, is an atomic lookup of the store it finds, also after a promotion or eviction in between. |
| `StoreLinearizability.StillStands` | src/template_cache.rs:507-531 | What a hop-pair lookup read from the index still stands after any operation that comes before it looks the signature up. |
| `ConcurrentFidelity.AnswersAreFaithful` | src/template_cache.rs:402-531 | In every interleaving of lock sections whose inserts carry Metis's answers, each event answers no lookup, or answers one with nothing or with a template that is faithful to captures made before that event, under the signature asked for. |
| `Persistence.FlushRoutesToDisk` | src/template_cache.rs:706-733 | Schema 1, one record for each route of both generations with its printed signature and its own eight fields, no other record, and the whole index with printed signatures. |
| `Persistence.LoadRoutesFromDisk` | src/template_cache.rs:670-704 | Stored routes and pairs stay; every other signature that some record reads as comes from the first such record, into hot without a cap check, without variants; every other readable pair is added; cold and hops stay, and the count is the growth of hot. |
| `Persistence.RoutesRoundTrip` | src/template_cache.rs:670-733 | Flushing a store and loading into one that holds only hops restores the union of hot and cold, variants emptied, and the whole hop-pair index. |
| `Persistence.FlushHopsToDisk` | src/template_cache.rs:735-764 | Every hop, counters included, ends up in the file of its DEX under its id; files of other kinds stay. |
| `Persistence.LoadFromDisk` | src/template_cache.rs:626-658 | A known hop stays, any other key gets the first record listed for it, and every record is counted. |
| `Persistence.HopsReloadExactly` | src/template_cache.rs:626-764 | Over older files only of DEX kinds the store knows, every flush of the hops reloads to exactly those hops, in whatever order they are written and listed, if and only if no two hop keys share file stem and template id. |
| `Persistence.HopsRoundTrip` | src/template_cache.rs:626-764 | One such flush and load: every hop survives with its counters, no two overwriting each other on disk. |
| `Persistence.ColonFreeDistinct` | src/template_cache.rs:200-216 | Hop keys with colon-free fields never share file stem and template id. |
| `Persistence.WrittenStems` | src/template_cache.rs:735-764 | A flush writes a file for exactly the DEX kinds that have hops, of schema 1, under the stem of the DEX it names, and none without a hop of its own. |
| `Metis.MergedIsRoundTrip` | src/metis.rs:185-225 | Quotes merge exactly when both carry a hop list. The merged quote has the hops of both in order, input, amount, mode, version and extra fields of the first, output and slot of the second, impact 0, and both its output fields read back as the floor. |
| `Metis.MergedStream` | src/metis.rs:185-225 | The merged plan visits the hops of the first quote and then of the second, and feeds the signature their two streams in that order. |
| `Metis.MergedInstructions` | src/metis.rs:185-225 | What Metis answers to a merged quote is its answer for the merged route plan itself at that amount, with the on-chain floor as quoted output. |
| `TemplateFidelity.FloorCarriesOver` | src/template_cache.rs:352-369 | Keeping the captured fee difference reproduces the caller's floor for every pair of amounts, wrap-around included: ignoring the passed output is sound. |
| `TemplateFidelity.ServesExactly` | src/template_cache.rs:343-369 | A faithful template serves nothing, exactly when the amount is not cached and no offsets were found, or else what Metis answers at this amount to some plan captured under its signature. |
| `TemplateFidelity.FirstCaptureFaithful` | src/template_cache.rs:467-481 | A first capture is faithful: its offsets, when found, are where Metis put the amounts. |
| `TemplateFidelity.SeenAgainFaithful` | src/template_cache.rs:453-465 | So is a template after another capture under its signature, be it of another plan. |
| `TemplateFidelity.AmountMatchIsTrueOffset` | src/template_cache.rs:304-320 | When Metis embeds another output than the floor and the pair is nowhere by accident, the second pass still finds the true offset or nothing. |
| `TemplateFidelity.OtherOutputExactly` | src/template_cache.rs:323-369 | Then patching gives Metis's answer at the new amount if and only if Metis embeds exactly the floor there. |
| `StoreFidelity.InsertOk` | src/template_cache.rs:436-505 | Inserting Metis's answer to a plan keeps every template faithful to captures under its signature and every index entry to a capture of its pair. |
| `StoreFidelity.LookOk` | src/template_cache.rs:402-420 | A lookup keeps the store faithful, through promotion and eviction, and finds a faithful template stored under its own signature. |
| `StoreFidelity.ReloadOk` | src/template_cache.rs:670-704 | What a restart loads from a flush of a faithful store is faithful. |
| `Transparency.ReachableLookup` | src/template_cache.rs:402-420 | Whatever a lookup finds in a reachable store is faithful to plans captured under that signature. |
| `Transparency.ServedIsCaptured` | src/arbitrage.rs:556-572 | With no assumption on hashes or Metis's plans: something is served exactly when the stored template can serve, and it is Metis's answer at that amount to some plan captured under the signature. |
| `Transparency.CacheIsTransparent` | src/arbitrage.rs:541-572 | If Metis answers alike on plans with equal hashed fields, and no captured stream but the query's has its signature, then in every store reachable by captures, lookups, hits, hop records, flushes and restarts, and for every amount, serving the route of a merged quote yields nothing or exactly Metis's answer to that quote, and says when it is which. Equal signatures become equal routes through the canonical stream. |
| `Transparency.NearCapturesAreSafe` | src/arbitrage.rs:556-572 | Where every captured stream is the query's or differs from it in one byte, no assumption on collisions is needed: the signature keeps them apart. |
| `Transparency.NearStreamsNeverCollide` | src/template_cache.rs:15-60 | Streams that differ in one byte never share a signature. |
| `Transparency.FlippedIsNear` | src/template_cache.rs:25-60 | A plan with one hashed boolean flipped is such a stream. |
| `Transparency.TransparentExactly` | src/arbitrage.rs:556-572 | Without assumptions: a query gets nothing but Metis's answer under Tier 1, in all runs and at all amounts, if and only if Metis answers every plan with the query's signature as it answers the query. |
| `Transparency.ReachableRoundTrip` | src/template_cache.rs:670-733 | Every flush of a reachable store reloads to the union of its generations with its index. |
| `Transparency.ReachableHopsRoundTrip` | src/template_cache.rs:626-764 | Every flush of the hops of a reachable store reloads to exactly those hops, whatever earlier flushes of the run, whole or cut short between two files, in this process or before a restart, left in the directory, if and only if no two hop keys share file stem and template id; with colon-free fields none do. |
| `Transparency.EventsAreOps` | src/template_cache.rs:402-586 | Captures, lookups, hits and hop records of a run are the store operations of the other results, and change no file; flushes change no store. |
| `Transparency.IndexNeverOverwritten` | src/template_cache.rs:483-505 | Within a process an index entry, once made, never changes. |
| `Transparency.OriginsAreGenuine` | src/template_cache.rs:436-505 | Captures on record are exactly captures of the run, each with the plan, signature and pair key of that capture. |
| `HopPairServing.TierTwoServesCaptured` | src/arbitrage.rs:574-601 | Tier 2 serves exactly when the index names a stored template that can serve, and what it serves is Metis's answer to some plan captured under the indexed signature. |
| `HopPairServing.HopKeysExactly` | src/template_cache.rs:183-196 | Plans with equal printed fields have equal hop keys, hop by hop, if and only if their types agree. |
| `HopPairServing.HopPairLookupSound` | src/template_cache.rs:507-531 | If captured streams do not collide and captures that print alike agree in their types, every plan captured under the signature the index names has exactly two hops, like the query, and first hop and second hop have the same strings as `ammKey`, `inputMint` and `outputMint` and the same direction, after any evictions, captures and reloads. |
| `HopPairServing.TierTwoExactly` | src/arbitrage.rs:574-601 | Without assumptions: in all runs and at all amounts, whatever Tier 2 serves the query is Metis's answer to the query, if and only if Metis answers as it answers the query every plan that shares a signature with a plan of the query's hop pair. |
| `HopPairServing.TierTwoForEveryMetis` | src/arbitrage.rs:574-601 | Over every Metis that answers by route, Tier 2 serves a query nothing but Metis's answer in all runs if and only if the query has no hop pair. |
| `HopPairServing.TwinDiffers` | src/template_cache.rs:172-216 | For any two-hop plan there is another with the same hops whose hashed fields differ: one more swapInfo field that no hop key reads. |
| `HopPairServing.TierTwoIsTransparent` | src/arbitrage.rs:574-601 | If Metis depends on nothing but the two hops' pool, mints and direction, Tier 2 yields nothing or exactly Metis's answer to the query. |
| `HopPairServing.TierTwoCanDiffer` | src/arbitrage.rs:556-601 | Otherwise it need not: after capturing any plan, a query with the same hops and another signature misses Tier 1, has all hops known, and is served the captured plan's instructions, which some Metis that answers by route does not give to the query. |
| `HopPairServing.TwinsShareHops` | src/template_cache.rs:172-216 | Plans that differ in one boolean no hop key reads are such a pair, always. |
| `HopPairServing.PlainPlansAreTwins` | src/template_cache.rs:172-216 | A concrete such pair. |
| `RouteServing.Source` | src/arbitrage.rs:552-608 | The tiers in order. Tier 1 serves if and only if the template under the plan's signature can; Tier 2 if and only if Tier 1 cannot, no hop is missing and the indexed template can, and then the index names another signature than the plan's. What is served is Metis's answer to a plan captured under the signature used; under Tier 1, with Metis answering by route and no collision, to this very plan. |
| `RouteServing.ServeBySig` | src/arbitrage.rs:556-572 | Tier 1 serves exactly when the stored template can, keeps the store faithful, and otherwise leaves it as a lookup does. |
| `RouteServing.ServeByHops` | src/arbitrage.rs:574-601 | Tier 2 serves if and only if the index names a stored template that can serve, and what it then serves was captured under that signature. |
| `RouteServing.SaveCapture` | src/arbitrage.rs:652-665 | After a fresh answer is saved its signature and amount are servable, the hops of a two-hop plan are known, and the store stays faithful. |
| `RouteServing.InsertServes` | src/template_cache.rs:436-505 | Right after an insert the captured amount is served: with the answer cached for it before, if there was one, else with the captured one. |
| `RouteServing.CachedIsServed` | src/template_cache.rs:348-351 | A cached variant is served as it is, whatever the offsets. |
| `PoolGuard.RoutesSharePool` | src/arbitrage.rs:84-111 | The guard fires if and only if some pool is visited by a hop of each quote. |
| `PoolGuard.GuardedPairDiffers` | src/arbitrage.rs:251-260 | Past the guard the two hops of a two-hop route, and of its index key, go through different pools. |
| `RateLimiting.RateLimiter.TryAcquire` | src/rate_limiter.rs:20-33 | Allowed exactly when fewer than the limit were granted in the last 1,000,000,000 nanoseconds; what is older goes, everything else stays, and now is added when allowed; the 32-bit cast included. |
| `RateLimiting.RateLimiter.Retain` | src/rate_limiter.rs:23 | Exactly the timestamps after the cutoff stay, in order. |
| `RateLimiting.RetainedMeans` | src/rate_limiter.rs:23 | Filtering keeps every timestamp after the cutoff as often as it was there, and no other. |
| `RateLimiting.RateLimiter.constructor` | src/rate_limiter.rs:11-16 | A new limiter has its limit and no timestamps. |
| `RateLimiting.RunKeeps` | src/rate_limiter.rs:20-33 | Over every run and every window (T-1s, T] the accepted calls never exceed the limit, and the stored list is the accepted times of the last window. |
| `RateLimiting.RefusedExactlyWhenFull` | src/rate_limiter.rs:20-33 | A call is refused if and only if the window ending at it already holds the limit. |
| `RateLimiting.LimitIsSpacing` | src/rate_limiter.rs:20-33 | The window bound is equivalent to spacing: calls `limit` apart in the list are at least a second apart. |
| `RateLimiting.GreedyIsEarlier` | src/rate_limiter.rs:20-33 | Index by index the limiter accepts no later than any selection of the same requests that respects the limit. |
| `RateLimiting.GreedyIsOptimal` | src/rate_limiter.rs:20-33 | For every prefix of every request sequence it accepts at least as many requests as any other selection that respects the window limit. |
| `RateLimiting.RunPairBound` | src/arbitrage.rs:328-348 | With both limiters tried in turn, grants in any one-second window are at most the sum of the two limits. |
| `RateLimiting.PairIsOneLimiter` | src/arbitrage.rs:328-348 | When both read the clock at once, the two limiters in turn grant exactly what one limiter of the summed rate grants. |
| `WorkerPoolBalance.QueueProtocol` | src/arbitrage.rs:301-348 | In every interleaving of any number of workers and producers: stack length = free permits + permits taken and not yet used + permits still owed; a worker's pop never finds the stack empty; the gauge is never negative and equals the stack length when nobody is between stack and gauge. |
| `WorkerPoolBalance.CountersConserved` | src/metrics.rs:126-166 | Summed over all reports and the current values: queued = live + the six ends, `tx_dropped` = its nine reasons, profitable pairs = drops + both sources + failures + in flight, failures = their four kinds; each up to actors between two of their own updates. |
| `WorkerPoolBalance.StepKeepsBalance` | src/arbitrage.rs:301-448 | Every single action keeps all the balance equations. |
| `WorkerPoolBalance.ReachableBalanced` | src/arbitrage.rs:301-448 | So does every run. |
| `WorkerPoolItems.ItemInOnePlace` | src/arbitrage.rs:301-448 | At every point of every interleaving each queued item is in the stack once, or in one worker's hands, or has ended once, and never two of these. |
| `WorkerPoolAges.ArrivalSurvives` | src/arbitrage.rs:322-348 | Wherever an item is it carries the time it first came in, and its waited flag is raised exactly when its wait was counted. |
| `WorkerPoolAges.WaitCountedOnce` | src/arbitrage.rs:338-341 | `rate_requeued` over all reports is the number of distinct items that ever waited. |
| `WorkerPoolRequeues.BuiltInTime` | src/arbitrage.rs:322-326 | No item reaches building that was stale when last looked at: `queue_max_age_ms + 1` milliseconds after it first came in, or later. |
| `WorkerPoolRequeues.DroppedExactlyWhenStale` | src/arbitrage.rs:322-326 | In every reachable pool, a worker that looks at the age of its item counts it as stale and is done with it if and only if it first came in at least `queue_max_age_ms + 1` milliseconds ago; else it goes on to the limiters and counts nothing. |
| `WorkerPoolRequeues.RetriesBounded` | src/arbitrage.rs:322-348 | One worker puts an item back at most `queue_max_age_ms / 20 + 1` times, W workers at most W times as often. |
| `WorkerPoolRequeues.WorkersStayWithinLimits` | src/arbitrage.rs:328-348 | However many workers race, grants in every one-second window are at most the sum of the two limits. |
| `WorkerPoolSlots.EverySlotSpent` | src/arbitrage.rs:328-422 | Every granted slot is being built, was dropped before sending or was counted done; everything counted done is being sent, was sent or failed. |
| `WorkerLoop.Pipeline.Turn` | src/arbitrage.rs:310-422 | One turn with a permit: the last item leaves the stack and comes back flagged exactly when it was in time and both limiters refused; it is dropped as stale exactly when at least `queue_max_age_ms + 1` milliseconds old at its check; permits, gauge and counters follow; the whole turn is a run of that worker's actions. |
| `WorkerLoop.Pipeline.TakeItem` | src/arbitrage.rs:311-320 | A permit in hand always finds an item: the empty branch is dead. |
| `WorkerLoop.Pipeline.Decide` | src/arbitrage.rs:322-420 | Stale at `queue_max_age_ms + 1` milliseconds or more, else put back, or built and sent, by what the limiters allow at the two readings. |
| `WorkerLoop.Pipeline.TakeSlot` | src/arbitrage.rs:328-348 | The second limiter is asked only when the first refuses, at its own later reading. |
| `WorkerLoop.Pipeline.PutBackAndSleep` | src/arbitrage.rs:338-348 | The item goes back flagged, is counted only the first time, releases one permit, and the worker sleeps 20,000,000 nanoseconds and whatever the timer is late. |
| `WorkerLoop.Pipeline.BuildAndSend` | src/arbitrage.rs:350-420 | The ending and its counters follow build, lock limit 64, serialization, size limit 1232 and the send result, in that order. |
| `WorkerLoop.BuildEndingExactly` | src/arbitrage.rs:366-420 | Each ending if and only if: no transaction, or at most 64 locks and not serializable; 65 locks or more; at most 64 locks and 1233 bytes or more; else by the answer to the send. |
| `WorkerLoop.TurnCounts` | src/arbitrage.rs:322-420 | What a turn adds to each counter: one to its own drop reason and to `tx_dropped`, one to `calc_done` when it came to a send, one to `jito_sent` when that worked, one to `rate_requeued` when the item waits for the first time, nothing to any other. |
| `WorkerLoop.Pipeline.RunWorker` | src/arbitrage.rs:308-424 | The loop keeps stack, permits and gauge in step over any number of turns and stops only without a permit. |
| `WorkerLoop.Pipeline.PushToQueue` | src/arbitrage.rs:432-448 | One new unflagged item on top stamped with the time, one more permit, gauge and `queue_in`. |
| `WorkerLoop.Pipeline.Settle` | src/arbitrage.rs:535-677 | The counters of a pair say which way it went, and it enters the queue exactly when it was served from memory or by Metis. |
| `WorkerLoop.VerdictAdds` | src/arbitrage.rs:535-677 | What a settled pair adds to each counter: which reason, source and failure counters belong to which outcome, and `tx_dropped` exactly when it was not served. |
| `WorkerLoop.Pipeline.Report` | src/metrics.rs:126-166 | Every counter is read once into the window and restarts from zero, and no whole-run total changes. |
| `WorkerLoop.Pipeline.constructor` | src/arbitrage.rs:301-303 | The pool starts empty with no permit, at the start state of the transition system. |
| `TokenLedger.NothingLost` | src/token_metrics.rs:64-124 | However the reporter's swaps fall between updates, files, the window being read and the counters add up to everything that happened. |
| `TokenLedger.LedgerBalances` | src/arbitrage.rs:194-265 | At every point of every interleaving `q_sent` = 2 x (`route_ok` + `route_fail` + in flight) and `route_ok` = `profitable` + `not_profitable` + undecided, cumulatively. |
| `TokenLedger.SummaryIsSixWindows` | src/token_metrics.rs:101-124 | Each thirty-minute file holds for each token the sum of its own six five-minute windows, and one is written for every six. |
| `TokenReport.TokenMetrics.QuoteCheck` | src/arbitrage.rs:194-265 | Profitable exactly when both answers came, the second is more than amount plus minimum profit as integers, and no guard objects; failed exactly when an answer is missing or the first buys nothing; only its own token's counters change: two quotes, and `route_fail`, or `route_ok` with `profitable` or `not_profitable`; unknown mints count nothing. |
| `TokenReport.TokenMetrics.Find` | src/token_metrics.rs:51-53 | A mint finds the counters of its last configuration, and nothing exactly when it was not configured. |
| `TokenReport.BuildIndex` | src/token_metrics.rs:43-48 | The index maps each mint to its last position. |
| `TokenReport.LastIndexMeans` | src/token_metrics.rs:43-53 | The last position exists exactly for configured mints, holds that mint, and no later one does. |
| `TokenReport.TokenMetrics.Snapshot` | src/token_metrics.rs:87-99 | Swapping counter by counter reads exactly the counters and leaves zeros. |
| `TokenReport.TokenMetrics.Accumulate` | src/token_metrics.rs:101-108 | The accumulator grows by the window, token by token. |
| `TokenReport.TokenMetrics.Report` | src/token_metrics.rs:79-124 | The five-minute file holds what the counters held; every sixth window the summary holds the accumulator with this window, which restarts from zero. |
| `TokenReport.TokenMetrics.constructor` | src/token_metrics.rs:31-49 | All counters and the accumulator start at zero. |
| `Calendar.EpochDaysToYmd` | src/token_metrics.rs:190-214 | For every day count the loops end with a valid date whose closed-form day number is the day count; the month is never 13. |
| `Calendar.CalendarBijection` | src/token_metrics.rs:190-218 | Day counts and valid dates from 1970 on determine each other, in both directions and in order, by the leap rule (Appendix C of RFC 3339). |
| `Calendar.NextDayNumber` | src/token_metrics.rs:190-218 | The calendar's next day has the next day number, across months, years and leap years. |
| `Calendar.NowIso` | src/token_metrics.rs:177-188 | The text is the date and time of day of the given second. |
| `Calendar.IsoText` | src/token_metrics.rs:177-188 | Up to year 9999 the text is four digits of year, two of month, day, hour, minute and second, with `-`, `T`, `:` and `Z` in their places. |
| `Calendar.IsoSortsExactly` | src/token_metrics.rs:177-188 | Printed timestamps sort as the instants do for all seconds below a limit if and only if the limit is at most 253402300800, the end of year 9999 (section 5.1 of RFC 3339). |
| `Calendar.IsoSorts` | src/token_metrics.rs:177-188 | Up to year 9999 earlier instants print lexicographically smaller text. |
| `Calendar.LastSecondSortsLate` | src/token_metrics.rs:177-188 | The last second of year 9999 does not print before the first second of year 10000. |
| `TokenRefresh.Region.PlanSleep` | src/jito_grpc.rs:333-349 | The planned sleep is the time to 60 seconds before expiry: 10 seconds exactly for an expiry at most 70 seconds ahead, 300 exactly from 360 on and without tokens, the difference in between. |
| `TokenRefresh.Region.Wake` | src/jito_grpc.rs:351-411 | A held refresh token with at least 120 seconds left is sent; the access token that comes back replaces the one held, with the expiry of its message; without such a token, or when the refresh fails, it is a full exchange; a refresh never backs off. |
| `TokenRefresh.Region.Reauthenticate` | src/jito_grpc.rs:357-375 | If the reply brings both tokens, access and refresh token are those of its two messages with their own expiries; otherwise nothing changes and the loop backs off thirty seconds. |
| `TokenRefresh.TokensNeverLost` | src/jito_grpc.rs:328-417 | Once a region holds tokens it holds tokens at every later instant of every run. |
| `TokenRefresh.HeldTokensAreReplies` | src/jito_grpc.rs:301-431 | At every instant of every run the access token held is the first one or the `access` message of a reply received by then, with its expiry in seconds (absent or negative read as 0), and the refresh token the first one or the `refresh` message of a full exchange. |
| `TokenRefresh.RefreshTokenUse` | src/jito_grpc.rs:351-378 | A refresh token is sent if and only if one with at least 120 seconds left is held at the check; it is that one, and the service issued it. |
| `TokenRefresh.FreshnessExactly` | src/jito_grpc.rs:328-417 | With every exchange done within a latency of the planned wake-up, every token having a lifetime left when it is obtained, and its expiry read within a gap: all such runs keep an unexpired access token at every instant if and only if the latency is at most `SafeLatency(lifetime - gap)`. |
| `TokenRefresh.PromptRunIsFresh` | src/jito_grpc.rs:328-417 | Below that bound no instant of any such run, from the first token on, is without an unexpired token. |
| `TokenRefresh.SlowRunExpires` | src/jito_grpc.rs:333-349 | Above it, for any tokens and from any epoch second on, a concrete run whose token expires. |
| `TokenRefresh.MarginsInSeconds` | src/jito_grpc.rs:333-349 | 59 seconds of latency against 69 of lifetime is safe; 60 against 70 is not. |
| `TokenRefresh.ExchangesAreSpaced` | src/jito_grpc.rs:328-417 | Wake-ups come at least ten seconds apart, at least forty after a failed full exchange, and sleeps last at most five minutes. |

## Left out

- HTTP, gRPC and Yellowstone plumbing, request building and reconnects (src/jito.rs, src/account_cache.rs, src/blockhash_cache.rs, the network half of src/metis.rs and src/jito_grpc.rs): their results are arbitrary inputs here.
- Transaction compilation, signing and tip choice (src/transaction.rs): build, lock count and size are arbitrary outcomes of a turn.
- Simulation (src/litesvm_sim.rs) and lookup tables (src/alt_cache.rs): a foreign virtual machine, and fetch-and-memoize.
- JSON text, file renames, directory walking and unreadable files: disk formats are modelled as records, so the round trips start after parsing.
- `write_json`'s sorting and totals (src/token_metrics.rs:129-175): presentation of the same numbers.
- Float conversion of SOL amounts, config parsing and the list of pairs to scan (src/arbitrage.rs:477-501).
- Forbidden-DEX and PMM lists and `lookup_cu_limit`: single-branch facts; the forbidden-DEX result is an input of `TokenReport.TokenMetrics.QuoteCheck`.
- Counters the pool model does not hold: request and response counts, hop-template hits and misses, same-pool drops and fetch-time sums; nothing else depends on them.
- Wrap-around of `u64` counters after 2^64 events.
- Lower-casing of non-ASCII DEX labels: `HopKeys.Lower` lower-cases ASCII letters only.
- Weak-memory effects of relaxed atomics, mutex poisoning and panics.
- `WorkerLoop.Pipeline.Turn`: runs its operations without other actors in between; what happens when others interleave is what the transition system and its theorems cover.
- `RouteServing.Source`: runs the tiers with nothing else in between; a capture by a spawned task between them can make Tier 2 find the plan's own signature, and what it then serves is covered by `ConcurrentFidelity.AnswersAreFaithful`.
- `Transparency.CacheIsTransparent`: assumes that no captured stream but the query's own has its signature, since 128 bits cannot rule that out; `Transparency.NearCapturesAreSafe` needs no such assumption, and `Transparency.TransparentExactly` says what holds without any.
- `HopPairServing.HopPairLookupSound`: assumes that captured streams do not collide, that captures that print alike agree in the types hop keys read, and that pool and mint strings hold no `:` or `|`.
- `RouteSignature.StreamIsCanonical`: its only-if direction needs an `ammKey` in every hop and no `=` or `;` in keys and values; `RouteSignature.BoundariesNeedAmmKey` shows why.
