/** One cached template against Metis (src/template_cache.rs): what it serves is
    what Metis returned, or would have returned, for a plan that was captured under
    the template's signature. */
module TemplateFidelity {
  import opened Text
  import opened Base64
  import opened Decimal
  import opened AmountPatch
  import opened RouteSignature
  import opened HopKeys
  import opened RouteStore
  import opened Persistence
  import opened Metis

  /** A capture on record: the plan, its signature, and its two hops with their
      joined key when it has exactly two. */
  datatype Origin = Origin(plan: Json, sig: nat, pairKey: Option<string>, hops: Option<(HopKey, HopKey)>)

  function OriginOf(plan: Json): Origin {
    Origin(plan, RouteSig(plan), PlanPairKey(plan), PlanHops(plan))
  }

  /** Metis gives these instructions for some plan captured under the signature. */
  ghost predicate FromCapture(metis: Model, origins: set<Origin>, sig: nat, amount: u64, ixs: SwapIxs) {
    exists o :: o in origins && o.sig == sig && ixs == Instructions(metis(o.plan), amount)
  }

  /** The base capture and the offsets agree with the response around the amounts. */
  ghost predicate BaseOf(shape: Shape, t: RouteTemplate) {
    && t.swapIxs == Instructions(shape, t.templateInAmount)
    && t.templateQuotedOut == Floor(t.templateInAmount)
    && (|| (t.inAmountOffset == None && t.quotedOutOffset == None)
        || (t.inAmountOffset == Some(|shape.pre|) && t.quotedOutOffset == Some(|shape.pre| + 8)))
  }

  ghost predicate BaseFromCapture(metis: Model, origins: set<Origin>, sig: nat, t: RouteTemplate) {
    exists o :: o in origins && o.sig == sig && BaseOf(metis(o.plan), t)
  }

  /** Base and every cached amount come from captures under this signature, which
      need not be captures of one plan. */
  ghost predicate Faithful(metis: Model, origins: set<Origin>, sig: nat, t: RouteTemplate) {
    && BaseFromCapture(metis, origins, sig, t)
    && forall a :: a in t.amountVariants ==> FromCapture(metis, origins, sig, a, t.amountVariants[a])
  }

  // ------------------------------------------------ serving

  /** The fee difference carries over: patching reproduces the caller's floor. */
  lemma FloorCarriesOver(a: u64, b: u64)
    ensures WrappingAdd(b, WrappingSub(Floor(a), a)) == Floor(b)
  {
    FloorIsFees(a);
    FloorIsFees(b);
    assert WrappingSub(Floor(a), a) == 6_600;
  }

  lemma FloorIsFees(a: u64)
    ensures Floor(a) == if a + 6_600 < U64_MODULUS then a + 6_600 else a + 6_600 - U64_MODULUS
  {
  }

  lemma PatchServes(shape: Shape, a: u64, b: u64)
    ensures PatchedB64(Instructions(shape, a).swap.data, |shape.pre|, |shape.pre| + 8, b, Floor(b))
            == Some(Instructions(shape, b).swap.data)
  {
    PatchMovesFrame(shape.pre, a, Floor(a), shape.post, b, Floor(b));
  }

  lemma BaseServes(shape: Shape, t: RouteTemplate, amount: u64, callerOut: u64)
    requires BaseOf(shape, t) && amount !in t.amountVariants
    ensures ServeRoute(t, amount, callerOut)
            == if t.inAmountOffset.Some? then Some(Instructions(shape, amount)) else None
  {
    FloorCarriesOver(t.templateInAmount, amount);
    PatchServes(shape, t.templateInAmount, amount);
  }

  /** A template that has this amount cached or its offsets known. */
  predicate CanServe(t: RouteTemplate, amount: u64) {
    amount in t.amountVariants || t.inAmountOffset.Some?
  }

  /** Serving a faithful template yields nothing, exactly when the amount is not
      cached and no offsets were found, or else what Metis gives at this amount for
      some plan captured under the signature. */
  lemma ServesExactly(metis: Model, origins: set<Origin>, sig: nat, t: RouteTemplate, amount: u64, callerOut: u64)
    requires Faithful(metis, origins, sig, t)
    ensures var served := ServeRoute(t, amount, callerOut);
            && (served.Some? <==> CanServe(t, amount))
            && (served.Some? ==> FromCapture(metis, origins, sig, amount, served.value))
  {
    if amount !in t.amountVariants {
      var o :| o in origins && o.sig == sig && BaseOf(metis(o.plan), t);
      BaseServes(metis(o.plan), t, amount, callerOut);
    }
  }

  // ------------------------------------------------ making and changing templates

  lemma FirstCaptureBase(shape: Shape, sig: nat, amount: u64)
    ensures BaseOf(shape, FirstCapture(sig, Instructions(shape, amount), amount, Floor(amount)))
  {
    DecodeOfEncode(Framed(shape.pre, amount, Floor(amount), shape.post));
    UniqueMatchIsTrueOffset(shape.pre, amount, Floor(amount), shape.post);
  }

  lemma FirstCaptureFaithful(metis: Model, origins: set<Origin>, o: Origin, amount: u64)
    requires o in origins
    ensures Faithful(metis, origins, o.sig,
                     FirstCapture(o.sig, Instructions(metis(o.plan), amount), amount, Floor(amount)))
  {
    FirstCaptureBase(metis(o.plan), o.sig, amount);
  }

  /** The base depends on nothing but its own five fields. */
  lemma BaseKept(metis: Model, origins: set<Origin>, sig: nat, t: RouteTemplate, t': RouteTemplate)
    requires BaseFromCapture(metis, origins, sig, t)
    requires t' == t.(amountVariants := t'.amountVariants, seenCount := t'.seenCount, hitCount := t'.hitCount)
    ensures BaseFromCapture(metis, origins, sig, t')
  {
    hide Instructions, Floor;
    var o :| o in origins && o.sig == sig && BaseOf(metis(o.plan), t);
    assert BaseOf(metis(o.plan), t');
  }

  lemma SeenAgainFaithful(metis: Model, origins: set<Origin>, o: Origin, t: RouteTemplate, amount: u64)
    requires o in origins && Faithful(metis, origins, o.sig, t)
    ensures Faithful(metis, origins, o.sig, SeenAgain(t, Instructions(metis(o.plan), amount), amount))
  {
    hide Instructions, BaseFromCapture;
    BaseKept(metis, origins, o.sig, t, SeenAgain(t, Instructions(metis(o.plan), amount), amount));
    assert FromCapture(metis, origins, o.sig, amount, Instructions(metis(o.plan), amount));
  }

  lemma CountedAndEmptiedFaithful(metis: Model, origins: set<Origin>, sig: nat, t: RouteTemplate)
    requires Faithful(metis, origins, sig, t)
    ensures Faithful(metis, origins, sig, CountHit(t)) && Faithful(metis, origins, sig, Emptied(t))
  {
    hide BaseFromCapture, FromCapture;
    BaseKept(metis, origins, sig, t, CountHit(t));
    BaseKept(metis, origins, sig, t, Emptied(t));
  }

  lemma MoreCapturesFaithful(metis: Model, origins: set<Origin>, more: set<Origin>, sig: nat, t: RouteTemplate)
    requires Faithful(metis, origins, sig, t) && origins <= more
    ensures Faithful(metis, more, sig, t)
  {
  }

  // ------------------------------------------------ another quoted output

  /** The second pass of the search: when the data holds the amount but some other
      number than the floor next to it, and the pair is nowhere by accident, what
      the search returns is still where the amount really is. */
  lemma AmountMatchIsTrueOffset(pre: seq<byte>, a: u64, out: u64, floor: u64, post: seq<byte>)
    requires NoMatch(Framed(pre, a, out, post), Le64(a) + Le64(floor))
    ensures var found := Discovered(Framed(pre, a, out, post), a, floor);
            && (found == None || found == Some((|pre|, |pre| + 8)))
            && (found.Some? <==> OnlyMatch(Framed(pre, a, out, post), Le64(a), |pre|))
  {
    var data := Framed(pre, a, out, post);
    assert data[|pre|..|pre| + 8] == Le64(a);
    assert MatchAt(data, Le64(a), |pre|);
    ScanAllMeans(data, Le64(a) + Le64(floor));
    ScanAllMeans(data, Le64(a));
  }

  lemma FramedInjective(pre: seq<byte>, a: u64, x: u64, y: u64, post: seq<byte>)
    requires Framed(pre, a, x, post) == Framed(pre, a, y, post)
    ensures x == y
  {
    var n := |pre| + 8;
    assert Framed(pre, a, x, post)[n..n + 8] == Le64(x);
    assert Framed(pre, a, y, post)[n..n + 8] == Le64(y);
    Le64ReadsBack(x);
    Le64ReadsBack(y);
  }

  /** If Metis embeds another quoted output than the floor, patching a capture at the
      true offset gives Metis's answer at the new amount if and only if Metis embeds
      exactly the floor there. */
  lemma OtherOutputExactly(shape: Shape, a: u64, outA: u64, b: u64, outB: u64)
    ensures PatchedB64(WithAmounts(shape, a, outA).swap.data, |shape.pre|, |shape.pre| + 8, b, Floor(b))
            == Some(WithAmounts(shape, b, outB).swap.data)
            <==> outB == Floor(b)
  {
    PatchMovesFrame(shape.pre, a, outA, shape.post, b, Floor(b));
    var patched, answer := Framed(shape.pre, b, Floor(b), shape.post), Framed(shape.pre, b, outB, shape.post);
    DecodeOfEncode(patched);
    DecodeOfEncode(answer);
    if patched == answer { FramedInjective(shape.pre, b, Floor(b), outB, shape.post); }
  }
}
