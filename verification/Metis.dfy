/** The quotes of the routing engine (src/metis.rs) and what the cache assumes of
    its `/swap-instructions` call. */
module Metis {
  import opened Text
  import opened Decimal
  import opened Base64
  import opened AmountPatch
  import opened RouteSignature
  import opened RouteStore

  datatype Quote = Quote(
    inputMint: string, inAmount: string, outputMint: string, outAmount: string,
    otherAmountThreshold: string, swapMode: string, priceImpactPct: string, routePlan: Json,
    contextSlot: Option<nat>, instructionVersion: Option<string>, extra: map<string, Json>)

  datatype MergeResult = Merged(quote: Quote) | FirstNotArray | SecondNotArray

  /** Concatenate the two route plans into one circular quote with the given floor. */
  function MergeQuotes(q1: Quote, q2: Quote, minAcceptableOut: u64): MergeResult {
    if !q1.routePlan.Array? then FirstNotArray
    else if !q2.routePlan.Array? then SecondNotArray
    else
      Merged(Quote(q1.inputMint, q1.inAmount, q2.outputMint, Print(minAcceptableOut), Print(minAcceptableOut),
                   q1.swapMode, "0", Array(q1.routePlan.items + q2.routePlan.items),
                   q2.contextSlot, q1.instructionVersion, q1.extra))
  }

  /** Two quotes merge exactly when both carry a hop list. The merged quote starts
      as the first and ends as the second, so a round trip stays one, and both its
      output fields read back as the floor it was given. */
  lemma MergedIsRoundTrip(q1: Quote, q2: Quote, floor: u64)
    ensures MergeQuotes(q1, q2, floor).Merged? <==> q1.routePlan.Array? && q2.routePlan.Array?
    ensures MergeQuotes(q1, q2, floor).Merged? ==>
      var m := MergeQuotes(q1, q2, floor).quote;
      && m.inputMint == q1.inputMint && m.inAmount == q1.inAmount && m.outputMint == q2.outputMint
      && m.routePlan == Array(q1.routePlan.items + q2.routePlan.items)
      && m.swapMode == q1.swapMode && m.priceImpactPct == "0" && m.contextSlot == q2.contextSlot
      && m.instructionVersion == q1.instructionVersion && m.extra == q1.extra
      && (q1.inputMint == q2.outputMint ==> m.inputMint == m.outputMint)
      && Parse(m.outAmount, U64_MODULUS) == Parse(m.otherAmountThreshold, U64_MODULUS) == Some(floor)
  {
    ParseOfPrint(floor, U64_MODULUS);
  }

  lemma {:induction false} StreamConcat(a: seq<map<string, string>>, b: seq<map<string, string>>)
    ensures Stream(a + b) == Stream(a) + Stream(b)
  {
    if a == [] {
      assert a + b == b;
    } else {
      assert (a + b)[1..] == a[1..] + b;
      StreamConcat(a[1..], b);
    }
  }

  /** The merged plan visits the hops of the first quote and then of the second,
      and feeds the hash their two streams in that order. */
  lemma MergedStream(q1: Quote, q2: Quote, floor: u64)
    requires MergeQuotes(q1, q2, floor).Merged?
    ensures var plan := MergeQuotes(q1, q2, floor).quote.routePlan;
            && Hops(plan) == Hops(q1.routePlan) + Hops(q2.routePlan)
            && Stream(Hops(plan)) == Stream(Hops(q1.routePlan)) + Stream(Hops(q2.routePlan))
  {
    var plan := MergeQuotes(q1, q2, floor).quote.routePlan;
    assert Hops(plan) == Hops(q1.routePlan) + Hops(q2.routePlan);
    StreamConcat(Hops(q1.routePlan), Hops(q2.routePlan));
  }

  const JITO_TIP_LAMPORTS: u64 := 1_600
  const NETWORK_FEE_LAMPORTS: u64 := 5_000

  /** The on-chain floor for an input amount, in wrapping 64-bit arithmetic. */
  function Floor(amount: u64): u64 {
    WrappingAdd(WrappingAdd(amount, JITO_TIP_LAMPORTS), NETWORK_FEE_LAMPORTS)
  }

  // ------------------------------------------------ what Metis answers

  /** What Metis returns for one route apart from the two amounts: the response
      around the swap instruction's data, and the bytes around the amounts. */
  datatype Shape = Shape(ixs: SwapIxs, pre: seq<byte>, post: seq<byte>)

  /** The assumption: given the route plan, the response depends on the quote only
      through its two amounts, which appear side by side. */
  type Model = Json -> Shape

  /** Metis answers alike on plans whose hashed fields agree hop by hop: amounts
      within the plan and fields outside swapInfo make no difference to it. */
  ghost predicate AnswersByRoute(metis: Model) {
    forall p, q :: Hops(p) == Hops(q) ==> metis(p) == metis(q)
  }

  function WithAmounts(shape: Shape, inAmount: u64, quotedOut: u64): SwapIxs {
    shape.ixs.(swap := shape.ixs.swap.(data := Encode(Framed(shape.pre, inAmount, quotedOut, shape.post))))
  }

  function SwapInstructions(metis: Model, q: Quote): Option<SwapIxs> {
    match (Parse(q.inAmount, U64_MODULUS), Parse(q.outAmount, U64_MODULUS))
    case (Some(a), Some(b)) => Some(WithAmounts(metis(q.routePlan), a, b))
    case _ => None
  }

  /** The response for a route at an amount, with the floor the bot asks for. */
  function Instructions(shape: Shape, amount: u64): SwapIxs {
    WithAmounts(shape, amount, Floor(amount))
  }

  /** A merged quote whose first leg echoes the amount is answered with the
      instructions of its own route plan for that amount. */
  lemma MergedInstructions(metis: Model, q1: Quote, q2: Quote, amount: u64)
    requires MergeQuotes(q1, q2, Floor(amount)).Merged? && q1.inAmount == Print(amount)
    ensures var m := MergeQuotes(q1, q2, Floor(amount)).quote;
            SwapInstructions(metis, m) == Some(Instructions(metis(m.routePlan), amount))
  {
    ParseOfPrint(amount, U64_MODULUS);
    ParseOfPrint(Floor(amount), U64_MODULUS);
  }
}
