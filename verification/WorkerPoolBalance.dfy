/** The balance equations of the worker pool: what the semaphore, the depth gauge
    and the counters add up to in every interleaving (src/arbitrage.rs,
    src/metrics.rs). */
module WorkerPoolBalance {
  import opened Text
  import opened RateLimiting
  import opened WorkerPool

  // ------------------------------------------------ actors between two operations

  /** How a worker counts: it took a permit and has not popped; it pushed and owes a
      permit; it pushed and owes the gauge; it popped and owes the gauge; it holds
      an item; it owes `tx_dropped`. */
  datatype WLoad = WLoad(acquired: nat, unreleased: nat, uncounted: nat, popped: nat, held: nat, owes: nat)

  function WLoadOf(pc: WorkerPc): WLoad {
    match pc
    case Acquired => WLoad(1, 0, 0, 0, 0, 0)
    case Popped(_) => WLoad(0, 0, 0, 1, 1, 0)
    case Repushed(_) => WLoad(0, 1, 1, 0, 0, 0)
    case Recounted(_) => WLoad(0, 1, 0, 0, 0, 0)
    case OwesDrop => WLoad(0, 0, 0, 0, 0, 1)
    case Idle => WLoad(0, 0, 0, 0, 0, 0)
    case Sleeping(_) => WLoad(0, 0, 0, 0, 0, 0)
    case _ => WLoad(0, 0, 0, 0, 1, 0)
  }

  /** How a pair counts: pushed and owing a permit; owing the gauge; owing
      `queue_in`; owing `tx_dropped`; not yet classified; counted from memory but
      not yet as served; counted as served but not yet from Metis; counted as a
      template hit but not yet from memory; failed but not yet by kind. */
  datatype SLoad = SLoad(
    unreleased: nat, uncounted: nat, notIn: nat, owes: nat, inFlight: nat,
    ramHalf: nat, metisHalf: nat, hitHalf: nat, failing: nat)

  function SLoadOf(pc: ScanPc): SLoad {
    match pc
    case Quoted => SLoad(0, 0, 0, 0, 1, 0, 0, 0, 0)
    case ScanOwesDrop => SLoad(0, 0, 0, 1, 0, 0, 0, 0, 0)
    case TemplateHit => SLoad(0, 0, 0, 0, 1, 0, 0, 1, 0)
    case RamCounted => SLoad(0, 0, 0, 0, 0, 1, 0, 0, 0)
    case AskingMetis => SLoad(0, 0, 0, 0, 1, 0, 0, 0, 0)
    case MetisAnswered => SLoad(0, 0, 0, 0, 1, 0, 1, 0, 0)
    case MetisFailed(_) => SLoad(0, 0, 0, 1, 0, 0, 0, 0, 1)
    case FailureDropped(_) => SLoad(0, 0, 0, 0, 0, 0, 0, 0, 1)
    case Pushed => SLoad(1, 1, 1, 0, 0, 0, 0, 0, 0)
    case CountedIn => SLoad(1, 1, 0, 0, 0, 0, 0, 0, 0)
    case CountedDepth => SLoad(1, 0, 0, 0, 0, 0, 0, 0, 0)
    case _ => SLoad(0, 0, 0, 0, 0, 0, 0, 0, 0)
  }

  function WPlus(a: WLoad, b: WLoad): WLoad {
    WLoad(a.acquired + b.acquired, a.unreleased + b.unreleased, a.uncounted + b.uncounted,
          a.popped + b.popped, a.held + b.held, a.owes + b.owes)
  }

  function SPlus(a: SLoad, b: SLoad): SLoad {
    SLoad(a.unreleased + b.unreleased, a.uncounted + b.uncounted, a.notIn + b.notIn, a.owes + b.owes,
          a.inFlight + b.inFlight, a.ramHalf + b.ramHalf, a.metisHalf + b.metisHalf,
          a.hitHalf + b.hitHalf, a.failing + b.failing)
  }

  function WSum(ws: seq<WorkerPc>): WLoad {
    if ws == [] then WLoad(0, 0, 0, 0, 0, 0) else WPlus(WSum(ws[..|ws| - 1]), WLoadOf(ws[|ws| - 1]))
  }

  function SSum(ss: seq<ScanPc>): SLoad {
    if ss == [] then SLoad(0, 0, 0, 0, 0, 0, 0, 0, 0) else SPlus(SSum(ss[..|ss| - 1]), SLoadOf(ss[|ss| - 1]))
  }

  lemma {:induction false} WSumUpdate(ws: seq<WorkerPc>, w: nat, pc: WorkerPc)
    requires w < |ws|
    ensures WPlus(WSum(ws[w := pc]), WLoadOf(ws[w])) == WPlus(WSum(ws), WLoadOf(pc))
  {
    hide WLoadOf;
    var n := |ws| - 1;
    if w < n {
      WSumUpdate(ws[..n], w, pc);
      assert ws[w := pc][..n] == ws[..n][w := pc];
    } else {
      assert ws[w := pc][..n] == ws[..n];
    }
  }

  lemma {:induction false} SSumUpdate(ss: seq<ScanPc>, i: nat, pc: ScanPc)
    requires i < |ss|
    ensures SPlus(SSum(ss[i := pc]), SLoadOf(ss[i])) == SPlus(SSum(ss), SLoadOf(pc))
  {
    hide SLoadOf;
    var n := |ss| - 1;
    if i < n {
      SSumUpdate(ss[..n], i, pc);
      assert ss[i := pc][..n] == ss[..n][i := pc];
    } else {
      assert ss[i := pc][..n] == ss[..n];
    }
  }

  lemma {:induction false} WSumIdle(n: nat)
    ensures WSum(seq(n, _ => Idle)) == WLoad(0, 0, 0, 0, 0, 0)
  {
    if n > 0 {
      WSumIdle(n - 1);
      assert seq(n, _ => Idle)[..n - 1] == seq(n - 1, _ => Idle);
    }
  }

  // ------------------------------------------------ counters in groups

  /** Totals over the whole run, reports included. */
  datatype Ledger = Ledger(
    respOk: nat, classified: nat, sources: nat, fromRam: nat, swapIxOk: nat, templateHit: nat,
    swapFailed: nat, failureKinds: nat, queueIn: nat, terminal: nat, reasons: nat, txDropped: nat,
    rateRequeued: nat)

  function PairDrops(t: Counter -> nat): nat {
    t(DroppedMultiHop) + t(DroppedMergeFail) + t(DroppedNoServe)
  }

  function ItemDrops(t: Counter -> nat): nat {
    t(DroppedStale) + t(TxBuildFailed) + t(DroppedAccountLocks) + t(TxTooLarge) + t(JitoSendFailed)
  }

  function FailureKinds(t: Counter -> nat): nat {
    t(SwapIxTimeout) + t(SwapIxHttp) + t(SwapIxNetwork) + t(SwapIxParse)
  }

  function LedgerFrom(t: Counter -> nat): Ledger {
    var failed, fromRam, fromMetis := t(SwapIxFailed), t(IxFromRam), t(IxFromMetis);
    Ledger(
      t(MetisRespOk), PairDrops(t) + fromRam + fromMetis + failed, fromRam + fromMetis, fromRam,
      t(SwapIxOk), t(RouteTemplateHit), failed, FailureKinds(t),
      t(QueueIn), ItemDrops(t) + t(JitoSent), PairDrops(t) + failed + ItemDrops(t), t(TxDropped), t(RateRequeued))
  }

  function LedgerOf(p: Pool): Ledger {
    LedgerFrom(c => Total(p, c))
  }

  predicate DropsPair(c: Counter) {
    c == DroppedMultiHop || c == DroppedMergeFail || c == DroppedNoServe
  }

  predicate DropsItem(c: Counter) {
    c == DroppedStale || c == TxBuildFailed || c == DroppedAccountLocks || c == TxTooLarge || c == JitoSendFailed
  }

  function Added(l: Ledger, c: Counter): Ledger {
    match c
    case MetisRespOk => l.(respOk := l.respOk + 1)
    case DroppedMultiHop | DroppedMergeFail | DroppedNoServe =>
      l.(classified := l.classified + 1, reasons := l.reasons + 1)
    case RouteTemplateHit => l.(templateHit := l.templateHit + 1)
    case IxFromRam => l.(classified := l.classified + 1, sources := l.sources + 1, fromRam := l.fromRam + 1)
    case IxFromMetis => l.(classified := l.classified + 1, sources := l.sources + 1)
    case SwapIxOk => l.(swapIxOk := l.swapIxOk + 1)
    case SwapIxFailed =>
      l.(classified := l.classified + 1, swapFailed := l.swapFailed + 1, reasons := l.reasons + 1)
    case SwapIxTimeout | SwapIxHttp | SwapIxNetwork | SwapIxParse => l.(failureKinds := l.failureKinds + 1)
    case QueueIn => l.(queueIn := l.queueIn + 1)
    case DroppedStale | TxBuildFailed | DroppedAccountLocks | TxTooLarge | JitoSendFailed =>
      l.(terminal := l.terminal + 1, reasons := l.reasons + 1)
    case CalcDone => l
    case JitoSent => l.(terminal := l.terminal + 1)
    case RateRequeued => l.(rateRequeued := l.rateRequeued + 1)
    case TxDropped => l.(txDropped := l.txDropped + 1)
  }

  /** The same, sum by sum: one more in every sum the counter belongs to. */
  function Grown(l: Ledger, c: Counter): Ledger {
    var failed, fromRam, fromMetis := One(c == SwapIxFailed), One(c == IxFromRam), One(c == IxFromMetis);
    var pairDrops, itemDrops := One(DropsPair(c)), One(DropsItem(c));
    Ledger(
      l.respOk + One(c == MetisRespOk), l.classified + pairDrops + fromRam + fromMetis + failed,
      l.sources + fromRam + fromMetis, l.fromRam + fromRam, l.swapIxOk + One(c == SwapIxOk),
      l.templateHit + One(c == RouteTemplateHit), l.swapFailed + failed, l.failureKinds + One(IsFailureKind(c)),
      l.queueIn + One(c == QueueIn), l.terminal + itemDrops + One(c == JitoSent),
      l.reasons + pairDrops + failed + itemDrops,
      l.txDropped + One(c == TxDropped), l.rateRequeued + One(c == RateRequeued))
  }

  lemma GrownByEnd(l: Ledger, c: Counter)
    requires DropsPair(c) || DropsItem(c) || IsFailureKind(c)
    ensures Grown(l, c) == Added(l, c)
  {
  }

  predicate MovesPair(c: Counter) {
    || c == MetisRespOk || c == IxFromRam || c == IxFromMetis
    || c == SwapIxFailed || c == RouteTemplateHit || c == SwapIxOk
  }

  lemma GrownByMove(l: Ledger, c: Counter)
    requires MovesPair(c)
    ensures Grown(l, c) == Added(l, c)
  {
  }

  lemma GrownByRest(l: Ledger, c: Counter)
    requires !DropsPair(c) && !DropsItem(c) && !IsFailureKind(c) && !MovesPair(c)
    ensures Grown(l, c) == Added(l, c)
  {
  }

  lemma GrownIsAdded(l: Ledger, c: Counter)
    ensures Grown(l, c) == Added(l, c)
  {
    hide Grown, Added, DropsPair, DropsItem, IsFailureKind, MovesPair;
    if DropsPair(c) || DropsItem(c) || IsFailureKind(c) {
      GrownByEnd(l, c);
    } else if MovesPair(c) {
      GrownByMove(l, c);
    } else {
      GrownByRest(l, c);
    }
  }

  lemma CountTotal(p: Pool, c: Counter, d: Counter)
    ensures Total(Count(p, c), d) == Total(p, d) + One(d == c)
  {
  }

  /** `u` is `t` with one more of `c`. */
  ghost predicate OneMore(t: Counter -> nat, u: Counter -> nat, c: Counter) {
    forall d {:trigger u(d)} :: u(d) == t(d) + One(d == c)
  }

  lemma PairDropsAdded(t: Counter -> nat, u: Counter -> nat, c: Counter)
    requires OneMore(t, u, c)
    ensures PairDrops(u) == PairDrops(t) + One(DropsPair(c))
  {
  }

  lemma ItemDropsAdded(t: Counter -> nat, u: Counter -> nat, c: Counter)
    requires OneMore(t, u, c)
    ensures ItemDrops(u) == ItemDrops(t) + One(DropsItem(c))
  {
  }

  lemma FailureKindsAdded(t: Counter -> nat, u: Counter -> nat, c: Counter)
    requires OneMore(t, u, c)
    ensures FailureKinds(u) == FailureKinds(t) + One(IsFailureKind(c))
  {
  }

  lemma GroupsAdded(t: Counter -> nat, u: Counter -> nat, c: Counter)
    requires OneMore(t, u, c)
    ensures PairDrops(u) == PairDrops(t) + One(DropsPair(c))
    ensures ItemDrops(u) == ItemDrops(t) + One(DropsItem(c))
    ensures FailureKinds(u) == FailureKinds(t) + One(IsFailureKind(c))
  {
    hide OneMore, PairDrops, ItemDrops, FailureKinds, DropsPair, DropsItem, IsFailureKind;
    PairDropsAdded(t, u, c);
    ItemDropsAdded(t, u, c);
    FailureKindsAdded(t, u, c);
  }

  lemma LedgerGrows(t: Counter -> nat, u: Counter -> nat, c: Counter)
    requires OneMore(t, u, c)
    ensures LedgerFrom(u) == Grown(LedgerFrom(t), c)
  {
    hide PairDrops, ItemDrops, FailureKinds, DropsPair, DropsItem, IsFailureKind, One;
    GroupsAdded(t, u, c);
  }

  lemma LedgerFromAdded(t: Counter -> nat, u: Counter -> nat, c: Counter)
    requires OneMore(t, u, c)
    ensures LedgerFrom(u) == Added(LedgerFrom(t), c)
  {
    hide OneMore, LedgerFrom, Grown, Added;
    LedgerGrows(t, u, c);
    GrownIsAdded(LedgerFrom(t), c);
  }

  lemma LedgerCount(p: Pool, c: Counter)
    ensures LedgerOf(Count(p, c)) == Added(LedgerOf(p), c)
  {
    hide LedgerFrom, Added;
    forall d ensures Total(Count(p, c), d) == Total(p, d) + One(d == c) { CountTotal(p, c, d); }
    LedgerFromAdded(d => Total(p, d), d => Total(Count(p, c), d), c);
  }

  lemma LedgerSame(p: Pool, q: Pool)
    requires forall d :: Total(q, d) == Total(p, d)
    ensures LedgerOf(q) == LedgerOf(p)
  {
  }

  lemma LedgerDrain(cfg: Config, p: Pool, c: Counter)
    ensures LedgerOf(Step(cfg, p, Drain(c)).value) == LedgerOf(p)
  {
    var p' := Step(cfg, p, Drain(c)).value;
    forall d ensures Total(p', d) == Total(p, d) {
    }
    LedgerSame(p, p');
  }

  // ------------------------------------------------ the equations

  /** Stack length against permits and those between two operations; the gauge
      against the stack. */
  ghost predicate QueueBalance(p: Pool) {
    var w, s := WSum(p.workers), SSum(p.scans);
    && |p.lifo| == p.permits + w.acquired + w.unreleased + s.unreleased
    && p.queueDepth + w.uncounted + s.uncounted == |p.lifo| + w.popped
  }

  /** Items: counted in, live, and finished. */
  ghost predicate ItemBalance(p: Pool) {
    var w, s, l := WSum(p.workers), SSum(p.scans), LedgerOf(p);
    && l.queueIn + s.notIn == |p.arrivals|
    && |p.arrivals| == |p.lifo| + w.held + |p.finished|
    && l.terminal == |p.finished|
  }

  /** The funnel of quote pairs and the drop reasons. */
  ghost predicate FunnelBalance(p: Pool) {
    var w, s, l := WSum(p.workers), SSum(p.scans), LedgerOf(p);
    && l.respOk == l.classified + s.inFlight
    && l.swapIxOk + s.ramHalf == l.sources + s.metisHalf
    && l.templateHit == l.fromRam + s.hitHalf
    && l.swapFailed == l.failureKinds + s.failing
    && l.txDropped + w.owes + s.owes == l.reasons
  }

  /** A failed pair remembers one of the four failure kinds. */
  ghost predicate KindsKnown(ss: seq<ScanPc>) {
    ss != [] ==>
      var pc := ss[|ss| - 1];
      KindsKnown(ss[..|ss| - 1]) && (pc.MetisFailed? || pc.FailureDropped? ==> IsFailureKind(pc.why))
  }

  ghost predicate Balanced(p: Pool) {
    QueueBalance(p) && ItemBalance(p) && FunnelBalance(p) && KindsKnown(p.scans)
  }

  // ------------------------------------------------ one effect at a time

  function LifoChange(op: LifoOp): int {
    match op case KeepLifo => 0 case PopTop => -1 case PushTop(_) => 1
  }

  /** Every worker operation is balanced by its own change of place. */
  ghost predicate PlacesFit(p: Pool, pc: WorkerPc, e: Effect<WorkerPc>) {
    var x, y, push := WLoadOf(pc), WLoadOf(e.pc), LifoChange(e.lifo);
    && Possible(p, e)
    && push + x.acquired + x.unreleased == e.permits + y.acquired + y.unreleased
    && e.depth + y.uncounted + x.popped == push + x.uncounted + y.popped
    && push + y.held + One(e.finish.Some?) == x.held
  }

  lemma TakeLaws(cfg: Config, p: Pool, pc: WorkerPc)
    requires TakeEffect(cfg, p, pc).Some? && (pc == Acquired ==> p.lifo != [])
    ensures PlacesFit(p, pc, TakeEffect(cfg, p, pc).value)
  {
    hide InTime;
  }

  lemma LimitLaws(cfg: Config, p: Pool, pc: WorkerPc)
    requires LimitEffect(cfg, p, pc).Some?
    ensures PlacesFit(p, pc, LimitEffect(cfg, p, pc).value)
  {
    hide Next;
  }

  lemma RequeueLaws(p: Pool, pc: WorkerPc)
    requires RequeueEffect(p, pc).Some?
    ensures PlacesFit(p, pc, RequeueEffect(p, pc).value)
  {
  }

  lemma SendLaws(p: Pool, pc: WorkerPc, c: WorkChoice)
    requires SendEffect(p, pc, c).Some?
    ensures PlacesFit(p, pc, SendEffect(p, pc, c).value)
  {
  }

  lemma WorkLaws(cfg: Config, p: Pool, pc: WorkerPc, c: WorkChoice)
    requires WorkEffect(cfg, p, pc, c).Some? && (pc == Acquired ==> p.lifo != [])
    ensures PlacesFit(p, pc, WorkEffect(cfg, p, pc, c).value)
  {
    hide PlacesFit, TakeEffect, LimitEffect, RequeueEffect, SendEffect;
    match pc
    case Building(_, _) | Sending(_) | OwesDrop => SendLaws(p, pc, c);
    case Idle | Acquired | Popped(_) | Holding(_) => TakeLaws(cfg, p, pc);
    case Checked(_, _) | RestRefused(_, _) => LimitLaws(cfg, p, pc);
    case _ => RequeueLaws(p, pc);
  }

  /** And so are its counters. */
  ghost predicate CountsFit(pc: WorkerPc, e: Effect<WorkerPc>, l: Ledger) {
    var x, y, m := WLoadOf(pc), WLoadOf(e.pc), AfterBump(l, e.bump);
    && m.terminal == l.terminal + One(e.finish.Some?)
    && m.txDropped + y.owes + l.reasons == l.txDropped + x.owes + m.reasons
    && m == l.(terminal := m.terminal, rateRequeued := m.rateRequeued, txDropped := m.txDropped, reasons := m.reasons)
  }

  lemma BuildCounts(p: Pool, pc: WorkerPc, c: WorkChoice, l: Ledger)
    requires pc.Building? && SendEffect(p, pc, c).Some?
    ensures CountsFit(pc, SendEffect(p, pc, c).value, l)
  {
  }

  lemma SendCounts(p: Pool, pc: WorkerPc, c: WorkChoice, l: Ledger)
    requires SendEffect(p, pc, c).Some?
    ensures CountsFit(pc, SendEffect(p, pc, c).value, l)
  {
    if pc.Building? { BuildCounts(p, pc, c, l); }
  }

  lemma QueueCounts(cfg: Config, p: Pool, pc: WorkerPc, l: Ledger)
    ensures TakeEffect(cfg, p, pc).Some? ==> CountsFit(pc, TakeEffect(cfg, p, pc).value, l)
    ensures RequeueEffect(p, pc).Some? ==> CountsFit(pc, RequeueEffect(p, pc).value, l)
  {
  }

  lemma WorkCounts(cfg: Config, p: Pool, pc: WorkerPc, c: WorkChoice, l: Ledger)
    requires WorkEffect(cfg, p, pc, c).Some?
    ensures CountsFit(pc, WorkEffect(cfg, p, pc, c).value, l)
  {
    if pc.Building? || pc.Sending? || pc.OwesDrop? {
      SendCounts(p, pc, c, l);
    } else {
      QueueCounts(cfg, p, pc, l);
    }
  }

  function AfterBump(l: Ledger, bump: Option<Counter>): Ledger {
    match bump case Some(c) => Added(l, c) case None => l
  }

  lemma ScanLaws(p: Pool, pc: ScanPc, c: ScanChoice)
    requires ScanEffect(p, pc, c).Some?
    ensures var e := ScanEffect(p, pc, c).value;
            var x, y, push := SLoadOf(pc), SLoadOf(e.pc), LifoChange(e.lifo);
            && Possible(p, e) && push >= 0 && e.finish == None && e.wait == None
            && push + x.unreleased == e.permits + y.unreleased
            && e.depth + y.uncounted == push + x.uncounted
  {
  }

  /** And so are its counters. */
  ghost predicate PairCountsFit(pc: ScanPc, e: Effect<ScanPc>, l: Ledger) {
    var x, y, m := SLoadOf(pc), SLoadOf(e.pc), AfterBump(l, e.bump);
    && m.queueIn + y.notIn == l.queueIn + x.notIn + LifoChange(e.lifo)
    && m.terminal == l.terminal && m.rateRequeued == l.rateRequeued && m.respOk == l.respOk
    && m.classified + y.inFlight == l.classified + x.inFlight
    && m.swapIxOk + y.ramHalf + l.sources + x.metisHalf == l.swapIxOk + x.ramHalf + m.sources + y.metisHalf
    && m.templateHit + l.fromRam + x.hitHalf == l.templateHit + m.fromRam + y.hitHalf
    && m.swapFailed + l.failureKinds + x.failing == l.swapFailed + m.failureKinds + y.failing
    && m.txDropped + y.owes + l.reasons == l.txDropped + x.owes + m.reasons
  }

  lemma QuotedCounts(p: Pool, c: ScanChoice, l: Ledger)
    requires TierEffect(p, Quoted, c).Some?
    ensures PairCountsFit(Quoted, TierEffect(p, Quoted, c).value, l)
  {
  }

  lemma RamCounts(p: Pool, pc: ScanPc, c: ScanChoice, l: Ledger)
    requires (pc.ScanOwesDrop? || pc.TemplateHit? || pc.RamCounted?) && TierEffect(p, pc, c).Some?
    ensures PairCountsFit(pc, TierEffect(p, pc, c).value, l)
  {
  }

  lemma MetisCounts(p: Pool, pc: ScanPc, c: ScanChoice, l: Ledger)
    requires (pc.AskingMetis? || pc.MetisAnswered?) && TierEffect(p, pc, c).Some?
    ensures PairCountsFit(pc, TierEffect(p, pc, c).value, l)
  {
  }

  lemma FailureCounts(p: Pool, pc: ScanPc, c: ScanChoice, l: Ledger)
    requires (pc.MetisFailed? || pc.FailureDropped?) && IsFailureKind(pc.why) && TierEffect(p, pc, c).Some?
    ensures PairCountsFit(pc, TierEffect(p, pc, c).value, l)
  {
  }

  lemma PushCounts(p: Pool, pc: ScanPc, l: Ledger)
    requires PushEffect(p, pc).Some?
    ensures PairCountsFit(pc, PushEffect(p, pc).value, l)
  {
  }

  lemma ScanCounts(p: Pool, pc: ScanPc, c: ScanChoice, l: Ledger)
    requires ScanEffect(p, pc, c).Some?
    requires (pc.MetisFailed? || pc.FailureDropped?) ==> IsFailureKind(pc.why)
    ensures PairCountsFit(pc, ScanEffect(p, pc, c).value, l)
  {
    hide PairCountsFit, TierEffect, PushEffect;
    match pc
    case Quoted => QuotedCounts(p, c, l);
    case ScanOwesDrop | TemplateHit | RamCounted => RamCounts(p, pc, c, l);
    case AskingMetis | MetisAnswered => MetisCounts(p, pc, c, l);
    case MetisFailed(_) | FailureDropped(_) => FailureCounts(p, pc, c, l);
    case Ready | Stamped(_) | Pushed | CountedIn | CountedDepth => PushCounts(p, pc, l);
    case Ended => NoTierAfterEnd(p, c);
  }

  lemma NoTierAfterEnd(p: Pool, c: ScanChoice)
    ensures TierEffect(p, Ended, c).None?
  {
  }

  // ------------------------------------------------ every action keeps the balance

  lemma {:induction false} WSumAtLeast(ws: seq<WorkerPc>, w: nat)
    requires w < |ws|
    ensures WSum(ws).acquired >= WLoadOf(ws[w]).acquired && WSum(ws).held >= WLoadOf(ws[w]).held
  {
    var n := |ws| - 1;
    if w < n { WSumAtLeast(ws[..n], w); }
  }

  /** A worker that took a permit never finds the stack empty. */
  lemma PopNeverEmpty(p: Pool, w: nat)
    requires QueueBalance(p) && w < |p.workers| && p.workers[w] == Acquired
    ensures p.lifo != []
  {
    WSumAtLeast(p.workers, w);
  }

  lemma PerformLedger<PC>(p: Pool, e: Effect<PC>)
    requires Possible(p, e)
    ensures LedgerOf(Perform(p, e)) == AfterBump(LedgerOf(p), e.bump)
  {
    var q := Perform(p, e);
    match e.bump
    case Some(c) =>
      LedgerCount(p, c);
      LedgerSame(Count(p, c), q);
    case None => LedgerSame(p, q);
  }

  lemma WorkKeepsQueue(cfg: Config, p: Pool, w: nat, c: WorkChoice)
    requires QueueBalance(p) && w < |p.workers| && WorkEffect(cfg, p, p.workers[w], c).Some?
    requires p.workers[w] == Acquired ==> p.lifo != []
    ensures Possible(p, WorkEffect(cfg, p, p.workers[w], c).value)
    ensures QueueBalance(PerformWork(p, w, WorkEffect(cfg, p, p.workers[w], c).value))
  {
    var e := WorkEffect(cfg, p, p.workers[w], c).value;
    WorkLaws(cfg, p, p.workers[w], c);
    PerformWorkShape(p, w, e);
  }

  /** The sizes and sums after a worker operation. */
  lemma PerformWorkShape(p: Pool, w: nat, e: Effect<WorkerPc>)
    requires w < |p.workers| && Possible(p, e)
    ensures var q := PerformWork(p, w, e);
            && WPlus(WSum(q.workers), WLoadOf(p.workers[w])) == WPlus(WSum(p.workers), WLoadOf(e.pc))
            && q.scans == p.scans && q.arrivals == p.arrivals
            && |q.lifo| == |p.lifo| + LifoChange(e.lifo)
            && q.permits == p.permits + e.permits && q.queueDepth == p.queueDepth + e.depth
            && |q.finished| == |p.finished| + One(e.finish.Some?)
            && LedgerOf(q) == AfterBump(LedgerOf(p), e.bump)
  {
    WSumUpdate(p.workers, w, e.pc);
    PerformLedger(p, e);
    LedgerSame(Perform(p, e), PerformWork(p, w, e));
  }

  lemma PerformScanShape(p: Pool, i: nat, e: Effect<ScanPc>)
    requires i < |p.scans| && Possible(p, e)
    ensures var q := PerformScan(p, i, e);
            && SPlus(SSum(q.scans), SLoadOf(p.scans[i])) == SPlus(SSum(p.scans), SLoadOf(e.pc))
            && q.workers == p.workers && |q.arrivals| == |p.arrivals| + One(e.lifo.PushTop?)
            && |q.lifo| == |p.lifo| + LifoChange(e.lifo)
            && q.permits == p.permits + e.permits && q.queueDepth == p.queueDepth + e.depth
            && |q.finished| == |p.finished| + One(e.finish.Some?)
            && LedgerOf(q) == AfterBump(LedgerOf(p), e.bump)
  {
    SSumUpdate(p.scans, i, e.pc);
    PerformLedger(p, e);
    LedgerSame(Perform(p, e), PerformScan(p, i, e));
  }

  lemma WorkKeepsCounts(cfg: Config, p: Pool, w: nat, c: WorkChoice)
    requires ItemBalance(p) && FunnelBalance(p) && w < |p.workers| && WorkEffect(cfg, p, p.workers[w], c).Some?
    requires p.workers[w] == Acquired ==> p.lifo != []
    requires Possible(p, WorkEffect(cfg, p, p.workers[w], c).value)
    ensures var q := PerformWork(p, w, WorkEffect(cfg, p, p.workers[w], c).value);
            ItemBalance(q) && FunnelBalance(q)
  {
    var e := WorkEffect(cfg, p, p.workers[w], c).value;
    WorkLaws(cfg, p, p.workers[w], c);
    WorkCounts(cfg, p, p.workers[w], c, LedgerOf(p));
    PerformWorkShape(p, w, e);
  }

  lemma {:induction false} KindKnown(ss: seq<ScanPc>, i: nat)
    requires KindsKnown(ss) && i < |ss|
    ensures ss[i].MetisFailed? || ss[i].FailureDropped? ==> IsFailureKind(ss[i].why)
  {
    if i < |ss| - 1 { KindKnown(ss[..|ss| - 1], i); }
  }

  lemma {:induction false} KindsKnownUpdate(ss: seq<ScanPc>, i: nat, pc: ScanPc)
    requires KindsKnown(ss) && i < |ss|
    requires pc.MetisFailed? || pc.FailureDropped? ==> IsFailureKind(pc.why)
    ensures KindsKnown(ss[i := pc])
  {
    var n := |ss| - 1;
    if i < n {
      KindsKnownUpdate(ss[..n], i, pc);
      assert ss[i := pc][..n] == ss[..n][i := pc];
    } else {
      assert ss[i := pc][..n] == ss[..n];
    }
  }

  lemma ScanKeepsQueue(p: Pool, i: nat, c: ScanChoice)
    requires QueueBalance(p) && i < |p.scans| && ScanEffect(p, p.scans[i], c).Some?
    ensures Possible(p, ScanEffect(p, p.scans[i], c).value)
    ensures QueueBalance(PerformScan(p, i, ScanEffect(p, p.scans[i], c).value))
  {
    ScanLaws(p, p.scans[i], c);
    PerformScanShape(p, i, ScanEffect(p, p.scans[i], c).value);
  }

  lemma ScanKeepsItems(p: Pool, i: nat, c: ScanChoice)
    requires ItemBalance(p) && KindsKnown(p.scans) && i < |p.scans| && ScanEffect(p, p.scans[i], c).Some?
    requires Possible(p, ScanEffect(p, p.scans[i], c).value)
    ensures ItemBalance(PerformScan(p, i, ScanEffect(p, p.scans[i], c).value))
  {
    KindKnown(p.scans, i);
    ScanLaws(p, p.scans[i], c);
    ScanCounts(p, p.scans[i], c, LedgerOf(p));
    PerformScanShape(p, i, ScanEffect(p, p.scans[i], c).value);
  }

  lemma ScanKeepsFunnel(p: Pool, i: nat, c: ScanChoice)
    requires FunnelBalance(p) && KindsKnown(p.scans) && i < |p.scans| && ScanEffect(p, p.scans[i], c).Some?
    requires Possible(p, ScanEffect(p, p.scans[i], c).value)
    ensures FunnelBalance(PerformScan(p, i, ScanEffect(p, p.scans[i], c).value))
  {
    KindKnown(p.scans, i);
    ScanCounts(p, p.scans[i], c, LedgerOf(p));
    PerformScanShape(p, i, ScanEffect(p, p.scans[i], c).value);
  }

  lemma ScanKeepsKinds(p: Pool, i: nat, c: ScanChoice)
    requires KindsKnown(p.scans) && i < |p.scans| && ScanEffect(p, p.scans[i], c).Some?
    ensures KindsKnown(p.scans[i := ScanEffect(p, p.scans[i], c).value.pc])
  {
    KindKnown(p.scans, i);
    KindsKnownUpdate(p.scans, i, ScanEffect(p, p.scans[i], c).value.pc);
  }

  lemma ScanKeepsBalance(p: Pool, i: nat, c: ScanChoice)
    requires Balanced(p) && i < |p.scans| && ScanEffect(p, p.scans[i], c).Some?
    ensures Possible(p, ScanEffect(p, p.scans[i], c).value)
    ensures Balanced(PerformScan(p, i, ScanEffect(p, p.scans[i], c).value))
  {
    ScanKeepsQueue(p, i, c);
    ScanKeepsItems(p, i, c);
    ScanKeepsFunnel(p, i, c);
    ScanKeepsKinds(p, i, c);
  }

  lemma QuotedAppended(ss: seq<ScanPc>)
    ensures SSum(ss + [Quoted]) == SPlus(SSum(ss), SLoadOf(Quoted))
    ensures KindsKnown(ss) ==> KindsKnown(ss + [Quoted])
  {
    assert (ss + [Quoted])[..|ss|] == ss;
  }

  lemma NewPairShape(cfg: Config, p: Pool)
    ensures var q := Step(cfg, p, NewPair).value;
            && LedgerOf(q) == Added(LedgerOf(p), MetisRespOk)
            && SSum(q.scans) == SPlus(SSum(p.scans), SLoadOf(Quoted))
            && (KindsKnown(p.scans) ==> KindsKnown(q.scans))
  {
    hide LedgerFrom, Added, SSum, KindsKnown, SLoadOf;
    LedgerCount(p, MetisRespOk);
    LedgerSame(Count(p, MetisRespOk), Step(cfg, p, NewPair).value);
    QuotedAppended(p.scans);
  }

  lemma NewPairKeepsBalance(cfg: Config, p: Pool)
    requires Balanced(p)
    ensures Balanced(Step(cfg, p, NewPair).value)
  {
    hide LedgerOf, KindsKnown, SSum, WSum;
    NewPairShape(cfg, p);
  }

  lemma ReportKeepsBalance(cfg: Config, p: Pool, a: Action)
    requires Balanced(p) && (a.Tick? || a.Drain?)
    ensures Balanced(Step(cfg, p, a).value)
  {
    if a.Drain? { LedgerDrain(cfg, p, a.c); } else { LedgerSame(p, Step(cfg, p, a).value); }
  }

  lemma ScanStepKeepsBalance(cfg: Config, p: Pool, a: Action)
    requires Balanced(p) && a.Scan? && Step(cfg, p, a).Some?
    ensures Balanced(Step(cfg, p, a).value)
  {
    ScanKeepsBalance(p, a.i, a.sc);
  }

  lemma WorkStepKeepsBalance(cfg: Config, p: Pool, a: Action)
    requires Balanced(p) && a.Work? && Step(cfg, p, a).Some?
    ensures Balanced(Step(cfg, p, a).value)
  {
    if p.workers[a.w] == Acquired { PopNeverEmpty(p, a.w); }
    WorkKeepsQueue(cfg, p, a.w, a.wc);
    WorkKeepsCounts(cfg, p, a.w, a.wc);
  }

  lemma StepKeepsBalance(cfg: Config, p: Pool, a: Action)
    requires Balanced(p) && Step(cfg, p, a).Some?
    ensures Balanced(Step(cfg, p, a).value)
  {
    hide Balanced, Step;
    match a
    case Tick(_) | Drain(_) => ReportKeepsBalance(cfg, p, a);
    case NewPair => NewPairKeepsBalance(cfg, p);
    case Scan(_, _) => ScanStepKeepsBalance(cfg, p, a);
    case Work(_, _) => WorkStepKeepsBalance(cfg, p, a);
  }

  lemma StartLedger(workers: nat)
    ensures LedgerOf(Start(workers)) == Ledger(0, 0, 0, 0, 0, 0, 0, 0, 0, 0, 0, 0, 0)
  {
    var t := (c: Counter) => Total(Start(workers), c);
    assert forall c :: t(c) == 0;
    assert PairDrops(t) == 0 && ItemDrops(t) == 0 && FailureKinds(t) == 0;
  }

  lemma StartBalanced(workers: nat)
    ensures Balanced(Start(workers))
  {
    hide LedgerFrom;
    WSumIdle(workers);
    StartLedger(workers);
  }

  /** Every reachable pool is balanced. */
  lemma {:induction false} ReachableBalanced(cfg: Config, workers: nat, actions: seq<Action>, p: Pool)
    requires Reachable(cfg, workers, actions, p)
    ensures Balanced(p)
  {
    if actions == [] {
      StartBalanced(workers);
    } else {
      var n := |actions| - 1;
      var q :| Reachable(cfg, workers, actions[..n], q) && Step(cfg, q, actions[n]) == Some(p);
      ReachableBalanced(cfg, workers, actions[..n], q);
      StepKeepsBalance(cfg, q, actions[n]);
    }
  }

  // ------------------------------------------------ what it means

  /** The queue protocol, over every interleaving of any number of workers and
      producers: the stack holds exactly one item for every free permit, every
      permit taken but not yet used and every permit still owed; a worker's pop
      never finds it empty; the gauge is never negative, and equals the stack
      length whenever nobody is between touching the stack and the gauge. */
  lemma QueueProtocol(cfg: Config, workers: nat, actions: seq<Action>, p: Pool, w: nat)
    requires Reachable(cfg, workers, actions, p)
    ensures |p.lifo| == p.permits + WSum(p.workers).acquired + WSum(p.workers).unreleased + SSum(p.scans).unreleased
    ensures w < |p.workers| && p.workers[w] == Acquired ==> p.lifo != []
    ensures p.queueDepth >= 0
    ensures WSum(p.workers).uncounted == SSum(p.scans).uncounted == WSum(p.workers).popped == 0
            ==> p.queueDepth == |p.lifo|
  {
    ReachableBalanced(cfg, workers, actions, p);
    if w < |p.workers| && p.workers[w] == Acquired { PopNeverEmpty(p, w); }
    UncountedUnreleased(p.workers, p.scans);
  }

  lemma {:induction false} UncountedUnreleased(ws: seq<WorkerPc>, ss: seq<ScanPc>)
    ensures WSum(ws).uncounted <= WSum(ws).unreleased && SSum(ss).uncounted <= SSum(ss).unreleased
    decreases |ws| + |ss|
  {
    if ws != [] { UncountedUnreleased(ws[..|ws| - 1], []); }
    if ss != [] { UncountedUnreleased([], ss[..|ss| - 1]); }
  }

  /** Conservation of counters across every report: what was counted into the queue
      is what is live plus the six ends; `tx_dropped` is the sum of its nine
      reasons; profitable pairs are the drops, the two sources, the failures and
      those in flight; all up to actors between two of their own counters. */
  lemma CountersConserved(cfg: Config, workers: nat, actions: seq<Action>, p: Pool)
    requires Reachable(cfg, workers, actions, p)
    ensures var w, s := WSum(p.workers), SSum(p.scans);
            var ends := Total(p, DroppedStale) + Total(p, TxBuildFailed) + Total(p, DroppedAccountLocks)
                        + Total(p, TxTooLarge) + Total(p, JitoSendFailed) + Total(p, JitoSent);
            Total(p, QueueIn) + s.notIn == |p.lifo| + w.held + ends
    ensures var w, s := WSum(p.workers), SSum(p.scans);
            Total(p, TxDropped) + w.owes + s.owes
            == Total(p, DroppedMultiHop) + Total(p, DroppedMergeFail) + Total(p, DroppedNoServe)
               + Total(p, SwapIxFailed) + Total(p, DroppedStale) + Total(p, TxBuildFailed)
               + Total(p, DroppedAccountLocks) + Total(p, TxTooLarge) + Total(p, JitoSendFailed)
    ensures Total(p, MetisRespOk)
            == Total(p, DroppedMultiHop) + Total(p, DroppedMergeFail) + Total(p, DroppedNoServe)
               + Total(p, IxFromRam) + Total(p, IxFromMetis) + Total(p, SwapIxFailed) + SSum(p.scans).inFlight
    ensures Total(p, SwapIxOk) + SSum(p.scans).ramHalf
            == Total(p, IxFromRam) + Total(p, IxFromMetis) + SSum(p.scans).metisHalf
    ensures Total(p, SwapIxFailed)
            == Total(p, SwapIxTimeout) + Total(p, SwapIxHttp) + Total(p, SwapIxNetwork) + Total(p, SwapIxParse)
               + SSum(p.scans).failing
  {
    ReachableBalanced(cfg, workers, actions, p);
  }
}
