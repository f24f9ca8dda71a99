/** What becomes of every slot the limiters grant, in every interleaving of the
    worker pool (src/arbitrage.rs). */
module WorkerPoolSlots {
  import opened Text
  import opened RateLimiting
  import opened WorkerPool
  import Balance = WorkerPoolBalance

  function InBuild(ws: seq<WorkerPc>): nat {
    if ws == [] then 0 else InBuild(ws[..|ws| - 1]) + One(ws[|ws| - 1].Building?)
  }

  function InSend(ws: seq<WorkerPc>): nat {
    if ws == [] then 0 else InSend(ws[..|ws| - 1]) + One(ws[|ws| - 1].Sending?)
  }

  /** Items that got a slot and were dropped before sending. */
  function Unsent(p: Pool): nat {
    Total(p, TxBuildFailed) + Total(p, DroppedAccountLocks) + Total(p, TxTooLarge)
  }

  ghost predicate SlotsSpent(p: Pool) {
    && |p.limiters.granted| == InBuild(p.workers) + Unsent(p) + Total(p, CalcDone)
    && Total(p, CalcDone) == InSend(p.workers) + Total(p, JitoSent) + Total(p, JitoSendFailed)
  }

  lemma {:induction false} InUpdate(ws: seq<WorkerPc>, w: nat, pc: WorkerPc)
    requires w < |ws|
    ensures InBuild(ws[w := pc]) + One(ws[w].Building?) == InBuild(ws) + One(pc.Building?)
    ensures InSend(ws[w := pc]) + One(ws[w].Sending?) == InSend(ws) + One(pc.Sending?)
  {
    var n := |ws| - 1;
    if w < n {
      InUpdate(ws[..n], w, pc);
      assert ws[w := pc][..n] == ws[..n][w := pc];
    } else {
      assert ws[w := pc][..n] == ws[..n];
    }
  }

  lemma {:induction false} NoneIn(n: nat)
    ensures InBuild(seq(n, _ => Idle)) == InSend(seq(n, _ => Idle)) == 0
  {
    if n > 0 {
      NoneIn(n - 1);
      assert seq(n, _ => Idle)[..n - 1] == seq(n - 1, _ => Idle);
    }
  }

  lemma PerformTotals<PC>(p: Pool, e: Effect<PC>, c: Counter)
    requires Possible(p, e)
    ensures Total(Perform(p, e), c) == Total(p, c) + One(e.bump == Some(c))
  {
  }

  /** A worker's own operation spends what it gains. */
  lemma WorkSpends(cfg: Config, p: Pool, pc: WorkerPc, c: WorkChoice)
    requires WorkEffect(cfg, p, pc, c).Some?
    ensures var e := WorkEffect(cfg, p, pc, c).value;
            var unsent := One(e.bump == Some(TxBuildFailed)) + One(e.bump == Some(DroppedAccountLocks))
                          + One(e.bump == Some(TxTooLarge));
            && |e.limiters.granted| + One(pc.Building?)
               == |p.limiters.granted| + One(e.pc.Building?) + unsent + One(e.bump == Some(CalcDone))
            && One(e.bump == Some(CalcDone)) + One(pc.Sending?)
               == One(e.pc.Sending?) + One(e.bump == Some(JitoSent)) + One(e.bump == Some(JitoSendFailed))
  {
    hide InTime, Next;
  }

  lemma WorkKeepsSlots(cfg: Config, p: Pool, a: Action)
    requires SlotsSpent(p) && a.Work? && Step(cfg, p, a).Some?
    ensures SlotsSpent(Step(cfg, p, a).value)
  {
    hide WorkEffect;
    var e := WorkEffect(cfg, p, p.workers[a.w], a.wc).value;
    WorkSpends(cfg, p, p.workers[a.w], a.wc);
    InUpdate(p.workers, a.w, e.pc);
    PerformTotals(p, e, TxBuildFailed);
    PerformTotals(p, e, DroppedAccountLocks);
    PerformTotals(p, e, TxTooLarge);
    PerformTotals(p, e, CalcDone);
    PerformTotals(p, e, JitoSent);
    PerformTotals(p, e, JitoSendFailed);
  }

  predicate OfSlots(c: Counter) {
    c in {TxBuildFailed, DroppedAccountLocks, TxTooLarge, CalcDone, JitoSent, JitoSendFailed}
  }

  lemma ScanSpendsNothing(p: Pool, pc: ScanPc, c: ScanChoice)
    requires ScanEffect(p, pc, c).Some?
    requires pc.MetisFailed? || pc.FailureDropped? ==> IsFailureKind(pc.why)
    ensures var e := ScanEffect(p, pc, c).value;
            e.limiters == p.limiters && (e.bump.Some? ==> !OfSlots(e.bump.value))
  {
  }

  lemma ScanKeepsSlots(cfg: Config, p: Pool, a: Action)
    requires SlotsSpent(p) && Balance.KindsKnown(p.scans) && a.Scan? && Step(cfg, p, a).Some?
    ensures SlotsSpent(Step(cfg, p, a).value)
  {
    hide ScanEffect;
    Balance.KindKnown(p.scans, a.i);
    ScanSpendsNothing(p, p.scans[a.i], a.sc);
  }

  lemma OtherTotals(cfg: Config, p: Pool, a: Action, c: Counter)
    requires !a.Scan? && !a.Work? && c != MetisRespOk
    ensures Total(Step(cfg, p, a).value, c) == Total(p, c)
  {
  }

  lemma OtherKeepsSlots(cfg: Config, p: Pool, a: Action)
    requires SlotsSpent(p) && !a.Scan? && !a.Work?
    ensures SlotsSpent(Step(cfg, p, a).value)
  {
    hide Total;
    OtherTotals(cfg, p, a, TxBuildFailed);
    OtherTotals(cfg, p, a, DroppedAccountLocks);
    OtherTotals(cfg, p, a, TxTooLarge);
    OtherTotals(cfg, p, a, CalcDone);
    OtherTotals(cfg, p, a, JitoSent);
    OtherTotals(cfg, p, a, JitoSendFailed);
  }

  lemma StepKeepsSlots(cfg: Config, p: Pool, a: Action)
    requires SlotsSpent(p) && Balance.KindsKnown(p.scans) && Step(cfg, p, a).Some?
    ensures SlotsSpent(Step(cfg, p, a).value)
  {
    hide SlotsSpent, Step;
    match a
    case Scan(_, _) => ScanKeepsSlots(cfg, p, a);
    case Work(_, _) => WorkKeepsSlots(cfg, p, a);
    case _ => OtherKeepsSlots(cfg, p, a);
  }

  /** Every slot granted is spent on one item: it is being built, was dropped before
      sending, or was counted as done; and every transaction counted as done is
      being sent, was sent, or failed to send. So what is sent stays within the
      limits as well. */
  lemma {:induction false} EverySlotSpent(cfg: Config, workers: nat, actions: seq<Action>, p: Pool)
    requires Reachable(cfg, workers, actions, p)
    ensures |p.limiters.granted| == InBuild(p.workers) + Unsent(p) + Total(p, CalcDone)
    ensures Total(p, CalcDone) == InSend(p.workers) + Total(p, JitoSent) + Total(p, JitoSendFailed)
  {
    if actions == [] {
      NoneIn(workers);
    } else {
      var n := |actions| - 1;
      var q :| Reachable(cfg, workers, actions[..n], q) && Step(cfg, q, actions[n]) == Some(p);
      EverySlotSpent(cfg, workers, actions[..n], q);
      Balance.ReachableBalanced(cfg, workers, actions[..n], q);
      StepKeepsSlots(cfg, q, actions[n]);
    }
  }
}
