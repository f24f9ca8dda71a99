/** The age of queued items and how often they go back to the stack, in every
    interleaving of the worker pool (src/arbitrage.rs). */
module WorkerPoolAges {
  import opened Text
  import opened RateLimiting
  import opened WorkerPool
  import opened WorkerPoolItems
  import Balance = WorkerPoolBalance

  // ------------------------------------------------ arrival time and waited flag

  predicate Fits(item: Item, k: nat, arrivedAt: nat, flag: bool) {
    item.id == k ==> item.arrivedAt == arrivedAt && item.waitedForSlot == flag
  }

  predicate StackFits(lifo: seq<Item>, k: nat, arrivedAt: nat, flag: bool) {
    lifo != [] ==> StackFits(lifo[..|lifo| - 1], k, arrivedAt, flag) && Fits(lifo[|lifo| - 1], k, arrivedAt, flag)
  }

  predicate PcFits(pc: WorkerPc, k: nat, arrivedAt: nat, flag: bool) {
    ItemOf(pc).Some? ==> Fits(ItemOf(pc).value, k, arrivedAt, flag)
  }

  predicate HandsFit(ws: seq<WorkerPc>, k: nat, arrivedAt: nat, flag: bool) {
    ws != [] ==> HandsFit(ws[..|ws| - 1], k, arrivedAt, flag) && PcFits(ws[|ws| - 1], k, arrivedAt, flag)
  }

  predicate StampsPast(ss: seq<ScanPc>, now: nat) {
    ss != [] ==>
      StampsPast(ss[..|ss| - 1], now) && (ss[|ss| - 1].Stamped? ==> ss[|ss| - 1].arrivedAt <= now)
  }

  /** Wherever item `k` is, it carries the time it was pushed with, and its flag
      says whether its wait was counted. */
  ghost predicate Dated(p: Pool, k: nat) {
    && (k in p.waited ==> k < |p.arrivals|)
    && (k < |p.arrivals| ==>
          && p.arrivals[k] <= p.clock
          && StackFits(p.lifo, k, p.arrivals[k], k in p.waited)
          && HandsFit(p.workers, k, p.arrivals[k], k in p.waited))
  }

  lemma {:induction false} AbsentFitsStack(lifo: seq<Item>, k: nat, arrivedAt: nat, flag: bool)
    requires InStack(lifo, k) == 0
    ensures StackFits(lifo, k, arrivedAt, flag)
  {
    if lifo != [] { AbsentFitsStack(lifo[..|lifo| - 1], k, arrivedAt, flag); }
  }

  lemma {:induction false} AbsentFitsHands(ws: seq<WorkerPc>, k: nat, arrivedAt: nat, flag: bool)
    requires InHands(ws, k) == 0
    ensures HandsFit(ws, k, arrivedAt, flag)
  {
    if ws != [] { AbsentFitsHands(ws[..|ws| - 1], k, arrivedAt, flag); }
  }

  lemma {:induction false} HandFits(ws: seq<WorkerPc>, w: nat, k: nat, arrivedAt: nat, flag: bool)
    requires HandsFit(ws, k, arrivedAt, flag) && w < |ws|
    ensures PcFits(ws[w], k, arrivedAt, flag)
  {
    if w < |ws| - 1 { HandFits(ws[..|ws| - 1], w, k, arrivedAt, flag); }
  }

  lemma {:induction false} HandsFitUpdate(ws: seq<WorkerPc>, w: nat, pc: WorkerPc, k: nat, arrivedAt: nat, flag: bool)
    requires HandsFit(ws, k, arrivedAt, flag) && w < |ws| && PcFits(pc, k, arrivedAt, flag)
    ensures HandsFit(ws[w := pc], k, arrivedAt, flag)
  {
    var n := |ws| - 1;
    if w < n {
      HandsFitUpdate(ws[..n], w, pc, k, arrivedAt, flag);
      assert ws[w := pc][..n] == ws[..n][w := pc];
    } else {
      assert ws[w := pc][..n] == ws[..n];
    }
  }

  /** When only worker `w` holds the item, its own new place decides. */
  lemma OnlyHandFits(ws: seq<WorkerPc>, w: nat, pc: WorkerPc, k: nat, arrivedAt: nat, flag: bool)
    requires w < |ws| && Holds(ws[w], k) && InHands(ws, k) == 1 && PcFits(pc, k, arrivedAt, flag)
    ensures HandsFit(ws[w := pc], k, arrivedAt, flag)
  {
    InHandsUpdate(ws, w, Idle, k);
    AbsentFitsHands(ws[w := Idle], k, arrivedAt, flag);
    HandsFitUpdate(ws[w := Idle], w, pc, k, arrivedAt, flag);
    assert ws[w := Idle][w := pc] == ws[w := pc];
  }

  lemma {:induction false} HandsCounted(ws: seq<WorkerPc>, w: nat, k: nat)
    requires w < |ws| && Holds(ws[w], k)
    ensures InHands(ws, k) >= 1
  {
    if w < |ws| - 1 { HandsCounted(ws[..|ws| - 1], w, k); }
  }

  /** Where a worker's item comes from: the top of the stack, or its own hands,
      with the flag raised exactly when a wait is counted. */
  lemma WorkCarries(cfg: Config, p: Pool, pc: WorkerPc, c: WorkChoice)
    requires WorkEffect(cfg, p, pc, c).Some?
    ensures var e := WorkEffect(cfg, p, pc, c).value;
            && (e.wait.Some? ==> pc.Refused? && !pc.item.waitedForSlot && e.wait.value == pc.item.id && e.lifo.KeepLifo?
                                 && ItemOf(e.pc) == Some(pc.item.(waitedForSlot := true)))
            && (e.wait.None? && ItemOf(e.pc).Some? ==>
                  if pc == Acquired then p.lifo != [] && ItemOf(e.pc).value == p.lifo[|p.lifo| - 1]
                  else ItemOf(e.pc) == ItemOf(pc))
            && (e.lifo.PushTop? ==> ItemOf(pc) == Some(e.lifo.item))
  {
  }

  lemma WorkFlagsItem(cfg: Config, p: Pool, a: Action, k: nat)
    requires Placed(p, k) && Dated(p, k) && a.Work? && Step(cfg, p, a).Some?
    requires WorkEffect(cfg, p, p.workers[a.w], a.wc).value.wait == Some(k)
    ensures Dated(Step(cfg, p, a).value, k)
  {
    var pc := p.workers[a.w];
    var e := WorkEffect(cfg, p, pc, a.wc).value;
    WorkCarries(cfg, p, pc, a.wc);
    HandsCounted(p.workers, a.w, k);
    HandFits(p.workers, a.w, k, p.arrivals[k], k in p.waited);
    AbsentFitsStack(p.lifo, k, p.arrivals[k], true);
    OnlyHandFits(p.workers, a.w, e.pc, k, p.arrivals[k], true);
  }

  lemma WorkKeepsDate(cfg: Config, p: Pool, a: Action, k: nat)
    requires Dated(p, k) && a.Work? && Step(cfg, p, a).Some? && k < |p.arrivals|
    requires WorkEffect(cfg, p, p.workers[a.w], a.wc).value.wait != Some(k)
    ensures Dated(Step(cfg, p, a).value, k)
  {
    var pc := p.workers[a.w];
    var e := WorkEffect(cfg, p, pc, a.wc).value;
    var at, flag := p.arrivals[k], k in p.waited;
    WorkCarries(cfg, p, pc, a.wc);
    HandFits(p.workers, a.w, k, at, flag);
    assert PcFits(e.pc, k, at, flag);
    HandsFitUpdate(p.workers, a.w, e.pc, k, at, flag);
    if e.lifo.PushTop? { assert (p.lifo + [e.lifo.item])[..|p.lifo|] == p.lifo; }
  }

  /** A worker cannot hold what was never pushed. */
  lemma WorkFlagsPushed(cfg: Config, p: Pool, a: Action, k: nat)
    requires Placed(p, k) && a.Work? && Step(cfg, p, a).Some? && k >= |p.arrivals|
    ensures WorkEffect(cfg, p, p.workers[a.w], a.wc).value.wait != Some(k)
  {
    WorkCarries(cfg, p, p.workers[a.w], a.wc);
    if Holds(p.workers[a.w], k) { HandsCounted(p.workers, a.w, k); }
  }

  lemma {:induction false} StampPast(ss: seq<ScanPc>, now: nat, i: nat)
    requires StampsPast(ss, now) && i < |ss|
    ensures ss[i].Stamped? ==> ss[i].arrivedAt <= now
  {
    if i < |ss| - 1 { StampPast(ss[..|ss| - 1], now, i); }
  }

  lemma {:induction false} StampsUpdate(ss: seq<ScanPc>, now: nat, i: nat, pc: ScanPc)
    requires StampsPast(ss, now) && i < |ss| && (pc.Stamped? ==> pc.arrivedAt <= now)
    ensures StampsPast(ss[i := pc], now)
  {
    var n := |ss| - 1;
    if i < n {
      StampsUpdate(ss[..n], now, i, pc);
      assert ss[i := pc][..n] == ss[..n][i := pc];
    } else {
      assert ss[i := pc][..n] == ss[..n];
    }
  }

  lemma {:induction false} StampsLater(ss: seq<ScanPc>, before: nat, now: nat)
    requires StampsPast(ss, before) && before <= now
    ensures StampsPast(ss, now)
  {
    if ss != [] { StampsLater(ss[..|ss| - 1], before, now); }
  }

  lemma ScanKeepsDate(cfg: Config, p: Pool, a: Action, k: nat)
    requires Placed(p, k) && Dated(p, k) && StampsPast(p.scans, p.clock) && a.Scan? && Step(cfg, p, a).Some?
    ensures Dated(Step(cfg, p, a).value, k)
  {
    var e := ScanEffect(p, p.scans[a.i], a.sc).value;
    ScanPushes(p, p.scans[a.i], a.sc);
    StampPast(p.scans, p.clock, a.i);
    if e.lifo.PushTop? {
      assert (p.lifo + [e.lifo.item])[..|p.lifo|] == p.lifo;
      if k == |p.arrivals| {
        AbsentFitsStack(p.lifo, k, e.lifo.item.arrivedAt, false);
        AbsentFitsHands(p.workers, k, e.lifo.item.arrivedAt, false);
      }
    }
  }

  lemma StepKeepsDate(cfg: Config, p: Pool, a: Action, k: nat)
    requires Placed(p, k) && Dated(p, k) && StampsPast(p.scans, p.clock) && Step(cfg, p, a).Some?
    ensures Dated(Step(cfg, p, a).value, k)
  {
    match a
    case Scan(_, _) => ScanKeepsDate(cfg, p, a, k);
    case Work(w, wc) =>
      if k >= |p.arrivals| {
        WorkFlagsPushed(cfg, p, a, k);
      } else if WorkEffect(cfg, p, p.workers[w], wc).value.wait == Some(k) {
        WorkFlagsItem(cfg, p, a, k);
      } else {
        WorkKeepsDate(cfg, p, a, k);
      }
    case _ =>
  }

  lemma StepKeepsStamps(cfg: Config, p: Pool, a: Action)
    requires StampsPast(p.scans, p.clock) && Step(cfg, p, a).Some?
    ensures StampsPast(Step(cfg, p, a).value.scans, Step(cfg, p, a).value.clock)
  {
    match a
    case Tick(dt) => StampsLater(p.scans, p.clock, p.clock + dt);
    case NewPair => assert (p.scans + [Quoted])[..|p.scans|] == p.scans;
    case Scan(i, sc) =>
      ScanPushes(p, p.scans[i], sc);
      StampsUpdate(p.scans, p.clock, i, ScanEffect(p, p.scans[i], sc).value.pc);
    case _ =>
  }

  /** `arrived_at` survives every requeue: wherever an item is, in the stack or in a
      worker's hands, it carries the time it first came in, and its flag is raised
      exactly when its wait has been counted. */
  lemma {:induction false} ArrivalSurvives(cfg: Config, workers: nat, actions: seq<Action>, p: Pool, k: nat)
    requires Reachable(cfg, workers, actions, p)
    ensures Placed(p, k) && Dated(p, k) && StampsPast(p.scans, p.clock)
  {
    ItemInOnePlace(cfg, workers, actions, p, k);
    if actions != [] {
      var n := |actions| - 1;
      var q :| Reachable(cfg, workers, actions[..n], q) && Step(cfg, q, actions[n]) == Some(p);
      ArrivalSurvives(cfg, workers, actions[..n], q, k);
      StepKeepsDate(cfg, q, actions[n], k);
      StepKeepsStamps(cfg, q, actions[n]);
    }
  }

  // ------------------------------------------------ each item is counted as waiting once

  lemma WaitCounted(cfg: Config, p: Pool, pc: WorkerPc, c: WorkChoice)
    requires WorkEffect(cfg, p, pc, c).Some?
    ensures WorkEffect(cfg, p, pc, c).value.bump == Some(RateRequeued) <==> WorkEffect(cfg, p, pc, c).value.wait.Some?
  {
  }

  lemma ScanNeverWaits(p: Pool, pc: ScanPc, c: ScanChoice)
    requires ScanEffect(p, pc, c).Some?
    requires pc.MetisFailed? || pc.FailureDropped? ==> IsFailureKind(pc.why)
    ensures ScanEffect(p, pc, c).value.bump != Some(RateRequeued)
  {
  }

  lemma StepCountsWaits(cfg: Config, p: Pool, a: Action)
    requires Total(p, RateRequeued) == |p.waited| && Step(cfg, p, a).Some?
    requires Balance.KindsKnown(p.scans)
    requires a.Work? && p.workers[a.w].Refused? ==>
               (p.workers[a.w].item.id in p.waited ==> p.workers[a.w].item.waitedForSlot)
    ensures Total(Step(cfg, p, a).value, RateRequeued) == |Step(cfg, p, a).value.waited|
  {
    match a
    case Scan(i, sc) =>
      Balance.KindKnown(p.scans, i);
      ScanPushes(p, p.scans[i], sc);
      ScanNeverWaits(p, p.scans[i], sc);
    case Work(w, wc) =>
      WorkCarries(cfg, p, p.workers[w], wc);
      WaitCounted(cfg, p, p.workers[w], wc);
    case _ =>
  }

  /** `rate_requeued`, summed over every report, is the number of distinct items
      that ever waited: each is counted at most once, however often it goes back. */
  lemma {:induction false} WaitCountedOnce(cfg: Config, workers: nat, actions: seq<Action>, p: Pool)
    requires Reachable(cfg, workers, actions, p)
    ensures Total(p, RateRequeued) == |p.waited|
  {
    if actions != [] {
      var n := |actions| - 1;
      var q :| Reachable(cfg, workers, actions[..n], q) && Step(cfg, q, actions[n]) == Some(p);
      WaitCountedOnce(cfg, workers, actions[..n], q);
      Balance.ReachableBalanced(cfg, workers, actions[..n], q);
      var a := actions[n];
      if a.Work? && q.workers[a.w].Refused? {
        var item := q.workers[a.w].item;
        ArrivalSurvives(cfg, workers, actions[..n], q, item.id);
        HandsCounted(q.workers, a.w, item.id);
        HandFits(q.workers, a.w, item.id, q.arrivals[item.id], item.id in q.waited);
      }
      StepCountsWaits(cfg, q, a);
    }
  }
}
