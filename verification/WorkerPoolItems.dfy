/** Where each queued item is, how old it is, and how often it goes back: facts
    about one item in every interleaving of the worker pool (src/arbitrage.rs). */
module WorkerPoolItems {
  import opened Text
  import opened WorkerPool

  // ------------------------------------------------ one place at a time

  /** The item a worker holds, if any. */
  function ItemOf(pc: WorkerPc): Option<Item> {
    match pc
    case Popped(item) => Some(item)
    case Holding(item) => Some(item)
    case Checked(item, _) => Some(item)
    case RestRefused(item, _) => Some(item)
    case Refused(item, _) => Some(item)
    case Requeuing(item, _) => Some(item)
    case Building(item, _) => Some(item)
    case Sending(item) => Some(item)
    case _ => None
  }

  predicate Holds(pc: WorkerPc, k: nat) {
    ItemOf(pc).Some? && ItemOf(pc).value.id == k
  }

  function InStack(lifo: seq<Item>, k: nat): nat {
    if lifo == [] then 0 else InStack(lifo[..|lifo| - 1], k) + One(lifo[|lifo| - 1].id == k)
  }

  function InHands(ws: seq<WorkerPc>, k: nat): nat {
    if ws == [] then 0 else InHands(ws[..|ws| - 1], k) + One(Holds(ws[|ws| - 1], k))
  }

  function Ends(finished: seq<nat>, k: nat): nat {
    if finished == [] then 0 else Ends(finished[..|finished| - 1], k) + One(finished[|finished| - 1] == k)
  }

  /** Item `k` is in exactly one place once it has been pushed, in none before. */
  ghost predicate Placed(p: Pool, k: nat) {
    InStack(p.lifo, k) + InHands(p.workers, k) + Ends(p.finished, k) == One(k < |p.arrivals|)
  }

  /** What the stack gains of item `k`. */
  function StackGain(p: Pool, op: LifoOp, k: nat): int
    requires op.PopTop? ==> p.lifo != []
  {
    match op
    case KeepLifo => 0
    case PopTop => if p.lifo[|p.lifo| - 1].id == k then -1 else 0
    case PushTop(item) => if item.id == k then 1 else 0
  }

  lemma {:induction false} InHandsUpdate(ws: seq<WorkerPc>, w: nat, pc: WorkerPc, k: nat)
    requires w < |ws|
    ensures InHands(ws[w := pc], k) + One(Holds(ws[w], k)) == InHands(ws, k) + One(Holds(pc, k))
  {
    var n := |ws| - 1;
    if w < n {
      InHandsUpdate(ws[..n], w, pc, k);
      assert ws[w := pc][..n] == ws[..n][w := pc];
    } else {
      assert ws[w := pc][..n] == ws[..n];
    }
  }

  lemma {:induction false} NoHands(n: nat, k: nat)
    ensures InHands(seq(n, _ => Idle), k) == 0
  {
    if n > 0 {
      NoHands(n - 1, k);
      assert seq(n, _ => Idle)[..n - 1] == seq(n - 1, _ => Idle);
    }
  }

  lemma PerformPlaces<PC>(p: Pool, e: Effect<PC>, k: nat)
    requires Possible(p, e)
    ensures InStack(Perform(p, e).lifo, k) == InStack(p.lifo, k) + StackGain(p, e.lifo, k)
    ensures Ends(Perform(p, e).finished, k) == Ends(p.finished, k) + One(e.finish == Some(k))
  {
    if e.lifo.PushTop? { assert (p.lifo + [e.lifo.item])[..|p.lifo|] == p.lifo; }
    if e.finish.Some? { assert (p.finished + [e.finish.value])[..|p.finished|] == p.finished; }
  }

  /** A worker's operation moves its item, and only its item. */
  lemma WorkMoves(cfg: Config, p: Pool, pc: WorkerPc, c: WorkChoice, k: nat)
    requires WorkEffect(cfg, p, pc, c).Some? && Possible(p, WorkEffect(cfg, p, pc, c).value)
    ensures var e := WorkEffect(cfg, p, pc, c).value;
            StackGain(p, e.lifo, k) + One(Holds(e.pc, k)) + One(e.finish == Some(k)) == One(Holds(pc, k))
  {
  }

  lemma WorkKeepsPlace(cfg: Config, p: Pool, a: Action, k: nat)
    requires Placed(p, k) && a.Work? && Step(cfg, p, a).Some?
    ensures Placed(Step(cfg, p, a).value, k)
  {
    var e := WorkEffect(cfg, p, p.workers[a.w], a.wc).value;
    WorkMoves(cfg, p, p.workers[a.w], a.wc, k);
    PerformPlaces(p, e, k);
    InHandsUpdate(p.workers, a.w, e.pc, k);
  }

  lemma ScanPushes(p: Pool, pc: ScanPc, c: ScanChoice)
    requires ScanEffect(p, pc, c).Some?
    ensures var e := ScanEffect(p, pc, c).value;
            && !e.lifo.PopTop? && e.finish == None && e.wait == None && e.limiters == p.limiters
            && (e.lifo.PushTop? <==> pc.Stamped?)
            && (pc.Stamped? ==> e.lifo.item == Item(|p.arrivals|, pc.arrivedAt, false) && e.pc == Pushed)
            && (e.pc.Stamped? ==> e.pc.arrivedAt == p.clock)
  {
  }

  lemma ScanKeepsPlace(cfg: Config, p: Pool, a: Action, k: nat)
    requires Placed(p, k) && a.Scan? && Step(cfg, p, a).Some?
    ensures Placed(Step(cfg, p, a).value, k)
  {
    ScanPushes(p, p.scans[a.i], a.sc);
    PerformPlaces(p, ScanEffect(p, p.scans[a.i], a.sc).value, k);
  }

  lemma StepKeepsPlace(cfg: Config, p: Pool, a: Action, k: nat)
    requires Placed(p, k) && Step(cfg, p, a).Some?
    ensures Placed(Step(cfg, p, a).value, k)
  {
    match a
    case Scan(_, _) => ScanKeepsPlace(cfg, p, a, k);
    case Work(_, _) => WorkKeepsPlace(cfg, p, a, k);
    case _ =>
  }

  /** Conservation of items: at every point of every interleaving an item that was
      pushed is in the stack once, or in one worker's hands, or has ended once, and
      never two of these; so none is lost and none is sent twice. */
  lemma {:induction false} ItemInOnePlace(cfg: Config, workers: nat, actions: seq<Action>, p: Pool, k: nat)
    requires Reachable(cfg, workers, actions, p)
    ensures InStack(p.lifo, k) + InHands(p.workers, k) + Ends(p.finished, k) == One(k < |p.arrivals|)
  {
    if actions == [] {
      NoHands(workers, k);
    } else {
      var n := |actions| - 1;
      var q :| Reachable(cfg, workers, actions[..n], q) && Step(cfg, q, actions[n]) == Some(p);
      ItemInOnePlace(cfg, workers, actions[..n], q, k);
      StepKeepsPlace(cfg, q, actions[n], k);
    }
  }
}
