/** The worker pool as a transition system (src/arbitrage.rs, src/metrics.rs): any
    number of workers, any number of quote pairs on their way to the queue, and
    the reporter that drains the counters. One action is one operation on shared
    state, with the local work before it. */
module WorkerPool {
  import opened Text
  import opened RateLimiting

  const MILLI: nat := 1_000_000
  const RATE_RETRY_BACKOFF_MS: nat := 20
  const BACKOFF: nat := 20_000_000

  datatype Counter =
    | MetisRespOk | DroppedMultiHop | DroppedMergeFail | DroppedNoServe
    | RouteTemplateHit | IxFromRam | IxFromMetis | SwapIxOk
    | SwapIxFailed | SwapIxTimeout | SwapIxHttp | SwapIxNetwork | SwapIxParse
    | QueueIn | DroppedStale | TxBuildFailed | DroppedAccountLocks | TxTooLarge
    | CalcDone | JitoSent | JitoSendFailed | RateRequeued | TxDropped

  /** A `ReadyInstruction`: its identity, arrival time and waited flag. */
  datatype Item = Item(id: nat, arrivedAt: nat, waitedForSlot: bool)

  /** Where a worker stands in its loop; `at` is when it last checked the age. */
  datatype WorkerPc =
    | Idle
    | Acquired
    | Popped(item: Item)
    | Holding(item: Item)
    | Checked(item: Item, at: nat)
    | RestRefused(item: Item, at: nat)
    | Refused(item: Item, at: nat)
    | Requeuing(item: Item, at: nat)
    | Repushed(at: nat)
    | Recounted(at: nat)
    | Sleeping(until: nat)
    | Building(item: Item, at: nat)
    | Sending(item: Item)
    | OwesDrop

  /** Where a profitable quote pair stands on its way to the queue. */
  datatype ScanPc =
    | Quoted
    | ScanOwesDrop
    | TemplateHit
    | RamCounted
    | AskingMetis
    | MetisAnswered
    | MetisFailed(why: Counter)
    | FailureDropped(why: Counter)
    | Ready
    | Stamped(arrivedAt: nat)
    | Pushed
    | CountedIn
    | CountedDepth
    | Ended

  datatype Requeue = Requeue(worker: nat, id: nat)

  datatype Config = Config(queueMaxAgeMs: nat, restLimit: nat, grpcLimit: Option<nat>)

  datatype Pool = Pool(
    clock: nat,
    lifo: seq<Item>, permits: nat, queueDepth: int,
    current: map<Counter, nat>, reported: map<Counter, nat>,
    workers: seq<WorkerPc>, scans: seq<ScanPc>,
    limiters: Pair,
    // history, not state of the program
    arrivals: seq<nat>, finished: seq<nat>, waited: set<nat>, requeues: seq<Requeue>)

  function One(b: bool): nat { if b then 1 else 0 }

  function Value(m: map<Counter, nat>, c: Counter): nat {
    if c in m then m[c] else 0
  }

  function Bump(m: map<Counter, nat>, c: Counter, n: nat): map<Counter, nat> {
    m[c := Value(m, c) + n]
  }

  /** A counter over the whole run: every report so far plus what is pending. */
  function Total(p: Pool, c: Counter): nat {
    Value(p.reported, c) + Value(p.current, c)
  }

  function Start(workers: nat): Pool {
    Pool(0, [], 0, 0, map[], map[], seq(workers, _ => Idle), [],
         Pair(History([], []), History([], []), []), [], [], {}, [])
  }

  // ------------------------------------------------ actions

  datatype WorkChoice =
    | Go
    | BuildFails
    | TooManyLocks
    | TooLarge
    | SendFails

  datatype ScanChoice =
    | Proceed
    | MultiHop
    | MergeFails
    | ServeFromRam
    | NoServe
    | AskMetis
    | MetisError(why: Counter)

  datatype Action =
    | Tick(dt: nat)
    | Drain(c: Counter)
    | NewPair
    | Scan(i: nat, sc: ScanChoice)
    | Work(w: nat, wc: WorkChoice)

  predicate IsFailureKind(c: Counter) {
    c == SwapIxTimeout || c == SwapIxHttp || c == SwapIxNetwork || c == SwapIxParse
  }

  function Count(p: Pool, c: Counter): Pool {
    p.(current := Bump(p.current, c, 1))
  }

  function GrpcLimit(cfg: Config): nat {
    if cfg.grpcLimit.Some? then cfg.grpcLimit.value else 0
  }

  /** Age in whole milliseconds against the limit; a clock behind reads as age 0. */
  predicate InTime(cfg: Config, item: Item, now: nat) {
    now >= item.arrivedAt ==> (now - item.arrivedAt) / MILLI <= cfg.queueMaxAgeMs
  }

  /** In nanoseconds: an item is stale from a whole millisecond past the limit on. */
  lemma StaleExactly(cfg: Config, item: Item, now: nat)
    ensures !InTime(cfg, item, now) <==> now >= item.arrivedAt + (cfg.queueMaxAgeMs + 1) * 1_000_000
  {
  }

  datatype LifoOp = KeepLifo | PopTop | PushTop(item: Item)

  /** What one operation does: where the actor goes next, the stack, permits and
      gauge, at most one counter, and the history. */
  datatype Effect<PC> = Effect(
    pc: PC, lifo: LifoOp, permits: int, depth: int, bump: Option<Counter>,
    finish: Option<nat>, wait: Option<nat>, limiters: Pair)

  function Move<PC>(p: Pool, pc: PC): Effect<PC> {
    Effect(pc, KeepLifo, 0, 0, None, None, None, p.limiters)
  }

  function MoveAndCount<PC>(p: Pool, pc: PC, c: Counter): Effect<PC> {
    Effect(pc, KeepLifo, 0, 0, Some(c), None, None, p.limiters)
  }

  /** An item's end: its reason is counted, and `tx_dropped` is owed unless sent. */
  function Finish(p: Pool, item: Item, reason: Counter): Effect<WorkerPc> {
    Effect(if reason == JitoSent then Idle else OwesDrop, KeepLifo, 0, 0, Some(reason), Some(item.id), None, p.limiters)
  }

  /** Taking an item: acquire and forget a permit, pop, count down, check the age. */
  function TakeEffect(cfg: Config, p: Pool, pc: WorkerPc): Option<Effect<WorkerPc>> {
    match pc
    case Idle => if p.permits > 0 then Some(Move(p, Acquired).(permits := -1)) else None
    case Acquired =>
      if p.lifo == [] then Some(Move(p, Idle))
      else Some(Move(p, Popped(p.lifo[|p.lifo| - 1])).(lifo := PopTop))
    case Popped(item) => Some(Move(p, Holding(item)).(depth := -1))
    case Holding(item) =>
      if InTime(cfg, item, p.clock) then Some(Move(p, Checked(item, p.clock))) else Some(Finish(p, item, DroppedStale))
    case _ => None
  }

  /** The two limiters: REST first, then gRPC when there is one. */
  function LimitEffect(cfg: Config, p: Pool, pc: WorkerPc): Option<Effect<WorkerPc>> {
    match pc
    case Checked(item, at) =>
      var rest := Next(cfg.restLimit, p.limiters.rest, p.clock);
      if |rest.granted| > |p.limiters.rest.granted| then
        Some(Move(p, Building(item, at))
             .(limiters := p.limiters.(rest := rest, granted := p.limiters.granted + [p.clock])))
      else Some(Move(p, RestRefused(item, at)).(limiters := p.limiters.(rest := rest)))
    case RestRefused(item, at) =>
      if cfg.grpcLimit.None? then Some(Move(p, Refused(item, at)))
      else
        var grpc := Next(cfg.grpcLimit.value, p.limiters.grpc, p.clock);
        if |grpc.granted| > |p.limiters.grpc.granted| then
          Some(Move(p, Building(item, at))
               .(limiters := p.limiters.(grpc := grpc, granted := p.limiters.granted + [p.clock])))
        else Some(Move(p, Refused(item, at)).(limiters := p.limiters.(grpc := grpc)))
    case _ => None
  }

  /** Both refused: flag and count the first wait, push back, count up, release a
      permit, sleep. */
  function RequeueEffect(p: Pool, pc: WorkerPc): Option<Effect<WorkerPc>> {
    match pc
    case Refused(item, at) =>
      if item.waitedForSlot then Some(Move(p, Requeuing(item, at)))
      else
        Some(MoveAndCount(p, Requeuing(item.(waitedForSlot := true), at), RateRequeued).(wait := Some(item.id)))
    case Requeuing(item, at) => Some(Move(p, Repushed(at)).(lifo := PushTop(item)))
    case Repushed(at) => Some(Move(p, Recounted(at)).(depth := 1))
    case Recounted(at) => Some(Move(p, Sleeping(p.clock + BACKOFF)).(permits := 1))
    case Sleeping(until) => if until <= p.clock then Some(Move(p, Idle)) else None
    case _ => None
  }

  /** Building and sending, with any outcome. */
  function SendEffect(p: Pool, pc: WorkerPc, c: WorkChoice): Option<Effect<WorkerPc>> {
    match (pc, c)
    case (Building(item, _), BuildFails) => Some(Finish(p, item, TxBuildFailed))
    case (Building(item, _), TooManyLocks) => Some(Finish(p, item, DroppedAccountLocks))
    case (Building(item, _), TooLarge) => Some(Finish(p, item, TxTooLarge))
    case (Building(item, _), Go) => Some(MoveAndCount(p, Sending(item), CalcDone))
    case (Sending(item), Go) => Some(Finish(p, item, JitoSent))
    case (Sending(item), SendFails) => Some(Finish(p, item, JitoSendFailed))
    case (OwesDrop, Go) => Some(MoveAndCount(p, Idle, TxDropped))
    case _ => None
  }

  /** One step of a worker at `pc`; none when it cannot move that way. */
  function WorkEffect(cfg: Config, p: Pool, pc: WorkerPc, c: WorkChoice): Option<Effect<WorkerPc>> {
    match pc
    case Building(_, _) | Sending(_) | OwesDrop => SendEffect(p, pc, c)
    case Idle | Acquired | Popped(_) | Holding(_) => if c == Go then TakeEffect(cfg, p, pc) else None
    case Checked(_, _) | RestRefused(_, _) => if c == Go then LimitEffect(cfg, p, pc) else None
    case _ => if c == Go then RequeueEffect(p, pc) else None
  }

  /** From a profitable pair to its tier, with the counters in the code's order. */
  function TierEffect(p: Pool, pc: ScanPc, c: ScanChoice): Option<Effect<ScanPc>> {
    match (pc, c)
    case (Quoted, MultiHop) => Some(MoveAndCount(p, ScanOwesDrop, DroppedMultiHop))
    case (Quoted, MergeFails) => Some(MoveAndCount(p, ScanOwesDrop, DroppedMergeFail))
    case (Quoted, NoServe) => Some(MoveAndCount(p, ScanOwesDrop, DroppedNoServe))
    case (ScanOwesDrop, Proceed) => Some(MoveAndCount(p, Ended, TxDropped))
    case (Quoted, ServeFromRam) => Some(MoveAndCount(p, TemplateHit, RouteTemplateHit))
    case (TemplateHit, Proceed) => Some(MoveAndCount(p, RamCounted, IxFromRam))
    case (RamCounted, Proceed) => Some(MoveAndCount(p, Ready, SwapIxOk))
    case (Quoted, AskMetis) => Some(Move(p, AskingMetis))
    case (AskingMetis, Proceed) => Some(MoveAndCount(p, MetisAnswered, SwapIxOk))
    case (MetisAnswered, Proceed) => Some(MoveAndCount(p, Ready, IxFromMetis))
    case (AskingMetis, MetisError(why)) =>
      if IsFailureKind(why) then Some(MoveAndCount(p, MetisFailed(why), SwapIxFailed)) else None
    case (MetisFailed(why), Proceed) => Some(MoveAndCount(p, FailureDropped(why), TxDropped))
    case (FailureDropped(why), Proceed) => Some(MoveAndCount(p, Ended, why))
    case _ => None
  }

  /** `push_to_queue`: stamp, push, count in, count up, release a permit. */
  function PushEffect(p: Pool, pc: ScanPc): Option<Effect<ScanPc>> {
    match pc
    case Ready => Some(Move(p, Stamped(p.clock)))
    case Stamped(arrivedAt) => Some(Move(p, Pushed).(lifo := PushTop(Item(|p.arrivals|, arrivedAt, false))))
    case Pushed => Some(MoveAndCount(p, CountedIn, QueueIn))
    case CountedIn => Some(Move(p, CountedDepth).(depth := 1))
    case CountedDepth => Some(Move(p, Ended).(permits := 1))
    case _ => None
  }

  function ScanEffect(p: Pool, pc: ScanPc, c: ScanChoice): Option<Effect<ScanPc>> {
    match pc
    case Ready | Stamped(_) | Pushed | CountedIn | CountedDepth => if c == Proceed then PushEffect(p, pc) else None
    case _ => TierEffect(p, pc, c)
  }

  predicate Possible<PC>(p: Pool, e: Effect<PC>) {
    p.permits + e.permits >= 0 && (e.lifo.PopTop? ==> p.lifo != [])
  }

  /** The effect on everything but the actors. */
  function Perform<PC>(p: Pool, e: Effect<PC>): Pool
    requires Possible(p, e)
  {
    p.(lifo := match e.lifo
               case KeepLifo => p.lifo
               case PopTop => p.lifo[..|p.lifo| - 1]
               case PushTop(item) => p.lifo + [item],
       permits := p.permits + e.permits,
       queueDepth := p.queueDepth + e.depth,
       current := if e.bump.Some? then Bump(p.current, e.bump.value, 1) else p.current,
       finished := if e.finish.Some? then p.finished + [e.finish.value] else p.finished,
       waited := if e.wait.Some? then p.waited + {e.wait.value} else p.waited,
       limiters := e.limiters)
  }

  function PerformWork(p: Pool, w: nat, e: Effect<WorkerPc>): Pool
    requires w < |p.workers| && Possible(p, e)
  {
    Perform(p, e).(workers := p.workers[w := e.pc],
                   requeues := if e.lifo.PushTop? then p.requeues + [Requeue(w, e.lifo.item.id)] else p.requeues)
  }

  function PerformScan(p: Pool, i: nat, e: Effect<ScanPc>): Pool
    requires i < |p.scans| && Possible(p, e)
  {
    Perform(p, e).(scans := p.scans[i := e.pc],
                   arrivals := if e.lifo.PushTop? then p.arrivals + [e.lifo.item.arrivedAt] else p.arrivals)
  }

  function Step(cfg: Config, p: Pool, a: Action): Option<Pool> {
    match a
    case Tick(dt) => Some(p.(clock := p.clock + dt))
    case Drain(c) =>
      Some(p.(reported := Bump(p.reported, c, Value(p.current, c)), current := p.current[c := 0]))
    case NewPair => Some(Count(p, MetisRespOk).(scans := p.scans + [Quoted]))
    case Scan(i, sc) =>
      if i >= |p.scans| then None
      else
        (match ScanEffect(p, p.scans[i], sc)
         case Some(e) => if Possible(p, e) then Some(PerformScan(p, i, e)) else None
         case None => None)
    case Work(w, wc) =>
      if w >= |p.workers| then None
      else
        (match WorkEffect(cfg, p, p.workers[w], wc)
         case Some(e) => if Possible(p, e) then Some(PerformWork(p, w, e)) else None
         case None => None)
  }

  /** The pools that some interleaving of actions leads to. */
  ghost predicate Reachable(cfg: Config, workers: nat, actions: seq<Action>, p: Pool) {
    if actions == [] then p == Start(workers)
    else
      var n := |actions| - 1;
      exists q :: Reachable(cfg, workers, actions[..n], q) && Step(cfg, q, actions[n]) == Some(p)
  }
}
