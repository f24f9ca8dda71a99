/** The worker loop, the push to the queue and the report as they run on the shared
    fields (src/arbitrage.rs, src/metrics.rs). Every operation on a field is one
    action of the transition system, so whatever the loop does is one of its runs. */
module WorkerLoop {
  import opened Text
  import opened RateLimiting
  import opened WorkerPool
  import Balance = WorkerPoolBalance

  const MAX_ACCOUNT_LOCKS: nat := 64
  const MAX_TX_BYTES: nat := 1232

  /** A built transaction: its account locks and, when it serializes, its size. */
  datatype Built = Built(locks: nat, bytes: Option<nat>)

  /** What the surroundings decide during one turn: delays and outcomes. */
  datatype World = World(
    untilCheck: nat, untilRest: nat, untilGrpc: nat, oversleep: nat, built: Option<Built>, sent: bool)

  datatype Ending =
    | Dropped(reason: Counter)
    | PutBack
    | Sent(useGrpc: bool)

  /** How many items did not come back. */
  function Gone(ends: seq<Ending>): nat {
    if ends == [] then 0 else Gone(ends[..|ends| - 1]) + One(ends[|ends| - 1] != PutBack)
  }

  lemma GoneAppend(ends: seq<Ending>, end: Ending)
    ensures Gone(ends + [end]) == Gone(ends) + One(end != PutBack)
  {
    assert (ends + [end])[..|ends|] == ends;
  }

  /** What becomes of an item that got a slot. */
  function BuildEnding(world: World, useGrpc: bool): Ending {
    if world.built.None? then Dropped(TxBuildFailed)
    else if world.built.value.locks > MAX_ACCOUNT_LOCKS then Dropped(DroppedAccountLocks)
    else if world.built.value.bytes.None? then Dropped(TxBuildFailed)
    else if world.built.value.bytes.value > MAX_TX_BYTES then Dropped(TxTooLarge)
    else if world.sent then Sent(useGrpc)
    else Dropped(JitoSendFailed)
  }

  /** Each ending by the outcomes it takes: no transaction or one that does not
      serialize, more than 64 locks, more than 1232 bytes, or the answer to the send;
      locks are looked at before the size. */
  lemma BuildEndingExactly(world: World, useGrpc: bool)
    ensures var end, built := BuildEnding(world, useGrpc), world.built;
            var fits := built.Some? && built.value.locks <= 64 && built.value.bytes.Some?
                        && built.value.bytes.value <= 1232;
            && (end == Sent(useGrpc) <==> fits && world.sent)
            && (end == Dropped(JitoSendFailed) <==> fits && !world.sent)
            && (end == Dropped(DroppedAccountLocks) <==> built.Some? && built.value.locks >= 65)
            && (end == Dropped(TxTooLarge) <==>
                  && built.Some? && built.value.locks <= 64
                  && built.value.bytes.Some? && built.value.bytes.value >= 1233)
            && (end == Dropped(TxBuildFailed) <==>
                  built.None? || (built.value.locks <= 64 && built.value.bytes.None?))
            && end != PutBack && end != Dropped(DroppedStale)
  {
  }

  function BumpAll(m: map<Counter, nat>, cs: seq<Counter>): map<Counter, nat> {
    if cs == [] then m else Bump(BumpAll(m, cs[..|cs| - 1]), cs[|cs| - 1], 1)
  }

  lemma BumpTwo(m: map<Counter, nat>, c: Counter, d: Counter)
    ensures BumpAll(m, [c]) == Bump(m, c, 1)
    ensures BumpAll(m, [c, d]) == Bump(Bump(m, c, 1), d, 1)
  {
    assert [c][..0] == [] && [c, d][..1] == [c];
  }

  lemma BumpThree(m: map<Counter, nat>, c: Counter, d: Counter, e: Counter)
    ensures BumpAll(m, [c, d, e]) == Bump(Bump(Bump(m, c, 1), d, 1), e, 1)
  {
    BumpTwo(m, c, d);
    assert [c, d, e][..2] == [c, d];
  }

  /** The counters one turn adds to, in order. */
  function Counted(end: Ending, waited: bool): seq<Counter> {
    match end
    case Dropped(reason) => (if reason == JitoSendFailed then [CalcDone] else []) + [reason, TxDropped]
    case PutBack => if waited then [] else [RateRequeued]
    case Sent(_) => [CalcDone, JitoSent]
  }

  function SentCounts(end: Ending): seq<Counter> {
    if end.Sent? then [JitoSent] else [JitoSendFailed, TxDropped]
  }

  /** How the classification of a quote pair turns out. */
  datatype Verdict = IsMultiHop | CannotMerge | CannotServe | FromRam | MetisOk | MetisErr(why: Counter)

  function VerdictCounts(v: Verdict): seq<Counter> {
    match v
    case IsMultiHop => [DroppedMultiHop, TxDropped]
    case CannotMerge => [DroppedMergeFail, TxDropped]
    case CannotServe => [DroppedNoServe, TxDropped]
    case FromRam => [RouteTemplateHit, IxFromRam, SwapIxOk]
    case MetisOk => [SwapIxOk, IxFromMetis]
    case MetisErr(why) => [SwapIxFailed, TxDropped, why]
  }

  /** What a turn adds to one counter: one to the reason it dropped for and to
      `tx_dropped`; one to `calc_done` when it came to a send and to `jito_sent` when
      that worked; one to `rate_requeued` when the item went back for the first time. */
  lemma TurnCounts(m: map<Counter, nat>, end: Ending, waited: bool, c: Counter)
    requires end.Dropped? ==> Balance.DropsItem(end.reason)
    ensures Value(BumpAll(m, Counted(end, waited)), c)
            == Value(m, c) + One(match c
                                 case TxDropped => end.Dropped?
                                 case CalcDone => end.Sent? || end == Dropped(JitoSendFailed)
                                 case JitoSent => end.Sent?
                                 case RateRequeued => end.PutBack? && !waited
                                 case _ => end == Dropped(c))
  {
    hide Bump, Value, BumpAll;
    match end
    case Dropped(reason) =>
      AddTwo(m, reason, TxDropped, c);
      AddThree(m, CalcDone, reason, TxDropped, c);
      assert Counted(end, waited) == if reason == JitoSendFailed then [CalcDone, reason, TxDropped]
                                     else [reason, TxDropped];
    case PutBack =>
      AddOne(m, RateRequeued, c);
    case Sent(_) =>
      AddTwo(m, CalcDone, JitoSent, c);
  }

  lemma AddOne(m: map<Counter, nat>, d: Counter, c: Counter)
    ensures Value(BumpAll(m, []), c) == Value(m, c)
    ensures Value(BumpAll(m, [d]), c) == Value(m, c) + One(c == d)
  {
    BumpTwo(m, d, d);
  }

  lemma AddTwo(m: map<Counter, nat>, d: Counter, e: Counter, c: Counter)
    ensures Value(BumpAll(m, [d, e]), c) == Value(m, c) + One(c == d) + One(c == e)
  {
    BumpTwo(m, d, e);
  }

  lemma AddThree(m: map<Counter, nat>, d: Counter, e: Counter, f: Counter, c: Counter)
    ensures Value(BumpAll(m, [d, e, f]), c) == Value(m, c) + One(c == d) + One(c == e) + One(c == f)
  {
    hide BumpAll;
    BumpThree(m, d, e, f);
  }

  /** What a settled pair adds to one counter. */
  lemma VerdictAdds(m: map<Counter, nat>, v: Verdict, c: Counter)
    requires v.MetisErr? ==> IsFailureKind(v.why)
    ensures Value(BumpAll(m, VerdictCounts(v)), c)
            == Value(m, c) + One(match c
                                 case TxDropped => !v.FromRam? && !v.MetisOk?
                                 case DroppedMultiHop => v.IsMultiHop?
                                 case DroppedMergeFail => v.CannotMerge?
                                 case DroppedNoServe => v.CannotServe?
                                 case RouteTemplateHit => v.FromRam?
                                 case IxFromRam => v.FromRam?
                                 case IxFromMetis => v.MetisOk?
                                 case SwapIxOk => v.FromRam? || v.MetisOk?
                                 case SwapIxFailed => v.MetisErr?
                                 case _ => v == MetisErr(c))
  {
    hide Bump, Value, BumpAll;
    match v
    case IsMultiHop => AddTwo(m, DroppedMultiHop, TxDropped, c);
    case CannotMerge => AddTwo(m, DroppedMergeFail, TxDropped, c);
    case CannotServe => AddTwo(m, DroppedNoServe, TxDropped, c);
    case FromRam => AddThree(m, RouteTemplateHit, IxFromRam, SwapIxOk, c);
    case MetisOk => AddTwo(m, SwapIxOk, IxFromMetis, c);
    case MetisErr(why) => AddThree(m, SwapIxFailed, TxDropped, why, c);
  }

  predicate Queues(v: Verdict) { v.FromRam? || v.MetisOk? }

  /** The order in which the reporter swaps the counters to zero. */
  const DRAIN_ORDER: seq<Counter> := [
    MetisRespOk, SwapIxOk, IxFromRam, IxFromMetis, RouteTemplateHit,
    SwapIxFailed, SwapIxTimeout, SwapIxHttp, SwapIxNetwork, SwapIxParse, QueueIn,
    DroppedStale, TxBuildFailed, TxTooLarge, DroppedAccountLocks, CalcDone, RateRequeued,
    JitoSendFailed, JitoSent, TxDropped, DroppedMultiHop, DroppedMergeFail, DroppedNoServe]

  /** A counter's place in that order. */
  function Rank(c: Counter): nat {
    match c
    case MetisRespOk => 0 case SwapIxOk => 1 case IxFromRam => 2 case IxFromMetis => 3
    case RouteTemplateHit => 4 case SwapIxFailed => 5 case SwapIxTimeout => 6 case SwapIxHttp => 7
    case SwapIxNetwork => 8 case SwapIxParse => 9 case QueueIn => 10 case DroppedStale => 11
    case TxBuildFailed => 12 case TxTooLarge => 13 case DroppedAccountLocks => 14 case CalcDone => 15
    case RateRequeued => 16 case JitoSendFailed => 17 case JitoSent => 18 case TxDropped => 19
    case DroppedMultiHop => 20 case DroppedMergeFail => 21 case DroppedNoServe => 22
  }

  lemma RankOf(i: nat)
    requires i < |DRAIN_ORDER|
    ensures forall c :: Rank(c) == i <==> c == DRAIN_ORDER[i]
  {
  }

  datatype Actor = Worker(w: nat) | Producer(i: nat) | Reporter

  predicate IsOf(a: Action, who: Actor) {
    match a
    case Tick(_) => true
    case Work(w, _) => who == Worker(w)
    case Scan(i, _) => who == Producer(i)
    case Drain(_) => who == Reporter
    case NewPair => who.Producer?
  }

  /** Since `before` only this actor acted, and time passed. */
  ghost predicate OnlyActed(who: Actor, before: seq<Action>, now: seq<Action>) {
    && |before| <= |now| && now[..|before|] == before
    && forall i :: |before| <= i < |now| ==> IsOf(now[i], who)
  }

  lemma NoneActed(who: Actor, before: seq<Action>)
    ensures OnlyActed(who, before, before)
  {
  }

  lemma TwoActed(who: Actor, before: seq<Action>, a: Action, b: Action)
    requires IsOf(a, who) && IsOf(b, who)
    ensures OnlyActed(who, before, before + [a] + [b])
  {
  }

  lemma OneActed(who: Actor, before: seq<Action>, a: Action)
    requires IsOf(a, who)
    ensures OnlyActed(who, before, before + [a])
  {
  }

  lemma ActedThen(who: Actor, before: seq<Action>, between: seq<Action>, now: seq<Action>)
    requires OnlyActed(who, before, between) && OnlyActed(who, between, now)
    ensures OnlyActed(who, before, now)
  {
    assert now[..|between|][..|before|] == now[..|before|];
    forall i | |before| <= i < |now| ensures IsOf(now[i], who) {
      if i < |between| { assert now[i] == between[i]; }
    }
  }

  /** A free permit stands for an item in the stack. */
  lemma PermitMeansItem(cfg: Config, workers: nat, actions: seq<Action>, p: Pool)
    requires Reachable(cfg, workers, actions, p) && p.permits > 0
    ensures p.lifo != []
  {
    Balance.QueueProtocol(cfg, workers, actions, p, 0);
  }

  predicate Allows(limiter: RateLimiter, now: nat)
    reads limiter
  {
    Admit(limiter.maxPerSecond, limiter.timestamps, now).allowed
  }

  predicate MaybeAllows(limiter: RateLimiter?, now: nat)
    reads limiter
  {
    limiter != null && Allows(limiter, now)
  }

  class Pipeline {
    const cfg: Config
    const workerCount: nat
    const restLimiter: RateLimiter
    const grpcLimiter: RateLimiter?
    var lifo: seq<Item>
    var permits: nat
    var queueDepth: int
    var clock: nat
    var current: map<Counter, nat>
    ghost var pool: Pool
    ghost var trace: seq<Action>

    ghost predicate Limiters()
      reads this, restLimiter, grpcLimiter
    {
      && restLimiter.Valid() && restLimiter.maxPerSecond == cfg.restLimit
      && restLimiter.timestamps == pool.limiters.rest.stored
      && (grpcLimiter == null ==> cfg.grpcLimit == None)
      && (grpcLimiter != null ==>
            && grpcLimiter != restLimiter && grpcLimiter.Valid() && cfg.grpcLimit == Some(grpcLimiter.maxPerSecond)
            && grpcLimiter.timestamps == pool.limiters.grpc.stored)
    }

    /** The fields are those of a pool that the recorded actions reach. */
    ghost predicate Valid()
      reads this, restLimiter, grpcLimiter
    {
      && lifo == pool.lifo && permits == pool.permits && queueDepth == pool.queueDepth
      && clock == pool.clock && current == pool.current && |pool.workers| == workerCount
      && Limiters()
      && Reachable(cfg, workerCount, trace, pool)
    }

    ghost predicate At(w: nat, pc: WorkerPc)
      reads this
    {
      w < |pool.workers| && pool.workers[w] == pc
    }

    constructor (workerCount: nat, queueMaxAgeMs: nat, rest: RateLimiter, grpc: RateLimiter?)
      requires rest.timestamps == [] && (grpc != null ==> grpc != rest && grpc.timestamps == [])
      ensures Valid() && lifo == [] && permits == 0 && queueDepth == 0 && clock == 0 && current == map[]
      ensures this.workerCount == workerCount && cfg.queueMaxAgeMs == queueMaxAgeMs
      ensures restLimiter == rest && grpcLimiter == grpc
      ensures trace == [] && pool == Start(workerCount)
    {
      cfg := Config(queueMaxAgeMs, rest.maxPerSecond, if grpc == null then None else Some(grpc.maxPerSecond));
      this.workerCount := workerCount;
      restLimiter, grpcLimiter := rest, grpc;
      lifo, permits, queueDepth, clock, current := [], 0, 0, 0, map[];
      pool, trace := Start(workerCount), [];
    }

    /** Records an action that the fields have just performed. */
    ghost method Take(a: Action)
      requires Reachable(cfg, workerCount, trace, pool) && Step(cfg, pool, a).Some?
      modifies this`pool, this`trace
      ensures Reachable(cfg, workerCount, trace, pool)
      ensures Step(cfg, old(pool), a) == Some(pool) && trace == old(trace) + [a]
    {
      assert (trace + [a])[..|trace|] == trace;
      trace, pool := trace + [a], Step(cfg, pool, a).value;
    }

    /** Time passes while the worker stays where it is. */
    method Elapse(dt: nat, ghost w: nat, ghost pc: WorkerPc)
      requires Valid() && At(w, pc)
      modifies this`clock, this`pool, this`trace
      ensures Valid() && At(w, pc) && clock == old(clock) + dt && trace == old(trace) + [Tick(dt)]
    {
      hide Reachable, WorkEffect, ScanEffect;
      clock := clock + dt;
      Take(Tick(dt));
    }

    ghost method PermitFindsItem()
      requires Valid() && permits > 0
      ensures lifo != []
    {
      PermitMeansItem(cfg, workerCount, trace, pool);
    }

    ghost method LimitersDiffer()
      requires Valid()
      ensures grpcLimiter != null ==> grpcLimiter != restLimiter
    {
    }

    // ------------------------------------------------ one operation at a time

    method Acquire(w: nat)
      requires Valid() && At(w, Idle) && permits > 0
      modifies this`permits, this`pool, this`trace
      ensures Valid() && At(w, Acquired) && permits == old(permits) - 1 && trace == old(trace) + [Work(w, Go)]
    {
      hide Reachable, InTime, LimitEffect, RequeueEffect, SendEffect, ScanEffect;
      permits := permits - 1;
      Take(Work(w, Go));
    }

    method Pop(w: nat) returns (item: Option<Item>)
      requires Valid() && At(w, Acquired)
      modifies this`lifo, this`pool, this`trace
      ensures Valid() && trace == old(trace) + [Work(w, Go)]
      ensures item.None? ==> old(lifo) == lifo == [] && At(w, Idle)
      ensures item.Some? ==> old(lifo) == lifo + [item.value] && At(w, Popped(item.value))
    {
      hide Reachable, InTime, LimitEffect, RequeueEffect, SendEffect, ScanEffect;
      if lifo == [] {
        item := None;
      } else {
        item := Some(lifo[|lifo| - 1]);
        lifo := lifo[..|lifo| - 1];
      }
      Take(Work(w, Go));
    }

    method CountDown(w: nat, ghost item: Item)
      requires Valid() && At(w, Popped(item))
      modifies this`queueDepth, this`pool, this`trace
      ensures Valid() && At(w, Holding(item))
      ensures queueDepth == old(queueDepth) - 1 && trace == old(trace) + [Work(w, Go)]
    {
      hide Reachable, InTime, LimitEffect, RequeueEffect, SendEffect, ScanEffect;
      queueDepth := queueDepth - 1;
      Take(Work(w, Go));
    }

    method IsInTime(item: Item) returns (fine: bool)
      ensures fine == InTime(cfg, item, clock)
    {
      var age := if clock >= item.arrivedAt then clock - item.arrivedAt else 0;
      fine := age / MILLI <= cfg.queueMaxAgeMs;
    }

    method CheckAge(w: nat, item: Item) returns (fine: bool)
      requires Valid() && At(w, Holding(item))
      modifies this`current, this`pool, this`trace
      ensures Valid() && trace == old(trace) + [Work(w, Go)] && fine == InTime(cfg, item, clock)
      ensures fine ==> At(w, Checked(item, clock)) && current == old(current)
      ensures !fine ==> At(w, OwesDrop) && current == Bump(old(current), DroppedStale, 1)
    {
      hide Reachable, InTime, LimitEffect, RequeueEffect, SendEffect, ScanEffect;
      fine := IsInTime(item);
      if !fine {
        current := Bump(current, DroppedStale, 1);
      }
      Take(Work(w, Go));
    }

    method TryRest(w: nat, ghost item: Item, ghost at: nat) returns (ok: bool)
      requires Valid() && At(w, Checked(item, at))
      modifies this`pool, this`trace, restLimiter`timestamps
      ensures Valid() && trace == old(trace) + [Work(w, Go)]
      ensures ok == old(Allows(restLimiter, clock))
      ensures At(w, if ok then Building(item, at) else RestRefused(item, at))
    {
      hide Reachable, Retained, TakeEffect, RequeueEffect, SendEffect, ScanEffect;
      ok := restLimiter.TryAcquire(clock);
      Take(Work(w, Go));
    }

    method TryGrpc(w: nat, ghost item: Item, ghost at: nat) returns (ok: bool)
      requires Valid() && At(w, RestRefused(item, at))
      modifies this`pool, this`trace, grpcLimiter
      ensures Valid() && trace == old(trace) + [Work(w, Go)]
      ensures ok == old(MaybeAllows(grpcLimiter, clock))
      ensures At(w, if ok then Building(item, at) else Refused(item, at))
    {
      hide Reachable, Retained, TakeEffect, RequeueEffect, SendEffect, ScanEffect;
      if grpcLimiter != null {
        ok := grpcLimiter.TryAcquire(clock);
      } else {
        ok := false;
      }
      Take(Work(w, Go));
    }

    method FlagWait(w: nat, item: Item, ghost at: nat) returns (flagged: Item)
      requires Valid() && At(w, Refused(item, at))
      modifies this`current, this`pool, this`trace
      ensures Valid() && trace == old(trace) + [Work(w, Go)] && flagged == item.(waitedForSlot := true)
      ensures At(w, Requeuing(flagged, at))
      ensures current == if item.waitedForSlot then old(current) else Bump(old(current), RateRequeued, 1)
    {
      hide Reachable, TakeEffect, LimitEffect, SendEffect, ScanEffect;
      flagged := item;
      if !item.waitedForSlot {
        flagged := item.(waitedForSlot := true);
        current := Bump(current, RateRequeued, 1);
        Take(Work(w, Go));
      } else {
        assert flagged == item.(waitedForSlot := true);
        Take(Work(w, Go));
      }
    }

    method PushBack(w: nat, item: Item, ghost at: nat)
      requires Valid() && At(w, Requeuing(item, at))
      modifies this`lifo, this`pool, this`trace
      ensures Valid() && At(w, Repushed(at)) && lifo == old(lifo) + [item] && trace == old(trace) + [Work(w, Go)]
    {
      hide Reachable, TakeEffect, LimitEffect, SendEffect, ScanEffect;
      lifo := lifo + [item];
      Take(Work(w, Go));
    }

    method CountUp(w: nat, ghost at: nat)
      requires Valid() && At(w, Repushed(at))
      modifies this`queueDepth, this`pool, this`trace
      ensures Valid() && At(w, Recounted(at))
      ensures queueDepth == old(queueDepth) + 1 && trace == old(trace) + [Work(w, Go)]
    {
      hide Reachable, TakeEffect, LimitEffect, SendEffect, ScanEffect;
      queueDepth := queueDepth + 1;
      Take(Work(w, Go));
    }

    method Release(w: nat, ghost at: nat)
      requires Valid() && At(w, Recounted(at))
      modifies this`permits, this`pool, this`trace
      ensures Valid() && At(w, Sleeping(clock + BACKOFF))
      ensures permits == old(permits) + 1 && trace == old(trace) + [Work(w, Go)]
    {
      hide Reachable, TakeEffect, LimitEffect, SendEffect, ScanEffect;
      permits := permits + 1;
      Take(Work(w, Go));
    }

    method WakeUp(w: nat, ghost until: nat)
      requires Valid() && At(w, Sleeping(until)) && until <= clock
      modifies this`pool, this`trace
      ensures Valid() && At(w, Idle) && trace == old(trace) + [Work(w, Go)]
    {
      hide Reachable, TakeEffect, LimitEffect, SendEffect, ScanEffect;
      Take(Work(w, Go));
    }

    method CountTurn(w: nat, ghost pc: WorkerPc, ghost choice: WorkChoice, c: Counter)
      requires Valid() && At(w, pc)
      requires SendEffect(pool, pc, choice).Some? && SendEffect(pool, pc, choice).value.bump == Some(c)
      modifies this`current, this`pool, this`trace
      ensures Valid() && At(w, SendEffect(old(pool), pc, choice).value.pc)
      ensures current == Bump(old(current), c, 1) && trace == old(trace) + [Work(w, choice)]
    {
      hide Reachable, TakeEffect, LimitEffect, RequeueEffect, ScanEffect;
      current := Bump(current, c, 1);
      Take(Work(w, choice));
    }

    // ------------------------------------------------ the worker loop

    method PutBackAndSleep(w: nat, item: Item, ghost at: nat, oversleep: nat)
      requires Valid() && At(w, Refused(item, at))
      modifies this`lifo, this`permits, this`queueDepth, this`clock, this`current, this`pool, this`trace
      ensures Valid() && At(w, Idle) && OnlyActed(Worker(w), old(trace), trace)
      ensures lifo == old(lifo) + [item.(waitedForSlot := true)]
      ensures permits == old(permits) + 1 && queueDepth == old(queueDepth) + 1
      ensures current == BumpAll(old(current), Counted(PutBack, item.waitedForSlot))
      ensures clock == old(clock) + 20_000_000 + oversleep
    {
      hide Valid, BumpAll, Counted;
      var flagged := FlagWait(w, item, at);
      CountedPutBack(old(current), item.waitedForSlot);
      PushBack(w, flagged, at);
      CountUp(w, at);
      Release(w, at);
      ghost var until := clock + BACKOFF;
      Elapse(BACKOFF + oversleep, w, Sleeping(until));
      WakeUp(w, until);
    }

    method Drop(w: nat, ghost pc: WorkerPc, ghost choice: WorkChoice, reason: Counter)
      requires Valid() && At(w, pc) && reason != JitoSent
      requires SendEffect(pool, pc, choice).Some? && SendEffect(pool, pc, choice).value.bump == Some(reason)
      requires SendEffect(pool, pc, choice).value.pc == OwesDrop
      modifies this`current, this`pool, this`trace
      ensures Valid() && At(w, Idle) && OnlyActed(Worker(w), old(trace), trace)
      ensures current == BumpAll(old(current), [reason, TxDropped])
    {
      hide Valid;
      CountTurn(w, pc, choice, reason);
      CountTurn(w, OwesDrop, Go, TxDropped);
      BumpTwo(old(current), reason, TxDropped);
    }

    method SendBundle(w: nat, item: Item, useGrpc: bool, sent: bool) returns (end: Ending)
      requires Valid() && At(w, Sending(item))
      modifies this`current, this`pool, this`trace
      ensures Valid() && At(w, Idle) && OnlyActed(Worker(w), old(trace), trace)
      ensures end == if sent then Sent(useGrpc) else Dropped(JitoSendFailed)
      ensures current == BumpAll(old(current), SentCounts(end))
    {
      hide Valid;
      if sent {
        CountTurn(w, Sending(item), Go, JitoSent);
        end := Sent(useGrpc);
        BumpTwo(old(current), JitoSent, JitoSent);
      } else {
        Drop(w, Sending(item), SendFails, JitoSendFailed);
        end := Dropped(JitoSendFailed);
      }
    }

    method CountAndSend(w: nat, item: Item, ghost at: nat, useGrpc: bool, sent: bool) returns (end: Ending)
      requires Valid() && At(w, Building(item, at))
      modifies this`current, this`pool, this`trace
      ensures Valid() && At(w, Idle) && OnlyActed(Worker(w), old(trace), trace)
      ensures end == if sent then Sent(useGrpc) else Dropped(JitoSendFailed)
      ensures current == BumpAll(old(current), Counted(end, item.waitedForSlot))
    {
      hide Valid, Counted, SentCounts, BumpAll;
      CountTurn(w, Building(item, at), Go, CalcDone);
      end := SendBundle(w, item, useGrpc, sent);
      DoneThenSent(old(current), end, item.waitedForSlot);
    }

    method BuildAndSend(w: nat, item: Item, ghost at: nat, world: World, useGrpc: bool) returns (end: Ending)
      requires Valid() && At(w, Building(item, at))
      modifies this`current, this`pool, this`trace
      ensures Valid() && At(w, Idle) && OnlyActed(Worker(w), old(trace), trace)
      ensures end == BuildEnding(world, useGrpc)
      ensures current == BumpAll(old(current), Counted(end, item.waitedForSlot))
    {
      hide Valid;
      if world.built.None? || (world.built.value.locks <= MAX_ACCOUNT_LOCKS && world.built.value.bytes.None?) {
        Drop(w, Building(item, at), BuildFails, TxBuildFailed);
        return Dropped(TxBuildFailed);
      }
      if world.built.value.locks > MAX_ACCOUNT_LOCKS {
        Drop(w, Building(item, at), TooManyLocks, DroppedAccountLocks);
        return Dropped(DroppedAccountLocks);
      }
      if world.built.value.bytes.value > MAX_TX_BYTES {
        Drop(w, Building(item, at), TooLarge, TxTooLarge);
        return Dropped(TxTooLarge);
      }
      end := CountAndSend(w, item, at, useGrpc, world.sent);
    }

    /** One turn of the loop with a permit at hand: the last item leaves the stack,
        and comes back flagged exactly when it was in time and both limiters
        refused it; permits and gauge follow the stack, and the counters grow by
        what became of the item. */
    method Turn(w: nat, world: World) returns (end: Ending)
      requires Valid() && At(w, Idle) && permits > 0
      modifies this, restLimiter, grpcLimiter
      ensures Valid() && At(w, Idle) && OnlyActed(Worker(w), old(trace), trace)
      ensures TurnEffect(old(lifo), old(permits), old(queueDepth), old(current), end)
      ensures var item := old(lifo)[|old(lifo)| - 1];
              var t1 := old(clock) + world.untilCheck;
              var rest := old(Allows(restLimiter, t1 + world.untilRest));
              var grpc := old(MaybeAllows(grpcLimiter, t1 + world.untilRest + world.untilGrpc));
              end == if t1 >= item.arrivedAt + (cfg.queueMaxAgeMs + 1) * 1_000_000 then Dropped(DroppedStale)
                     else if !rest && !grpc then PutBack
                     else BuildEnding(world, !rest)
    {
      hide Valid, InTime, BuildEnding, BumpAll, Counted, OnlyActed, Allows, MaybeAllows;
      var item := TakeItem(w, world.untilCheck);
      ghost var held := trace;
      end := Decide(w, item, world);
      ActedThen(Worker(w), old(trace), held, trace);
    }

    /** A permit in hand always finds an item: the empty branch is dead. */
    method TakeItem(w: nat, untilCheck: nat) returns (item: Item)
      requires Valid() && At(w, Idle) && permits > 0
      modifies this`lifo, this`permits, this`queueDepth, this`clock, this`pool, this`trace
      ensures Valid() && At(w, Holding(item)) && OnlyActed(Worker(w), old(trace), trace)
      ensures old(lifo) == lifo + [item] && permits == old(permits) - 1 && queueDepth == old(queueDepth) - 1
      ensures clock == old(clock) + untilCheck
    {
      hide Valid, At;
      PermitFindsItem();
      Acquire(w);
      var popped := Pop(w);
      if popped.None? {
        assert false;
      }
      item := popped.value;
      CountDown(w, item);
      Elapse(untilCheck, w, Holding(item));
    }

    /** From the age check to the end of the turn. */
    method Decide(w: nat, item: Item, world: World) returns (end: Ending)
      requires Valid() && At(w, Holding(item))
      modifies this, restLimiter, grpcLimiter
      ensures Valid() && At(w, Idle) && OnlyActed(Worker(w), old(trace), trace)
      ensures lifo == if end == PutBack then old(lifo) + [item.(waitedForSlot := true)] else old(lifo)
      ensures permits == old(permits) + One(end == PutBack) && queueDepth == old(queueDepth) + One(end == PutBack)
      ensures current == BumpAll(old(current), Counted(end, item.waitedForSlot))
      ensures end == if old(clock) >= item.arrivedAt + (cfg.queueMaxAgeMs + 1) * 1_000_000 then Dropped(DroppedStale)
                     else if !old(Allows(restLimiter, clock + world.untilRest))
                             && !old(MaybeAllows(grpcLimiter, clock + world.untilRest + world.untilGrpc)) then PutBack
                     else BuildEnding(world, !old(Allows(restLimiter, clock + world.untilRest)))
    {
      hide Valid, At, InTime, BumpAll, OnlyActed, Allows, MaybeAllows;
      StaleExactly(cfg, item, clock);
      var fine := CheckAge(w, item);
      OneActed(Worker(w), old(trace), Work(w, Go));
      if !fine {
        DropStale(w, old(current), item.waitedForSlot);
        ActedThen(Worker(w), old(trace), old(trace) + [Work(w, Go)], trace);
        return Dropped(DroppedStale);
      }
      ghost var at, checked := clock, trace;
      var rest, grpc := TakeSlot(w, item, at, world);
      ActedThen(Worker(w), old(trace), checked, trace);
      ghost var limited := trace;
      if rest || grpc {
        end := BuildAndSend(w, item, at, world, grpc);
      } else {
        PutBackAndSleep(w, item, at, world.oversleep);
        end := PutBack;
      }
      ActedThen(Worker(w), old(trace), limited, trace);
    }

    method DropStale(w: nat, ghost before: map<Counter, nat>, ghost waited: bool)
      requires Valid() && At(w, OwesDrop) && current == Bump(before, DroppedStale, 1)
      modifies this`current, this`pool, this`trace
      ensures Valid() && At(w, Idle) && OnlyActed(Worker(w), old(trace), trace)
      ensures current == BumpAll(before, Counted(Dropped(DroppedStale), waited))
    {
      hide Valid;
      CountTurn(w, OwesDrop, Go, TxDropped);
      BumpTwo(before, DroppedStale, TxDropped);
      assert Counted(Dropped(DroppedStale), waited) == [DroppedStale, TxDropped];
    }

    method TakeSlot(w: nat, ghost item: Item, ghost at: nat, world: World) returns (rest: bool, grpc: bool)
      requires Valid() && At(w, Checked(item, at))
      modifies this`clock, this`pool, this`trace, restLimiter, grpcLimiter
      ensures Valid() && OnlyActed(Worker(w), old(trace), trace)
      ensures At(w, if rest || grpc then Building(item, at) else Refused(item, at))
      ensures rest == old(Allows(restLimiter, clock + world.untilRest))
      ensures grpc == (!rest && old(MaybeAllows(grpcLimiter, clock + world.untilRest + world.untilGrpc)))
    {
      hide Valid, At, Allows, MaybeAllows, OnlyActed;
      LimitersDiffer();
      Elapse(world.untilRest, w, Checked(item, at));
      rest := TryRest(w, item, at);
      grpc := false;
      TwoActed(Worker(w), old(trace), Tick(world.untilRest), Work(w, Go));
      if !rest {
        ghost var refused := trace;
        grpc := TryGrpcLater(w, item, at, world.untilGrpc);
        ActedThen(Worker(w), old(trace), refused, trace);
      }
    }

    method TryGrpcLater(w: nat, ghost item: Item, ghost at: nat, untilGrpc: nat) returns (ok: bool)
      requires Valid() && At(w, RestRefused(item, at))
      modifies this`clock, this`pool, this`trace, grpcLimiter
      ensures Valid() && OnlyActed(Worker(w), old(trace), trace)
      ensures At(w, if ok then Building(item, at) else Refused(item, at))
      ensures ok == old(MaybeAllows(grpcLimiter, clock + untilGrpc))
    {
      hide Valid, At, Allows, MaybeAllows, OnlyActed;
      Elapse(untilGrpc, w, RestRefused(item, at));
      ok := TryGrpc(w, item, at);
      TwoActed(Worker(w), old(trace), Tick(untilGrpc), Work(w, Go));
    }

    ghost predicate TurnEffect(lifoWas: seq<Item>, permitsWas: nat, depthWas: int, currentWas: map<Counter, nat>,
                               end: Ending)
      reads this
    {
      && lifoWas != []
      && (var n := |lifoWas| - 1;
          var item := lifoWas[n];
          && lifo == lifoWas[..n] + (if end == PutBack then [item.(waitedForSlot := true)] else [])
          && permits == permitsWas - 1 + One(end == PutBack)
          && queueDepth == depthWas - 1 + One(end == PutBack)
          && current == BumpAll(currentWas, Counted(end, item.waitedForSlot)))
    }

    /** The loop, for as many turns as there are answers or until no permit is left:
        permits, gauge and stack shrink together by what did not come back. */
    method RunWorker(w: nat, worlds: seq<World>) returns (ends: seq<Ending>)
      requires Valid() && At(w, Idle)
      modifies this, restLimiter, grpcLimiter
      ensures Valid() && At(w, Idle) && OnlyActed(Worker(w), old(trace), trace)
      ensures |ends| <= |worlds| && (|ends| < |worlds| ==> permits == 0)
      ensures permits == old(permits) - Gone(ends) && |lifo| == |old(lifo)| - Gone(ends)
      ensures queueDepth == old(queueDepth) - Gone(ends)
    {
      hide Valid, At, InTime, BuildEnding, BumpAll, Counted, OnlyActed, Allows, MaybeAllows;
      ends := [];
      NoneActed(Worker(w), trace);
      while |ends| < |worlds| && permits > 0
        invariant Valid() && At(w, Idle) && OnlyActed(Worker(w), old(trace), trace)
        invariant |ends| <= |worlds|
        invariant permits == old(permits) - Gone(ends) && |lifo| == |old(lifo)| - Gone(ends)
        invariant queueDepth == old(queueDepth) - Gone(ends)
        decreases |worlds| - |ends|
      {
        ghost var before := trace;
        var end := Turn(w, worlds[|ends|]);
        ActedThen(Worker(w), old(trace), before, trace);
        GoneAppend(ends, end);
        ends := ends + [end];
      }
    }

    // ------------------------------------------------ a quote pair and the queue

    ghost predicate PairAt(i: nat, pc: ScanPc)
      reads this
    {
      i < |pool.scans| && pool.scans[i] == pc
    }

    method CountPair(i: nat, ghost pc: ScanPc, ghost choice: ScanChoice, c: Counter)
      requires Valid() && PairAt(i, pc)
      requires TierEffect(pool, pc, choice).Some? && TierEffect(pool, pc, choice).value.bump == Some(c)
      modifies this`current, this`pool, this`trace
      ensures Valid() && PairAt(i, TierEffect(old(pool), pc, choice).value.pc) && pool.arrivals == old(pool.arrivals)
      ensures current == Bump(old(current), c, 1) && trace == old(trace) + [Scan(i, choice)]
    {
      hide Reachable, WorkEffect;
      current := Bump(current, c, 1);
      Take(Scan(i, choice));
    }

    method AskForInstructions(i: nat)
      requires Valid() && PairAt(i, Quoted)
      modifies this`pool, this`trace
      ensures Valid() && PairAt(i, AskingMetis) && pool.arrivals == old(pool.arrivals)
      ensures trace == old(trace) + [Scan(i, ScanChoice.AskMetis)]
    {
      hide Reachable, WorkEffect;
      Take(Scan(i, ScanChoice.AskMetis));
    }

    method Stamp(i: nat) returns (now: nat)
      requires Valid() && PairAt(i, Ready)
      modifies this`pool, this`trace
      ensures Valid() && PairAt(i, Stamped(now)) && now == clock && pool.arrivals == old(pool.arrivals)
      ensures trace == old(trace) + [Scan(i, Proceed)]
    {
      hide Reachable, WorkEffect, TierEffect;
      now := clock;
      Take(Scan(i, Proceed));
    }

    method PushNew(i: nat, item: Item)
      requires Valid() && PairAt(i, Stamped(item.arrivedAt)) && item.id == |pool.arrivals| && !item.waitedForSlot
      modifies this`lifo, this`pool, this`trace
      ensures Valid() && PairAt(i, Pushed) && lifo == old(lifo) + [item] && trace == old(trace) + [Scan(i, Proceed)]
      ensures pool.arrivals == old(pool.arrivals) + [item.arrivedAt]
    {
      hide Reachable, WorkEffect, TierEffect;
      lifo := lifo + [item];
      Take(Scan(i, Proceed));
    }

    method CountIn(i: nat)
      requires Valid() && PairAt(i, Pushed)
      modifies this`current, this`pool, this`trace
      ensures Valid() && PairAt(i, CountedIn) && current == Bump(old(current), QueueIn, 1)
      ensures trace == old(trace) + [Scan(i, Proceed)] && pool.arrivals == old(pool.arrivals)
    {
      hide Reachable, WorkEffect, TierEffect;
      current := Bump(current, QueueIn, 1);
      Take(Scan(i, Proceed));
    }

    method CountPushed(i: nat)
      requires Valid() && PairAt(i, CountedIn)
      modifies this`queueDepth, this`pool, this`trace
      ensures Valid() && PairAt(i, CountedDepth) && queueDepth == old(queueDepth) + 1
      ensures trace == old(trace) + [Scan(i, Proceed)] && pool.arrivals == old(pool.arrivals)
    {
      hide Reachable, WorkEffect, TierEffect;
      queueDepth := queueDepth + 1;
      Take(Scan(i, Proceed));
    }

    method AddPermit(i: nat)
      requires Valid() && PairAt(i, CountedDepth)
      modifies this`permits, this`pool, this`trace
      ensures Valid() && PairAt(i, Ended) && permits == old(permits) + 1
      ensures trace == old(trace) + [Scan(i, Proceed)] && pool.arrivals == old(pool.arrivals)
    {
      hide Reachable, WorkEffect, TierEffect;
      permits := permits + 1;
      Take(Scan(i, Proceed));
    }

    /** `push_to_queue`: one new item on top, with one more permit, one more on the
        gauge and one more counted in. */
    method PushToQueue(i: nat, id: nat)
      requires Valid() && PairAt(i, Ready) && id == |pool.arrivals|
      modifies this`lifo, this`permits, this`queueDepth, this`current, this`pool, this`trace
      ensures Valid() && PairAt(i, Ended) && OnlyActed(Producer(i), old(trace), trace)
      ensures lifo == old(lifo) + [Item(id, clock, false)]
      ensures permits == old(permits) + 1 && queueDepth == old(queueDepth) + 1
      ensures current == Bump(old(current), QueueIn, 1)
      ensures pool.arrivals == old(pool.arrivals) + [clock]
    {
      hide Valid, PairAt;
      var now := Stamp(i);
      PushNew(i, Item(id, now, false));
      CountIn(i);
      CountPushed(i);
      AddPermit(i);
    }

    /** A profitable pair through the funnel: the counters say which way it went, and
        it enters the queue exactly when it was served from memory or by Metis. */
    method Settle(i: nat, verdict: Verdict, id: nat)
      requires Valid() && PairAt(i, Quoted) && id == |pool.arrivals|
      requires verdict.MetisErr? ==> IsFailureKind(verdict.why)
      modifies this`lifo, this`permits, this`queueDepth, this`current, this`pool, this`trace
      ensures Valid() && PairAt(i, Ended) && OnlyActed(Producer(i), old(trace), trace)
      ensures lifo == old(lifo) + if Queues(verdict) then [Item(id, clock, false)] else []
      ensures permits == old(permits) + One(Queues(verdict)) && queueDepth == old(queueDepth) + One(Queues(verdict))
      ensures current == BumpAll(old(current), VerdictCounts(verdict) + if Queues(verdict) then [QueueIn] else [])
    {
      hide Valid, PairAt, BumpAll, OnlyActed, TierEffect;
      if Queues(verdict) {
        Serve(i, verdict);
        ghost var served := trace;
        PushToQueue(i, id);
        ActedThen(Producer(i), old(trace), served, trace);
        BumpLast(old(current), VerdictCounts(verdict), QueueIn);
      } else {
        Discard(i, verdict);
        assert VerdictCounts(verdict) + [] == VerdictCounts(verdict);
      }
    }

    method Serve(i: nat, verdict: Verdict)
      requires Valid() && PairAt(i, Quoted) && Queues(verdict)
      modifies this`current, this`pool, this`trace
      ensures Valid() && PairAt(i, Ready) && OnlyActed(Producer(i), old(trace), trace)
      ensures current == BumpAll(old(current), VerdictCounts(verdict)) && pool.arrivals == old(pool.arrivals)
    {
      hide Valid, BumpAll;
      if verdict.FromRam? {
        CountPair(i, Quoted, ServeFromRam, RouteTemplateHit);
        CountPair(i, TemplateHit, Proceed, IxFromRam);
        CountPair(i, RamCounted, Proceed, SwapIxOk);
        BumpThree(old(current), RouteTemplateHit, IxFromRam, SwapIxOk);
      } else {
        AskForInstructions(i);
        CountPair(i, AskingMetis, Proceed, SwapIxOk);
        CountPair(i, MetisAnswered, Proceed, IxFromMetis);
        BumpTwo(old(current), SwapIxOk, IxFromMetis);
      }
    }

    method Discard(i: nat, verdict: Verdict)
      requires Valid() && PairAt(i, Quoted) && !Queues(verdict)
      requires verdict.MetisErr? ==> IsFailureKind(verdict.why)
      modifies this`current, this`pool, this`trace
      ensures Valid() && PairAt(i, Ended) && OnlyActed(Producer(i), old(trace), trace)
      ensures current == BumpAll(old(current), VerdictCounts(verdict))
    {
      hide Valid, BumpAll;
      match verdict
      case IsMultiHop => DiscardFor(i, MultiHop, DroppedMultiHop);
      case CannotMerge => DiscardFor(i, MergeFails, DroppedMergeFail);
      case CannotServe => DiscardFor(i, NoServe, DroppedNoServe);
      case MetisErr(why) => DiscardFailed(i, why);
    }

    method DiscardFailed(i: nat, why: Counter)
      requires Valid() && PairAt(i, Quoted) && IsFailureKind(why)
      modifies this`current, this`pool, this`trace
      ensures Valid() && PairAt(i, Ended) && OnlyActed(Producer(i), old(trace), trace)
      ensures current == BumpAll(old(current), [SwapIxFailed, TxDropped, why])
    {
      hide Valid, BumpAll, PushEffect, Bump, Value;
      AskForInstructions(i);
      CountPair(i, AskingMetis, MetisError(why), SwapIxFailed);
      CountPair(i, MetisFailed(why), Proceed, TxDropped);
      CountPair(i, FailureDropped(why), Proceed, why);
      BumpThree(old(current), SwapIxFailed, TxDropped, why);
    }

    method DiscardFor(i: nat, ghost choice: ScanChoice, reason: Counter)
      requires Valid() && PairAt(i, Quoted) && TierEffect(pool, Quoted, choice).Some?
      requires TierEffect(pool, Quoted, choice).value.bump == Some(reason)
      requires TierEffect(pool, Quoted, choice).value.pc == ScanOwesDrop
      modifies this`current, this`pool, this`trace
      ensures Valid() && PairAt(i, Ended) && OnlyActed(Producer(i), old(trace), trace)
      ensures current == BumpAll(old(current), [reason, TxDropped])
    {
      hide Valid, BumpAll;
      CountPair(i, Quoted, choice, reason);
      CountPair(i, ScanOwesDrop, Proceed, TxDropped);
      BumpTwo(old(current), reason, TxDropped);
    }

    // ------------------------------------------------ the report

    method Swap(c: Counter) returns (was: nat)
      requires Valid()
      modifies this`current, this`pool, this`trace
      ensures Valid() && trace == old(trace) + [Drain(c)]
      ensures was == Value(old(current), c) && current == old(current)[c := 0]
      ensures pool.reported == Bump(old(pool.reported), c, was) && pool.current == current
    {
      hide Reachable, WorkEffect, ScanEffect;
      was := if c in current then current[c] else 0;
      current := current[c := 0];
      Take(Drain(c));
    }

    /** The reporter's window: every counter is read once and restarts from zero, and
        what it has counted over the whole run does not change. */
    method Report() returns (window: map<Counter, nat>)
      requires Valid()
      modifies this`current, this`pool, this`trace
      ensures Valid() && OnlyActed(Reporter, old(trace), trace)
      ensures forall c :: c in window && window[c] == Value(old(current), c) && Value(current, c) == 0
      ensures forall c :: Total(pool, c) == old(Total(pool, c))
    {
      hide Valid, Reachable, OnlyActed;
      window := map[];
      NoneActed(Reporter, trace);
      CurrentInPool();
      for i := 0 to |DRAIN_ORDER|
        invariant Valid() && OnlyActed(Reporter, old(trace), trace) && current == pool.current
        invariant forall c :: Rank(c) < i ==>
                    c in window && window[c] == Value(old(current), c) && Value(current, c) == 0
        invariant forall c :: Rank(c) >= i ==> Value(current, c) == Value(old(current), c)
        invariant forall c :: Total(pool, c) == old(Total(pool, c))
      {
        ghost var before := trace;
        RankOf(i);
        var was := Swap(DRAIN_ORDER[i]);
        window := window[DRAIN_ORDER[i] := was];
        OneActed(Reporter, before, Drain(DRAIN_ORDER[i]));
        ActedThen(Reporter, old(trace), before, trace);
      }
      forall c ensures Rank(c) < |DRAIN_ORDER| {
      }
    }

    ghost method CurrentInPool()
      requires Valid()
      ensures current == pool.current
    {
    }
  }

  lemma BumpLast(m: map<Counter, nat>, cs: seq<Counter>, c: Counter)
    ensures BumpAll(m, cs + [c]) == Bump(BumpAll(m, cs), c, 1)
  {
    assert (cs + [c])[..|cs|] == cs;
  }

  lemma CountedPutBack(m: map<Counter, nat>, waited: bool)
    ensures BumpAll(m, Counted(PutBack, waited)) == if waited then m else Bump(m, RateRequeued, 1)
  {
    BumpTwo(m, RateRequeued, RateRequeued);
  }

  lemma DoneThenSent(m: map<Counter, nat>, end: Ending, waited: bool)
    requires end.Sent? || end == Dropped(JitoSendFailed)
    ensures BumpAll(m, Counted(end, waited)) == BumpAll(Bump(m, CalcDone, 1), SentCounts(end))
  {
    BumpFirst(m, CalcDone, SentCounts(end));
    assert [CalcDone] + SentCounts(end) == Counted(end, waited);
  }

  lemma {:induction false} BumpFirst(m: map<Counter, nat>, c: Counter, cs: seq<Counter>)
    ensures BumpAll(m, [c] + cs) == BumpAll(Bump(m, c, 1), cs)
  {
    if cs == [] {
      BumpTwo(m, c, c);
      assert [c] + cs == [c];
    } else {
      BumpFirst(m, c, cs[..|cs| - 1]);
      assert ([c] + cs)[..|cs|] == [c] + cs[..|cs| - 1];
    }
  }
}
