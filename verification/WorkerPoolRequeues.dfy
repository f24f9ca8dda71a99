/** How often a queued item can go back to the stack, and how many items the two
    limiters let through, in every interleaving (src/arbitrage.rs,
    src/rate_limiter.rs). */
module WorkerPoolRequeues {
  import opened Text
  import opened RateLimiting
  import opened WorkerPool
  import opened WorkerPoolItems
  import opened WorkerPoolAges

  /** How many times worker `w` has put item `k` back. */
  function Turns(rs: seq<Requeue>, w: nat, k: nat): nat {
    if rs == [] then 0 else Turns(rs[..|rs| - 1], w, k) + One(rs[|rs| - 1] == Requeue(w, k))
  }

  /** How many times item `k` has been put back. */
  function Returns(rs: seq<Requeue>, k: nat): nat {
    if rs == [] then 0 else Returns(rs[..|rs| - 1], k) + One(rs[|rs| - 1].id == k)
  }

  /** When the worker last checked an age, while that still matters. */
  function CheckedAt(pc: WorkerPc): Option<nat> {
    match pc
    case Checked(_, at) => Some(at)
    case RestRefused(_, at) => Some(at)
    case Refused(_, at) => Some(at)
    case Requeuing(_, at) => Some(at)
    case Building(_, at) => Some(at)
    case Repushed(at) => Some(at)
    case Recounted(at) => Some(at)
    case _ => None
  }

  /** No earlier than this can the worker put an item back again. */
  function Floor(pc: WorkerPc, now: nat): nat {
    match pc
    case Checked(_, at) => at
    case RestRefused(_, at) => at
    case Refused(_, at) => at
    case Requeuing(_, at) => at
    case Repushed(at) => at + BACKOFF
    case Recounted(at) => at + BACKOFF
    case Sleeping(until) => until
    case _ => now
  }

  /** An item that passed its check was in time, and the check is past. */
  predicate CheckedInTime(cfg: Config, pc: WorkerPc, now: nat) {
    CheckedAt(pc).Some? ==>
      CheckedAt(pc).value <= now && (ItemOf(pc).Some? ==> InTime(cfg, ItemOf(pc).value, CheckedAt(pc).value))
  }

  predicate AllInTime(cfg: Config, ws: seq<WorkerPc>, now: nat) {
    ws != [] ==> AllInTime(cfg, ws[..|ws| - 1], now) && CheckedInTime(cfg, ws[|ws| - 1], now)
  }

  function MaxTurns(cfg: Config): nat {
    cfg.queueMaxAgeMs / RATE_RETRY_BACKOFF_MS + 1
  }

  /** The pace of worker `w` on item `k`: `n` returns take `n` backoffs. */
  ghost predicate Paced(max: nat, p: Pool, w: nat, k: nat)
    requires w < |p.workers|
  {
    var n, pc := Turns(p.requeues, w, k), p.workers[w];
    && (Holds(pc, k) && CheckedAt(pc).Some? ==> k < |p.arrivals| && p.arrivals[k] <= CheckedAt(pc).value)
    && (n > 0 ==> k < |p.arrivals| && p.arrivals[k] + n * BACKOFF <= Floor(pc, p.clock))
    && n <= max
  }

  // ------------------------------------------------ age at the last check

  lemma WorkChecks(cfg: Config, p: Pool, pc: WorkerPc, c: WorkChoice)
    requires WorkEffect(cfg, p, pc, c).Some? && CheckedInTime(cfg, pc, p.clock)
    ensures CheckedInTime(cfg, WorkEffect(cfg, p, pc, c).value.pc, p.clock)
  {
  }

  lemma {:induction false} InTimeAt(cfg: Config, ws: seq<WorkerPc>, now: nat, w: nat)
    requires AllInTime(cfg, ws, now) && w < |ws|
    ensures CheckedInTime(cfg, ws[w], now)
  {
    if w < |ws| - 1 { InTimeAt(cfg, ws[..|ws| - 1], now, w); }
  }

  lemma {:induction false} InTimeUpdate(cfg: Config, ws: seq<WorkerPc>, now: nat, w: nat, pc: WorkerPc)
    requires AllInTime(cfg, ws, now) && w < |ws| && CheckedInTime(cfg, pc, now)
    ensures AllInTime(cfg, ws[w := pc], now)
  {
    var n := |ws| - 1;
    if w < n {
      InTimeUpdate(cfg, ws[..n], now, w, pc);
      assert ws[w := pc][..n] == ws[..n][w := pc];
    } else {
      assert ws[w := pc][..n] == ws[..n];
    }
  }

  lemma {:induction false} InTimeLater(cfg: Config, ws: seq<WorkerPc>, before: nat, now: nat)
    requires AllInTime(cfg, ws, before) && before <= now
    ensures AllInTime(cfg, ws, now)
  {
    if ws != [] { InTimeLater(cfg, ws[..|ws| - 1], before, now); }
  }

  lemma {:induction false} IdleInTime(cfg: Config, n: nat)
    ensures AllInTime(cfg, seq(n, _ => Idle), 0)
  {
    if n > 0 {
      IdleInTime(cfg, n - 1);
      assert seq(n, _ => Idle)[..n - 1] == seq(n - 1, _ => Idle);
    }
  }

  lemma StepKeepsInTime(cfg: Config, p: Pool, a: Action)
    requires AllInTime(cfg, p.workers, p.clock) && Step(cfg, p, a).Some?
    ensures AllInTime(cfg, Step(cfg, p, a).value.workers, Step(cfg, p, a).value.clock)
    ensures |Step(cfg, p, a).value.workers| == |p.workers|
  {
    match a
    case Tick(dt) => InTimeLater(cfg, p.workers, p.clock, p.clock + dt);
    case Work(w, wc) =>
      InTimeAt(cfg, p.workers, p.clock, w);
      WorkChecks(cfg, p, p.workers[w], wc);
      InTimeUpdate(cfg, p.workers, p.clock, w, WorkEffect(cfg, p, p.workers[w], wc).value.pc);
    case _ =>
  }

  lemma {:induction false} ReachableInTime(cfg: Config, workers: nat, actions: seq<Action>, p: Pool)
    requires Reachable(cfg, workers, actions, p)
    ensures AllInTime(cfg, p.workers, p.clock) && |p.workers| == workers
  {
    hide Step, AllInTime;
    if actions == [] {
      IdleInTime(cfg, workers);
    } else {
      var n := |actions| - 1;
      var q :| Reachable(cfg, workers, actions[..n], q) && Step(cfg, q, actions[n]) == Some(p);
      ReachableInTime(cfg, workers, actions[..n], q);
      StepKeepsInTime(cfg, q, actions[n]);
    }
  }

  /** No item reaches building that was too old when a worker last looked: its age
      at that moment, since it first came in, was within the limit. */
  lemma BuiltInTime(cfg: Config, workers: nat, actions: seq<Action>, p: Pool, w: nat)
    requires Reachable(cfg, workers, actions, p) && w < |p.workers| && p.workers[w].Building?
    ensures var Building(item, at) := p.workers[w];
            && item.id < |p.arrivals|
            && p.arrivals[item.id] <= at <= p.clock
            && at < p.arrivals[item.id] + (cfg.queueMaxAgeMs + 1) * 1_000_000
  {
    var Building(item, at) := p.workers[w];
    ReachableInTime(cfg, workers, actions, p);
    InTimeAt(cfg, p.workers, p.clock, w);
    ArrivalSurvives(cfg, workers, actions, p, item.id);
    HandsCounted(p.workers, w, item.id);
    HandFits(p.workers, w, item.id, p.arrivals[item.id], item.id in p.waited);
    ReachablePaced(cfg, workers, actions, p, w, item.id);
  }

  /** Exactly the stale items are dropped: when a worker looks at the age of the item
      it holds, it counts it as stale and is done with it if and only if the item
      first came in more than the limit ago, in whole milliseconds; otherwise it goes
      on to the limiters and counts nothing. */
  lemma DroppedExactlyWhenStale(cfg: Config, workers: nat, actions: seq<Action>, p: Pool, w: nat)
    requires Reachable(cfg, workers, actions, p) && w < |p.workers| && p.workers[w].Holding?
    ensures var item := p.workers[w].item;
            && Step(cfg, p, Work(w, Go)).Some? && item.id < |p.arrivals|
            && var p' := Step(cfg, p, Work(w, Go)).value;
               if p.clock >= p.arrivals[item.id] + (cfg.queueMaxAgeMs + 1) * 1_000_000 then
                 && p'.workers[w] == OwesDrop && p'.finished == p.finished + [item.id]
                 && Total(p', DroppedStale) == Total(p, DroppedStale) + 1
               else
                 && p'.workers[w] == Checked(item, p.clock) && p'.finished == p.finished
                 && p'.current == p.current && p'.reported == p.reported
  {
    hide InTime, Reachable, LimitEffect, RequeueEffect, SendEffect, ScanEffect;
    var item := p.workers[w].item;
    ArrivalSurvives(cfg, workers, actions, p, item.id);
    HandsCounted(p.workers, w, item.id);
    HandFits(p.workers, w, item.id, p.arrivals[item.id], item.id in p.waited);
    StaleExactly(cfg, item, p.clock);
  }

  // ------------------------------------------------ the pace of returns

  /** Without a push a worker's floor never falls; a push raises it by one backoff. */
  lemma WorkPaces(cfg: Config, p: Pool, pc: WorkerPc, c: WorkChoice)
    requires WorkEffect(cfg, p, pc, c).Some? && CheckedInTime(cfg, pc, p.clock)
    ensures var e := WorkEffect(cfg, p, pc, c).value;
            && (!e.lifo.PushTop? ==> Floor(pc, p.clock) <= Floor(e.pc, p.clock))
            && (e.lifo.PushTop? ==> pc.Requeuing? && e.lifo.item == pc.item && Floor(e.pc, p.clock) == pc.at + BACKOFF)
            && (CheckedAt(e.pc).Some? && ItemOf(e.pc).Some? ==>
                  if pc.Holding? then CheckedAt(e.pc).value == p.clock && ItemOf(e.pc) == ItemOf(pc)
                  else CheckedAt(e.pc) == CheckedAt(pc)
                       && ItemOf(pc).Some? && ItemOf(e.pc).value.id == ItemOf(pc).value.id)
  {
  }

  lemma TurnsAppend(rs: seq<Requeue>, r: Requeue, w: nat, k: nat)
    ensures Turns(rs + [r], w, k) == Turns(rs, w, k) + One(r == Requeue(w, k))
  {
    assert (rs + [r])[..|rs|] == rs;
  }

  /** An item that is put back in time has not gone back too often. */
  lemma AnotherTurn(cfg: Config, arrival: nat, at: nat, n: nat)
    requires arrival + n * BACKOFF <= at && (at - arrival) / MILLI <= cfg.queueMaxAgeMs
    ensures n + 1 <= MaxTurns(cfg)
  {
    assert n * BACKOFF == n * RATE_RETRY_BACKOFF_MS * MILLI;
    assert n * RATE_RETRY_BACKOFF_MS <= (at - arrival) / MILLI;
  }

  lemma InTimeForAnother(cfg: Config, p: Pool, w: nat, k: nat)
    requires Placed(p, k) && Dated(p, k) && w < |p.workers|
    requires CheckedInTime(cfg, p.workers[w], p.clock) && Paced(MaxTurns(cfg), p, w, k)
    requires p.workers[w].Requeuing? && p.workers[w].item.id == k
    ensures Turns(p.requeues, w, k) + 1 <= MaxTurns(cfg)
  {
    HandsCounted(p.workers, w, k);
    HandFits(p.workers, w, k, p.arrivals[k], k in p.waited);
    AnotherTurn(cfg, p.arrivals[k], p.workers[w].at, Turns(p.requeues, w, k));
  }

  lemma PushKeepsPace(cfg: Config, max: nat, p: Pool, a: Action, k: nat)
    requires a.Work? && Step(cfg, p, a).Some? && Paced(max, p, a.w, k)
    requires p.workers[a.w].Requeuing? && p.workers[a.w].item.id == k
    requires Turns(p.requeues, a.w, k) + 1 <= max
    ensures Paced(max, Step(cfg, p, a).value, a.w, k)
  {
    TurnsAppend(p.requeues, Requeue(a.w, k), a.w, k);
  }

  lemma OwnStepKeepsPace(cfg: Config, max: nat, p: Pool, a: Action, k: nat)
    requires Placed(p, k) && Dated(p, k) && a.Work? && Step(cfg, p, a).Some?
    requires CheckedInTime(cfg, p.workers[a.w], p.clock) && Paced(max, p, a.w, k)
    requires !(p.workers[a.w].Requeuing? && p.workers[a.w].item.id == k)
    ensures Paced(max, Step(cfg, p, a).value, a.w, k)
  {
    var pc := p.workers[a.w];
    var e := WorkEffect(cfg, p, pc, a.wc).value;
    WorkPaces(cfg, p, pc, a.wc);
    if e.lifo.PushTop? { TurnsAppend(p.requeues, Requeue(a.w, e.lifo.item.id), a.w, k); }
    if Holds(pc, k) { HandsCounted(p.workers, a.w, k); }
  }

  lemma OthersKeepPace(cfg: Config, max: nat, p: Pool, a: Action, w: nat, k: nat)
    requires Step(cfg, p, a).Some? && w < |p.workers| && Paced(max, p, w, k) && !(a.Work? && a.w == w)
    ensures Paced(max, Step(cfg, p, a).value, w, k)
  {
    if a.Work? {
      var e := WorkEffect(cfg, p, p.workers[a.w], a.wc).value;
      if e.lifo.PushTop? { TurnsAppend(p.requeues, Requeue(a.w, e.lifo.item.id), w, k); }
    }
  }

  lemma StepKeepsPace(cfg: Config, p: Pool, a: Action, w: nat, k: nat)
    requires Placed(p, k) && Dated(p, k) && AllInTime(cfg, p.workers, p.clock)
    requires Step(cfg, p, a).Some? && w < |p.workers| && Paced(MaxTurns(cfg), p, w, k)
    ensures Paced(MaxTurns(cfg), Step(cfg, p, a).value, w, k)
  {
    if !(a.Work? && a.w == w) {
      OthersKeepPace(cfg, MaxTurns(cfg), p, a, w, k);
    } else {
      InTimeAt(cfg, p.workers, p.clock, w);
      if p.workers[w].Requeuing? && p.workers[w].item.id == k {
        InTimeForAnother(cfg, p, w, k);
        PushKeepsPace(cfg, MaxTurns(cfg), p, a, k);
      } else {
        OwnStepKeepsPace(cfg, MaxTurns(cfg), p, a, k);
      }
    }
  }

  lemma {:induction false} ReachablePaced(cfg: Config, workers: nat, actions: seq<Action>, p: Pool, w: nat, k: nat)
    requires Reachable(cfg, workers, actions, p) && w < |p.workers|
    ensures Paced(MaxTurns(cfg), p, w, k)
  {
    if actions != [] {
      var n := |actions| - 1;
      var q :| Reachable(cfg, workers, actions[..n], q) && Step(cfg, q, actions[n]) == Some(p);
      ReachablePaced(cfg, workers, actions[..n], q, w, k);
      ArrivalSurvives(cfg, workers, actions[..n], q, k);
      ReachableInTime(cfg, workers, actions[..n], q);
      StepKeepsPace(cfg, q, actions[n], w, k);
    }
  }

  // ------------------------------------------------ over all workers

  ghost predicate ByWorkers(rs: seq<Requeue>, workers: nat) {
    rs != [] ==> ByWorkers(rs[..|rs| - 1], workers) && rs[|rs| - 1].worker < workers
  }

  function TurnsBelow(rs: seq<Requeue>, workers: nat, k: nat): nat {
    if workers == 0 then 0 else TurnsBelow(rs, workers - 1, k) + Turns(rs, workers - 1, k)
  }

  lemma {:induction false} TurnsBelowAppend(rs: seq<Requeue>, r: Requeue, workers: nat, k: nat)
    ensures TurnsBelow(rs + [r], workers, k) == TurnsBelow(rs, workers, k) + One(r.worker < workers && r.id == k)
  {
    if workers > 0 {
      TurnsBelowAppend(rs, r, workers - 1, k);
      TurnsAppend(rs, r, workers - 1, k);
    }
  }

  lemma {:induction false} NoTurns(workers: nat, k: nat)
    ensures TurnsBelow([], workers, k) == 0
  {
    if workers > 0 { NoTurns(workers - 1, k); }
  }

  lemma {:induction false} ReturnsAreTurns(rs: seq<Requeue>, workers: nat, k: nat)
    requires ByWorkers(rs, workers)
    ensures Returns(rs, k) == TurnsBelow(rs, workers, k)
  {
    if rs == [] {
      NoTurns(workers, k);
    } else {
      var n := |rs| - 1;
      ReturnsAreTurns(rs[..n], workers, k);
      TurnsBelowAppend(rs[..n], rs[n], workers, k);
      assert rs == rs[..n] + [rs[n]];
    }
  }

  lemma {:induction false} TurnsBounded(rs: seq<Requeue>, workers: nat, k: nat, max: nat)
    requires forall w {:trigger Turns(rs, w, k)} | 0 <= w < workers :: Turns(rs, w, k) <= max
    ensures TurnsBelow(rs, workers, k) <= workers * max
  {
    if workers > 0 {
      TurnsBounded(rs, workers - 1, k, max);
      assert workers * max == (workers - 1) * max + max;
    }
  }

  lemma StepKeepsByWorkers(cfg: Config, p: Pool, a: Action)
    requires ByWorkers(p.requeues, |p.workers|) && Step(cfg, p, a).Some?
    ensures ByWorkers(Step(cfg, p, a).value.requeues, |p.workers|)
  {
    if a.Work? {
      var e := WorkEffect(cfg, p, p.workers[a.w], a.wc).value;
      if e.lifo.PushTop? { assert (p.requeues + [Requeue(a.w, e.lifo.item.id)])[..|p.requeues|] == p.requeues; }
    }
  }

  lemma {:induction false} ReachableByWorkers(cfg: Config, workers: nat, actions: seq<Action>, p: Pool)
    requires Reachable(cfg, workers, actions, p)
    ensures ByWorkers(p.requeues, workers) && |p.workers| == workers
  {
    ReachableInTime(cfg, workers, actions, p);
    if actions != [] {
      var n := |actions| - 1;
      var q :| Reachable(cfg, workers, actions[..n], q) && Step(cfg, q, actions[n]) == Some(p);
      ReachableByWorkers(cfg, workers, actions[..n], q);
      StepKeepsByWorkers(cfg, q, actions[n]);
    }
  }

  /** Bounded retries: whatever the interleaving, one worker puts an item back at
      most `queue_max_age_ms / 20 + 1` times, and all of them together at most that
      many times each. */
  lemma RetriesBounded(cfg: Config, workers: nat, actions: seq<Action>, p: Pool, w: nat, k: nat)
    requires Reachable(cfg, workers, actions, p)
    ensures w < workers ==> Turns(p.requeues, w, k) <= cfg.queueMaxAgeMs / 20 + 1
    ensures Returns(p.requeues, k) <= workers * (cfg.queueMaxAgeMs / 20 + 1)
  {
    ReachableByWorkers(cfg, workers, actions, p);
    var max := MaxTurns(cfg);
    forall v {:trigger Turns(p.requeues, v, k)} | 0 <= v < workers ensures Turns(p.requeues, v, k) <= max {
      ReachablePaced(cfg, workers, actions, p, v, k);
    }
    ReturnsAreTurns(p.requeues, workers, k);
    TurnsBounded(p.requeues, workers, k, max);
  }

  // ------------------------------------------------ the two limiters

  lemma LimitStep(cfg: Config, p: Pool, pc: WorkerPc)
    requires PairKept(cfg.restLimit, GrpcLimit(cfg), p.limiters, p.clock) && LimitEffect(cfg, p, pc).Some?
    ensures PairKept(cfg.restLimit, GrpcLimit(cfg), LimitEffect(cfg, p, pc).value.limiters, p.clock)
  {
    NextKeepsBy(cfg.restLimit, p.limiters.rest, p.clock, p.clock);
    NextKeepsBy(GrpcLimit(cfg), p.limiters.grpc, p.clock, p.clock);
    CountsAddAppend(p.limiters.granted, p.limiters.rest.granted, p.limiters.grpc.granted, p.clock);
  }

  lemma OnlyLimitStep(cfg: Config, p: Pool, pc: WorkerPc, c: WorkChoice)
    requires WorkEffect(cfg, p, pc, c).Some? && !pc.Checked? && !pc.RestRefused?
    ensures WorkEffect(cfg, p, pc, c).value.limiters == p.limiters
  {
  }

  lemma StepKeepsLimits(cfg: Config, p: Pool, a: Action)
    requires PairKept(cfg.restLimit, GrpcLimit(cfg), p.limiters, p.clock) && Step(cfg, p, a).Some?
    ensures PairKept(cfg.restLimit, GrpcLimit(cfg), Step(cfg, p, a).value.limiters, Step(cfg, p, a).value.clock)
  {
    match a
    case Tick(dt) =>
      KeptByLater(cfg.restLimit, p.limiters.rest, p.clock, p.clock + dt);
      KeptByLater(GrpcLimit(cfg), p.limiters.grpc, p.clock, p.clock + dt);
    case Scan(i, sc) => ScanPushes(p, p.scans[i], sc);
    case Work(w, wc) =>
      if p.workers[w].Checked? || p.workers[w].RestRefused? {
        LimitStep(cfg, p, p.workers[w]);
      } else {
        OnlyLimitStep(cfg, p, p.workers[w], wc);
      }
    case _ =>
  }

  lemma {:induction false} ReachableLimits(cfg: Config, workers: nat, actions: seq<Action>, p: Pool)
    requires Reachable(cfg, workers, actions, p)
    ensures PairKept(cfg.restLimit, GrpcLimit(cfg), p.limiters, p.clock)
  {
    if actions == [] {
      assert Kept(cfg.restLimit, p.limiters.rest, 0) && Kept(GrpcLimit(cfg), p.limiters.grpc, 0);
    } else {
      var n := |actions| - 1;
      var q :| Reachable(cfg, workers, actions[..n], q) && Step(cfg, q, actions[n]) == Some(p);
      ReachableLimits(cfg, workers, actions[..n], q);
      StepKeepsLimits(cfg, q, actions[n]);
    }
  }

  /** However many workers race for slots, in every one-second window they are let
      through at most as often as the two limits together allow. */
  lemma WorkersStayWithinLimits(cfg: Config, workers: nat, actions: seq<Action>, p: Pool)
    requires Reachable(cfg, workers, actions, p)
    ensures RespectsLimit(p.limiters.granted, cfg.restLimit + GrpcLimit(cfg))
  {
    ReachableLimits(cfg, workers, actions, p);
    PairBound(cfg.restLimit, GrpcLimit(cfg), p.limiters, p.clock);
  }
}
