/** Faithful answers under interleaving: lookups whose lock sections interleave with
    everything else (src/template_cache.rs) still find only templates that come from
    captures made before they were answered. */
module ConcurrentFidelity {
  import opened Text
  import opened Decimal
  import opened AmountPatch
  import opened RouteSignature
  import opened HopKeys
  import opened RouteStore
  import opened Persistence
  import opened Metis
  import opened TemplateFidelity
  import opened StoreFidelity
  import L = StoreLinearizability

  /** Inserts carry Metis's answer to the plan they insert. */
  ghost predicate IsAnswer(metis: Model, op: Op) {
    op.InsertOp? ==>
      && op.sig == RouteSig(op.plan) && op.ixs == Instructions(metis(op.plan), op.inAmount)
      && op.quotedOut == Floor(op.inAmount)
  }

  ghost predicate AllAnswers(metis: Model, events: seq<L.Event>) {
    forall e :: e in events && e.Other? ==> IsAnswer(metis, e.op)
  }

  function CaptureOf(e: L.Event): set<Origin> {
    if e.Other? && e.op.InsertOp? then {OriginOf(e.op.plan)} else {}
  }

  /** What is on record after these events. */
  function Recorded(origins: set<Origin>, events: seq<L.Event>): set<Origin>
    decreases |events|
  {
    if events == [] then origins else Recorded(origins + CaptureOf(events[0]), events[1..])
  }

  ghost predicate ConfigOk(metis: Model, origins: set<Origin>, c: L.Config) {
    StoreOk(metis, origins, c.store) && L.AllStand(c)
  }

  /** A found template is faithful to captures under its own signature, which is the
      one asked for when the lookup was by signature. */
  ghost predicate ResponseOk(metis: Model, origins: set<Origin>, r: L.Response) {
    r.found.Some? ==>
      && Faithful(metis, origins, r.found.value.routeSignature, r.found.value)
      && (r.query.BySig? ==> r.found.value.routeSignature == r.query.sig)
  }

  /** The log stays, or gains one response that is in order. */
  ghost predicate LogOk(metis: Model, origins: set<Origin>, before: seq<L.Response>, after: seq<L.Response>) {
    || after == before
    || exists r {:trigger ResponseOk(metis, origins, r)} :: after == before + [r] && ResponseOk(metis, origins, r)
  }

  lemma OtherOk(metis: Model, origins: set<Origin>, c: L.Config, op: Op)
    requires ConfigOk(metis, origins, c) && !op.GetOp? && IsAnswer(metis, op)
    ensures ConfigOk(metis, origins + CaptureOf(L.Other(op)), L.Step(c, L.Other(op)))
    ensures L.Step(c, L.Other(op)).log == c.log
  {
    hide StoreOk, L.AllStand, RouteSig, OriginOf, Instructions, InsertRoute, RecordRouteHit, RecordHops, Consistent;
    StoreOkConsistent(metis, origins, c.store);
    L.OtherIsAtomic(c, op);
    assert origins + {} == origins;
    match op
    case InsertOp(_, _, _, _, _) => CaptureOk(metis, origins, c.store, op.plan, op.inAmount);
    case HitOp(sig) => HitOk(metis, origins, c.store, sig);
    case HopsOp(plan, slot) => HopsOk(metis, origins, c.store, plan, slot);
  }

  lemma StoreOkConsistent(metis: Model, origins: set<Origin>, st: StoreInner)
    requires StoreOk(metis, origins, st)
    ensures Consistent(st)
  {
  }

  /** What a lookup is answered with, at the instant it stands for. */
  lemma QueryOk(metis: Model, origins: set<Origin>, st: StoreInner, thread: nat, query: L.Query)
    requires StoreOk(metis, origins, st)
    ensures StoreOk(metis, origins, L.AtomicQuery(st, query).store)
    ensures ResponseOk(metis, origins, L.Response(thread, query, L.AtomicQuery(st, query).found))
  {
    hide StoreOk, Faithful, AtomicGet, IndexedSig;
    match query
    case BySig(sig) => LookOk(metis, origins, st, sig);
    case ByHops(plan) =>
      if IndexedSig(st, plan).Some? { LookOk(metis, origins, st, IndexedSig(st, plan).value); }
  }

  /** A lock section either answers its lookup as one atomic query, or leaves store and
      log alone. */
  lemma SectionShape(c: L.Config, e: L.Event)
    requires L.Enabled(c, e) && !e.Other? && Consistent(c.store) && L.AllStand(c)
    ensures var c' := L.Step(c, e);
            || (c'.store == c.store && c'.log == c.log)
            || exists query {:trigger L.AtomicQuery(c.store, query)} ::
                 c'.store == L.AtomicQuery(c.store, query).store
                 && c'.log == c.log + [L.Response(e.thread, query, L.AtomicQuery(c.store, query).found)]
  {
    hide Consistent, L.AllStand, L.Step, L.AtomicQuery;
    L.StepIsAtomic(c, e);
    AtMostOneAtom(c, e);
    var atoms, s := L.AtomsOf(c, e), L.View(c);
    if atoms != [] {
      assert atoms[1..] == [] && L.SpecRun(L.SpecStep(s, atoms[0]), []) == L.SpecStep(s, atoms[0]);
      var query := atoms[0].query;
      assert L.View(L.Step(c, e)) == L.SpecStep(s, L.Get(e.thread, query));
      assert L.Step(c, e).store == L.AtomicQuery(c.store, query).store;
    }
  }

  lemma AtMostOneAtom(c: L.Config, e: L.Event)
    requires L.Enabled(c, e) && !e.Other?
    ensures |L.AtomsOf(c, e)| <= 1
    ensures L.AtomsOf(c, e) != [] ==> L.AtomsOf(c, e)[0].Get? && L.AtomsOf(c, e)[0].thread == e.thread
  {
  }

  lemma SectionOk(metis: Model, origins: set<Origin>, c: L.Config, e: L.Event)
    requires ConfigOk(metis, origins, c) && L.Enabled(c, e) && !e.Other?
    ensures ConfigOk(metis, origins, L.Step(c, e))
    ensures LogOk(metis, origins, c.log, L.Step(c, e).log)
  {
    hide StoreOk, Consistent, L.AllStand, L.Step, L.AtomicQuery, ResponseOk, L.AtomsOf, L.SpecRun;
    StoreOkConsistent(metis, origins, c.store);
    L.StepIsAtomic(c, e);
    SectionShape(c, e);
    var c' := L.Step(c, e);
    if !(c'.store == c.store && c'.log == c.log) {
      var query {:trigger L.AtomicQuery(c.store, query)} :|
        c'.store == L.AtomicQuery(c.store, query).store
        && c'.log == c.log + [L.Response(e.thread, query, L.AtomicQuery(c.store, query).found)];
      QueryOk(metis, origins, c.store, e.thread, query);
    }
  }

  lemma StepOk(metis: Model, origins: set<Origin>, c: L.Config, e: L.Event)
    requires ConfigOk(metis, origins, c) && L.Enabled(c, e) && (e.Other? ==> IsAnswer(metis, e.op))
    ensures ConfigOk(metis, origins + CaptureOf(e), L.Step(c, e))
    ensures LogOk(metis, origins, c.log, L.Step(c, e).log)
  {
    hide ConfigOk, IsAnswer, L.Step, ResponseOk, OriginOf;
    if e.Other? {
      OtherOk(metis, origins, c, e.op);
    } else {
      SectionOk(metis, origins, c, e);
      assert origins + {} == origins;
    }
  }

  /** In every interleaving whose inserts carry Metis's answers, each event either
      answers no lookup, or answers one with nothing or with a template that comes
      from captures made before that event. */
  lemma {:induction false} AnswersAreFaithful(metis: Model, origins: set<Origin>, c: L.Config, events: seq<L.Event>,
                                              n: nat)
    requires L.IsRun(c, events) && AllAnswers(metis, events) && ConfigOk(metis, origins, c) && n < |events|
    ensures L.IsRun(c, events[..n]) && L.IsRun(c, events[..n + 1])
    ensures LogOk(metis, Recorded(origins, events[..n]), L.Run(c, events[..n]).log, L.Run(c, events[..n + 1]).log)
    decreases |events|
  {
    hide ConfigOk, IsAnswer, L.Step, LogOk, CaptureOf;
    assert events[0] in events;
    StepOk(metis, origins, c, events[0]);
    var next := L.Step(c, events[0]);
    if n == 0 {
      assert events[..0] == [] && events[..1][1..] == [] && events[..1][0] == events[0];
    } else {
      assert forall e :: e in events[1..] ==> e in events;
      AnswersAreFaithful(metis, origins + CaptureOf(events[0]), next, events[1..], n - 1);
      assert events[..n][0] == events[0] && events[..n][1..] == events[1..][..n - 1];
      assert events[..n + 1][0] == events[0] && events[..n + 1][1..] == events[1..][..n];
    }
  }
}
