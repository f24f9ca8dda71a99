/** `get_route` takes the lock twice, and `get_route_for_hops` once more before
    that (src/template_cache.rs). Interleaved with anything, each lookup still
    behaves as one atomic step between its call and its return. */
module StoreLinearizability {
  import opened Text
  import opened RouteSignature
  import opened HopKeys
  import opened RouteStore

  /** A lookup by signature, or by the hop pair of a plan, which reads the index
      under its own lock before it looks the signature up. */
  datatype Query = BySig(sig: nat) | ByHops(plan: Json)

  datatype Response = Response(thread: nat, query: Query, found: Option<RouteTemplate>)

  /** A lookup between two of its lock sections: its signature is known, and it
      still has to read, or has seen the route in cold and has to write. */
  datatype Pending = Pending(query: Query, sig: nat, writes: bool)

  datatype Config = Config(store: StoreInner, pending: map<nat, Pending>, log: seq<Response>)

  datatype Event =
    | Call(thread: nat, query: Query)
    | Continue(thread: nat)
    | Other(op: Op)

  predicate Enabled(c: Config, e: Event) {
    match e
    case Call(thread, _) => thread !in c.pending
    case Continue(thread) => thread in c.pending
    case Other(op) => !op.GetOp?
  }

  function Answer(c: Config, thread: nat, query: Query, r: Lookup): Config {
    Config(r.store, c.pending - {thread}, c.log + [Response(thread, query, r.found)])
  }

  function ReadSection(c: Config, thread: nat, query: Query, sig: nat): Config {
    match ReadPhase(c.store, sig)
    case Done(found) => Answer(c, thread, query, Lookup(c.store, found))
    case NeedsWrite => c.(pending := c.pending[thread := Pending(query, sig, true)])
  }

  function Step(c: Config, e: Event): Config
    requires Enabled(c, e)
  {
    match e
    case Call(thread, BySig(sig)) => ReadSection(c, thread, BySig(sig), sig)
    case Call(thread, ByHops(plan)) =>
      (match IndexedSig(c.store, plan)
       case None => Answer(c, thread, ByHops(plan), Lookup(c.store, None))
       case Some(sig) => c.(pending := c.pending[thread := Pending(ByHops(plan), sig, false)]))
    case Continue(thread) =>
      var p := c.pending[thread];
      if p.writes then Answer(c, thread, p.query, WritePhase(c.store, p.sig))
      else ReadSection(c, thread, p.query, p.sig)
    case Other(op) => c.(store := Apply(c.store, op))
  }

  ghost predicate IsRun(c: Config, events: seq<Event>)
    decreases |events|
  {
    events != [] ==> Enabled(c, events[0]) && IsRun(Step(c, events[0]), events[1..])
  }

  function Run(c: Config, events: seq<Event>): Config
    requires IsRun(c, events)
    decreases |events|
  {
    if events == [] then c else Run(Step(c, events[0]), events[1..])
  }

  // ------------------------------------------------ the atomic specification

  datatype Atom = Get(thread: nat, query: Query) | Do(op: Op)

  datatype Spec = Spec(store: StoreInner, log: seq<Response>)

  /** The whole lookup at one instant. */
  function AtomicQuery(st: StoreInner, query: Query): Lookup {
    match query
    case BySig(sig) => AtomicGet(st, sig)
    case ByHops(plan) =>
      (match IndexedSig(st, plan) case Some(sig) => AtomicGet(st, sig) case None => Lookup(st, None))
  }

  function SpecStep(s: Spec, a: Atom): Spec {
    match a
    case Get(thread, query) =>
      var r := AtomicQuery(s.store, query);
      Spec(r.store, s.log + [Response(thread, query, r.found)])
    case Do(op) => s.(store := Apply(s.store, op))
  }

  function SpecRun(s: Spec, atoms: seq<Atom>): Spec
    decreases |atoms|
  {
    if atoms == [] then s else SpecRun(SpecStep(s, atoms[0]), atoms[1..])
  }

  function Answered(c: Config, sig: nat, thread: nat, query: Query): seq<Atom> {
    if ReadPhase(c.store, sig).Done? then [Get(thread, query)] else []
  }

  /** The atomic steps an event stands for: a lookup happens in the section that
      answers it. */
  function AtomsOf(c: Config, e: Event): seq<Atom>
    requires Enabled(c, e)
  {
    match e
    case Call(thread, BySig(sig)) => Answered(c, sig, thread, BySig(sig))
    case Call(thread, ByHops(plan)) =>
      if IndexedSig(c.store, plan).None? then [Get(thread, ByHops(plan))] else []
    case Continue(thread) =>
      var p := c.pending[thread];
      if p.writes then [Get(thread, p.query)] else Answered(c, p.sig, thread, p.query)
    case Other(op) => [Do(op)]
  }

  function Linearize(c: Config, events: seq<Event>): seq<Atom>
    requires IsRun(c, events)
    decreases |events|
  {
    if events == [] then []
    else AtomsOf(c, events[0]) + Linearize(Step(c, events[0]), events[1..])
  }

  function View(c: Config): Spec { Spec(c.store, c.log) }

  // ------------------------------------------------ the signature stays the right one

  predicate Stands(st: StoreInner, query: Query, sig: nat) {
    match query
    case BySig(s) => s == sig
    case ByHops(plan) => IndexedSig(st, plan) == Some(sig)
  }

  /** What a waiting lookup read from the index is still there. */
  ghost predicate AllStand(c: Config) {
    forall t :: t in c.pending ==> Stands(c.store, c.pending[t].query, c.pending[t].sig)
  }

  /** An index entry, once made, is never changed by any operation. */
  lemma StillStands(st: StoreInner, op: Op, query: Query, sig: nat)
    requires Stands(st, query, sig)
    ensures Stands(Apply(st, op), query, sig)
  {
    hide PlanPairKey, FirstCapture, SeenAgain, RecordHopItems;
  }

  lemma WriteIsAtomicGet(st: StoreInner, sig: nat)
    requires Consistent(st)
    ensures WritePhase(st, sig) == AtomicGet(st, sig)
  {
  }

  lemma ReadIsAtomicGet(st: StoreInner, sig: nat)
    requires ReadPhase(st, sig).Done?
    ensures AtomicGet(st, sig) == Lookup(st, ReadPhase(st, sig).found)
  {
  }

  lemma LookupStands(st: StoreInner, sig: nat, query: Query, s: nat)
    requires Stands(st, query, s)
    ensures Stands(AtomicGet(st, sig).store, query, s)
  {
    StillStands(st, GetOp(sig), query, s);
  }

  lemma CallIsAtomic(c: Config, e: Event)
    requires Enabled(c, e) && e.Call? && AllStand(c)
    ensures View(Step(c, e)) == SpecRun(View(c), AtomsOf(c, e))
    ensures Step(c, e).store == c.store && AllStand(Step(c, e))
  {
    hide IndexedSig, AtomicGet, Promote;
    match e.query
    case BySig(sig) => if ReadPhase(c.store, sig).Done? { ReadIsAtomicGet(c.store, sig); }
    case ByHops(plan) =>
  }

  lemma ContinueIsAtomic(c: Config, thread: nat)
    requires thread in c.pending && Consistent(c.store) && AllStand(c)
    ensures View(Step(c, Continue(thread))) == SpecRun(View(c), AtomsOf(c, Continue(thread)))
    ensures Consistent(Step(c, Continue(thread)).store) && AllStand(Step(c, Continue(thread)))
  {
    hide IndexedSig, AtomicGet, Consistent, ReadPhase, WritePhase;
    var p := c.pending[thread];
    assert Stands(c.store, p.query, p.sig);
    assert AtomicQuery(c.store, p.query) == AtomicGet(c.store, p.sig);
    if p.writes {
      WriteIsAtomicGet(c.store, p.sig);
      ApplyKeepsConsistent(c.store, GetOp(p.sig));
      forall t | t in c.pending && t != thread
        ensures Stands(AtomicGet(c.store, p.sig).store, c.pending[t].query, c.pending[t].sig)
      {
        LookupStands(c.store, p.sig, c.pending[t].query, c.pending[t].sig);
      }
    } else if ReadPhase(c.store, p.sig).Done? {
      ReadIsAtomicGet(c.store, p.sig);
    }
  }

  lemma OtherIsAtomic(c: Config, op: Op)
    requires Consistent(c.store) && AllStand(c) && !op.GetOp?
    ensures View(Step(c, Other(op))) == SpecRun(View(c), AtomsOf(c, Other(op)))
    ensures Consistent(Step(c, Other(op)).store) && AllStand(Step(c, Other(op)))
  {
    hide Apply, Consistent, Stands;
    ApplyKeepsConsistent(c.store, op);
    forall t | t in c.pending ensures Stands(Apply(c.store, op), c.pending[t].query, c.pending[t].sig) {
      StillStands(c.store, op, c.pending[t].query, c.pending[t].sig);
    }
  }

  lemma StepIsAtomic(c: Config, e: Event)
    requires Enabled(c, e) && Consistent(c.store) && AllStand(c)
    ensures View(Step(c, e)) == SpecRun(View(c), AtomsOf(c, e))
    ensures Consistent(Step(c, e).store) && AllStand(Step(c, e))
  {
    hide View, SpecRun, AtomsOf, Consistent, AllStand;
    match e
    case Call(_, _) => CallIsAtomic(c, e);
    case Continue(thread) => ContinueIsAtomic(c, thread);
    case Other(op) => OtherIsAtomic(c, op);
  }

  lemma {:induction false} SpecRunConcat(s: Spec, a: seq<Atom>, b: seq<Atom>)
    ensures SpecRun(s, a + b) == SpecRun(SpecRun(s, a), b)
    decreases |a|
  {
    hide SpecStep;
    if a == [] {
      assert a + b == b;
    } else {
      assert (a + b)[1..] == a[1..] + b;
      SpecRunConcat(SpecStep(s, a[0]), a[1..], b);
    }
  }

  /** Linearizability: with the sections of all lookups, by signature and by hop
      pair, interleaved with anything, the store is left and every lookup answered
      exactly as in the atomic history; the generations stay disjoint with every
      entry under its own signature, and what a waiting lookup read from the index
      still stands. */
  lemma {:induction false} Linearizable(c: Config, events: seq<Event>)
    requires IsRun(c, events) && Consistent(c.store) && AllStand(c)
    ensures View(Run(c, events)) == SpecRun(View(c), Linearize(c, events))
    ensures Consistent(Run(c, events).store) && AllStand(Run(c, events))
    decreases |events|
  {
    hide Step, Consistent, AllStand, AtomsOf, View, SpecStep;
    if events != [] {
      StepIsAtomic(c, events[0]);
      Linearizable(Step(c, events[0]), events[1..]);
      SpecRunConcat(View(c), AtomsOf(c, events[0]), Linearize(Step(c, events[0]), events[1..]));
    }
  }

  predicate CalledBy(e: Event, thread: nat) {
    e.Call? && e.thread == thread
  }

  lemma StepPending(c: Config, e: Event, thread: nat)
    requires Enabled(c, e) && thread in Step(c, e).pending
    ensures CalledBy(e, thread) ==> Step(c, e).pending[thread].query == e.query
    ensures !CalledBy(e, thread) ==> thread in c.pending && Step(c, e).pending[thread].query == c.pending[thread].query
  {
    hide Apply, ReadPhase, WritePhase, IndexedSig;
  }

  /** A lookup still waiting was called earlier in the run with that query, and its
      thread has called nothing since: when it is answered, the atomic step lies
      within the call. */
  lemma {:induction false} PendingWasCalled(c: Config, events: seq<Event>, thread: nat)
    requires IsRun(c, events) && thread in Run(c, events).pending
    ensures || (thread in c.pending && c.pending[thread].query == Run(c, events).pending[thread].query
                && forall j :: 0 <= j < |events| ==> !CalledBy(events[j], thread))
            || exists i :: 0 <= i < |events| && events[i] == Call(thread, Run(c, events).pending[thread].query)
                           && forall j :: i < j < |events| ==> !CalledBy(events[j], thread)
    decreases |events|
  {
    hide Step;
    if events != [] {
      var c', rest := Step(c, events[0]), events[1..];
      PendingWasCalled(c', rest, thread);
      var query := Run(c, events).pending[thread].query;
      if i :| 0 <= i < |rest| && rest[i] == Call(thread, query)
              && forall j :: i < j < |rest| ==> !CalledBy(rest[j], thread) {
        assert events[i + 1] == Call(thread, query);
        assert forall j :: i + 1 < j < |events| ==> events[j] == rest[j - 1];
      } else {
        assert forall j :: 0 < j < |events| ==> events[j] == rest[j - 1];
        StepPending(c, events[0], thread);
        if CalledBy(events[0], thread) {
          assert events[0] == Call(thread, query);
        }
      }
    }
  }
}
