/** The per-token counters as a transition system (src/arbitrage.rs,
    src/token_metrics.rs): any number of quote checks, each between any two of its
    counter updates, and the reporter swapping the counters to zero one by one. */
module TokenLedger {
  import opened Text

  const WINDOWS_PER_REPORT: nat := 6

  datatype Field = QSent | RouteOk | RouteFail | Profitable | NotProfitable

  datatype Counts = Counts(qSent: nat, routeOk: nat, routeFail: nat, profitable: nat, notProfitable: nat)

  const ZERO: Counts := Counts(0, 0, 0, 0, 0)

  function Get(c: Counts, f: Field): nat {
    match f
    case QSent => c.qSent
    case RouteOk => c.routeOk
    case RouteFail => c.routeFail
    case Profitable => c.profitable
    case NotProfitable => c.notProfitable
  }

  function Set(c: Counts, f: Field, v: nat): Counts {
    match f
    case QSent => c.(qSent := v)
    case RouteOk => c.(routeOk := v)
    case RouteFail => c.(routeFail := v)
    case Profitable => c.(profitable := v)
    case NotProfitable => c.(notProfitable := v)
  }

  function Add(c: Counts, f: Field, n: nat): Counts {
    Set(c, f, Get(c, f) + n)
  }

  function Plus(a: Counts, b: Counts): Counts {
    Counts(a.qSent + b.qSent, a.routeOk + b.routeOk, a.routeFail + b.routeFail,
           a.profitable + b.profitable, a.notProfitable + b.notProfitable)
  }

  // ------------------------------------------------ the machine

  /** Where a quote check for a configured token stands. */
  datatype CheckPc = InFlight(token: nat) | Undecided(token: nat) | Ended

  /** The reporter is about to swap `field` of `token`, or, past the last token, to
      add the window up and write the files. Both lists of files are history: each
      file overwrites the one before. */
  datatype Reporter = Reporter(
    token: nat, field: Field, snap: seq<Counts>, acc: seq<Counts>, windows: nat,
    fives: seq<seq<Counts>>, thirties: seq<seq<Counts>>)

  /** `counted` is history: every event that ever happened. */
  datatype Ledger = Ledger(stats: seq<Counts>, checks: seq<CheckPc>, reporter: Reporter, counted: seq<Counts>)

  datatype Action =
    | Begin(token: nat)
    | Fail(check: nat)
    | Find(check: nat)
    | Decide(check: nat, pays: bool)
    | Swap
    | Close

  function NoCounts(n: nat): seq<Counts> { seq(n, _ => ZERO) }

  function Start(tokens: nat): Ledger {
    Ledger(NoCounts(tokens), [], Reporter(0, QSent, NoCounts(tokens), NoCounts(tokens), 0, [], []), NoCounts(tokens))
  }

  function Count(l: Ledger, token: nat, f: Field, n: nat): Ledger
    requires token < |l.stats| && token < |l.counted|
  {
    l.(stats := l.stats[token := Add(l.stats[token], f, n)],
       counted := l.counted[token := Add(l.counted[token], f, n)])
  }

  /** The field swapped next; none after the last of a token. */
  function After(f: Field): Option<Field> {
    match f
    case QSent => Some(RouteOk)
    case RouteOk => Some(RouteFail)
    case RouteFail => Some(Profitable)
    case Profitable => Some(NotProfitable)
    case NotProfitable => None
  }

  function SwapNext(l: Ledger): Ledger
    requires l.reporter.token < |l.stats| == |l.reporter.snap|
  {
    var r := l.reporter;
    var v := Get(l.stats[r.token], r.field);
    l.(stats := l.stats[r.token := Set(l.stats[r.token], r.field, 0)],
       reporter := r.(snap := r.snap[r.token := Set(r.snap[r.token], r.field, v)],
                      token := if After(r.field).Some? then r.token else r.token + 1,
                      field := if After(r.field).Some? then After(r.field).value else QSent))
  }

  function AddAll(a: seq<Counts>, b: seq<Counts>): seq<Counts>
    requires |a| == |b|
  {
    seq(|a|, i requires 0 <= i < |a| => Plus(a[i], b[i]))
  }

  /** The window's file, and every sixth window the summary and a new accumulator. */
  function CloseWindow(r: Reporter): Reporter
    requires |r.acc| == |r.snap|
  {
    var acc, full := AddAll(r.acc, r.snap), r.windows + 1 >= WINDOWS_PER_REPORT;
    Reporter(0, QSent, NoCounts(|r.snap|),
             if full then NoCounts(|r.snap|) else acc,
             if full then 0 else r.windows + 1,
             r.fives + [r.snap],
             if full then r.thirties + [acc] else r.thirties)
  }

  predicate Sized(l: Ledger, tokens: nat) {
    |l.stats| == |l.counted| == |l.reporter.snap| == |l.reporter.acc| == tokens
  }

  /** A check updates the counters of its own token only; nothing moves otherwise. */
  function Step(tokens: nat, l: Ledger, a: Action): Option<Ledger>
    requires Sized(l, tokens)
  {
    match a
    case Begin(t) =>
      if t < tokens then Some(Count(l, t, QSent, 2).(checks := l.checks + [InFlight(t)])) else None
    case Fail(k) =>
      if k < |l.checks| && l.checks[k].InFlight? && l.checks[k].token < tokens then
        Some(Count(l, l.checks[k].token, RouteFail, 1).(checks := l.checks[k := Ended]))
      else None
    case Find(k) =>
      if k < |l.checks| && l.checks[k].InFlight? && l.checks[k].token < tokens then
        Some(Count(l, l.checks[k].token, RouteOk, 1).(checks := l.checks[k := Undecided(l.checks[k].token)]))
      else None
    case Decide(k, pays) =>
      if k < |l.checks| && l.checks[k].Undecided? && l.checks[k].token < tokens then
        var verdict := if pays then Profitable else NotProfitable;
        Some(Count(l, l.checks[k].token, verdict, 1).(checks := l.checks[k := Ended]))
      else None
    case Swap => if l.reporter.token < tokens then Some(SwapNext(l)) else None
    case Close => if l.reporter.token >= tokens then Some(l.(reporter := CloseWindow(l.reporter))) else None
  }

  lemma StepSized(tokens: nat, l: Ledger, a: Action)
    requires Sized(l, tokens) && Step(tokens, l, a).Some?
    ensures Sized(Step(tokens, l, a).value, tokens)
  {
  }

  /** The ledgers that some interleaving of actions leads to. */
  ghost predicate Reachable(tokens: nat, actions: seq<Action>, l: Ledger) {
    Sized(l, tokens) &&
    if actions == [] then l == Start(tokens)
    else
      var n := |actions| - 1;
      exists m :: Reachable(tokens, actions[..n], m) && Step(tokens, m, actions[n]) == Some(l)
  }

  // ------------------------------------------------ nothing lost, nothing twice

  /** What the five-minute files say about token `i`, added up. */
  function SumAt(files: seq<seq<Counts>>, i: nat): Counts {
    if files == [] then ZERO
    else
      var last := files[|files| - 1];
      Plus(SumAt(files[..|files| - 1], i), if i < |last| then last[i] else ZERO)
  }

  /** Token `i` over the whole run: the files, the window being read, the counters. */
  function Cumulative(l: Ledger, i: nat): Counts
    requires i < |l.stats| && i < |l.reporter.snap|
  {
    Plus(SumAt(l.reporter.fives, i), Plus(l.reporter.snap[i], l.stats[i]))
  }

  function Place(f: Field): nat {
    match f case QSent => 0 case RouteOk => 1 case RouteFail => 2 case Profitable => 3 case NotProfitable => 4
  }

  /** What the reporter has not read yet is still zero in its window. */
  ghost predicate Unread(l: Ledger, i: nat)
    requires i < |l.reporter.snap|
  {
    && (i > l.reporter.token ==> l.reporter.snap[i] == ZERO)
    && (i == l.reporter.token ==>
          forall f :: Place(f) >= Place(l.reporter.field) ==> Get(l.reporter.snap[i], f) == 0)
  }

  ghost predicate Kept(l: Ledger, i: nat)
    requires i < |l.stats| && i < |l.reporter.snap| && i < |l.counted|
  {
    Unread(l, i) && Cumulative(l, i) == l.counted[i]
  }

  lemma AddPlus(a: Counts, b: Counts, c: Counts, f: Field, n: nat)
    ensures Plus(a, Plus(b, Add(c, f, n))) == Add(Plus(a, Plus(b, c)), f, n)
  {
  }

  lemma SwapPlus(a: Counts, b: Counts, f: Field)
    requires Get(a, f) == 0
    ensures Plus(Set(a, f, Get(b, f)), Set(b, f, 0)) == Plus(a, b)
  {
  }

  lemma CountKept(l: Ledger, token: nat, f: Field, n: nat, i: nat)
    requires token < |l.stats| == |l.counted| == |l.reporter.snap| && i < |l.stats| && Kept(l, i)
    ensures Kept(Count(l, token, f, n), i)
  {
    if i == token { AddPlus(SumAt(l.reporter.fives, i), l.reporter.snap[i], l.stats[i], f, n); }
  }

  lemma SetGet(c: Counts, f: Field, v: nat, g: Field)
    ensures Get(Set(c, f, v), g) == if g == f then v else Get(c, g)
  {
  }

  lemma SwapKept(l: Ledger, i: nat)
    requires l.reporter.token < |l.stats| == |l.counted| == |l.reporter.snap| && i < |l.stats| && Kept(l, i)
    ensures Kept(SwapNext(l), i)
  {
    var r := l.reporter;
    if i == r.token {
      SwapPlus(r.snap[i], l.stats[i], r.field);
      forall f | After(r.field).Some? && Place(f) >= Place(After(r.field).value)
        ensures Get(SwapNext(l).reporter.snap[i], f) == 0
      {
        SetGet(r.snap[i], r.field, Get(l.stats[i], r.field), f);
      }
    }
  }

  lemma CloseKept(tokens: nat, l: Ledger, i: nat)
    requires Sized(l, tokens) && i < tokens <= l.reporter.token && Kept(l, i)
    ensures Kept(l.(reporter := CloseWindow(l.reporter)), i)
  {
    hide SumAt;
    SumAtAppend(l.reporter.fives, l.reporter.snap, i);
    ClosePlus(SumAt(l.reporter.fives, i), l.reporter.snap[i], l.stats[i]);
  }

  lemma ClosePlus(a: Counts, b: Counts, c: Counts)
    ensures Plus(Plus(a, b), Plus(ZERO, c)) == Plus(a, Plus(b, c))
  {
  }

  lemma SumAtAppend(files: seq<seq<Counts>>, file: seq<Counts>, i: nat)
    requires i < |file|
    ensures SumAt(files + [file], i) == Plus(SumAt(files, i), file[i])
  {
    assert (files + [file])[..|files|] == files;
  }

  lemma StepKept(tokens: nat, l: Ledger, a: Action, i: nat)
    requires Sized(l, tokens) && i < tokens && Kept(l, i) && Step(tokens, l, a).Some?
    ensures Sized(Step(tokens, l, a).value, tokens) && Kept(Step(tokens, l, a).value, i)
  {
    match a
    case Begin(t) => CountKept(l, t, QSent, 2, i);
    case Fail(k) => CountKept(l, l.checks[k].token, RouteFail, 1, i);
    case Find(k) => CountKept(l, l.checks[k].token, RouteOk, 1, i);
    case Decide(k, pays) => CountKept(l, l.checks[k].token, if pays then Profitable else NotProfitable, 1, i);
    case Swap => SwapKept(l, i);
    case Close => CloseKept(tokens, l, i);
  }

  /** No event is lost or counted twice, however the reporter's swaps fall between
      the updates: the files, the window being read and the counters always add up
      to everything that happened. */
  lemma {:induction false} NothingLost(tokens: nat, actions: seq<Action>, l: Ledger, i: nat)
    requires Reachable(tokens, actions, l) && i < tokens
    ensures Unread(l, i) && Cumulative(l, i) == l.counted[i]
  {
    if actions != [] {
      var n := |actions| - 1;
      var m :| Reachable(tokens, actions[..n], m) && Step(tokens, m, actions[n]) == Some(l);
      NothingLost(tokens, actions[..n], m, i);
      StepKept(tokens, m, actions[n], i);
    }
  }

  // ------------------------------------------------ the two equations

  function Flying(checks: seq<CheckPc>, i: nat): nat {
    if checks == [] then 0
    else Flying(checks[..|checks| - 1], i) + if checks[|checks| - 1] == InFlight(i) then 1 else 0
  }

  function Open(checks: seq<CheckPc>, i: nat): nat {
    if checks == [] then 0
    else Open(checks[..|checks| - 1], i) + if checks[|checks| - 1] == Undecided(i) then 1 else 0
  }

  ghost predicate Even(l: Ledger, i: nat)
    requires i < |l.counted|
  {
    var c := l.counted[i];
    && c.qSent == 2 * (c.routeOk + c.routeFail + Flying(l.checks, i))
    && c.routeOk == c.profitable + c.notProfitable + Open(l.checks, i)
  }

  lemma {:induction false} ChecksUpdate(checks: seq<CheckPc>, k: nat, pc: CheckPc, i: nat)
    requires k < |checks|
    ensures Flying(checks[k := pc], i) + (if checks[k] == InFlight(i) then 1 else 0)
            == Flying(checks, i) + (if pc == InFlight(i) then 1 else 0)
    ensures Open(checks[k := pc], i) + (if checks[k] == Undecided(i) then 1 else 0)
            == Open(checks, i) + (if pc == Undecided(i) then 1 else 0)
  {
    var n := |checks| - 1;
    if k < n {
      ChecksUpdate(checks[..n], k, pc, i);
      assert checks[k := pc][..n] == checks[..n][k := pc];
    } else {
      assert checks[k := pc][..n] == checks[..n];
    }
  }

  lemma StepEven(tokens: nat, l: Ledger, a: Action, i: nat)
    requires Sized(l, tokens) && i < tokens && Even(l, i) && Step(tokens, l, a).Some?
    ensures i < |Step(tokens, l, a).value.counted| && Even(Step(tokens, l, a).value, i)
  {
    hide AddAll, NoCounts;
    match a
    case Begin(t) => assert (l.checks + [InFlight(t)])[..|l.checks|] == l.checks;
    case Fail(k) => ChecksUpdate(l.checks, k, Ended, i);
    case Find(k) => ChecksUpdate(l.checks, k, Undecided(l.checks[k].token), i);
    case Decide(k, _) => ChecksUpdate(l.checks, k, Ended, i);
    case _ =>
  }

  lemma {:induction false} EventsEven(tokens: nat, actions: seq<Action>, l: Ledger, i: nat)
    requires Reachable(tokens, actions, l) && i < tokens
    ensures Even(l, i)
  {
    if actions != [] {
      var n := |actions| - 1;
      var m :| Reachable(tokens, actions[..n], m) && Step(tokens, m, actions[n]) == Some(l);
      EventsEven(tokens, actions[..n], m, i);
      StepEven(tokens, m, actions[n], i);
    }
  }

  /** The per-token ledger at every point of every interleaving: two quotes for every
      route found, failed or still in flight, and every route found is profitable,
      not profitable or still undecided; counted over all files so far, the window
      being read and the counters. */
  lemma LedgerBalances(tokens: nat, actions: seq<Action>, l: Ledger, i: nat)
    requires Reachable(tokens, actions, l) && i < tokens
    ensures var c := Cumulative(l, i);
            && c.qSent == 2 * (c.routeOk + c.routeFail + Flying(l.checks, i))
            && c.routeOk == c.profitable + c.notProfitable + Open(l.checks, i)
  {
    hide Reachable, Cumulative, SumAt;
    NothingLost(tokens, actions, l, i);
    EventsEven(tokens, actions, l, i);
  }

  // ------------------------------------------------ the summaries

  /** Every summary is the sum of its six windows, for token `i`. */
  ghost predicate SummariesAdd(thirties: seq<seq<Counts>>, fives: seq<seq<Counts>>, i: nat) {
    && |thirties| * WINDOWS_PER_REPORT <= |fives|
    && (thirties != [] ==>
          var m := |thirties| - 1;
          && SummariesAdd(thirties[..m], fives, i)
          && i < |thirties[m]|
          && thirties[m][i] == SumAt(fives[m * WINDOWS_PER_REPORT..(m + 1) * WINDOWS_PER_REPORT], i))
  }

  ghost predicate Summed(r: Reporter, i: nat)
    requires i < |r.acc|
  {
    && r.windows < WINDOWS_PER_REPORT
    && |r.fives| == |r.thirties| * WINDOWS_PER_REPORT + r.windows
    && r.acc[i] == SumAt(r.fives[|r.thirties| * WINDOWS_PER_REPORT..], i)
    && SummariesAdd(r.thirties, r.fives, i)
  }

  lemma {:induction false} SummariesStay(thirties: seq<seq<Counts>>, fives: seq<seq<Counts>>, file: seq<Counts>, i: nat)
    requires SummariesAdd(thirties, fives, i)
    ensures SummariesAdd(thirties, fives + [file], i)
  {
    if thirties != [] {
      var m := |thirties| - 1;
      SummariesStay(thirties[..m], fives, file, i);
      var a, b := m * WINDOWS_PER_REPORT, (m + 1) * WINDOWS_PER_REPORT;
      assert (fives + [file])[a..b] == fives[a..b];
    }
  }

  lemma SummaryAppended(thirties: seq<seq<Counts>>, fives: seq<seq<Counts>>, total: seq<Counts>, i: nat)
    requires SummariesAdd(thirties, fives, i) && |fives| == (|thirties| + 1) * WINDOWS_PER_REPORT
    requires i < |total| && total[i] == SumAt(fives[|thirties| * WINDOWS_PER_REPORT..], i)
    ensures SummariesAdd(thirties + [total], fives, i)
  {
    hide SumAt;
    assert (thirties + [total])[..|thirties|] == thirties;
    var from, to := |thirties| * WINDOWS_PER_REPORT, (|thirties| + 1) * WINDOWS_PER_REPORT;
    assert fives[from..to] == fives[from..];
  }

  lemma CloseSummed(r: Reporter, i: nat)
    requires |r.acc| == |r.snap| && i < |r.acc| && Summed(r, i)
    ensures Summed(CloseWindow(r), i)
  {
    hide SummariesAdd;
    var from := |r.thirties| * WINDOWS_PER_REPORT;
    var fives := r.fives + [r.snap];
    assert fives[from..] == r.fives[from..] + [r.snap];
    SumAtAppend(r.fives[from..], r.snap, i);
    SummariesStay(r.thirties, r.fives, r.snap, i);
    if r.windows + 1 >= WINDOWS_PER_REPORT {
      SummaryAppended(r.thirties, fives, AddAll(r.acc, r.snap), i);
      assert fives[from + WINDOWS_PER_REPORT..] == [];
    }
  }

  lemma StepSummed(tokens: nat, l: Ledger, a: Action, i: nat)
    requires Sized(l, tokens) && i < tokens && Summed(l.reporter, i) && Step(tokens, l, a).Some?
    ensures i < |Step(tokens, l, a).value.reporter.acc| && Summed(Step(tokens, l, a).value.reporter, i)
  {
    hide SumAt, SummariesAdd, CloseWindow;
    StepSized(tokens, l, a);
    if a.Close? { CloseSummed(l.reporter, i); }
  }

  lemma {:induction false} ReachableSummed(tokens: nat, actions: seq<Action>, l: Ledger, i: nat)
    requires Reachable(tokens, actions, l) && i < tokens
    ensures Summed(l.reporter, i)
  {
    if actions == [] {
      StartSummed(tokens, i);
    } else {
      hide Summed, Step;
      var n := |actions| - 1;
      var m :| Reachable(tokens, actions[..n], m) && Step(tokens, m, actions[n]) == Some(l);
      ReachableSummed(tokens, actions[..n], m, i);
      StepSummed(tokens, m, actions[n], i);
    }
  }

  lemma StartSummed(tokens: nat, i: nat)
    requires i < tokens
    ensures Summed(Start(tokens).reporter, i)
  {
  }

  lemma {:induction false} SummaryAt(thirties: seq<seq<Counts>>, fives: seq<seq<Counts>>, i: nat, m: nat)
    requires SummariesAdd(thirties, fives, i) && m < |thirties|
    ensures (m + 1) * WINDOWS_PER_REPORT <= |fives| && i < |thirties[m]|
    ensures thirties[m][i] == SumAt(fives[m * WINDOWS_PER_REPORT..(m + 1) * WINDOWS_PER_REPORT], i)
  {
    if m < |thirties| - 1 { SummaryAt(thirties[..|thirties| - 1], fives, i, m); }
  }

  /** Summary `m` holds for each token exactly what windows `6m` to `6m + 5` hold
      together, and one is written for every six windows. */
  lemma SummaryIsSixWindows(tokens: nat, actions: seq<Action>, l: Ledger, i: nat, m: nat)
    requires Reachable(tokens, actions, l) && i < tokens
    ensures |l.reporter.thirties| == |l.reporter.fives| / 6
    ensures m < |l.reporter.thirties| ==>
              && 6 * m + 6 <= |l.reporter.fives| && i < |l.reporter.thirties[m]|
              && l.reporter.thirties[m][i] == SumAt(l.reporter.fives[6 * m..6 * m + 6], i)
  {
    ReachableSummed(tokens, actions, l, i);
    if m < |l.reporter.thirties| { SummaryAt(l.reporter.thirties, l.reporter.fives, i, m); }
  }
}
