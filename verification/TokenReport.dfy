/** The per-token counters as they run (src/arbitrage.rs, src/token_metrics.rs): the
    quote check that updates them and the report that reads and resets them, on the
    fields themselves. Every update is one action of the ledger machine. */
module TokenReport {
  import opened Text
  import opened Decimal
  import opened AmountPatch
  import opened TokenLedger

  /** A quote request: no quote, or one whose amount may not be a number. */
  datatype Answer = NoQuote | Unreadable | Amount(out: u64)

  datatype Answers = Answers(first: Answer, second: Answer, forbiddenDex: bool, samePool: bool)

  datatype Verdict = RouteFailed | Unprofitable | Profits

  function SaturatingAdd(a: u64, b: u64): u64 {
    if a + b < U64_MODULUS then a + b else U64_MODULUS - 1
  }

  /** What a finished check adds to its token's counters. */
  function Delta(v: Verdict): Counts {
    match v
    case RouteFailed => Counts(2, 0, 1, 0, 0)
    case Unprofitable => Counts(2, 1, 0, 0, 1)
    case Profits => Counts(2, 1, 0, 1, 0)
  }

  /** Where a mint was configured last. */
  function LastIndex(mints: seq<string>, mint: string): Option<nat> {
    if mints == [] then None
    else if mints[|mints| - 1] == mint then Some(|mints| - 1)
    else LastIndex(mints[..|mints| - 1], mint)
  }

  lemma {:induction false} LastIndexMeans(mints: seq<string>, mint: string)
    ensures LastIndex(mints, mint).None? <==> mint !in mints
    ensures LastIndex(mints, mint).Some? ==>
              var i := LastIndex(mints, mint).value;
              i < |mints| && mints[i] == mint && forall j :: i < j < |mints| ==> mints[j] != mint
  {
    if mints != [] {
      LastIndexMeans(mints[..|mints| - 1], mint);
      assert mints == mints[..|mints| - 1] + [mints[|mints| - 1]];
    }
  }

  ghost predicate Indexes(index: map<string, nat>, mints: seq<string>) {
    forall mint :: (if mint in index then Some(index[mint]) else None) == LastIndex(mints, mint)
  }

  method BuildIndex(mints: seq<string>) returns (index: map<string, nat>)
    ensures Indexes(index, mints)
  {
    index := map[];
    for i := 0 to |mints|
      invariant Indexes(index, mints[..i])
    {
      assert mints[..i + 1][..i] == mints[..i];
      index := index[mints[i] := i];
    }
    assert mints[..|mints|] == mints;
  }

  /** Reading counters touches neither file. */
  predicate SameFiles(before: Ledger, now: Ledger) {
    now.reporter.fives == before.reporter.fives && now.reporter.thirties == before.reporter.thirties
  }

  class TokenMetrics {
    const mints: seq<string>
    const index: map<string, nat>
    var stats: seq<Counts>
    var acc: seq<Counts>
    var windows: nat
    var fiveMinuteFile: Option<seq<Counts>>
    var thirtyMinuteFile: Option<seq<Counts>>
    ghost var ledger: Ledger
    ghost var trace: seq<Action>

    /** The fields are those of a ledger that the recorded actions reach. */
    ghost predicate Valid()
      reads this
    {
      && Indexes(index, mints)
      && Sized(ledger, |mints|) && Reachable(|mints|, trace, ledger)
      && stats == ledger.stats && acc == ledger.reporter.acc && windows == ledger.reporter.windows
    }

    ghost predicate ReadingFrom(token: nat, field: Field, snap: seq<Counts>)
      reads this
    {
      ledger.reporter.token == token && ledger.reporter.field == field && ledger.reporter.snap == snap
    }

    ghost predicate BetweenWindows()
      reads this
    {
      ReadingFrom(0, QSent, NoCounts(|mints|))
    }

    constructor (mints: seq<string>)
      ensures Valid() && BetweenWindows() && this.mints == mints && stats == acc == NoCounts(|mints|) && windows == 0
    {
      var built := BuildIndex(mints);
      this.mints, index := mints, built;
      stats, acc, windows := NoCounts(|mints|), NoCounts(|mints|), 0;
      fiveMinuteFile, thirtyMinuteFile := None, None;
      ledger, trace := Start(|mints|), [];
    }

    /** Records an action that the fields have just performed. */
    ghost method Take(a: Action)
      requires Sized(ledger, |mints|) && Reachable(|mints|, trace, ledger) && Step(|mints|, ledger, a).Some?
      modifies this`ledger, this`trace
      ensures Sized(ledger, |mints|) && Reachable(|mints|, trace, ledger)
      ensures Step(|mints|, old(ledger), a) == Some(ledger) && trace == old(trace) + [a]
    {
      assert (trace + [a])[..|trace|] == trace;
      StepSized(|mints|, ledger, a);
      trace, ledger := trace + [a], Step(|mints|, ledger, a).value;
    }

    /** The counters of a configured mint. */
    method Find(mint: string) returns (token: Option<nat>)
      requires Valid()
      ensures token == LastIndex(mints, mint)
      ensures token.Some? ==> token.value < |stats| && mints[token.value] == mint
      ensures token.None? <==> mint !in mints
    {
      hide Reachable, LastIndex;
      LastIndexMeans(mints, mint);
      token := if mint in index then Some(index[mint]) else None;
    }

    // ------------------------------------------------ a quote check

    method BeginCheck(token: nat) returns (ghost check: nat)
      requires Valid() && token < |stats|
      modifies this`stats, this`ledger, this`trace
      ensures Valid() && trace == old(trace) + [Begin(token)] && ledger.reporter == old(ledger.reporter)
      ensures stats == old(stats)[token := Add(old(stats)[token], QSent, 2)]
      ensures check < |ledger.checks| && ledger.checks[check] == InFlight(token)
    {
      hide Reachable, Indexes;
      check := |ledger.checks|;
      stats := stats[token := Add(stats[token], QSent, 2)];
      Take(Begin(token));
    }

    method CountCheck(token: nat, f: Field, ghost check: nat, ghost a: Action)
      requires Valid() && token < |stats| && check < |ledger.checks|
      requires match a
               case Fail(k) => k == check && f == RouteFail && ledger.checks[k] == InFlight(token)
               case Find(k) => k == check && f == RouteOk && ledger.checks[k] == InFlight(token)
               case Decide(k, pays) =>
                 k == check && f == (if pays then Profitable else NotProfitable) && ledger.checks[k] == Undecided(token)
               case _ => false
      modifies this`stats, this`ledger, this`trace
      ensures Valid() && trace == old(trace) + [a] && ledger.reporter == old(ledger.reporter)
      ensures stats == old(stats)[token := Add(old(stats)[token], f, 1)]
      ensures check < |ledger.checks|
      ensures ledger.checks[check] == if a.Find? then Undecided(token) else CheckPc.Ended
    {
      hide Reachable, Indexes;
      stats := stats[token := Add(stats[token], f, 1)];
      Take(a);
    }

    /** One quote check. A pair profits exactly when both quotes came, the first buys
        something, the second returns more than amount and minimum profit added up as
        integers, and neither guard objects; only its own token's counters change, by
        two quotes and the verdict, and nothing is counted for an unknown mint. */
    method QuoteCheck(mint: string, amount: u64, minProfit: u64, answers: Answers) returns (verdict: Verdict)
      requires Valid()
      modifies this`stats, this`ledger, this`trace
      ensures Valid() && ledger.reporter == old(ledger.reporter)
      ensures verdict.RouteFailed? <==>
        !(answers.first.Amount? && answers.first.out > 0) || answers.second.NoQuote?
      ensures verdict.Profits? <==>
        && answers.first.Amount? && answers.first.out > 0
        && answers.second.Amount? && answers.second.out as int > amount as int + minProfit as int
        && !answers.forbiddenDex && !answers.samePool
      ensures mint !in mints ==> stats == old(stats)
      ensures mint in mints ==>
        LastIndex(mints, mint).Some? &&
        var t := LastIndex(mints, mint).value;
        && t < |stats| && mints[t] == mint
        && var c := old(stats)[t];
           stats == old(stats)[t := match verdict
                                    case RouteFailed => c.(qSent := c.qSent + 2, routeFail := c.routeFail + 1)
                                    case Unprofitable => c.(qSent := c.qSent + 2, routeOk := c.routeOk + 1,
                                                            notProfitable := c.notProfitable + 1)
                                    case Profits => c.(qSent := c.qSent + 2, routeOk := c.routeOk + 1,
                                                       profitable := c.profitable + 1)]
    {
      hide Valid, LastIndex;
      var token := Find(mint);
      if !(answers.first.Amount? && answers.first.out > 0) || answers.second.NoQuote? {
        verdict := RouteFailed;
      } else {
        var output := if answers.second.Amount? then answers.second.out else 0;
        if output <= SaturatingAdd(amount, minProfit) || answers.forbiddenDex || answers.samePool {
          verdict := Unprofitable;
        } else {
          verdict := Profits;
        }
      }
      if token.Some? {
        CountVerdict(token.value, verdict);
      }
    }

    method CountVerdict(token: nat, verdict: Verdict)
      requires Valid() && token < |stats|
      modifies this`stats, this`ledger, this`trace
      ensures Valid() && ledger.reporter == old(ledger.reporter)
      ensures stats == old(stats)[token := Plus(old(stats)[token], Delta(verdict))]
    {
      hide Valid;
      ghost var check := BeginCheck(token);
      if verdict.RouteFailed? {
        CountCheck(token, RouteFail, check, Fail(check));
      } else {
        CountCheck(token, RouteOk, check, Action.Find(check));
        var pays := verdict.Profits?;
        CountCheck(token, if pays then Profitable else NotProfitable, check, Decide(check, pays));
      }
    }

    // ------------------------------------------------ the report

    method SwapField(token: nat, f: Field, ghost snap: seq<Counts>) returns (v: nat)
      requires Valid() && token < |stats| == |snap| && ReadingFrom(token, f, snap)
      modifies this`stats, this`ledger, this`trace
      ensures Valid() && v == Get(old(stats)[token], f)
      ensures stats == old(stats)[token := Set(old(stats)[token], f, 0)] && SameFiles(old(ledger), ledger)
      ensures ReadingFrom(if After(f).Some? then token else token + 1, if After(f).Some? then After(f).value else QSent,
                          snap[token := Set(snap[token], f, v)])
    {
      hide Reachable, Indexes;
      v := Get(stats[token], f);
      stats := stats[token := Set(stats[token], f, 0)];
      Take(Swap);
    }

    /** One token's snapshot, its five counters swapped one after the other. */
    method SwapToken(token: nat, ghost snap: seq<Counts>) returns (c: Counts)
      requires Valid() && token < |stats| == |snap| && ReadingFrom(token, QSent, snap)
      modifies this`stats, this`ledger, this`trace
      ensures Valid() && c == old(stats)[token] && stats == old(stats)[token := ZERO] && SameFiles(old(ledger), ledger)
      ensures ReadingFrom(token + 1, QSent, snap[token := c])
    {
      hide Valid, ReadingFrom;
      var qSent := SwapField(token, QSent, snap);
      ghost var s1 := snap[token := Set(snap[token], QSent, qSent)];
      var routeOk := SwapField(token, RouteOk, s1);
      ghost var s2 := s1[token := Set(s1[token], RouteOk, routeOk)];
      var routeFail := SwapField(token, RouteFail, s2);
      ghost var s3 := s2[token := Set(s2[token], RouteFail, routeFail)];
      var profitable := SwapField(token, Profitable, s3);
      ghost var s4 := s3[token := Set(s3[token], Profitable, profitable)];
      var notProfitable := SwapField(token, NotProfitable, s4);
      c := Counts(qSent, routeOk, routeFail, profitable, notProfitable);
      assert s4[token := Set(s4[token], NotProfitable, notProfitable)] == snap[token := c];
    }

    /** Every token's counters, read and reset. */
    method Snapshot() returns (snap: seq<Counts>)
      requires Valid() && BetweenWindows()
      modifies this`stats, this`ledger, this`trace
      ensures Valid() && snap == old(stats) && stats == NoCounts(|mints|)
      ensures ReadingFrom(|mints|, QSent, snap) && SameFiles(old(ledger), ledger)
    {
      hide Valid, ReadingFrom;
      SizesAgree();
      snap := [];
      assert NoCounts(|mints|) == [] + NoCounts(|mints|);
      for i := 0 to |mints|
        invariant Valid() && |snap| == i && |stats| == |mints| && SameFiles(old(ledger), ledger)
        invariant forall j :: 0 <= j < i ==> snap[j] == old(stats)[j] && stats[j] == ZERO
        invariant forall j :: i <= j < |mints| ==> stats[j] == old(stats)[j]
        invariant ReadingFrom(i, QSent, snap + NoCounts(|mints| - i))
      {
        var c := SwapToken(i, snap + NoCounts(|mints| - i));
        assert (snap + NoCounts(|mints| - i))[i := c] == snap + [c] + NoCounts(|mints| - (i + 1));
        snap := snap + [c];
      }
      assert snap + NoCounts(0) == snap;
    }

    ghost method SizesAgree()
      requires Valid()
      ensures |stats| == |acc| == |mints|
    {
    }

    /** The window is added to the accumulator, field by field. */
    method Accumulate(snap: seq<Counts>)
      requires |acc| == |snap|
      modifies this`acc
      ensures acc == AddAll(old(acc), snap)
    {
      for i := 0 to |snap|
        invariant |acc| == |snap|
        invariant forall j :: 0 <= j < i ==> acc[j] == Plus(old(acc)[j], snap[j])
        invariant forall j :: i <= j < |snap| ==> acc[j] == old(acc)[j]
      {
        acc := acc[i := Plus(acc[i], snap[i])];
      }
    }

    method WriteFiles(snap: seq<Counts>)
      requires Valid() && ReadingFrom(|mints|, QSent, snap) && |acc| == |snap| == |mints|
      modifies this`acc, this`windows, this`fiveMinuteFile, this`thirtyMinuteFile, this`ledger, this`trace
      ensures Valid() && ledger.reporter == CloseWindow(old(ledger.reporter))
      ensures fiveMinuteFile == Some(snap)
      ensures thirtyMinuteFile
              == if old(windows) + 1 >= WINDOWS_PER_REPORT then Some(AddAll(old(acc), snap)) else old(thirtyMinuteFile)
    {
      hide Reachable, Indexes;
      windows := windows + 1;
      Accumulate(snap);
      fiveMinuteFile := Some(snap);
      if windows >= WINDOWS_PER_REPORT {
        thirtyMinuteFile := Some(acc);
        acc := NoCounts(|mints|);
        windows := 0;
      }
      Take(Close);
    }

    /** One report: the five-minute file holds exactly what the counters held, which
        restart from zero; every sixth window the summary file holds the accumulator
        with this window, which restarts from zero too. */
    method Report()
      requires Valid() && BetweenWindows()
      modifies this
      ensures Valid() && BetweenWindows() && |old(acc)| == |old(stats)|
      ensures stats == NoCounts(|mints|) && fiveMinuteFile == Some(old(stats))
      ensures var total, full := AddAll(old(acc), old(stats)), old(windows) + 1 >= WINDOWS_PER_REPORT;
              && acc == (if full then NoCounts(|mints|) else total)
              && windows == (if full then 0 else old(windows) + 1)
              && thirtyMinuteFile == (if full then Some(total) else old(thirtyMinuteFile))
              && ledger.reporter.fives == old(ledger.reporter.fives) + [old(stats)]
              && ledger.reporter.thirties == old(ledger.reporter.thirties) + (if full then [total] else [])
    {
      hide Reachable, Indexes;
      var snap := Snapshot();
      WriteFiles(snap);
    }
  }
}
