/** Sliding-window admission: the limiter of src/rate_limiter.rs and the pair
    of limiters a worker consults (src/arbitrage.rs).

    An `Instant` is a reading of the monotonic clock in nanoseconds. */
module RateLimiting {

  type Instant = int
  type u32 = x: int | 0 <= x < U32_MODULUS

  const U32_MODULUS: int := 0x1_0000_0000
  const ONE_SECOND: int := 1_000_000_000

  // ---------------------------------------------------------------- the limiter

  function Retained(ts: seq<Instant>, cutoff: Instant): (kept: seq<Instant>)
    ensures |kept| <= |ts|
  {
    if ts == [] then []
    else if ts[|ts| - 1] > cutoff then Retained(ts[..|ts| - 1], cutoff) + [ts[|ts| - 1]]
    else Retained(ts[..|ts| - 1], cutoff)
  }

  /** The places of the timestamps after an instant. */
  ghost function Later(ts: seq<Instant>, cutoff: Instant): set<nat> {
    set i: nat | i < |ts| && ts[i] > cutoff
  }

  /** Every timestamp after the cutoff stays as often as it was there, and no other. */
  lemma {:induction false} RetainedMeans(ts: seq<Instant>, cutoff: Instant)
    ensures |Retained(ts, cutoff)| == |Later(ts, cutoff)|
    ensures forall t :: multiset(Retained(ts, cutoff))[t] == if t > cutoff then multiset(ts)[t] else 0
  {
    if ts != [] {
      var n := |ts| - 1;
      RetainedMeans(ts[..n], cutoff);
      assert ts == ts[..n] + [ts[n]];
      var before := Later(ts[..n], cutoff);
      assert Later(ts, cutoff) == if ts[n] > cutoff then before + {n} else before;
    }
  }

  datatype Decision = Decision(allowed: bool, timestamps: seq<Instant>)

  /** What one call decides, for a limit that need not fit a machine word. */
  function Admit(limit: nat, ts: seq<Instant>, now: Instant): Decision {
    var kept := Retained(ts, now - ONE_SECOND);
    if |kept| < limit then Decision(true, kept + [now]) else Decision(false, kept)
  }

  class RateLimiter {
    const maxPerSecond: u32
    var timestamps: seq<Instant>

    ghost predicate Valid()
      reads this
    {
      |timestamps| <= maxPerSecond
    }

    constructor (maxPerSecond: u32)
      ensures Valid() && this.maxPerSecond == maxPerSecond && timestamps == []
    {
      this.maxPerSecond := maxPerSecond;
      timestamps := [];
    }

    /** Allowed exactly when fewer than the limit were granted in the second before now;
        older timestamps go, and a granted one is added. The comparison casts the length
        to 32 bits; `Valid` makes the cast exact. */
    method TryAcquire(now: Instant) returns (allowed: bool)
      requires Valid()
      modifies this`timestamps
      ensures Valid()
      ensures Decision(allowed, timestamps) == Admit(maxPerSecond, old(timestamps), now)
      ensures allowed <==> |Later(old(timestamps), now - 1_000_000_000)| < maxPerSecond
      ensures forall t ::
                multiset(timestamps)[t]
                == (if t > now - 1_000_000_000 then multiset(old(timestamps))[t] else 0)
                   + (if allowed && t == now then 1 else 0)
    {
      RetainedMeans(timestamps, now - 1_000_000_000);
      var oneSecAgo := now - ONE_SECOND;
      Retain(oneSecAgo);
      if |timestamps| % U32_MODULUS < maxPerSecond {
        timestamps := timestamps + [now];
        allowed := true;
      } else {
        allowed := false;
      }
    }

    method Retain(cutoff: Instant)
      modifies this`timestamps
      ensures timestamps == Retained(old(timestamps), cutoff)
    {
      var kept := [];
      for i := 0 to |timestamps|
        invariant timestamps == old(timestamps)
        invariant kept == Retained(timestamps[..i], cutoff)
      {
        assert timestamps[..i + 1][..i] == timestamps[..i];
        if timestamps[i] > cutoff {
          kept := kept + [timestamps[i]];
        }
      }
      assert timestamps[..|timestamps|] == timestamps;
      timestamps := kept;
    }
  }

  // ---------------------------------------------------------------- whole runs

  ghost predicate NonDecreasing(s: seq<Instant>) {
    forall i, j :: 0 <= i <= j < |s| ==> s[i] <= s[j]
  }

  predicate InWindow(t: Instant, end: Instant) {
    end - ONE_SECOND < t <= end
  }

  /** How many of `s` lie in the window (end - 1s, end]. */
  function WindowCount(s: seq<Instant>, end: Instant): nat {
    if s == [] then 0
    else WindowCount(s[..|s| - 1], end) + if InWindow(s[|s| - 1], end) then 1 else 0
  }

  ghost predicate RespectsLimit(s: seq<Instant>, limit: nat) {
    forall end :: WindowCount(s, end) <= limit
  }

  /** The stored list and every grant so far. */
  datatype History = History(stored: seq<Instant>, granted: seq<Instant>)

  function Next(limit: nat, h: History, now: Instant): History {
    var d := Admit(limit, h.stored, now);
    History(d.timestamps, if d.allowed then h.granted + [now] else h.granted)
  }

  function Run(limit: nat, times: seq<Instant>): History {
    if times == [] then History([], [])
    else Next(limit, Run(limit, times[..|times| - 1]), times[|times| - 1])
  }

  ghost predicate Spaced(s: seq<Instant>, limit: nat) {
    forall i, j :: 0 <= i && i + limit <= j < |s| ==> s[j] - s[i] >= ONE_SECOND
  }

  /** Sorted and spaced, grant by grant. */
  ghost predicate Orderly(g: seq<Instant>, limit: nat) {
    g != [] ==>
      var n := |g| - 1;
      && Orderly(g[..n], limit)
      && (n > 0 ==> g[n - 1] <= g[n])
      && (limit <= n ==> g[n] - g[n - limit] >= ONE_SECOND)
  }

  /** What every call keeps: `last` is the latest clock reading. */
  ghost predicate Kept(limit: nat, h: History, last: Instant) {
    && Orderly(h.granted, limit)
    && (h.granted != [] ==> h.granted[|h.granted| - 1] <= last)
    && h.stored == Retained(h.granted, last - ONE_SECOND)
    && |h.stored| <= limit
  }

  lemma {:induction false} OrderlySorted(g: seq<Instant>, limit: nat)
    requires Orderly(g, limit)
    ensures NonDecreasing(g)
  {
    if g != [] {
      var n := |g| - 1;
      OrderlySorted(g[..n], limit);
      forall i, j | 0 <= i < j < |g| ensures g[i] <= g[j] {
        if j < n { assert g[..n][i] <= g[..n][j]; } else if i < n - 1 { assert g[..n][i] <= g[..n][n - 1]; }
      }
    }
  }

  lemma {:induction false} OrderlyMeans(g: seq<Instant>, limit: nat)
    requires Orderly(g, limit)
    ensures NonDecreasing(g) && Spaced(g, limit)
  {
    OrderlySorted(g, limit);
    if g != [] {
      var n := |g| - 1;
      OrderlyMeans(g[..n], limit);
      forall i, j | 0 <= i && i + limit <= j < |g| ensures g[j] - g[i] >= ONE_SECOND {
        if j < n { assert g[..n][j] - g[..n][i] >= ONE_SECOND; } else { assert g[i] <= g[n - limit]; }
      }
    }
  }

  lemma RetainedAppend(front: seq<Instant>, last: Instant, cutoff: Instant)
    ensures Retained(front + [last], cutoff) == Retained(front, cutoff) + if last > cutoff then [last] else []
  {
    assert (front + [last])[..|front|] == front;
  }

  /** On a sorted list `Retained` drops a prefix. */
  lemma {:induction false} RetainedIsSuffix(s: seq<Instant>, cutoff: Instant) returns (k: nat)
    requires NonDecreasing(s)
    ensures k <= |s| && Retained(s, cutoff) == s[k..]
    ensures forall i :: 0 <= i < k ==> s[i] <= cutoff
    ensures forall i :: k <= i < |s| ==> s[i] > cutoff
  {
    if s == [] {
      k := 0;
    } else {
      hide Retained;
      var front, last := s[..|s| - 1], s[|s| - 1];
      assert s == front + [last];
      k := RetainedIsSuffix(front, cutoff);
      RetainedAppend(front, last, cutoff);
      assert k < |front| ==> front[k] == s[k] <= last;
      if last > cutoff {
        assert front[k..] + [last] == s[k..];
      } else {
        assert front[k..] == [];
        k := |s|;
      }
    }
  }

  /** Dropping against an early cutoff and then a later one is dropping once. */
  lemma {:induction false} RetainedTwice(s: seq<Instant>, early: Instant, late: Instant)
    requires early <= late
    ensures Retained(Retained(s, early), late) == Retained(s, late)
  {
    if s != [] {
      RetainedTwice(s[..|s| - 1], early, late);
      if s[|s| - 1] > early {
        var kept := Retained(s, early);
        assert kept[..|kept| - 1] == Retained(s[..|s| - 1], early);
      }
    }
  }

  /** What the call keeps of the stored list is the window of all grants. */
  lemma StoredIsWindow(limit: nat, h: History, last: Instant, now: Instant)
    requires Kept(limit, h, last) && last <= now
    ensures var kept := Retained(h.stored, now - ONE_SECOND);
            && kept == Retained(h.granted, now - ONE_SECOND)
            && |kept| == WindowCount(h.granted, now) <= |h.granted|
            && (|kept| < limit <= |h.granted| ==> now - h.granted[|h.granted| - limit] >= ONE_SECOND)
  {
    hide Orderly, Retained, WindowCount;
    OrderlyMeans(h.granted, limit);
    RetainedTwice(h.granted, last - ONE_SECOND, now - ONE_SECOND);
    var k := RetainedIsSuffix(h.granted, now - ONE_SECOND);
    WindowOfTail(h.granted, now, k);
  }

  lemma AppendGrant(g: seq<Instant>, limit: nat, now: Instant)
    requires Orderly(g, limit) && limit > 0
    requires g != [] ==> g[|g| - 1] <= now
    requires limit <= |g| ==> now - g[|g| - limit] >= ONE_SECOND
    ensures Orderly(g + [now], limit)
    ensures Retained(g + [now], now - ONE_SECOND) == Retained(g, now - ONE_SECOND) + [now]
  {
    assert (g + [now])[..|g|] == g;
  }

  lemma NextKeeps(limit: nat, h: History, last: Instant, now: Instant)
    requires Kept(limit, h, last) && last <= now
    ensures Kept(limit, Next(limit, h, now), now)
    ensures Admit(limit, h.stored, now).allowed <==> WindowCount(h.granted, now) < limit
  {
    hide Orderly, Retained, WindowCount;
    StoredIsWindow(limit, h, last, now);
    if |Retained(h.stored, now - ONE_SECOND)| < limit {
      AppendGrant(h.granted, limit, now);
    }
  }

  lemma {:induction false} WindowOfTail(s: seq<Instant>, end: Instant, k: nat)
    requires k <= |s|
    requires forall i :: 0 <= i < k ==> s[i] <= end - ONE_SECOND
    requires forall i :: k <= i < |s| ==> InWindow(s[i], end)
    ensures WindowCount(s, end) == |s| - k
  {
    if s != [] {
      WindowOfTail(s[..|s| - 1], end, if k == |s| then k - 1 else k);
    }
  }

  /** The window meets a sorted list in one stretch of indices. */
  lemma {:induction false} WindowIsRange(s: seq<Instant>, end: Instant) returns (a: nat, b: nat)
    requires NonDecreasing(s)
    ensures a <= b <= |s| && WindowCount(s, end) == b - a
    ensures forall i :: a <= i < b ==> InWindow(s[i], end)
    ensures forall i :: 0 <= i < a ==> s[i] <= end - ONE_SECOND
    ensures forall i :: b <= i < |s| ==> s[i] > end
  {
    if s == [] {
      a, b := 0, 0;
    } else {
      a, b := WindowIsRange(s[..|s| - 1], end);
      var t := s[|s| - 1];
      assert forall i :: 0 <= i < |s| ==> s[i] <= t;
      if t <= end - ONE_SECOND {
        a, b := |s|, |s|;
      } else if t <= end {
        b := |s|;
      }
    }
  }

  /** The window bound over every real window is exactly an index-wise spacing. */
  lemma LimitIsSpacing(s: seq<Instant>, limit: nat)
    requires NonDecreasing(s)
    ensures RespectsLimit(s, limit) <==> Spaced(s, limit)
  {
    if Spaced(s, limit) {
      forall end ensures WindowCount(s, end) <= limit {
        var a, b := WindowIsRange(s, end);
        assert a + limit < |s| ==> s[a + limit] - s[a] >= ONE_SECOND;
        assert !(a + limit < b);
      }
    }
    if RespectsLimit(s, limit) {
      forall i, j | 0 <= i && i + limit <= j < |s| ensures s[j] - s[i] >= ONE_SECOND {
        var a, b := WindowIsRange(s, s[j]);
        assert b - a <= limit;
      }
    }
  }

  /** Between calls the invariant can be read at the next clock reading or before. */
  lemma KeptBefore(limit: nat, times: seq<Instant>, now: Instant) returns (last: Instant)
    requires NonDecreasing(times) && (times != [] ==> times[|times| - 1] <= now)
    ensures last <= now && Kept(limit, Run(limit, times), last)
    decreases |times|, 1
  {
    RunKeeps(limit, times);
    last := if times == [] then now else times[|times| - 1];
  }

  /** Window bound, contents of the stored list, and refusal only when full,
      over every run. */
  lemma {:induction false} RunKeeps(limit: nat, times: seq<Instant>)
    requires NonDecreasing(times)
    ensures RespectsLimit(Run(limit, times).granted, limit)
    ensures times != [] ==> Kept(limit, Run(limit, times), times[|times| - 1])
    ensures times == [] ==> forall last :: Kept(limit, Run(limit, times), last)
    decreases |times|, 0
  {
    if times != [] {
      var n := |times| - 1;
      var last := KeptBefore(limit, times[..n], times[n]);
      NextKeeps(limit, Run(limit, times[..n]), last, times[n]);
    }
    OrderlyMeans(Run(limit, times).granted, limit);
    LimitIsSpacing(Run(limit, times).granted, limit);
  }

  /** A call is refused exactly when the one-second window ending at it already
      holds the limit. */
  lemma RefusedExactlyWhenFull(limit: nat, times: seq<Instant>, now: Instant)
    requires NonDecreasing(times + [now])
    ensures var h := Run(limit, times);
            Admit(limit, h.stored, now).allowed <==> WindowCount(h.granted, now) < limit
  {
    var all := times + [now];
    assert all[..|times|] == times;
    assert NonDecreasing(times) by {
      assert forall i :: 0 <= i < |times| ==> times[i] == all[i];
    }
    assert times != [] ==> all[|times| - 1] <= all[|times|];
    var last := KeptBefore(limit, times, now);
    NextKeeps(limit, Run(limit, times), last, now);
  }

  // ---------------------------------------------------------------- optimality

  /** The times a selection keeps. */
  function Picked(times: seq<Instant>, sel: seq<bool>): (p: seq<Instant>)
    requires |sel| == |times|
  {
    if times == [] then []
    else
      var n := |times| - 1;
      Picked(times[..n], sel[..n]) + if sel[n] then [times[n]] else []
  }

  lemma {:induction false} PickedSorted(times: seq<Instant>, sel: seq<bool>)
    requires |sel| == |times| && NonDecreasing(times)
    ensures NonDecreasing(Picked(times, sel))
    ensures times == [] ==> Picked(times, sel) == []
    ensures forall i :: 0 <= i < |Picked(times, sel)| ==> Picked(times, sel)[i] <= times[|times| - 1]
  {
    if times != [] {
      var n := |times| - 1;
      PickedSorted(times[..n], sel[..n]);
      if n > 0 {
        assert times[n - 1] <= times[n];
      }
    }
  }

  /** Index by index `early` comes no later than `late`, and is no shorter. */
  ghost predicate Earlier(early: seq<Instant>, late: seq<Instant>) {
    && |late| <= |early|
    && forall k :: 0 <= k < |late| ==> early[k] <= late[k]
  }

  /** If the limiter's grants come earlier than another selection's, they still
      do after one more request, whatever the other selection does with it. */
  lemma EarlierStep(limit: nat, h: History, last: Instant, other: seq<Instant>, now: Instant)
    requires Kept(limit, h, last) && last <= now
    requires Earlier(h.granted, other) && Spaced(other + [now], limit)
    ensures Earlier(Next(limit, h, now).granted, other)
    ensures Earlier(Next(limit, h, now).granted, other + [now])
  {
    hide Retained, Orderly, WindowCount;
    NextKeeps(limit, h, last, now);
    OrderlyMeans(h.granted, limit);
    var g := h.granted;
    if |other| == |g| {
      var a, b := WindowIsRange(g, now);
      var i := |other| - limit;
      assert 0 <= i ==> (other + [now])[i + limit] - (other + [now])[i] >= ONE_SECOND;
      assert 0 <= i < |g| ==> g[i] <= other[i] == (other + [now])[i];
      assert b == |g|;
      assert b - a < limit;
    }
  }

  /** Exchange argument: index by index the limiter's grants come no later than
      the grants of any selection that keeps to the limit. */
  lemma {:induction false} GreedyIsEarlier(limit: nat, times: seq<Instant>, sel: seq<bool>)
    requires |sel| == |times| && NonDecreasing(times)
    requires Spaced(Picked(times, sel), limit)
    ensures Earlier(Run(limit, times).granted, Picked(times, sel))
  {
    if times != [] {
      var n := |times| - 1;
      var now := times[n];
      var before := Picked(times[..n], sel[..n]);
      var other := Picked(times, sel);
      assert forall i :: 0 <= i < |before| ==> before[i] == other[i];
      GreedyIsEarlier(limit, times[..n], sel[..n]);
      var last := KeptBefore(limit, times[..n], now);
      if sel[n] {
        EarlierStep(limit, Run(limit, times[..n]), last, before, now);
      }
    }
  }

  /** Greedy admission is optimal: after every prefix of the requests the
      limiter has granted at least as many as any selection that never exceeds
      the limit in a one-second window. */
  lemma GreedyIsOptimal(limit: nat, times: seq<Instant>, sel: seq<bool>, n: nat)
    requires |sel| == |times| && NonDecreasing(times) && n <= |times|
    requires RespectsLimit(Picked(times, sel), limit)
    ensures |Picked(times[..n], sel[..n])| <= |Run(limit, times[..n]).granted|
  {
    PickedSorted(times, sel);
    LimitIsSpacing(Picked(times, sel), limit);
    PickedPrefix(times, sel, n);
    var p, q := Picked(times[..n], sel[..n]), Picked(times, sel);
    assert forall i :: 0 <= i < |p| ==> p[i] == q[i];
    GreedyIsEarlier(limit, times[..n], sel[..n]);
  }

  lemma {:induction false} PickedPrefix(times: seq<Instant>, sel: seq<bool>, n: nat)
    requires |sel| == |times| && n <= |times|
    ensures Picked(times[..n], sel[..n]) <= Picked(times, sel)
  {
    if n < |times| {
      var m := |times| - 1;
      PickedPrefix(times[..m], sel[..m], n);
      assert times[..m][..n] == times[..n] && sel[..m][..n] == sel[..n];
    } else {
      assert times[..n] == times && sel[..n] == sel;
    }
  }

  // ---------------------------------------------------------------- two limiters

  /** One worker request: the reading the first limiter takes and, if that
      refuses, the later reading of the second. */
  datatype Attempt = Attempt(rest: Instant, grpc: Instant)

  datatype Pair = Pair(rest: History, grpc: History, granted: seq<Instant>)

  function NextPair(restLimit: nat, grpcLimit: nat, p: Pair, a: Attempt): Pair {
    var rest := Next(restLimit, p.rest, a.rest);
    if |rest.granted| > |p.rest.granted| then
      p.(rest := rest, granted := p.granted + [a.rest])
    else
      var grpc := Next(grpcLimit, p.grpc, a.grpc);
      Pair(rest, grpc, if |grpc.granted| > |p.grpc.granted| then p.granted + [a.grpc] else p.granted)
  }

  function RunPair(restLimit: nat, grpcLimit: nat, attempts: seq<Attempt>): Pair {
    if attempts == [] then Pair(History([], []), History([], []), [])
    else NextPair(restLimit, grpcLimit,
                  RunPair(restLimit, grpcLimit, attempts[..|attempts| - 1]), attempts[|attempts| - 1])
  }

  /** Instants at which both limiters read the clock: what the pair would do if
      its two readings coincided. */
  function Simultaneous(times: seq<Instant>): (s: seq<Attempt>)
    ensures |s| == |times|
  {
    seq(|times|, i requires 0 <= i < |times| => Attempt(times[i], times[i]))
  }

  ghost predicate Ordered(attempts: seq<Attempt>) {
    && (forall i :: 0 <= i < |attempts| ==> attempts[i].rest <= attempts[i].grpc)
    && (forall i, j :: 0 <= i < j < |attempts| ==> attempts[i].grpc <= attempts[j].rest)
  }

  ghost predicate KeptBy(limit: nat, h: History, now: Instant) {
    exists last :: last <= now && Kept(limit, h, last)
  }

  ghost predicate PairKept(restLimit: nat, grpcLimit: nat, p: Pair, last: Instant) {
    && KeptBy(restLimit, p.rest, last)
    && KeptBy(grpcLimit, p.grpc, last)
    && CountsAdd(p.granted, p.rest.granted, p.grpc.granted)
  }

  ghost predicate CountsAdd(whole: seq<Instant>, left: seq<Instant>, right: seq<Instant>) {
    forall end :: WindowCount(whole, end) == WindowCount(left, end) + WindowCount(right, end)
  }

  lemma CountsAddAppend(whole: seq<Instant>, left: seq<Instant>, right: seq<Instant>, t: Instant)
    requires CountsAdd(whole, left, right)
    ensures CountsAdd(whole + [t], left + [t], right) && CountsAdd(whole + [t], left, right + [t])
  {
    assert (whole + [t])[..|whole|] == whole;
    assert (left + [t])[..|left|] == left;
    assert (right + [t])[..|right|] == right;
  }

  lemma KeptByLater(limit: nat, h: History, before: Instant, now: Instant)
    requires KeptBy(limit, h, before) && before <= now
    ensures KeptBy(limit, h, now)
  {
    var last :| last <= before && Kept(limit, h, last);
  }

  lemma NextKeepsBy(limit: nat, h: History, before: Instant, now: Instant)
    requires KeptBy(limit, h, before) && before <= now
    ensures KeptBy(limit, Next(limit, h, now), now)
    ensures Admit(limit, h.stored, now).allowed <==> WindowCount(h.granted, now) < limit
    ensures RespectsLimit(h.granted, limit)
  {
    var last :| last <= before && Kept(limit, h, last);
    NextKeeps(limit, h, last, now);
    assert Kept(limit, Next(limit, h, now), now);
    OrderlyMeans(h.granted, limit);
    LimitIsSpacing(h.granted, limit);
  }

  lemma NextPairKeeps(restLimit: nat, grpcLimit: nat, p: Pair, last: Instant, a: Attempt)
    requires PairKept(restLimit, grpcLimit, p, last) && last <= a.rest <= a.grpc
    ensures PairKept(restLimit, grpcLimit, NextPair(restLimit, grpcLimit, p, a), a.grpc)
  {
    hide KeptBy, CountsAdd, RespectsLimit, WindowCount, Retained;
    NextKeepsBy(restLimit, p.rest, last, a.rest);
    KeptByLater(restLimit, Next(restLimit, p.rest, a.rest), a.rest, a.grpc);
    NextKeepsBy(grpcLimit, p.grpc, last, a.grpc);
    KeptByLater(grpcLimit, p.grpc, last, a.grpc);
    CountsAddAppend(p.granted, p.rest.granted, p.grpc.granted, a.rest);
    CountsAddAppend(p.granted, p.rest.granted, p.grpc.granted, a.grpc);
  }

  lemma PairBound(restLimit: nat, grpcLimit: nat, p: Pair, last: Instant)
    requires PairKept(restLimit, grpcLimit, p, last)
    ensures RespectsLimit(p.granted, restLimit + grpcLimit)
  {
    NextKeepsBy(restLimit, p.rest, last, last);
    NextKeepsBy(grpcLimit, p.grpc, last, last);
  }

  lemma PairKeptLater(restLimit: nat, grpcLimit: nat, p: Pair, before: Instant, now: Instant)
    requires PairKept(restLimit, grpcLimit, p, before) && before <= now
    ensures PairKept(restLimit, grpcLimit, p, now)
  {
    hide KeptBy, CountsAdd;
    KeptByLater(restLimit, p.rest, before, now);
    KeptByLater(grpcLimit, p.grpc, before, now);
  }

  lemma FreshPairKept(restLimit: nat, grpcLimit: nat, now: Instant)
    ensures PairKept(restLimit, grpcLimit, RunPair(restLimit, grpcLimit, []), now)
  {
    var p := RunPair(restLimit, grpcLimit, []);
    assert Kept(restLimit, p.rest, now) && Kept(grpcLimit, p.grpc, now);
  }

  /** Grants over both limiters never exceed the sum of the two limits in any
      one-second window. */
  lemma {:induction false} RunPairBound(restLimit: nat, grpcLimit: nat, attempts: seq<Attempt>, now: Instant)
    requires Ordered(attempts)
    requires attempts != [] ==> attempts[|attempts| - 1].grpc <= now
    ensures RespectsLimit(RunPair(restLimit, grpcLimit, attempts).granted, restLimit + grpcLimit)
    ensures PairKept(restLimit, grpcLimit, RunPair(restLimit, grpcLimit, attempts), now)
  {
    hide PairKept, NextPair, RespectsLimit;
    var p := RunPair(restLimit, grpcLimit, attempts);
    if attempts == [] {
      FreshPairKept(restLimit, grpcLimit, now);
    } else {
      var n := |attempts| - 1;
      var a := attempts[n];
      RunPairBound(restLimit, grpcLimit, attempts[..n], a.rest);
      NextPairKeeps(restLimit, grpcLimit, RunPair(restLimit, grpcLimit, attempts[..n]), a.rest, a);
      PairKeptLater(restLimit, grpcLimit, p, a.grpc, now);
    }
    PairBound(restLimit, grpcLimit, p, now);
  }

  /** One simultaneous step of the pair is one step of the summed limiter. */
  lemma PairStepIsOne(restLimit: nat, grpcLimit: nat, p: Pair, last: Instant, one: History, now: Instant)
    requires PairKept(restLimit, grpcLimit, p, last) && last <= now
    requires KeptBy(restLimit + grpcLimit, one, last) && one.granted == p.granted
    ensures NextPair(restLimit, grpcLimit, p, Attempt(now, now)).granted
            == Next(restLimit + grpcLimit, one, now).granted
  {
    hide Retained, Orderly, WindowCount, KeptBy;
    NextKeepsBy(restLimit, p.rest, last, now);
    NextKeepsBy(grpcLimit, p.grpc, last, now);
    NextKeepsBy(restLimit + grpcLimit, one, last, now);
    assert WindowCount(p.rest.granted, now) <= restLimit;
    assert WindowCount(p.grpc.granted, now) <= grpcLimit;
  }

  lemma SimultaneousOrdered(times: seq<Instant>, now: Instant)
    requires NonDecreasing(times + [now])
    ensures Ordered(Simultaneous(times)) && NonDecreasing(times)
    ensures times != [] ==> Simultaneous(times)[|times| - 1].grpc <= now && times[|times| - 1] <= now
    ensures Simultaneous(times + [now]) == Simultaneous(times) + [Attempt(now, now)]
  {
    var all := times + [now];
    forall i, j | 0 <= i <= j < |times| ensures times[i] <= times[j] <= now {
      assert all[i] <= all[j] <= all[|times|];
    }
  }

  /** With one reading per request the two limiters in sequence are exactly one
      limiter of the summed rate, and so inherit its optimality. */
  lemma {:induction false} PairIsOneLimiter(restLimit: nat, grpcLimit: nat, times: seq<Instant>)
    requires NonDecreasing(times)
    ensures RunPair(restLimit, grpcLimit, Simultaneous(times)).granted
            == Run(restLimit + grpcLimit, times).granted
  {
    hide NonDecreasing, Simultaneous, Ordered, NextPair, Next, PairKept, KeptBy, Kept, RespectsLimit;
    if times == [] {
      NothingGranted(restLimit, grpcLimit);
    } else {
      var n := |times| - 1;
      var front, now := times[..n], times[n];
      assert times == front + [now];
      SimultaneousOrdered(front, now);
      var attempts := Simultaneous(front);
      PairIsOneLimiter(restLimit, grpcLimit, front);
      RunPairBound(restLimit, grpcLimit, attempts, now);
      OneLimiterKept(restLimit + grpcLimit, front, now);
      PairStepIsOne(restLimit, grpcLimit, RunPair(restLimit, grpcLimit, attempts), now,
                    Run(restLimit + grpcLimit, front), now);
      assert (attempts + [Attempt(now, now)])[..n] == attempts;
    }
  }

  lemma NothingGranted(restLimit: nat, grpcLimit: nat)
    ensures RunPair(restLimit, grpcLimit, Simultaneous([])).granted == Run(restLimit + grpcLimit, []).granted
  {
    assert Simultaneous([]) == [];
  }

  lemma OneLimiterKept(limit: nat, times: seq<Instant>, now: Instant)
    requires NonDecreasing(times) && (times != [] ==> times[|times| - 1] <= now)
    ensures KeptBy(limit, Run(limit, times), now)
  {
    hide Kept, Run;
    var last := KeptBefore(limit, times, now);
  }
}
