/** The per-region token refresh loop (src/jito_grpc.rs). Network replies are
    inputs; instants are nanoseconds of the system clock, which the code reads
    in whole seconds. */
module TokenRefresh {
  import opened Text

  const SECOND: nat := 1_000_000_000

  datatype Tokens = Tokens(access: string, accessExpiresAt: nat, refresh: string, refreshExpiresAt: nat)

  /** A token as the service sends it; the expiry is signed and optional. */
  datatype TokenMessage = TokenMessage(value: string, expiresAtUtc: Option<int>)

  datatype AuthReply = AuthFailed | AuthReplied(access: Option<TokenMessage>, refresh: Option<TokenMessage>)

  datatype RefreshReply = RefreshFailed | RefreshReplied(access: Option<TokenMessage>)

  function TimestampSecs(ts: Option<int>): nat {
    match ts
    case Some(t) => if t > 0 then t else 0
    case None => 0
  }

  /** A stored token is the one the message brought, with its expiry in seconds; an
      expiry that is absent or not after the epoch counts as zero. */
  ghost predicate IsToken(value: string, expiry: nat, m: TokenMessage) {
    && value == m.value
    && (m.expiresAtUtc.Some? && m.expiresAtUtc.value >= 0 ==> expiry == m.expiresAtUtc.value)
    && (m.expiresAtUtc.Some? && m.expiresAtUtc.value < 0 ==> expiry == 0)
    && (m.expiresAtUtc.None? ==> expiry == 0)
  }

  function SaturatingSub(a: nat, b: nat): nat {
    if a >= b then a - b else 0
  }

  function Authenticate(reply: AuthReply): Option<Tokens> {
    match reply
    case AuthReplied(Some(a), Some(r)) =>
      Some(Tokens(a.value, TimestampSecs(a.expiresAtUtc), r.value, TimestampSecs(r.expiresAtUtc)))
    case _ => None
  }

  function Clamp(x: nat, low: nat, high: nat): nat {
    var y := if x < low then low else x;
    if y > high then high else y
  }

  function SleepSecs(tokens: Option<Tokens>, now: nat): nat {
    match tokens
    case Some(t) => Clamp(SaturatingSub(SaturatingSub(t.accessExpiresAt, now), 60), 10, 300)
    case None => 300
  }

  /** One turn of the loop after it woke: the tokens then held, the refresh token
      it sent if any, whether a new access token was installed, and the seconds
      it backs off. */
  datatype Turn = Turn(tokens: Option<Tokens>, sent: Option<string>, installed: bool, backoff: nat)

  function FullAuth(tokens: Option<Tokens>, sent: Option<string>, auth: AuthReply): Turn {
    match Authenticate(auth)
    case Some(issued) => Turn(Some(issued), sent, true, 0)
    case None => Turn(tokens, sent, false, 30)
  }

  function NeedsFullAuth(tokens: Option<Tokens>, now: nat): bool {
    match tokens
    case Some(t) => SaturatingSub(t.refreshExpiresAt, now) < 120
    case None => true
  }

  function TakeTurn(tokens: Option<Tokens>, now: nat, refresh: RefreshReply, auth: AuthReply): Turn {
    if NeedsFullAuth(tokens, now) then FullAuth(tokens, None, auth)
    else
      var t := tokens.value;
      match refresh
      case RefreshReplied(Some(a)) =>
        Turn(Some(t.(accessExpiresAt := TimestampSecs(a.expiresAtUtc), access := a.value)),
             Some(t.refresh), true, 0)
      case RefreshReplied(None) => Turn(tokens, Some(t.refresh), false, 0)
      case RefreshFailed => FullAuth(tokens, Some(t.refresh), auth)
  }

  /** A full exchange: both tokens are those of the reply, if it brought both. */
  ghost predicate Exchanged(before: Option<Tokens>, after: Option<Tokens>, auth: AuthReply, installed: bool,
                            backoff: nat) {
    && (installed <==> auth.AuthReplied? && auth.access.Some? && auth.refresh.Some?)
    && (installed ==>
          && backoff == 0 && after.Some?
          && IsToken(after.value.access, after.value.accessExpiresAt, auth.access.value)
          && IsToken(after.value.refresh, after.value.refreshExpiresAt, auth.refresh.value))
    && (!installed ==> backoff == 30 && after == before)
  }

  /** A refresh: the access token is that of the reply, if it brought one, and the
      refresh token stays. */
  ghost predicate Refreshed(before: Tokens, after: Option<Tokens>, access: Option<TokenMessage>, installed: bool) {
    && (installed <==> access.Some?)
    && after.Some? && after.value.refresh == before.refresh
    && after.value.refreshExpiresAt == before.refreshExpiresAt
    && (installed ==> IsToken(after.value.access, after.value.accessExpiresAt, access.value))
    && (!installed ==> after.value == before)
  }

  class Region {
    var tokens: Option<Tokens>

    constructor (tokens: Option<Tokens>)
      ensures this.tokens == tokens
    {
      this.tokens := tokens;
    }

    /** The first half of a turn: how long to sleep. */
    method PlanSleep(now: nat) returns (sleepSecs: nat)
      ensures sleepSecs == SleepSecs(tokens, now)
      ensures 10 <= sleepSecs <= 300
      ensures tokens.None? ==> sleepSecs == 300
      ensures tokens.Some? ==>
                var expiry := tokens.value.accessExpiresAt;
                && (expiry <= now + 70 <==> sleepSecs == 10) && (expiry >= now + 360 <==> sleepSecs == 300)
                && (now + 70 <= expiry <= now + 360 ==> now + sleepSecs == expiry - 60)
    {
      if tokens.Some? {
        sleepSecs := SaturatingSub(tokens.value.accessExpiresAt, now);
        sleepSecs := SaturatingSub(sleepSecs, 60);
        if sleepSecs < 10 { sleepSecs := 10; }
        if sleepSecs > 300 { sleepSecs := 300; }
      } else {
        sleepSecs := 300;
      }
    }

    /** The second half, after the sleep. A refresh token with at least 120 seconds left
        is sent, and an access token that comes back replaces the one held; without it,
        or when the refresh fails, both tokens come from a full exchange, or stay and
        the loop backs off for 30 seconds. */
    method Wake(now: nat, refresh: RefreshReply, auth: AuthReply)
      returns (sent: Option<string>, installed: bool, backoff: nat)
      modifies this
      ensures Turn(tokens, sent, installed, backoff) == TakeTurn(old(tokens), now, refresh, auth)
      ensures sent == if old(tokens).Some? && old(tokens).value.refreshExpiresAt >= now + 120
                      then Some(old(tokens).value.refresh) else None
      ensures sent.None? || refresh.RefreshFailed? ==> Exchanged(old(tokens), tokens, auth, installed, backoff)
      ensures sent.Some? && refresh.RefreshReplied? ==>
                Refreshed(old(tokens).value, tokens, refresh.access, installed) && backoff == 0
    {
      sent, installed, backoff := None, false, 0;
      var reauth := match tokens
        case Some(t) => SaturatingSub(t.refreshExpiresAt, now) < 120
        case None => true;
      if reauth {
        installed, backoff := Reauthenticate(auth);
        return;
      }
      sent := Some(tokens.value.refresh);
      match refresh
      case RefreshReplied(Some(a)) =>
        tokens := Some(tokens.value.(accessExpiresAt := TimestampSecs(a.expiresAtUtc), access := a.value));
        installed := true;
      case RefreshReplied(None) =>
      case RefreshFailed =>
        installed, backoff := Reauthenticate(auth);
    }

    method Reauthenticate(auth: AuthReply) returns (installed: bool, backoff: nat)
      modifies this
      ensures forall sent :: Turn(tokens, sent, installed, backoff) == FullAuth(old(tokens), sent, auth)
      ensures Exchanged(old(tokens), tokens, auth, installed, backoff)
    {
      match Authenticate(auth)
      case Some(issued) =>
        tokens := Some(issued);
        installed, backoff := true, 0;
      case None =>
        installed, backoff := false, 30;
    }
  }

  // ---------------------------------------------------------------- runs

  /** One turn in time: when the loop read the expiry, woke, and finished the
      exchange, with the replies it got. */
  datatype Round = Round(readAt: nat, wokeAt: nat, doneAt: nat, refresh: RefreshReply, auth: AuthReply)

  function Play(tokens: Option<Tokens>, r: Round): Turn {
    TakeTurn(tokens, r.wokeAt / SECOND, r.refresh, r.auth)
  }

  function Deadline(tokens: Option<Tokens>, r: Round): nat {
    r.readAt + SleepSecs(tokens, r.readAt / SECOND) * SECOND
  }

  /** Any run of the loop, whatever the replies and however late the timers. */
  ghost predicate IsRun(tokens: Option<Tokens>, rounds: seq<Round>)
    decreases |rounds|
  {
    rounds != [] ==>
      var r, turn := rounds[0], Play(tokens, rounds[0]);
      && Deadline(tokens, r) <= r.wokeAt <= r.doneAt
      && (|rounds| > 1 ==> r.doneAt + turn.backoff * SECOND <= rounds[1].readAt)
      && IsRun(turn.tokens, rounds[1..])
  }

  /** The tokens held at instant `t`. */
  function Held(tokens: Option<Tokens>, rounds: seq<Round>, t: int): Option<Tokens>
    decreases |rounds|
  {
    if rounds == [] || t < rounds[0].doneAt then tokens
    else Held(Play(tokens, rounds[0]).tokens, rounds[1..], t)
  }

  /** Once a region holds tokens it holds tokens at every later instant. */
  lemma {:induction false} TokensNeverLost(tokens: Option<Tokens>, rounds: seq<Round>, t: int)
    requires tokens.Some?
    ensures Held(tokens, rounds, t).Some?
    decreases |rounds|
  {
    if rounds != [] && t >= rounds[0].doneAt {
      TokensNeverLost(Play(tokens, rounds[0]).tokens, rounds[1..], t);
    }
  }

  function TokensBefore(tokens: Option<Tokens>, rounds: seq<Round>, i: nat): Option<Tokens>
    requires i <= |rounds|
    decreases |rounds|
  {
    if i == 0 then tokens else TokensBefore(Play(tokens, rounds[0]).tokens, rounds[1..], i - 1)
  }

  /** The service's replies of a round brought this access token. */
  ghost predicate BringsAccess(r: Round, value: string, expiry: nat) {
    || (r.refresh.RefreshReplied? && r.refresh.access.Some? && IsToken(value, expiry, r.refresh.access.value))
    || (r.auth.AuthReplied? && r.auth.access.Some? && r.auth.refresh.Some?
        && IsToken(value, expiry, r.auth.access.value))
  }

  ghost predicate BringsRefresh(r: Round, value: string, expiry: nat) {
    r.auth.AuthReplied? && r.auth.access.Some? && r.auth.refresh.Some? && IsToken(value, expiry, r.auth.refresh.value)
  }

  /** Both tokens were held from the start or brought by a round done by now. */
  ghost predicate FromReplies(tokens: Option<Tokens>, rounds: seq<Round>, t: int, held: Tokens) {
    && (|| (tokens.Some? && held.access == tokens.value.access && held.accessExpiresAt == tokens.value.accessExpiresAt)
        || exists j :: 0 <= j < |rounds| && rounds[j].doneAt <= t
                       && BringsAccess(rounds[j], held.access, held.accessExpiresAt))
    && (|| (tokens.Some? && held.refresh == tokens.value.refresh
            && held.refreshExpiresAt == tokens.value.refreshExpiresAt)
        || exists j :: 0 <= j < |rounds| && rounds[j].doneAt <= t
                       && BringsRefresh(rounds[j], held.refresh, held.refreshExpiresAt))
  }

  lemma PlayBrings(tokens: Option<Tokens>, r: Round)
    requires Play(tokens, r).tokens.Some?
    ensures var held := Play(tokens, r).tokens.value;
            && ((tokens.Some? && held.access == tokens.value.access
                 && held.accessExpiresAt == tokens.value.accessExpiresAt)
                || BringsAccess(r, held.access, held.accessExpiresAt))
            && ((tokens.Some? && held.refresh == tokens.value.refresh
                 && held.refreshExpiresAt == tokens.value.refreshExpiresAt)
                || BringsRefresh(r, held.refresh, held.refreshExpiresAt))
  {
  }

  /** Whatever tokens a region holds at any instant, the access token is the first one
      or the access token of a reply received by then, with the expiry that came with
      it, and the refresh token likewise. */
  lemma {:induction false} HeldTokensAreReplies(tokens: Option<Tokens>, rounds: seq<Round>, t: int)
    requires Held(tokens, rounds, t).Some?
    ensures FromReplies(tokens, rounds, t, Held(tokens, rounds, t).value)
    decreases |rounds|
  {
    hide BringsAccess, BringsRefresh, Play;
    if rounds != [] && t >= rounds[0].doneAt {
      var next, rest, held := Play(tokens, rounds[0]).tokens, rounds[1..], Held(tokens, rounds, t).value;
      HeldTokensAreReplies(next, rest, t);
      if next.Some? { PlayBrings(tokens, rounds[0]); }
      if j :| 0 <= j < |rest| && rest[j].doneAt <= t && BringsAccess(rest[j], held.access, held.accessExpiresAt) {
        assert rounds[j + 1] == rest[j];
      }
      if j :| 0 <= j < |rest| && rest[j].doneAt <= t && BringsRefresh(rest[j], held.refresh, held.refreshExpiresAt) {
        assert rounds[j + 1] == rest[j];
      }
    }
  }

  /** A refresh token was brought by some full exchange of the run or was held from
      the start. */
  ghost predicate Issued(tokens: Option<Tokens>, rounds: seq<Round>, refresh: string) {
    || (tokens.Some? && tokens.value.refresh == refresh)
    || exists j :: 0 <= j < |rounds| && BringsRefreshText(rounds[j], refresh)
  }

  ghost predicate BringsRefreshText(r: Round, text: string) {
    r.auth.AuthReplied? && r.auth.access.Some? && r.auth.refresh.Some? && r.auth.refresh.value.value == text
  }

  /** In every run, round `i` sends a refresh token exactly when one with at least
      120 seconds left is held at the check, and then sends that one, which the
      service had issued. */
  lemma {:induction false} RefreshTokenUse(tokens: Option<Tokens>, rounds: seq<Round>, i: nat)
    requires i < |rounds|
    ensures var held, sent := TokensBefore(tokens, rounds, i), Play(TokensBefore(tokens, rounds, i), rounds[i]).sent;
            && (sent.Some? <==> held.Some? && rounds[i].wokeAt / SECOND + 120 <= held.value.refreshExpiresAt)
            && (sent.Some? ==> sent == Some(held.value.refresh) && Issued(tokens, rounds[..i], sent.value))
    decreases |rounds|
  {
    if i > 0 {
      var rest, next := rounds[1..], Play(tokens, rounds[0]).tokens;
      RefreshTokenUse(next, rest, i - 1);
      var sent := Play(TokensBefore(next, rest, i - 1), rest[i - 1]).sent;
      if sent.Some? && Issued(next, rest[..i - 1], sent.value) {
        var r := sent.value;
        if next.Some? && next.value.refresh == r {
          assert rounds[..i][0] == rounds[0];
          assert Issued(tokens, rounds[..i], r);
        } else {
          var j :| 0 <= j < i - 1 && BringsRefreshText(rest[..i - 1][j], r);
          assert rounds[..i][j + 1] == rest[..i - 1][j];
        }
      }
    }
  }

  // ---------------------------------------------------------------- freshness

  /** A run in which every exchange installs a token within `latency` of the planned
      wake-up, every access token, at the moment it is obtained, has at least
      `lifetime` left, and the loop reads its expiry at most `gap` later (all in
      nanoseconds). */
  ghost predicate PromptRun(tokens: Option<Tokens>, obtainedAt: nat, rounds: seq<Round>, latency: nat, gap: nat,
                            lifetime: nat)
    decreases |rounds|
  {
    rounds != [] ==>
      var r, turn := rounds[0], Play(tokens, rounds[0]);
      && tokens.Some? && obtainedAt + lifetime <= tokens.value.accessExpiresAt * SECOND
      && obtainedAt <= r.readAt <= obtainedAt + gap
      && turn.installed && r.doneAt <= Deadline(tokens, r) + latency
      && PromptRun(turn.tokens, r.doneAt, rounds[1..], latency, gap, lifetime)
  }

  ghost predicate Unexpired(tokens: Option<Tokens>, t: int) {
    tokens.Some? && t < tokens.value.accessExpiresAt * SECOND
  }

  /** From the moment the first token is obtained to the end of the last exchange. */
  ghost predicate FreshThroughout(tokens: Option<Tokens>, obtainedAt: nat, rounds: seq<Round>) {
    rounds != [] ==>
      forall t :: obtainedAt <= t < rounds[|rounds| - 1].doneAt ==> Unexpired(Held(tokens, rounds, t), t)
  }

  /** The largest latency that is safe for a given lifetime left at the reading.
      Reading the clock in whole seconds costs up to a second of the 60-second
      margin. */
  function SafeLatency(left: int): int {
    if left <= 69 * SECOND + 1 then left - 10 * SECOND
    else if left <= 359 * SECOND + 1 then 59 * SECOND + 1
    else left - 300 * SECOND
  }

  /** What is left of a token when the planned sleep ends. */
  lemma LeftAtDeadline(tokens: Option<Tokens>, r: Round, left: nat)
    requires tokens.Some? && r.readAt + left <= tokens.value.accessExpiresAt * SECOND
    ensures Deadline(tokens, r) + SafeLatency(left) <= tokens.value.accessExpiresAt * SECOND
  {
    var leftNow := tokens.value.accessExpiresAt * SECOND - r.readAt;
    var seen := tokens.value.accessExpiresAt - r.readAt / SECOND;
    assert (seen - 1) * SECOND < leftNow <= seen * SECOND;
  }

  lemma {:induction false} PromptRunIsFresh(tokens: Option<Tokens>, obtainedAt: nat, rounds: seq<Round>,
                                            latency: nat, gap: nat, lifetime: nat)
    requires IsRun(tokens, rounds) && PromptRun(tokens, obtainedAt, rounds, latency, gap, lifetime)
    requires latency <= SafeLatency(lifetime - gap)
    ensures FreshThroughout(tokens, obtainedAt, rounds)
    decreases |rounds|
  {
    if rounds != [] {
      var r, rest, next := rounds[0], rounds[1..], Play(tokens, rounds[0]).tokens;
      LeftAtDeadline(tokens, r, lifetime - gap);
      PromptRunIsFresh(next, r.doneAt, rest, latency, gap, lifetime);
      forall t | obtainedAt <= t < rounds[|rounds| - 1].doneAt ensures Unexpired(Held(tokens, rounds, t), t) {
        if t >= r.doneAt {
          assert Held(tokens, rounds, t) == Held(next, rest, t);
          assert rest[|rest| - 1] == rounds[|rounds| - 1];
        }
      }
    }
  }

  /** A remaining lifetime for which the loop cuts it finest. */
  function WorstLeft(left: nat): (w: nat)
    ensures w >= left
  {
    if left <= 69 * SECOND + 1 || left > 359 * SECOND + 1 then left else 359 * SECOND + 1
  }

  /** The one round that starts at `readAt` and takes all the latency it may. */
  function SlowRound(tokens: Option<Tokens>, readAt: nat, latency: nat, fresher: TokenMessage): Round {
    var wake := Deadline(tokens, Round(readAt, 0, 0, RefreshFailed, AuthFailed));
    Round(readAt, wake, wake + latency, RefreshFailed, AuthReplied(Some(fresher), Some(fresher)))
  }

  lemma SlowRoundRuns(tokens: Option<Tokens>, obtainedAt: nat, readAt: nat, latency: nat, gap: nat, lifetime: nat,
                      fresher: TokenMessage)
    requires tokens.Some? && obtainedAt + lifetime <= tokens.value.accessExpiresAt * SECOND
    requires obtainedAt <= readAt <= obtainedAt + gap
    ensures var r := SlowRound(tokens, readAt, latency, fresher);
            && IsRun(tokens, [r]) && PromptRun(tokens, obtainedAt, [r], latency, gap, lifetime)
            && (forall t :: t < r.doneAt ==> Held(tokens, [r], t) == tokens)
  {
    var r := SlowRound(tokens, readAt, latency, fresher);
    assert [r][1..] == [];
  }

  /** Runs that are too slow by a nanosecond or more, from any epoch second on and
      with any tokens. */
  lemma SlowRunExpires(latency: nat, gap: nat, lifetime: nat, epoch: nat, held: string, refresh: string,
                       fresher: TokenMessage)
    returns (tokens: Option<Tokens>, obtainedAt: nat, rounds: seq<Round>)
    requires latency > SafeLatency(lifetime - gap)
    ensures obtainedAt >= epoch * SECOND
    ensures tokens.Some? && tokens.value.access == held && tokens.value.refresh == refresh
    ensures IsRun(tokens, rounds) && PromptRun(tokens, obtainedAt, rounds, latency, gap, lifetime)
    ensures !FreshThroughout(tokens, obtainedAt, rounds)
  {
    var start := epoch + gap / SECOND + lifetime / SECOND + 2;
    var expiry, readAt, r;
    if lifetime >= gap {
      var left := WorstLeft(lifetime - gap);
      expiry := start + left / SECOND + 1;
      readAt := expiry * SECOND - left;
      obtainedAt := readAt - gap;
      tokens := Some(Tokens(held, expiry, refresh, 0));
      SlowRoundRuns(tokens, obtainedAt, readAt, latency, gap, lifetime, fresher);
      r := SlowRound(tokens, readAt, latency, fresher);
      assert readAt / SECOND == start || (readAt == (start + 1) * SECOND && readAt / SECOND == start + 1);
      assert r.doneAt > expiry * SECOND;
    } else {
      expiry := start;
      obtainedAt := expiry * SECOND - lifetime;
      readAt := obtainedAt + gap;
      tokens := Some(Tokens(held, expiry, refresh, 0));
      SlowRoundRuns(tokens, obtainedAt, readAt, latency, gap, lifetime, fresher);
      r := SlowRound(tokens, readAt, latency, fresher);
      assert r.doneAt > readAt > expiry * SECOND;
    }
    rounds := [r];
    var t := r.doneAt - 1;
    assert Held(tokens, rounds, t) == tokens;
    assert obtainedAt <= t && !Unexpired(tokens, t);
  }

  /** Freshness over whole runs, exactly: every prompt run keeps an unexpired
      access token at every instant if and only if the latency bound is at most
      `SafeLatency` of what may be left when the loop reads the expiry. */
  lemma FreshnessExactly(latency: nat, gap: nat, lifetime: nat)
    ensures (forall tokens, obtainedAt, rounds ::
               IsRun(tokens, rounds) && PromptRun(tokens, obtainedAt, rounds, latency, gap, lifetime)
               ==> FreshThroughout(tokens, obtainedAt, rounds))
            <==> latency <= SafeLatency(lifetime - gap)
  {
    if latency <= SafeLatency(lifetime - gap) {
      forall tokens, obtainedAt, rounds
        | IsRun(tokens, rounds) && PromptRun(tokens, obtainedAt, rounds, latency, gap, lifetime)
        ensures FreshThroughout(tokens, obtainedAt, rounds)
      {
        PromptRunIsFresh(tokens, obtainedAt, rounds, latency, gap, lifetime);
      }
    } else {
      var tokens, obtainedAt, rounds :=
        SlowRunExpires(latency, gap, lifetime, 0, "", "", TokenMessage("", None));
    }
  }

  /** The margins the code reads as: 59 seconds against 69 seconds of lifetime is
      safe, 60 seconds against 70 is not, because of the sub-second truncation. */
  lemma MarginsInSeconds()
    ensures 59_000_000_000 <= SafeLatency(69_000_000_000)
    ensures !(60_000_000_000 <= SafeLatency(70_000_000_000))
  {
  }

  /** The loop never wakes more often than every ten seconds, and not for forty seconds
      after a full exchange failed; between exchanges it sleeps at most five minutes. */
  lemma {:induction false} ExchangesAreSpaced(tokens: Option<Tokens>, rounds: seq<Round>, i: nat)
    requires IsRun(tokens, rounds) && i + 1 < |rounds|
    ensures rounds[i].wokeAt + 10_000_000_000 <= rounds[i + 1].wokeAt
    ensures Play(TokensBefore(tokens, rounds, i), rounds[i]).backoff > 0 ==>
              rounds[i].doneAt + 40_000_000_000 <= rounds[i + 1].wokeAt
    ensures Deadline(TokensBefore(tokens, rounds, i + 1), rounds[i + 1]) <= rounds[i + 1].readAt + 300_000_000_000
    decreases |rounds|
  {
    var next := Play(tokens, rounds[0]).tokens;
    if i > 0 {
      ExchangesAreSpaced(next, rounds[1..], i - 1);
    } else {
      assert IsRun(next, rounds[1..]);
      assert rounds[1..][0] == rounds[1];
      assert TokensBefore(tokens, rounds, 1) == TokensBefore(next, rounds[1..], 0) == next;
    }
  }
}
