/** The retry policy of the API client (internal/hcloud/client.go and errors.go): which
    failures are repeated, and how long the client waits before each repetition. Durations are
    64-bit nanosecond counts, as in Go's time.Duration. */
module Retry {
  import opened Text

  const TWO_63: int := 0x8000_0000_0000_0000
  const TWO_62: int := 0x4000_0000_0000_0000
  const SECOND: int := 1_000_000_000

  /** The value a 64-bit two's complement word holds after an operation with result x. */
  function Wrap64(x: int): int {
    (x + TWO_63) % (2 * TWO_63) - TWO_63
  }

  lemma WrapsOnce(x: int)
    ensures -TWO_63 <= x < TWO_63 ==> Wrap64(x) == x
    ensures TWO_63 <= x < 3 * TWO_63 ==> Wrap64(x) == x - 2 * TWO_63
  {
  }

  function Min(a: int, b: int): int {
    if a < b then a else b
  }

  // ---- errors -----------------------------------------------------------------------------

  /** Unsent: token read or request building failed. Undecodable: a 2xx body that does not
      decode. Cancelled: the context ended during a sleep. Api: an APIError; status 0 is a
      transport error. */
  datatype Error = Unsent | Undecodable | Cancelled | Api(status: int, retryAfter: int)

  datatype Sentinel = InvalidToken | Forbidden | NotFound | Conflict | InvalidZoneName | RateLimited | ServerError

  /** errors.Is against the typed sentinels. */
  predicate Is(e: Error, target: Sentinel) {
    e.Api? &&
    match target
    case InvalidToken => e.status == 401
    case Forbidden => e.status == 403
    case NotFound => e.status == 404
    case Conflict => e.status == 409
    case InvalidZoneName => e.status == 422
    case RateLimited => e.status == 429
    case ServerError => 500 <= e.status < 600
  }

  predicate IsRetryable(e: Error) {
    e.Api? && (e.status == 0 || e.status == 429 || 500 <= e.status < 600)
  }

  /** The sentinels by status, as errors.go lists them: no status has two of them. */
  lemma SentinelsByStatus(status: int, retryAfter: int)
    ensures var e := Api(status, retryAfter);
            && (Is(e, InvalidToken) <==> status in {401}) && (Is(e, Forbidden) <==> status in {403})
            && (Is(e, NotFound) <==> status in {404}) && (Is(e, Conflict) <==> status in {409})
            && (Is(e, InvalidZoneName) <==> status in {422}) && (Is(e, RateLimited) <==> status in {429})
            && (Is(e, ServerError) <==> status / 100 == 5)
    ensures forall a, b :: Is(Api(status, retryAfter), a) && Is(Api(status, retryAfter), b) ==> a == b
  {
  }

  // ---- parameters -------------------------------------------------------------------------

  datatype Params = Params(maxRetries: nat, initial: int, max: int)

  const DEFAULTS := Params(6, SECOND / 2, 30 * SECOND)

  type Int64 = x: int | -TWO_63 <= x < TWO_63

  datatype Setting = WithMaxRetries(n: Int64) | WithBackoff(initial: Int64, max: Int64)

  function Configure(p: Params, s: Setting): Params {
    match s
    case WithMaxRetries(n) => if n >= 0 then p.(maxRetries := n) else p
    case WithBackoff(i, m) =>
      var q := if i > 0 then p.(initial := i) else p;
      if m > 0 then q.(max := m) else q
  }

  function New(settings: seq<Setting>): Params {
    if settings == [] then DEFAULTS
    else Configure(New(settings[..|settings| - 1]), settings[|settings| - 1])
  }

  predicate InRange(p: Params) {
    0 < p.initial < TWO_63 && 0 < p.max < TWO_63 && p.maxRetries < TWO_63
  }

  /** Whatever options are given, the durations stay positive and the retry count non-negative. */
  lemma {:induction false} NewInRange(settings: seq<Setting>)
    ensures InRange(New(settings))
  {
    if settings != [] {
      NewInRange(settings[..|settings| - 1]);
    }
  }

  /** Setting k is the last one to set a non-negative retry count. */
  ghost predicate LastCount(settings: seq<Setting>, k: nat) {
    k < |settings| && settings[k].WithMaxRetries? && settings[k].n >= 0 &&
    forall m :: k < m < |settings| && settings[m].WithMaxRetries? ==> settings[m].n < 0
  }

  ghost predicate LastInitial(settings: seq<Setting>, k: nat) {
    k < |settings| && settings[k].WithBackoff? && settings[k].initial > 0 &&
    forall m :: k < m < |settings| && settings[m].WithBackoff? ==> settings[m].initial <= 0
  }

  ghost predicate LastMax(settings: seq<Setting>, k: nat) {
    k < |settings| && settings[k].WithBackoff? && settings[k].max > 0 &&
    forall m :: k < m < |settings| && settings[m].WithBackoff? ==> settings[m].max <= 0
  }

  /** Of each parameter the last option with an admissible value decides. */
  lemma {:induction false} LastOptionWins(settings: seq<Setting>, k: nat)
    ensures LastCount(settings, k) ==> New(settings).maxRetries == settings[k].n
    ensures LastInitial(settings, k) ==> New(settings).initial == settings[k].initial
    ensures LastMax(settings, k) ==> New(settings).max == settings[k].max
  {
    if k < |settings| - 1 {
      var n := |settings| - 1;
      LastOptionWins(settings[..n], k);
      assert settings[..n][k] == settings[k];
    }
  }

  /** Where no option has an admissible value, the default stays. */
  lemma {:induction false} NoOptionKeepsDefault(settings: seq<Setting>)
    ensures (forall m :: 0 <= m < |settings| && settings[m].WithMaxRetries? ==> settings[m].n < 0) ==>
              New(settings).maxRetries == 6
    ensures (forall m :: 0 <= m < |settings| && settings[m].WithBackoff? ==> settings[m].initial <= 0) ==>
              New(settings).initial == 500_000_000
    ensures (forall m :: 0 <= m < |settings| && settings[m].WithBackoff? ==> settings[m].max <= 0) ==>
              New(settings).max == 30_000_000_000
  {
    if settings != [] {
      NoOptionKeepsDefault(settings[..|settings| - 1]);
    }
  }

  // ---- exponential backoff ----------------------------------------------------------------

  /** The loop of backoffDelay: its value after a number of doublings, and whether it has
      already returned the ceiling. */
  datatype Doubling = Doubling(d: int, capped: bool)

  function Doubled(p: Params, doublings: nat): Doubling {
    if doublings == 0 then Doubling(p.initial, false)
    else
      var before := Doubled(p, doublings - 1);
      var d := Wrap64(before.d * 2);
      if before.capped then before
      else if d >= p.max then Doubling(p.max, true)
      else Doubling(d, false)
  }

  function Exponential(p: Params, attempt: nat): int
    requires attempt >= 1
  {
    Doubled(p, attempt - 1).d
  }

  /** initial * 2^k over the unbounded integers. */
  function Scaled(initial: int, k: nat): int {
    if k == 0 then initial else 2 * Scaled(initial, k - 1)
  }

  function Pow2(k: nat): int {
    if k == 0 then 1 else 2 * Pow2(k - 1)
  }

  lemma {:induction false} ScaledIsPower(initial: int, k: nat)
    ensures Scaled(initial, k) == initial * Pow2(k)
  {
    if k > 0 {
      ScaledIsPower(initial, k - 1);
    }
  }

  lemma {:induction false} ScaledGrows(initial: int, i: nat, k: nat)
    requires 0 < initial && i <= k
    ensures 0 < Scaled(initial, i) <= Scaled(initial, k)
  {
    if i < k {
      ScaledGrows(initial, i, k - 1);
    } else if k > 0 {
      ScaledGrows(initial, i - 1, k - 1);
    }
  }

  /** min(initial * 2^(attempt-1), max), except that the first delay is never capped. */
  function ClosedForm(p: Params, attempt: nat): int
    requires attempt >= 1
  {
    if attempt == 1 then p.initial else Min(Scaled(p.initial, attempt - 1), p.max)
  }

  /** Every value the loop doubles is below 2^62. */
  ghost predicate NeverWraps(p: Params) {
    forall k: nat :: (k == 0 || Scaled(p.initial, k) < p.max) ==> Scaled(p.initial, k) < TWO_62
  }

  lemma {:induction false} DoubledClosed(p: Params, n: nat)
    requires InRange(p)
    requires forall k: nat :: k < n && (k == 0 || Scaled(p.initial, k) < p.max) ==> Scaled(p.initial, k) < TWO_62
    ensures Doubled(p, n) == if n == 0 || Scaled(p.initial, n) < p.max then Doubling(Scaled(p.initial, n), false)
                             else Doubling(p.max, true)
  {
    if n > 0 {
      DoubledClosed(p, n - 1);
      ScaledGrows(p.initial, n - 1, n);
      WrapsOnce(2 * Scaled(p.initial, n - 1));
    }
  }

  /** The loop computes the closed form for every attempt exactly when no doubling wraps. */
  lemma BackoffExactly(p: Params)
    requires InRange(p)
    ensures (forall attempt: nat | attempt >= 1 :: Exponential(p, attempt) == ClosedForm(p, attempt)) <==> NeverWraps(p)
  {
    if NeverWraps(p) {
      forall attempt: nat | attempt >= 1 ensures Exponential(p, attempt) == ClosedForm(p, attempt) {
        DoubledClosed(p, attempt - 1);
      }
    } else {
      var k: nat :| (k == 0 || Scaled(p.initial, k) < p.max) && Scaled(p.initial, k) >= TWO_62;
      forall i: nat | i < k ensures Scaled(p.initial, i) < TWO_62 {
        ScaledGrows(p.initial, i, k - 1);
      }
      DoubledClosed(p, k);
      WrapsOnce(2 * Scaled(p.initial, k));
      ScaledGrows(p.initial, k + 1, k + 1);
      assert Exponential(p, k + 2) < 0 < ClosedForm(p, k + 2);
    }
  }

  lemma SmallCeilingNeverWraps(p: Params)
    requires InRange(p) && p.initial <= p.max && 2 * p.max < TWO_63
    ensures NeverWraps(p)
  {
  }

  /** With 0 < initial <= max and no wrap, the delay is min(initial * 2^(attempt-1), max). */
  lemma BackoffClosedForm(p: Params, attempt: nat)
    requires InRange(p) && p.initial <= p.max && NeverWraps(p) && attempt >= 1
    ensures Exponential(p, attempt) == Min(p.initial * Pow2(attempt - 1), p.max)
    ensures 1 <= Exponential(p, attempt) <= p.max
    ensures Exponential(p, attempt) <= Exponential(p, attempt + 1)
  {
    BackoffExactly(p);
    ScaledIsPower(p.initial, attempt - 1);
    ScaledGrows(p.initial, attempt - 1, attempt);
    assert Exponential(p, attempt) == ClosedForm(p, attempt);
    assert Exponential(p, attempt + 1) == ClosedForm(p, attempt + 1);
  }

  /** If initial exceeds max, the first delay is the uncapped initial. */
  lemma FirstDelayUncapped(p: Params)
    requires InRange(p) && p.max < p.initial < TWO_62
    ensures Exponential(p, 1) == p.initial > p.max
    ensures forall attempt: nat :: attempt >= 2 ==> Exponential(p, attempt) == p.max
  {
    forall attempt: nat | attempt >= 2 ensures Exponential(p, attempt) == p.max {
      forall k: nat | k > 0 ensures Scaled(p.initial, k) >= p.max {
        ScaledGrows(p.initial, 0, k);
      }
      DoubledClosed(p, attempt - 1);
    }
  }

  /** The delay before a repetition: a positive Retry-After capped at max, else exponential. */
  function Delay(p: Params, attempt: nat, last: Error): int
    requires attempt >= 1
  {
    if last.Api? && last.retryAfter > 0 then Min(last.retryAfter, p.max) else Exponential(p, attempt)
  }

  method BackoffDelay(p: Params, attempt: nat, lastErr: Error) returns (delay: int)
    requires attempt >= 1
    ensures delay == Delay(p, attempt, lastErr)
    ensures InRange(p) && NeverWraps(p) && !(lastErr.Api? && lastErr.retryAfter > 0) ==> delay == ClosedForm(p, attempt)
  {
    if InRangeAndNeverWraps(p) {
      BackoffExactly(p);
    }
    if lastErr.Api? && lastErr.retryAfter > 0 {
      if lastErr.retryAfter > p.max {
        return p.max;
      }
      return lastErr.retryAfter;
    }
    var d := p.initial;
    for i := 1 to attempt
      invariant Doubled(p, i - 1) == Doubling(d, false)
    {
      d := Wrap64(d * 2);
      if d >= p.max {
        StaysCapped(p, i, attempt - 1);
        return p.max;
      }
    }
    return d;
  }

  ghost predicate InRangeAndNeverWraps(p: Params) {
    InRange(p) && NeverWraps(p)
  }

  lemma {:induction false} StaysCapped(p: Params, i: nat, n: nat)
    requires i <= n && Doubled(p, i).capped
    ensures Doubled(p, n) == Doubled(p, i)
  {
    if i < n {
      StaysCapped(p, i, n - 1);
    }
  }

  // ---- Retry-After ------------------------------------------------------------------------

  predicate AllDigits(s: string) {
    forall i :: 0 <= i < |s| ==> '0' <= s[i] <= '9'
  }

  function DigitsValue(s: string): nat
    requires AllDigits(s)
  {
    if s == "" then 0 else 10 * DigitsValue(s[..|s| - 1]) + (s[|s| - 1] as int - '0' as int)
  }

  /** strconv.Atoi: an optional sign, then digits; None on a syntax or range error. */
  function Atoi(s: string): Option<int> {
    var signed := s != "" && (s[0] == '-' || s[0] == '+');
    var digits := if signed then s[1..] else s;
    if digits == "" || !AllDigits(digits) then None
    else
      var v := if signed && s[0] == '-' then -(DigitsValue(digits) as int) else DigitsValue(digits);
      if -TWO_63 <= v < TWO_63 then Some(v) else None
  }

  /** time.Time.Sub saturates at the limits of a Duration. */
  function Saturate64(x: int): int {
    if x < -TWO_63 then -TWO_63 else if x >= TWO_63 then TWO_63 - 1 else x
  }

  /** http.ParseTime, as an instant in nanoseconds. */
  type Dates = string -> Option<int>

  function ParseRetryAfter(raw: string, now: int, dates: Dates): int {
    var header := TrimSpace(raw);
    if header == "" then 0
    else
      match Atoi(header)
      case Some(secs) => if secs < 0 then 0 else Wrap64(secs * SECOND)
      case None =>
        match dates(header)
        case Some(t) => if Saturate64(t - now) < 0 then 0 else Saturate64(t - now)
        case None => 0
  }

  /** Whatever the header, including products that wrap, the delay lies between 1 and max. */
  lemma RetryAfterBounded(p: Params, attempt: nat, raw: string, now: int, dates: Dates, status: int)
    requires InRange(p) && p.initial <= p.max && NeverWraps(p) && attempt >= 1
    ensures 1 <= Delay(p, attempt, Api(status, ParseRetryAfter(raw, now, dates))) <= p.max
  {
    BackoffClosedForm(p, attempt);
  }

  function Decimal(n: nat): (s: string)
    ensures s != "" && AllDigits(s)
  {
    var last := [(n % 10 + 48) as char];
    if n < 10 then last else Decimal(n / 10) + last
  }

  lemma {:induction false} DecimalValue(n: nat)
    ensures DigitsValue(Decimal(n)) == n
  {
    if n >= 10 {
      DecimalValue(n / 10);
      assert Decimal(n)[..|Decimal(n)| - 1] == Decimal(n / 10);
    } else {
      assert Decimal(n)[..0] == "";
    }
  }

  /** A header that reads as n seconds, when n seconds fit in a Duration, waits exactly
      min(n s, max); zero and less fall back to the exponential delay. */
  lemma RetryAfterSeconds(p: Params, attempt: nat, raw: string, n: int, now: int, dates: Dates, status: int)
    requires attempt >= 1 && Atoi(TrimSpace(raw)) == Some(n) && n * SECOND < TWO_63
    ensures Delay(p, attempt, Api(status, ParseRetryAfter(raw, now, dates))) ==
            if n > 0 then Min(n * SECOND, p.max) else Exponential(p, attempt)
  {
    hide TrimSpace;
    assert TrimSpace(raw) != "";
    WrapsOnce(n * SECOND);
  }

  /** The decimal digits of n read as n. */
  lemma DecimalReads(n: nat)
    requires n < TWO_63
    ensures Atoi(TrimSpace(Decimal(n))) == Some(n)
  {
    hide TrimSpace;
    TrimKeeps(Decimal(n));
    DecimalValue(n);
  }

  /** A date in the future waits until then, or for max, even where the difference does not fit
      in a Duration. */
  lemma RetryAfterDate(p: Params, attempt: nat, raw: string, t: int, now: int, dates: Dates, status: int)
    requires InRange(p) && attempt >= 1 && Atoi(TrimSpace(raw)).None?
    requires TrimSpace(raw) != "" && dates(TrimSpace(raw)) == Some(t) && now < t
    ensures Delay(p, attempt, Api(status, ParseRetryAfter(raw, now, dates))) == Min(t - now, p.max)
  {
    hide TrimSpace, Atoi;
  }

  lemma SignedReads(digits: string)
    requires digits != "" && AllDigits(digits) && DigitsValue(digits) < TWO_63
    ensures Atoi(digits) == Some(DigitsValue(digits)) && Atoi("+" + digits) == Some(DigitsValue(digits))
    ensures Atoi("-" + digits) == Some(-(DigitsValue(digits) as int))
  {
    hide DigitsValue;
    assert '0' <= digits[0] <= '9';
    assert ("+" + digits)[1..] == digits && ("-" + digits)[1..] == digits;
  }

  /** Signs and leading zeros: what strconv.Atoi reads. */
  lemma AtoiReads(digits: string, zeros: nat)
    requires digits != "" && AllDigits(digits) && DigitsValue(digits) < TWO_63
    ensures var padded := seq(zeros, i => '0') + digits;
            && Atoi(padded) == Some(DigitsValue(digits)) && Atoi("+" + padded) == Some(DigitsValue(digits))
            && Atoi("-" + padded) == Some(-(DigitsValue(digits) as int))
  {
    hide Atoi;
    var padded := seq(zeros, i => '0') + digits;
    ZerosDoNotCount(digits, zeros);
    hide DigitsValue, AllDigits;
    SignedReads(padded);
  }

  lemma {:induction false} ZerosDoNotCount(digits: string, zeros: nat)
    requires AllDigits(digits)
    ensures AllDigits(seq(zeros, i => '0') + digits)
    ensures DigitsValue(seq(zeros, i => '0') + digits) == DigitsValue(digits)
    decreases zeros + |digits|
  {
    var padded := seq(zeros, i => '0') + digits;
    if digits != "" {
      assert padded[..|padded| - 1] == seq(zeros, i => '0') + digits[..|digits| - 1];
      ZerosDoNotCount(digits[..|digits| - 1], zeros);
    } else if zeros > 0 {
      assert padded[..zeros - 1] == seq(zeros - 1, i => '0') + digits;
      ZerosDoNotCount(digits, zeros - 1);
    }
  }

  /** Anything but digits, after an optional sign, is not a number. */
  lemma AtoiRejects(s: string, k: nat)
    requires k < |s| && !('0' <= s[k] <= '9') && (k == 0 ==> s[0] != '+' && s[0] != '-')
    ensures Atoi(s) == None
  {
    if k > 0 {
      assert s[1..][k - 1] == s[k];
    }
  }

  /** A header that is neither a number nor a date, or a date in the past, falls back too. */
  lemma RetryAfterGarbage(p: Params, attempt: nat, raw: string, now: int, dates: Dates, status: int)
    requires attempt >= 1 && Atoi(TrimSpace(raw)).None?
    requires dates(TrimSpace(raw)).None? || dates(TrimSpace(raw)).value <= now
    ensures Delay(p, attempt, Api(status, ParseRetryAfter(raw, now, dates))) == Exponential(p, attempt)
  {
    hide TrimSpace;
  }

  // ---- how long a failing call waits ------------------------------------------------------

  /** A sleep takes no time unless the delay is positive. */
  function Slept(delay: int): nat {
    if delay > 0 then delay else 0
  }

  /** What n sleeps of one request can take: max each, but the first one may be an uncapped
      initial. */
  function WaitBound(p: Params, n: nat): nat {
    if n == 0 then 0
    else if n == 1 then (if p.initial > p.max then Slept(p.initial) else Slept(p.max))
    else WaitBound(p, n - 1) + Slept(p.max)
  }

  /** A sleep before attempt n adds at most what the bound allows, whatever the parameters: even
      a product that wraps stays below the ceiling. */
  lemma DelayWithin(p: Params, n: nat, last: Error)
    requires n >= 1
    ensures WaitBound(p, n - 1) + Slept(Delay(p, n, last)) <= WaitBound(p, n)
  {
    hide Doubled;
    DoubledAtMost(p, n - 1);
  }

  lemma {:induction false} DoubledAtMost(p: Params, n: nat)
    ensures n == 0 ==> Doubled(p, n) == Doubling(p.initial, false)
    ensures n > 0 ==> Doubled(p, n).d <= p.max
  {
    if n > 0 {
      DoubledAtMost(p, n - 1);
    }
  }

  /** With initial <= max the bound is max for every sleep. */
  lemma {:induction false} WaitBoundIsMax(p: Params, n: nat)
    requires InRange(p) && p.initial <= p.max
    ensures WaitBound(p, n) == n * p.max
  {
    if n > 0 {
      WaitBoundIsMax(p, n - 1);
    }
  }

  /** The sum of the first n exponential delays. */
  function TotalWait(p: Params, n: nat): nat {
    if n == 0 then 0 else TotalWait(p, n - 1) + Slept(Exponential(p, n))
  }

  /** At the defaults a call that fails only with 5xx waits 31.5 s. */
  lemma DefaultTotalWait()
    ensures TotalWait(DEFAULTS, DEFAULTS.maxRetries) == 31 * SECOND + SECOND / 2
  {
    SmallCeilingNeverWraps(DEFAULTS);
    BackoffExactly(DEFAULTS);
    assert forall n: nat | 1 <= n <= 6 :: Exponential(DEFAULTS, n) == ClosedForm(DEFAULTS, n);
    var s := SECOND / 2;
    assert Scaled(s, 1) == 2 * s;
    assert Scaled(s, 2) == 4 * s;
    assert Scaled(s, 3) == 8 * s;
    assert Scaled(s, 4) == 16 * s;
    assert Scaled(s, 5) == 32 * s;
    assert TotalWait(DEFAULTS, 1) == s;
    assert TotalWait(DEFAULTS, 2) == 3 * s;
    assert TotalWait(DEFAULTS, 3) == 7 * s;
    assert TotalWait(DEFAULTS, 4) == 15 * s;
    assert TotalWait(DEFAULTS, 5) == 31 * s;
    assert TotalWait(DEFAULTS, 6) == 63 * s;
  }
}
