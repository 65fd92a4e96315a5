/** Capped exponential retry around a promotion. */
module Retry {
  import opened Options

  const UNDEFINED := "fn is not defined, nothing to retry"

  /** The error of the k-th call, from 1 on; None when it succeeds. */
  type Fn = nat -> Option<string>

  /** Whether the handler accepts the error of the k-th call. */
  type Handler = nat -> bool

  function Pow(base: real, n: nat): real {
    if n == 0 then 1.0 else base * Pow(base, n - 1)
  }

  /** Conversion to an integer number of seconds rounds toward zero. */
  function Truncate(x: real): int {
    if x >= 0.0 then x.Floor else -((-x).Floor)
  }

  function Wait(base: real, maxDelay: real, try: nat): real {
    if Pow(base, try) > maxDelay then maxDelay else Pow(base, try)
  }

  function Sleeps(base: real, maxDelay: real, n: nat): seq<int> {
    seq(n, i requires i >= 0 => Truncate(Wait(base, maxDelay, i + 1)))
  }

  predicate Settles(fn: Fn, handler: Option<Handler>, k: nat) {
    fn(k).None? || (handler.Some? && handler.value(k))
  }

  /** Stops at the first call that succeeds, or is accepted, or uses up the retries. */
  predicate StopsAt(fn: Fn, handler: Option<Handler>, retries: int, k: nat) {
    && k >= 1
    && (Settles(fn, handler, k) || k >= retries)
    && forall j: nat | 1 <= j < k :: !Settles(fn, handler, j) && j < retries
  }

  method Exponential(retries: int, base: real, maxDelay: real, fn: Option<Fn>, handler: Option<Handler>)
    returns (err: Option<string>, calls: nat, sleeps: seq<int>)
    ensures fn.None? ==> err == Some(UNDEFINED) && calls == 0 && sleeps == []
    ensures fn.Some? ==> StopsAt(fn.value, handler, retries, calls)
    ensures fn.Some? ==> err == if Settles(fn.value, handler, calls) then None else fn.value(calls)
    ensures fn.Some? ==> sleeps == Sleeps(base, maxDelay, calls - 1)
  {
    calls, sleeps := 0, [];
    if fn.None? {
      return Some(UNDEFINED), calls, sleeps;
    }
    var try := 0;
    var power := 1.0;
    while true
      invariant calls == try && power == Pow(base, try)
      invariant |sleeps| == try && forall i | 0 <= i < try :: sleeps[i] == Truncate(Wait(base, maxDelay, i + 1))
      invariant forall j: nat | 1 <= j <= try :: !Settles(fn.value, handler, j) && j < retries
      invariant try > 0 ==> try < retries
      decreases if retries > try then retries - try else 0
    {
      try := try + 1;
      power := base * power;
      var wait := if power > maxDelay then maxDelay else power;
      err := fn.value(try);
      calls := calls + 1;
      if err.None? {
        return None, calls, sleeps;
      }
      if handler.Some? && handler.value(try) {
        return None, calls, sleeps;
      }
      if try >= retries {
        break;
      }
      sleeps := sleeps + [Truncate(wait)];
    }
  }

  /** Exactly one number of calls stops the loop, and it is at most the larger of one and the retries. */
  lemma CallsAreBounded(fn: Fn, handler: Option<Handler>, retries: int, k: nat, k': nat)
    requires StopsAt(fn, handler, retries, k) && StopsAt(fn, handler, retries, k')
    ensures k == k'
    ensures k <= if retries > 1 then retries else 1
  {
    assert k > 1 ==> !Settles(fn, handler, k - 1) && k - 1 < retries;
    assert k < k' ==> !Settles(fn, handler, k) && k < retries;
    assert k' < k ==> !Settles(fn, handler, k') && k' < retries;
  }

  lemma {:induction false} PowGrows(base: real, i: nat, j: nat)
    requires base >= 1.0 && i <= j
    ensures 1.0 <= Pow(base, i) <= Pow(base, j)
    decreases j
  {
    if j > 0 {
      if i < j {
        PowGrows(base, i, j - 1);
      } else {
        PowGrows(base, i - 1, j - 1);
      }
    }
  }

  function Total(sleeps: seq<int>): int {
    if sleeps == [] then 0 else Total(sleeps[..|sleeps| - 1]) + sleeps[|sleeps| - 1]
  }

  /** With a base of at least one, the sleeps never get shorter and never exceed the cap. */
  lemma SleepsGrowUpToCap(base: real, maxDelay: real, n: nat)
    requires base >= 1.0 && maxDelay >= 0.0
    ensures forall i, j | 0 <= i <= j < n :: 0 <= Sleeps(base, maxDelay, n)[i] <= Sleeps(base, maxDelay, n)[j]
    ensures forall i | 0 <= i < n :: Sleeps(base, maxDelay, n)[i] as real <= maxDelay
  {
    forall i, j | 0 <= i <= j < n
      ensures 0 <= Sleeps(base, maxDelay, n)[i] <= Sleeps(base, maxDelay, n)[j]
    {
      PowGrows(base, i + 1, j + 1);
    }
    forall i | 0 <= i < n
      ensures Sleeps(base, maxDelay, n)[i] as real <= maxDelay
    {
      PowGrows(base, 0, i + 1);
    }
  }

  lemma AddOne(total: real, last: real, n: nat, cap: real)
    requires total <= n as real * cap && last <= cap
    ensures total + last <= (n + 1) as real * cap
  {
    assert (n + 1) as real == n as real + 1.0;
  }

  lemma {:induction false} TotalUpToCap(sleeps: seq<int>, cap: real)
    requires forall i | 0 <= i < |sleeps| :: sleeps[i] as real <= cap
    ensures Total(sleeps) as real <= |sleeps| as real * cap
  {
    if sleeps != [] {
      var n := |sleeps| - 1;
      TotalUpToCap(sleeps[..n], cap);
      AddOne(Total(sleeps[..n]) as real, sleeps[n] as real, n, cap);
    }
  }

  /** The whole retry sleeps at most the cap once between any two calls. */
  lemma TotalSleepBound(base: real, maxDelay: real, n: nat)
    requires base >= 1.0 && maxDelay >= 0.0
    ensures Total(Sleeps(base, maxDelay, n)) as real <= n as real * maxDelay
  {
    SleepsGrowUpToCap(base, maxDelay, n);
    TotalUpToCap(Sleeps(base, maxDelay, n), maxDelay);
  }

  /** The number of whole seconds on the way from the delay to zero. */
  lemma TruncatesTowardZero(x: real)
    ensures x >= 0.0 ==> Truncate(x) as real <= x < (Truncate(x) + 1) as real
    ensures x <= 0.0 ==> (Truncate(x) - 1) as real < x <= Truncate(x) as real
  {
  }

  /** The delays are the powers of the base from the first on, each cut off at the cap and truncated to seconds. */
  lemma {:induction false} SleepsArePowers(base: real, maxDelay: real, n: nat) returns (powers: seq<real>)
    ensures |powers| == n && |Sleeps(base, maxDelay, n)| == n
    ensures n > 0 ==> powers[0] == base
    ensures forall i | 0 < i < n :: powers[i] == base * powers[i - 1]
    ensures forall i | 0 <= i < n ::
      Sleeps(base, maxDelay, n)[i] == Truncate(if powers[i] <= maxDelay then powers[i] else maxDelay)
  {
    powers := seq(n, i requires i >= 0 => Pow(base, i + 1));
    assert Pow(base, 1) == base * Pow(base, 0);
  }

  /** With the default options, which retry three times, the sleeps are two and four seconds; later ones stop at 30. */
  lemma DefaultSleeps()
    ensures Sleeps(2.0, 30.0, 5) == [2, 4, 8, 16, 30]
  {
    assert Pow(2.0, 0) == 1.0 && Pow(2.0, 1) == 2.0 && Pow(2.0, 2) == 4.0;
    assert Pow(2.0, 3) == 8.0 && Pow(2.0, 4) == 16.0 && Pow(2.0, 5) == 32.0;
  }

  /** While no call settles, all retries are used; otherwise the calls end with the first one that settles in time. */
  lemma CallsUpToFirstSettled(fn: Fn, handler: Option<Handler>, retries: int, k: nat)
    requires StopsAt(fn, handler, retries, k)
    ensures var most := if retries > 1 then retries else 1;
      && (k < most ==> Settles(fn, handler, k))
      && ((forall j: nat | 1 <= j <= most :: !Settles(fn, handler, j)) ==> k == most)
      && (forall j: nat | 1 <= j <= most && Settles(fn, handler, j) :: k <= j)
  {
    CallsAreBounded(fn, handler, retries, k, k);
  }
}
