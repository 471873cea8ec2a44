/** How long each durable queue waits before it tries again. */
module Backoff {

  const LONGEST := 3600

  function Min(a: nat, b: nat): nat { if a < b then a else b }

  function Max(a: nat, b: nat): nat { if a < b then b else a }

  function PowerOfTwo(n: nat): (r: nat)
    ensures r >= 1
  {
    if n == 0 then 1 else 2 * PowerOfTwo(n - 1)
  }

  /** `floor` seconds, doubled for every attempt up to `cap` of them and never more than an hour. */
  function Doubling(floor: nat, attempts: nat, cap: nat): nat {
    Min(LONGEST, floor * PowerOfTwo(Min(attempts, cap)))
  }

  /** A retirement, or a cleanup of the Gateway's: what the service asked for, even 0 seconds,
      before the doubling. */
  function RetirementDelay(asked: bool, retryAfter: nat, attempts: nat): nat {
    Max(1, if asked then retryAfter else Doubling(1, attempts + 1, 12))
  }

  /** A deferred revocation of the broker's; 0 seconds count as not asked. */
  function RevocationDelay(retryAfter: nat, attempts: nat): nat {
    Max(5, if retryAfter > 0 then retryAfter else Doubling(5, attempts, 10))
  }

  /** The recovery of an orphan: the longer of the two, and slower when the service limits rates. */
  function RecoveryDelay(retryAfter: nat, rateLimited: bool, attempts: nat): nat {
    Max(retryAfter, Doubling(if rateLimited then 60 else 5, attempts, 10))
  }

  lemma {:induction false} PowersGrow(m: nat, n: nat)
    requires m <= n
    ensures PowerOfTwo(m) <= PowerOfTwo(n)
    decreases n
  {
    if m < n {
      PowersGrow(m, n - 1);
    }
  }

  /** A cap that the hour hides: every further attempt doubles the delay, up to an hour. */
  lemma DoublingDoubles(floor: nat, attempts: nat, cap: nat)
    requires floor * PowerOfTwo(cap) >= LONGEST
    ensures Doubling(floor, attempts + 1, cap) == Min(LONGEST, 2 * Doubling(floor, attempts, cap))
  {
    if attempts < cap {
      assert Min(attempts, cap) == attempts && Min(attempts + 1, cap) == attempts + 1;
      Twice(floor, PowerOfTwo(attempts));
      CappedTwice(floor * PowerOfTwo(attempts));
    } else {
      assert Min(attempts, cap) == cap && Min(attempts + 1, cap) == cap;
    }
  }

  lemma Twice(a: nat, b: nat)
    ensures a * (2 * b) == 2 * (a * b)
  {
  }

  lemma CappedTwice(x: nat)
    ensures Min(LONGEST, 2 * x) == Min(LONGEST, 2 * Min(LONGEST, x))
  {
  }

  lemma Caps()
    ensures PowerOfTwo(0) == 1 && PowerOfTwo(1) == 2 && PowerOfTwo(10) == 1024 && PowerOfTwo(12) == 4096
  {
    assert PowerOfTwo(5) == 32;
  }

  lemma RetirementDoubles(attempts: nat)
    ensures RetirementDelay(false, 0, 0) == 2
    ensures var d := RetirementDelay(false, 0, attempts); RetirementDelay(false, 0, attempts + 1) == if 2 * d < 3600 then 2 * d else 3600
  {
    Caps();
    DoublingDoubles(1, attempts + 1, 12);
    PowersGrow(0, Min(attempts + 1, 12));
  }

  lemma RevocationDoubles(attempts: nat)
    ensures RevocationDelay(0, 0) == 5
    ensures var d := RevocationDelay(0, attempts); RevocationDelay(0, attempts + 1) == if 2 * d < 3600 then 2 * d else 3600
  {
    Caps();
    DoublingDoubles(5, attempts, 10);
    PowersGrow(0, Min(attempts, 10));
  }

  lemma RecoveryDoubles(attempts: nat, rateLimited: bool)
    ensures RecoveryDelay(0, rateLimited, 0) == if rateLimited then 60 else 5
    ensures var d := RecoveryDelay(0, rateLimited, attempts);
            RecoveryDelay(0, rateLimited, attempts + 1) == if 2 * d < 3600 then 2 * d else 3600
  {
    Caps();
    DoublingDoubles(if rateLimited then 60 else 5, attempts, 10);
  }

  /** Left to itself every queue doubles its delay with each failure until it reaches an hour, from
      two, five, five and sixty seconds on. */
  lemma DelaysDoubleToAnHour(attempts: nat, rateLimited: bool)
    ensures RetirementDelay(false, 0, 0) == 2 && RevocationDelay(0, 0) == 5
    ensures RecoveryDelay(0, rateLimited, 0) == if rateLimited then 60 else 5
    ensures var d := RetirementDelay(false, 0, attempts); RetirementDelay(false, 0, attempts + 1) == if 2 * d < 3600 then 2 * d else 3600
    ensures var d := RevocationDelay(0, attempts); RevocationDelay(0, attempts + 1) == if 2 * d < 3600 then 2 * d else 3600
    ensures var d := RecoveryDelay(0, rateLimited, attempts);
            RecoveryDelay(0, rateLimited, attempts + 1) == if 2 * d < 3600 then 2 * d else 3600
  {
    RetirementDoubles(attempts);
    RevocationDoubles(attempts);
    RecoveryDoubles(attempts, rateLimited);
  }

  /** What the service asked for counts, but not less than a second, or five. */
  lemma DelaysHeedTheService(retryAfter: nat, rateLimited: bool, attempts: nat)
    ensures RetirementDelay(true, retryAfter, attempts) == if retryAfter < 1 then 1 else retryAfter
    ensures retryAfter > 0 ==> RevocationDelay(retryAfter, attempts) == if retryAfter < 5 then 5 else retryAfter
    ensures var d := RecoveryDelay(0, rateLimited, attempts);
            RecoveryDelay(retryAfter, rateLimited, attempts) == if retryAfter < d then d else retryAfter
  {
  }
}
