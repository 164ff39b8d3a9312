/**
 * The wait for a healthy system after an upgrade: checks are repeated until they have all passed for long enough,
 * or until three times that long has gone by.
 */
module HealthWait {

  /** Pause between two rounds, in nanoseconds. */
  const PAUSE := 5_000_000_000

  /**
   * What the loop sees of the outside: the outcome of the check in each round, and the clock, which is read up to
   * three times in a round.
   */
  datatype Surroundings = Surroundings(passes: nat -> bool, clock: nat -> int, start: int)

  /** Clock readings of round `k`: after the check, when the stable time is measured, and at the round's end. */
  function CheckedAt(s: Surroundings, k: nat): int { s.clock(3 * k) }
  function MeasuredAt(s: Surroundings, k: nat): int { s.clock(3 * k + 1) }
  function EndedAt(s: Surroundings, k: nat): int { s.clock(3 * k + 2) }

  /** Time does not run backwards and the pause lasts at least as long as asked. */
  predicate RoundInOrder(s: Surroundings, k: nat) {
    && CheckedAt(s, k) <= MeasuredAt(s, k) <= EndedAt(s, k)
    && EndedAt(s, k) + PAUSE <= CheckedAt(s, k + 1)
  }

  ghost predicate TimePasses(s: Surroundings) {
    s.start <= CheckedAt(s, 0) && forall k: nat :: RoundInOrder(s, k)
  }

  /** The first round of the unbroken run of passing checks that ends in round `k`. */
  function RunStart(s: Surroundings, k: nat): (r: nat)
    requires s.passes(k)
    ensures r <= k && forall i :: r <= i <= k ==> s.passes(i)
    ensures r > 0 ==> !s.passes(r - 1)
  {
    if k == 0 || !s.passes(k - 1) then k else RunStart(s, k - 1)
  }

  /** Round `k` ends a run of passing checks that spans the required time. */
  predicate Stable(s: Surroundings, k: nat, required: nat) {
    s.passes(k) && MeasuredAt(s, k) - CheckedAt(s, RunStart(s, k)) >= required
  }

  predicate Expired(s: Surroundings, k: nat, required: nat) {
    EndedAt(s, k) > s.start + 3 * required
  }

  /** The loop stops in round `k`. */
  ghost predicate StopsIn(s: Surroundings, k: nat, required: nat) {
    && (Stable(s, k, required) || Expired(s, k, required))
    && forall i: nat :: i < k ==> !Stable(s, i, required) && !Expired(s, i, required)
  }

  lemma {:induction false} RoundsTakeTime(s: Surroundings, k: nat)
    requires TimePasses(s)
    ensures CheckedAt(s, k) >= s.start + k * PAUSE
  {
    if k != 0 {
      RoundsTakeTime(s, k - 1);
      assert RoundInOrder(s, k - 1);
    }
  }

  /**
   * The wait always ends. It accepts exactly if, in the round it stops in, the checks have passed without a break
   * for at least the required time, and refuses only once the overall time is up.
   */
  method AwaitHealth(s: Surroundings, required: nat) returns (healthy: bool, round: nat)
    requires TimePasses(s)
    ensures StopsIn(s, round, required) && healthy == Stable(s, round, required)
    ensures round * PAUSE <= 3 * required + PAUSE
  {
    var deadline := s.start + 3 * required;
    var stable := false;
    var since := 0;
    var k := 0;
    while true
      invariant k > 0 ==> (k - 1) * PAUSE <= 3 * required
      invariant stable == (k > 0 && s.passes(k - 1))
      invariant stable ==> since == CheckedAt(s, RunStart(s, k - 1))
      invariant forall i: nat :: i < k ==> !Stable(s, i, required) && !Expired(s, i, required)
      decreases 3 * required + 2 * PAUSE - k * PAUSE
    {
      assert RoundInOrder(s, k);
      RoundsTakeTime(s, k);
      if !s.passes(k) {
        stable := false;
      } else {
        if !stable {
          stable, since := true, s.clock(3 * k);
        }
        if s.clock(3 * k + 1) - since >= required {
          return true, k;
        }
      }
      if s.clock(3 * k + 2) > deadline {
        return false, k;
      }
      k := k + 1;
    }
  }

}
