/**
 What a local fee payer will sponsor: gas, fees and the validity window, with the client's choices on
 the other side. Times are nanoseconds; valid_before is in whole seconds.
 */
module Sponsor {
  import opened Text
  import opened ReplayStore

  type Uint64 = n: int | 0 <= n < 0x1_0000_0000_0000_0000

  const FEE_PAYER_MAX_GAS: Uint64 := 2_000_000
  const SIMULATION_GAS_BUFFER: Uint64 := 6_000
  const MAX_UINT64: Uint64 := 0xFFFF_FFFF_FFFF_FFFF
  const MAX_VALIDITY_WINDOW: nat := 15 * 60 * SECOND
  const MIN_REMAINING_VALIDITY: nat := 15 * SECOND
  const VALID_BEFORE_WINDOW: nat := 60 * SECOND
  const EXPIRY_SLACK: nat := 60 * SECOND

  datatype Tx = Tx(
    gas: Uint64, maxFeePerGas: Option<int>, maxPriorityFeePerGas: Option<int>, keyAuthorization: bool,
        validBefore: Uint64)

  datatype Policy = Policy(maxFeePerGas: int, maxPriorityFeePerGas: int, maxTotalFee: int, rejectKeyAuthorization: bool)

  /** time.Time.Unix: the second t falls in. */
  function Unix(t: Time): nat {
    t / SECOND
  }

  /** The first whole second not before t. */
  function CeilUnix(t: Time): nat {
    if t % SECOND == 0 then Unix(t) else Unix(t) + 1
  }

  // ---------- the fee budget ----------

  /** The latest valid_before the sponsor allows at `now` for a challenge with this expiry. */
  function MaxValidBefore(expiry: Option<Time>, now: Time): nat {
    var window := Unix(now + MAX_VALIDITY_WINDOW);
    if expiry.Some? && Unix(expiry.value + EXPIRY_SLACK) < window then Unix(expiry.value + EXPIRY_SLACK) else window
  }

  /** validateFeePayerTransaction. */
  predicate WithinPolicy(tx: Tx, expiry: Option<Time>, policy: Policy, now: Time) {
    && !(tx.keyAuthorization && policy.rejectKeyAuthorization)
    && 0 < tx.gas <= FEE_PAYER_MAX_GAS
    && tx.maxFeePerGas.Some? && 0 < tx.maxFeePerGas.value <= policy.maxFeePerGas
    && (tx.maxPriorityFeePerGas.Some? ==>
          tx.maxPriorityFeePerGas.value <= tx.maxFeePerGas.value
          && tx.maxPriorityFeePerGas.value <= policy.maxPriorityFeePerGas)
    && tx.gas * tx.maxFeePerGas.value <= policy.maxTotalFee
    && (tx.validBefore != 0 ==> tx.validBefore <= MaxValidBefore(expiry, now))
  }

  /** big.Int.Quo: truncated division. */
  function Quo(a: int, b: int): int
    requires b > 0
  {
    if a >= 0 then a / b else -((-a) / b)
  }

  /** sponsoredSimulationGas; the guard keeps the addition within 64 bits. */
  function SimulationGas(tx: Tx, policy: Policy): Uint64 {
    var raised: Uint64 :=
      if tx.gas <= MAX_UINT64 - SIMULATION_GAS_BUFFER && tx.gas + SIMULATION_GAS_BUFFER < FEE_PAYER_MAX_GAS
      then tx.gas + SIMULATION_GAS_BUFFER else FEE_PAYER_MAX_GAS;
    var gas: Uint64 :=
      if tx.maxFeePerGas.Some? && tx.maxFeePerGas.value > 0 then
        var budget := Quo(policy.maxTotalFee, tx.maxFeePerGas.value);
        if 0 <= budget <= MAX_UINT64 && budget < raised then budget else raised
      else raised;
    if gas >= tx.gas then gas else tx.gas
  }

  lemma {:induction false} QuoBounds(total: int, fee: int, gas: int)
    requires fee > 0 && total >= 0
    ensures gas * fee <= total <==> gas <= Quo(total, fee)
  {
    var q := total / fee;
    assert total == q * fee + total % fee;
    if gas <= q {
      assert gas * fee <= q * fee;
    } else {
      assert gas * fee >= (q + 1) * fee;
      assert (q + 1) * fee == q * fee + fee;
    }
  }

  /**
   The simulation copy of a sponsorable transaction is sponsorable as well, and asks for the most gas
   that still is: at least the transaction's own, at most the buffer more.
   */
  lemma {:induction false} SimulationStaysWithinPolicy(tx: Tx, expiry: Option<Time>, policy: Policy, now: Time)
    requires WithinPolicy(tx, expiry, policy, now)
    ensures var gas := SimulationGas(tx, policy);
      && WithinPolicy(tx.(gas := gas), expiry, policy, now)
      && tx.gas <= gas <= tx.gas + SIMULATION_GAS_BUFFER
      && forall g: Uint64 ::
           g <= tx.gas + SIMULATION_GAS_BUFFER && WithinPolicy(tx.(gas := g), expiry, policy, now) ==> g <= gas
  {
    var fee, gas := tx.maxFeePerGas.value, SimulationGas(tx, policy);
    assert tx.gas * fee >= 0;
    QuoBounds(policy.maxTotalFee, fee, tx.gas);
    QuoBounds(policy.maxTotalFee, fee, gas);
    forall g: Uint64 | g <= tx.gas + SIMULATION_GAS_BUFFER && WithinPolicy(tx.(gas := g), expiry, policy, now)
      ensures g <= gas
    {
      QuoBounds(policy.maxTotalFee, fee, g);
    }
  }

  /** Installing a key is refused exactly under a policy that rejects it, and makes no other difference. */
  lemma {:induction false} KeyAuthorizationMatters(tx: Tx, expiry: Option<Time>, policy: Policy, now: Time)
    ensures WithinPolicy(tx.(keyAuthorization := true), expiry, policy, now)
      <==> !policy.rejectKeyAuthorization && WithinPolicy(tx.(keyAuthorization := false), expiry, policy, now)
  {
  }

  /** Whatever gas is used, at whatever price up to the declared one, the sponsor pays at most its budget. */
  lemma {:induction false} SponsorPaysAtMost(tx: Tx, expiry: Option<Time>, policy: Policy, now: Time, used: nat,
                                             price: nat)
    requires WithinPolicy(tx, expiry, policy, now) && used <= tx.gas && price <= tx.maxFeePerGas.value
    ensures used * price <= policy.maxTotalFee && used * price <= FEE_PAYER_MAX_GAS * policy.maxFeePerGas
  {
    var fee := tx.maxFeePerGas.value;
    MulMonotone(used, price, tx.gas, fee);
    MulMonotone(tx.gas, fee, FEE_PAYER_MAX_GAS, policy.maxFeePerGas);
  }

  lemma {:induction false} MulMonotone(a: nat, b: nat, c: nat, d: nat)
    requires a <= c && b <= d
    ensures a * b <= c * d
  {
    assert a * b <= c * b;
    assert c * b <= c * d;
  }

  predicate AsksNoMore(less: Tx, tx: Tx) {
    && 0 < less.gas <= tx.gas && (less.keyAuthorization ==> tx.keyAuthorization)
    && less.maxFeePerGas.Some? && tx.maxFeePerGas.Some? && 0 < less.maxFeePerGas.value <= tx.maxFeePerGas.value
    && (less.maxPriorityFeePerGas.Some? ==>
          && less.maxPriorityFeePerGas.value <= less.maxFeePerGas.value
          && tx.maxPriorityFeePerGas.Some? && less.maxPriorityFeePerGas.value <= tx.maxPriorityFeePerGas.value)
    && (less.validBefore == 0 || (tx.validBefore != 0 && less.validBefore <= tx.validBefore))
  }

  /** A transaction that asks for no more than an admitted one is admitted too, then and later. */
  lemma {:induction false} LessIsAdmitted(less: Tx, tx: Tx, expiry: Option<Time>, policy: Policy, now: Time,
                                          later: Time)
    requires WithinPolicy(tx, expiry, policy, now) && AsksNoMore(less, tx) && now <= later
    ensures WithinPolicy(less, expiry, policy, later)
  {
    MulMonotone(less.gas, less.maxFeePerGas.value, tx.gas, tx.maxFeePerGas.value);
    assert Unix(now + MAX_VALIDITY_WINDOW) <= Unix(later + MAX_VALIDITY_WINDOW);
  }

  // ---------- the validity window ----------

  /** validateFeePayerDeadline. */
  predicate EnoughValidity(validBefore: Uint64, now: Time) {
    var minimum := Unix(now + MIN_REMAINING_VALIDITY) + if now % SECOND != 0 then 1 else 0;
    validBefore >= minimum
  }

  datatype Choice = TooSoon | ValidBefore(seconds: nat)

  /** sponsoredValidBefore: what a client picks at `now`. */
  function SponsoredValidBefore(expiry: Option<Time>, now: Time): Choice {
    var window := Unix(now + VALID_BEFORE_WINDOW);
    if expiry == None then ValidBefore(window)
    else if expiry.value - now < MIN_REMAINING_VALIDITY then TooSoon
    else
      var challengeMax := Unix(expiry.value) + 1 + MIN_REMAINING_VALIDITY / SECOND;
      ValidBefore(if challengeMax < window then challengeMax else window)
  }

  /** checkSponsoredSignable, just before signing. */
  predicate Signable(expiry: Option<Time>, validBefore: Uint64, now: Time) {
    && (expiry.Some? ==> expiry.value - now >= MIN_REMAINING_VALIDITY)
    && (validBefore <= 0x7FFF_FFFF_FFFF_FFFF ==> validBefore * SECOND - now >= MIN_REMAINING_VALIDITY)
  }

  /**
   A client has a choice exactly when at least 15 seconds are left of the challenge; what it chooses is
   signable there and then, lasts at most a minute, and at most 15 seconds and a fraction past the expiry.
   */
  lemma {:induction false} ChoiceIsSignable(expiry: Option<Time>, now: Time)
    ensures SponsoredValidBefore(expiry, now).ValidBefore?
      <==> expiry.None? || expiry.value >= now + MIN_REMAINING_VALIDITY
    ensures match SponsoredValidBefore(expiry, now)
      case TooSoon => true
      case ValidBefore(seconds) =>
        && now + MIN_REMAINING_VALIDITY <= seconds * SECOND <= now + VALID_BEFORE_WINDOW
        && (expiry.Some? ==> seconds * SECOND <= expiry.value + 16 * SECOND)
        && (expiry.None? || now + VALID_BEFORE_WINDOW <= expiry.value ==>
              now + VALID_BEFORE_WINDOW < (seconds + 1) * SECOND)
  {
    UnixAdds(now, 60);
    assert now == Unix(now) * SECOND + now % SECOND;
    if expiry.Some? {
      assert expiry.value == Unix(expiry.value) * SECOND + expiry.value % SECOND;
    }
  }

  /** The client's last check and the server's floor are the same bound at the same instant. */
  lemma {:induction false} SignableMeetsFloor(expiry: Option<Time>, validBefore: Uint64, now: Time)
    requires validBefore <= 0x7FFF_FFFF_FFFF_FFFF
    ensures Signable(expiry, validBefore, now) <==>
      EnoughValidity(validBefore, now) && (expiry.Some? ==> expiry.value - now >= MIN_REMAINING_VALIDITY)
  {
    var s, frac := now / SECOND, now % SECOND;
    assert now == s * SECOND + frac;
    assert Unix(now + MIN_REMAINING_VALIDITY) == s + 15;
    assert validBefore * SECOND - now >= MIN_REMAINING_VALIDITY <==> (validBefore - s - 15) * SECOND >= frac;
  }

  /** The checks a valid_before meets on arrival. */
  predicate AcceptedOnArrival(validBefore: Uint64, expiry: Option<Time>, arrival: Time) {
    EnoughValidity(validBefore, arrival) && validBefore <= MaxValidBefore(expiry, arrival)
  }

  lemma {:induction false} UnixAdds(t: Time, seconds: nat)
    ensures Unix(t + seconds * SECOND) == Unix(t) + seconds
  {
  }

  /**
   The window a client picked at `now` is accepted at an arrival before the challenge expires exactly
   when the arrival, rounded up, is within 45 seconds of signing, or the challenge's own cap is what
   the client chose. The upper caps never matter.
   */
  lemma {:induction false} ValidBeforeSurvivesDelivery(expiry: Time, now: Time, arrival: Time, seconds: Uint64)
    requires SponsoredValidBefore(Some(expiry), now) == ValidBefore(seconds)
    requires now <= arrival < expiry
    ensures AcceptedOnArrival(seconds, Some(expiry), arrival) <==>
      CeilUnix(arrival) <= Unix(now) + 45 || Unix(expiry) <= Unix(now) + 44
    ensures CeilUnix(arrival) <= Unix(now) + 45 ==> AcceptedOnArrival(seconds, Some(expiry), arrival)
  {
    UnixAdds(now, 60);
    UnixAdds(arrival, 15);
    UnixAdds(arrival, 900);
    UnixAdds(expiry, 60);
    assert Unix(now) <= Unix(arrival) <= Unix(expiry);
    assert CeilUnix(arrival) <= Unix(expiry) + 1;
  }

  /** Without an expiry the client's minute leaves 45 seconds for delivery. */
  lemma {:induction false} UnboundedChallengeSurvivesDelivery(now: Time, arrival: Time, seconds: Uint64)
    requires SponsoredValidBefore(None, now) == ValidBefore(seconds) && now <= arrival
    ensures AcceptedOnArrival(seconds, None, arrival) <==> CeilUnix(arrival) <= Unix(now) + 45
  {
    UnixAdds(now, 60);
    UnixAdds(arrival, 15);
    UnixAdds(arrival, 900);
    assert Unix(now) <= Unix(arrival);
  }
}
