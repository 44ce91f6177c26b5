/**
 What a credited attempt went through: every check its kind of credential has to pass was made and
 passed at some earlier step of the run.
 */
module Screening {
  import opened Text
  import opened ReplayStore
  import opened Settlement
  import opened FreshPayment

  /** The checks before the claim; a transaction found on chain is not simulated again. */
  predicate BeforeClaim(a: Attempt, check: PC) {
    match a.cred.kind
    case Hash(_) => check.FetchHash? || check.ExpiryEarly?
    case Proof => check.Validate? || check.ExpiryEarly?
    case Unsponsored(_) =>
      || check.ReadUsed? || check.ExpiryEarly? || check.ExpiryLate?
      || (a.receipt.None? && (check.Validate? || check.Simulate?))
    case Sponsored(_, _) => check.ExpiryEarly? || check.ReadLegacy? || check.ReadSponsor?
    case Hosted(_) =>
      check.Validate? || check.ExpiryEarly? || check.ReadLegacy? || check.ReadSponsor? || check.HostedSimulate?
  }

  predicate Claim(a: Attempt, check: PC) {
    BeforeClaim(a, check) || check.ClaimMain?
  }

  predicate CoSigning(a: Attempt, check: PC) {
    Claim(a, check) || if a.cred.kind.Hosted? then check.Deadline? || check.Fill? else check.CoSign?
  }

  predicate BeforeSending(a: Attempt, check: PC) {
    if a.cred.kind.Unsponsored? then Claim(a, check)
    else CoSigning(a, check) || check.ExpiryLate? || (a.receipt.None? && (check.Simulate? || check.DeadlineLate?))
  }

  /** Everything a credited attempt must have passed. */
  predicate Screen(a: Attempt, check: PC) {
    if a.cred.FeePayer() then BeforeSending(a, check) || check.ClaimReference? else Claim(a, check)
  }

  /** What it must have passed by now; nothing once it has failed. */
  predicate PassedBy(a: Attempt, check: PC) {
    match a.pc
    case Validate => a.cred.kind.Unsponsored? && check.ReadUsed?
    case FindIncluded => check.ReadUsed?
    case ExpiryEarly => BeforeClaim(a, check) && (check.FetchHash? || check.Validate? || check.ReadUsed?)
    case ReadLegacy => BeforeClaim(a, check) && (check.Validate? || check.ExpiryEarly?)
    case ReadSponsor => BeforeClaim(a, check) && !check.ReadSponsor? && !check.HostedSimulate?
    case HostedSimulate => BeforeClaim(a, check) && !check.HostedSimulate?
    case ClaimMain => BeforeClaim(a, check)
    case Deadline => Claim(a, check)
    case Late(_) => Claim(a, check)
    case CoSign => Claim(a, check)
    case Fill => Claim(a, check) || check.Deadline?
    case FindEnvelope(_) => CoSigning(a, check)
    case Simulate =>
      if a.cred.kind.Unsponsored? then BeforeClaim(a, check) && !check.Simulate? && !check.ExpiryLate?
      else CoSigning(a, check)
    case ExpiryLate =>
      if a.cred.kind.Unsponsored? then BeforeClaim(a, check) && !check.ExpiryLate?
      else CoSigning(a, check) || (a.receipt.None? && check.Simulate?)
    case DeadlineLate => CoSigning(a, check) || check.ExpiryLate? || check.Simulate?
    case Sending => BeforeSending(a, check)
    case Confirming => BeforeSending(a, check)
    case Awaiting => BeforeSending(a, check)
    case ClaimReference => BeforeSending(a, check)
    case Succeeded(_) => Screen(a, check)
    case _ => false
  }

  /** The attempt is at this check, and `r` does not refuse it. */
  predicate Passes(a: Attempt, r: Reply, check: PC) {
    a.pc == check && !Refuses(a, r)
  }

  lemma {:induction false} PaymentScreens(a: Attempt, r: Reply, check: PC)
    requires (a.pc.FetchHash? || a.pc.Validate?) && Typed(a) && PassedBy(ResumeChecking(a, r), check)
    ensures PassedBy(a, check) || Passes(a, r, check)
  {
  }

  lemma {:induction false} InclusionScreens(a: Attempt, r: Reply, check: PC)
    requires (a.pc.ReadUsed? || a.pc.FindIncluded?) && Typed(a) && PassedBy(ResumeChecking(a, r), check)
    ensures PassedBy(a, check) || Passes(a, r, check)
  {
  }

  lemma {:induction false} ExpiryScreens(a: Attempt, r: Reply, check: PC)
    requires a.pc.ExpiryEarly? && PassedBy(ResumeChecking(a, r), check)
    ensures PassedBy(a, check) || Passes(a, r, check)
  {
  }

  lemma {:induction false} LegacyScreens(a: Attempt, r: Reply, check: PC)
    requires a.pc.ReadLegacy? && Typed(a)
    requires PassedBy(ResumeChecking(a, r), check)
    ensures PassedBy(a, check) || Passes(a, r, check)
  {
  }

  lemma {:induction false} SponsorScreens(a: Attempt, r: Reply, check: PC)
    requires a.pc.ReadSponsor? && Typed(a)
    requires PassedBy(ResumeChecking(a, r), check)
    ensures PassedBy(a, check) || Passes(a, r, check)
  {
  }

  lemma {:induction false} SimulationScreens(a: Attempt, r: Reply, check: PC)
    requires a.pc.HostedSimulate? && Typed(a) && PassedBy(ResumeChecking(a, r), check)
    ensures PassedBy(a, check) || Passes(a, r, check)
  {
  }

  lemma {:induction false} CheckingScreens(a: Attempt, r: Reply, check: PC)
    requires Checking(a.pc) && Typed(a) && PassedBy(ResumeChecking(a, r), check)
    ensures PassedBy(a, check) || Passes(a, r, check)
  {
    match a.pc
    case FetchHash => PaymentScreens(a, r, check);
    case Validate => PaymentScreens(a, r, check);
    case ReadUsed => InclusionScreens(a, r, check);
    case FindIncluded => InclusionScreens(a, r, check);
    case ExpiryEarly => ExpiryScreens(a, r, check);
    case HostedSimulate => SimulationScreens(a, r, check);
    case ReadLegacy => LegacyScreens(a, r, check);
    case ReadSponsor => SponsorScreens(a, r, check);
  }

  lemma {:induction false} SettleScreens(a: Attempt, reference: string, receipt: Receipt, check: PC)
    requires a.cred.FeePayer() || a.cred.kind.Unsponsored?
    requires PassedBy(Settle(a, reference, receipt), check)
    ensures BeforeSending(a, check)
  {
  }

  lemma {:induction false} UnsponsoredClaimScreens(a: Attempt, check: PC)
    requires a.pc.ClaimMain? && a.cred.kind.Unsponsored?
    requires PassedBy(SendOrSettle(a), check)
    ensures Claim(a, check)
  {
    if a.receipt.Some? {
      SettleScreens(a, a.signed, a.receipt.value, check);
    }
  }

  lemma {:induction false} ClaimScreens(a: Attempt, r: Reply, check: PC)
    requires a.pc.ClaimMain? && PassedBy(ResumeClaim(a, r), check)
    ensures PassedBy(a, check) || Passes(a, r, check)
  {
    if a.cred.kind.Unsponsored? && r == Claimed(true) {
      UnsponsoredClaimScreens(Win(a, a.cred.MainKey()).(claimed := [a.cred.MainKey()]), check);
    }
  }

  lemma {:induction false} DeadlineScreens(a: Attempt, r: Reply, check: PC)
    requires (a.pc.Deadline? || a.pc.Late?) && LocalInv(a) && PassedBy(ResumeSponsoring(a, r), check)
    ensures PassedBy(a, check) || Passes(a, r, check)
  {
  }

  lemma {:induction false} CoSignScreens(a: Attempt, r: Reply, check: PC)
    requires a.pc.CoSign? && Typed(a) && PassedBy(ResumeSponsoring(a, r), check)
    ensures PassedBy(a, check) || Passes(a, r, check)
  {
  }

  lemma {:induction false} FillScreens(a: Attempt, r: Reply, check: PC)
    requires a.pc.Fill? && Typed(a) && PassedBy(ResumeSponsoring(a, r), check)
    ensures PassedBy(a, check) || Passes(a, r, check)
  {
  }

  lemma {:induction false} EnvelopeScreens(a: Attempt, r: Reply, check: PC)
    requires a.pc.FindEnvelope? && LocalInv(a) && PassedBy(ResumeSponsoring(a, r), check)
    ensures PassedBy(a, check) || Passes(a, r, check)
  {
  }

  lemma {:induction false} SponsoringScreens(a: Attempt, r: Reply, check: PC)
    requires Sponsoring(a.pc) && LocalInv(a) && Typed(a) && PassedBy(ResumeSponsoring(a, r), check)
    ensures PassedBy(a, check) || Passes(a, r, check)
  {
    if a.pc.FindEnvelope? {
      EnvelopeScreens(a, r, check);
    } else if a.pc.CoSign? {
      CoSignScreens(a, r, check);
    } else if a.pc.Fill? {
      FillScreens(a, r, check);
    } else {
      DeadlineScreens(a, r, check);
    }
  }

  lemma {:induction false} SimulateScreens(a: Attempt, r: Reply, check: PC)
    requires a.pc.Simulate? && PassedBy(ResumeFinishing(a, r), check)
    ensures PassedBy(a, check) || Passes(a, r, check)
  {
  }

  lemma {:induction false} LastExpiryScreens(a: Attempt, r: Reply, check: PC)
    requires a.pc.ExpiryLate? && LocalInv(a) && PassedBy(ResumeFinishing(a, r), check)
    ensures PassedBy(a, check) || Passes(a, r, check)
  {
    if a.receipt.Some? && a.cred.FeePayer() {
      SettleScreens(a, a.signed, a.receipt.value, check);
    }
  }

  lemma {:induction false} LastDeadlineScreens(a: Attempt, r: Reply, check: PC)
    requires a.pc.DeadlineLate? && LocalInv(a) && PassedBy(ResumeFinishing(a, r), check)
    ensures PassedBy(a, check) || Passes(a, r, check)
  {
    if a.receipt.Some? {
      SettleScreens(a, a.signed, a.receipt.value, check);
    }
  }

  lemma {:induction false} FinishingScreens(a: Attempt, r: Reply, check: PC)
    requires Finishing(a.pc) && LocalInv(a) && PassedBy(ResumeFinishing(a, r), check)
    ensures PassedBy(a, check) || Passes(a, r, check)
  {
    match a.pc
    case Simulate => SimulateScreens(a, r, check);
    case ExpiryLate => LastExpiryScreens(a, r, check);
    case DeadlineLate => LastDeadlineScreens(a, r, check);
  }

  lemma {:induction false} SendingScreens(a: Attempt, r: Reply, check: PC)
    requires a.pc.Sending? || a.pc.Confirming? || a.pc.Awaiting? || a.pc.ClaimReference?
    requires LocalInv(a) && PassedBy(ResumeSending(a, r), check)
    ensures PassedBy(a, check) || Passes(a, r, check)
  {
    if HasSent(a) && r.Mined? && r.receipt.Some? {
      SettleScreens(a, if a.pc.Awaiting? then a.reference else a.signed, r.receipt.value, check);
    }
  }

  /** No check is skipped: what the next point asks for was passed before or is passed now. */
  lemma {:induction false} StepScreens(a: Attempt, r: Reply, check: PC)
    requires !a.Halted() && LocalInv(a) && Typed(a)
    ensures PassedBy(Resume(a, r), check) ==> PassedBy(a, check) || Passes(a, r, check)
  {
    if !PassedBy(Resume(a, r), check) || a.pc.Releasing? {
    } else if Checking(a.pc) {
      CheckingScreens(a, r, check);
    } else if a.pc.ClaimMain? {
      ClaimScreens(a, r, check);
    } else if Sponsoring(a.pc) {
      SponsoringScreens(a, r, check);
    } else if Finishing(a.pc) {
      FinishingScreens(a, r, check);
    } else {
      SendingScreens(a, r, check);
    }
  }

  /** At step `m` of the run, attempt `i` is at the check and hears no refusal. */
  ghost predicate PassedAt(config: Config, run: seq<State>, m: nat, i: AttemptId, check: PC)
    requires m + 1 < |run|
  {
    exists r :: AttemptStep(config, run[m], run[m + 1], i, r) && Passes(run[m].attempts[i], r, check)
  }

  ghost predicate PassedBefore(config: Config, run: seq<State>, n: nat, i: AttemptId, check: PC)
    requires n < |run|
  {
    exists m: nat :: m < n && PassedAt(config, run, m, i, check)
  }

  lemma {:induction false} NextScreens(config: Config, s: State, s': State, i: AttemptId, check: PC)
    requires Next(config, s, s') && AllInShape(s) && i in s'.attempts && PassedBy(s'.attempts[i], check)
    ensures i in s.attempts
    ensures || PassedBy(s.attempts[i], check)
            || exists r :: AttemptStep(config, s, s', i, r) && Passes(s.attempts[i], r, check)
  {
    if i in s.attempts && s'.attempts[i] != s.attempts[i] {
      var r :| AttemptStep(config, s, s', i, r);
      StepScreens(s.attempts[i], r, check);
    }
  }

  lemma {:induction false} RunScreens(config: Config, run: seq<State>, n: nat, i: AttemptId, check: PC)
    requires IsRun(config, run) && n < |run| && i in run[n].attempts && PassedBy(run[n].attempts[i], check)
    ensures PassedBefore(config, run, n, i, check)
  {
    if n == 0 {
    } else {
      assert NextAt(config, run, n);
      RunKeepsShape(config, run, n - 1);
      NextScreens(config, run[n - 1], run[n], i, check);
      if PassedBy(run[n - 1].attempts[i], check) {
        RunScreens(config, run, n - 1, i, check);
        var m: nat :| m < n - 1 && PassedAt(config, run, m, i, check);
        assert m < n && PassedAt(config, run, m, i, check);
      } else {
        assert PassedAt(config, run, n - 1, i, check);
      }
    }
  }

  /** In every run, a credited attempt was asked every question of its screen before, and passed each. */
  lemma {:induction false} CreditedPassedItsScreen(config: Config, run: seq<State>, n: nat, i: AttemptId, check: PC)
    requires IsRun(config, run) && n < |run| && i in run[n].attempts && run[n].attempts[i].pc.Succeeded?
    requires Screen(run[n].attempts[i], check)
    ensures PassedBefore(config, run, n, i, check)
  {
    RunScreens(config, run, n, i, check);
  }
}
