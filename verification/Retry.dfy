/**
 A retry that runs alone before its challenge expires settles a matching payment that is already
 on chain and not yet credited: whatever earlier attempts did, whatever the fee payer's deadline
 and fee token are, and without simulating or sending anything again.
 */
module Retry {
  import opened Text
  import opened ReplayStore
  import opened Settlement
  import opened Recovery

  /** `cred` can settle from the receipt of `h`; a hosted fee payer's envelope cannot be rebuilt. */
  predicate Names(cred: Credential, h: string) {
    match cred.kind
    case Hash(x) => Lower(x) == h
    case Unsponsored(x) => Lower(x) == h
    case Sponsored(_, _) => HasEnvelopeFrom(cred, h, 0)
    case _ => false
  }

  predicate HasEnvelopeFrom(cred: Credential, h: string, n: nat) {
    exists m :: n <= m < cred.EnvelopeCount() && Lower(cred.Envelope(m)) == h
  }

  predicate CreditedFor(a: Attempt, h: string) {
    a.pc.Succeeded? && !a.cred.kind.Proof? && Lower(a.pc.reference) == h
  }

  /** What the retry itself knows: its payment is on chain and its challenge has not expired. */
  ghost predicate Eligible(config: Config, w: World, s: State, a: Attempt, h: string) {
    && Knows(config, w, s, a) && SoundChain(w, s.chain)
    && Names(a.cred, h) && PolicyAdmits(w, a.cred)
    && Lower(h) == h && OnChain(s, a.cred, h, true, true)
    && s.now < a.cred.expires
  }

  /** Everyone but `i` has stopped, and nobody but `i` may have been credited for `h`. */
  ghost predicate Payable(config: Config, w: World, s: State, i: AttemptId, h: string) {
    && RInv(config, w, s) && i in s.attempts && Eligible(config, w, s, s.attempts[i], h)
    && (forall j :: j in s.attempts && j != i ==> s.attempts[j].Halted() && !CreditedFor(s.attempts[j], h))
  }

  lemma {:induction false} NamedFacts(config: Config, w: World, s: State, a: Attempt, h: string)
    requires Eligible(config, w, s, a, h)
    ensures w.challengeOf(TxKey(h)) == a.cred.challenge
    ensures a.cred.kind.Sponsored? ==> w.sponsorTx(h) == Some(a.cred.kind.tx)
  {
    if a.cred.kind.Sponsored? {
      var m :| 0 <= m < a.cred.EnvelopeCount() && Lower(a.cred.Envelope(m)) == h;
      assert IsEnvelope(w, a.cred, a.cred.Envelope(m));
    }
  }

  /** A halted attempt that keeps a key of the retry was credited for `h`. */
  lemma {:induction false} KeeperIsCredited(config: Config, w: World, s: State, a: Attempt, h: string, b: Attempt,
                                            key: Key)
    requires Eligible(config, w, s, a, h) && Knows(config, w, s, b) && b.Halted() && key in b.kept
    requires key == TxKey(h) || key == a.cred.MainKey()
    ensures b.pc.Succeeded? ==> CreditedFor(b, h)
    ensures !b.pc.Succeeded? ==> Credited(s, h)
  {
    NamedFacts(config, w, s, a, h);
    assert w.challengeOf(key) == a.cred.challenge;
    if b.pc.Succeeded? {
      SuccessIsHarmless(w, s, a.cred, b, h, key);
    } else {
      FailureIsHarmless(config, w, s, a.cred, b, h, key);
    }
  }

  lemma {:induction false} OneKeeper(config: Config, w: World, s: State, i: AttemptId, j: AttemptId, key: Key)
    requires RInv(config, w, s) && i in s.attempts && j in s.attempts && i != j && key in s.attempts[i].kept
    ensures key !in s.attempts[j].kept
  {
    assert KeyInv(s, key, KeyDeadline(config, w, key));
  }

  lemma {:induction false} CreditedElsewhere(config: Config, w: World, s: State, i: AttemptId, h: string)
    requires Payable(config, w, s, i, h) && Credited(s, h)
    ensures CreditedFor(s.attempts[i], h)
  {
  }

  lemma {:induction false} CreditedKeeps(a: Attempt, h: string)
    requires LocalInv(a) && CreditedFor(a, h)
    ensures a.kept == {a.cred.MainKey(), TxKey(h)}
  {
  }

  /** So no halted attempt stands in the retry's way. */
  lemma {:induction false} HaltedIsHarmless(config: Config, w: World, s: State, i: AttemptId, h: string, j: AttemptId,
                                            key: Key)
    requires Payable(config, w, s, i, h) && j in s.attempts && j != i
    requires key == TxKey(h) || key == s.attempts[i].cred.MainKey()
    ensures key !in s.attempts[j].kept
  {
    var a, b := s.attempts[i], s.attempts[j];
    assert Knows(config, w, s, b);
    if key in b.kept {
      KeeperIsCredited(config, w, s, a, h, b, key);
      CreditedElsewhere(config, w, s, i, h);
      CreditedKeeps(a, h);
      OneKeeper(config, w, s, i, j, key);
    }
  }

  lemma {:induction false} SuccessIsHarmless(w: World, s: State, cred: Credential, b: Attempt, h: string, key: Key)
    requires SoundChain(w, s.chain) && h in s.chain && Lower(h) == h
    requires Names(cred, h) && (cred.kind.Sponsored? ==> w.sponsorTx(h) == Some(cred.kind.tx))
    requires key == TxKey(h) || key == cred.MainKey()
    requires b.pc.Succeeded? && b.kept == {b.cred.MainKey(), b.cred.ReferenceKey(b.pc.reference)} && key in b.kept
    requires !b.cred.kind.Proof? ==> OwnHash(w, b.cred, b.pc.reference) && Lower(b.pc.reference) in s.chain
    ensures !b.cred.kind.Proof? && Lower(b.pc.reference) == h
  {
    LowerIdempotent(b.pc.reference);
  }

  lemma {:induction false} FailureIsHarmless(config: Config, w: World, s: State, cred: Credential, b: Attempt,
                                             h: string, key: Key)
    requires SoundChain(w, s.chain) && Lower(h) == h && OnChain(s, cred, h, true, true) && s.now < cred.expires
    requires Names(cred, h) && (cred.kind.Sponsored? ==> w.sponsorTx(h) == Some(cred.kind.tx))
    requires key == TxKey(h) || key == cred.MainKey()
    requires Knows(config, w, s, b) && b.Halted() && !b.pc.Succeeded? && key in b.kept
    requires w.challengeOf(key) == cred.challenge && w.expiryOf(cred.challenge) == cred.expires
    ensures Credited(s, h)
  {
    assert Terminal(config, w, s, b) && MakesPayment(b);
    assert key == b.cred.MainKey() && b.cred.challenge == cred.challenge;
    LowerIdempotent(b.reference);
    assert Lower(b.reference) == h;
  }

  lemma {:induction false} KeyIsFree(config: Config, w: World, s: State, i: AttemptId, h: string, key: Key)
    requires Payable(config, w, s, i, h) && key !in s.attempts[i].kept
    requires key == TxKey(h) || key == s.attempts[i].cred.MainKey()
    ensures key !in s.store
  {
    if key in s.store {
      var j :| j in s.attempts && key in s.attempts[j].kept;
      HaltedIsHarmless(config, w, s, i, h, j, key);
    }
  }

  lemma {:induction false} KeepsNoLegacyKey(a: Attempt, challenge: string)
    requires LocalInv(a)
    ensures LegacyKey(challenge) !in a.kept
  {
  }

  lemma {:induction false} NoLegacyKeys(config: Config, w: World, s: State, challenge: string)
    requires RInv(config, w, s)
    ensures LegacyKey(challenge) !in s.store
  {
    forall j | j in s.attempts ensures LegacyKey(challenge) !in s.attempts[j].kept {
      assert Knows(config, w, s, s.attempts[j]);
      KeepsNoLegacyKey(s.attempts[j], challenge);
    }
  }

  /** The keys the retry has yet to claim, or to see unclaimed, are free. */
  predicate Unclaimed(s: State, a: Attempt, h: string) {
    && (a.cred.MainKey() !in a.kept ==> a.cred.MainKey() !in s.store)
    && (TxKey(h) !in a.kept ==> TxKey(h) !in s.store)
    && LegacyKey(a.cred.challenge) !in s.store
  }

  lemma {:induction false} KeysAreFree(config: Config, w: World, s: State, i: AttemptId, h: string)
    requires Payable(config, w, s, i, h)
    ensures Unclaimed(s, s.attempts[i], h)
  {
    var a := s.attempts[i];
    if a.cred.MainKey() !in a.kept {
      KeyIsFree(config, w, s, i, h, a.cred.MainKey());
    }
    if TxKey(h) !in a.kept {
      KeyIsFree(config, w, s, i, h, TxKey(h));
    }
    NoLegacyKeys(config, w, s, a.cred.challenge);
  }

  // ---------- the retry's own path ----------

  /** Where the retry can be: it never simulates, sends or fails. */
  predicate OnPath(a: Attempt, h: string) {
    match a.pc
    case FetchHash => a.cred.kind.Hash?
    case ReadUsed => a.cred.kind.Unsponsored?
    case FindIncluded => a.cred.kind.Unsponsored?
    case ExpiryEarly => a.cred.kind.Unsponsored? ==> a.receipt.Some?
    case ReadLegacy => a.cred.kind.Sponsored?
    case ReadSponsor => a.cred.kind.Sponsored?
    case ClaimMain => a.cred.kind.Unsponsored? ==> a.receipt.Some?
    case Deadline => a.cred.kind.Sponsored?
    case Late(n) => a.cred.kind.Sponsored? && HasEnvelopeFrom(a.cred, h, n)
    case CoSign => a.cred.kind.Sponsored?
    case FindEnvelope(n) => a.cred.kind.Sponsored? && HasEnvelopeFrom(a.cred, h, n)
    case ExpiryLate => a.receipt.Some? && Lower(a.signed) == h && !a.cred.kind.Hash?
    case ClaimReference => Lower(a.reference) == h
    case Succeeded(reference) => Lower(reference) == h
    case _ => false
  }

  /** An upper bound on the calls still to make. */
  function Remaining(a: Attempt): nat {
    var n := a.cred.EnvelopeCount();
    match a.pc
    case FetchHash => 2 * n + 12
    case ReadUsed => 2 * n + 13
    case FindIncluded => 2 * n + 12
    case ExpiryEarly => 2 * n + 11
    case ReadLegacy => 2 * n + 9
    case ReadSponsor => 2 * n + 8
    case ClaimMain => 2 * n + 7
    case Deadline => 2 * n + 6
    case Late(m) => n + 5 + if m <= n then n - m else 0
    case CoSign => n + 4
    case FindEnvelope(m) => 3 + if m <= n then n - m else 0
    case ExpiryLate => if a.cred.kind.Unsponsored? then 2 * n + 10 else 2
    case ClaimReference => 1
    case _ => 0
  }

  predicate Advances(a: Attempt, a': Attempt, h: string) {
    OnPath(a', h) && Remaining(a') < Remaining(a)
  }

  lemma {:induction false} CheckingStays(config: Config, w: World, s: State, a: Attempt, h: string, r: Reply)
    requires Eligible(config, w, s, a, h) && Unclaimed(s, a, h) && Checking(a.pc) && OnPath(a, h)
    requires Reliable(w, s, a.cred, Pending(a), r)
    requires Pending(a).GetKey? ==> r == Found(Live(s.store, Pending(a).key, s.now))
    ensures Advances(a, ResumeChecking(a, r), h)
  {
    if a.pc.ExpiryEarly? && a.cred.kind.Unsponsored? {
      assert Lower(a.signed) == h;
    }
  }

  lemma {:induction false} ClaimStays(config: Config, w: World, s: State, a: Attempt, h: string, r: Reply)
    requires Eligible(config, w, s, a, h) && Unclaimed(s, a, h) && a.pc.ClaimMain? && OnPath(a, h)
    requires r == Claimed(RefStep(s.store, ClaimOp(config, a.cred, a.cred.MainKey()), s.now).1 == Accepted)
    ensures Advances(a, ResumeClaim(a, r), h)
  {
    assert r == Claimed(true);
  }

  /** A lookup of the n-th envelope finds the one on chain, or it is a later one. */
  lemma {:induction false} EnvelopesStay(config: Config, w: World, s: State, a: Attempt, h: string, n: nat)
    requires Eligible(config, w, s, a, h) && a.cred.kind.Sponsored? && HasEnvelopeFrom(a.cred, h, n)
    ensures n < a.cred.EnvelopeCount()
    ensures if ReceiptOf(s.chain, a.cred.Envelope(n)).Some? then Lower(a.cred.Envelope(n)) == h
            else HasEnvelopeFrom(a.cred, h, n + 1)
  {
    var m :| n <= m < a.cred.EnvelopeCount() && Lower(a.cred.Envelope(m)) == h;
    NamedFacts(config, w, s, a, h);
    assert IsEnvelope(w, a.cred, a.cred.Envelope(n));
  }

  lemma {:induction false} LookupStays(config: Config, w: World, s: State, a: Attempt, h: string, r: Reply)
    requires Eligible(config, w, s, a, h) && (a.pc.Late? || a.pc.FindEnvelope?) && OnPath(a, h)
    requires Reliable(w, s, a.cred, Pending(a), r)
    ensures Advances(a, ResumeSponsoring(a, r), h)
  {
    EnvelopesStay(config, w, s, a, h, a.pc.next);
  }

  lemma {:induction false} SponsoringStays(config: Config, w: World, s: State, a: Attempt, h: string, r: Reply)
    requires Eligible(config, w, s, a, h) && Sponsoring(a.pc) && OnPath(a, h)
    requires Reliable(w, s, a.cred, Pending(a), r) && (a.pc.Deadline? ==> r.Passed?)
    ensures Advances(a, ResumeSponsoring(a, r), h)
  {
    if a.pc.Late? || a.pc.FindEnvelope? {
      LookupStays(config, w, s, a, h, r);
    } else {
      assert HasEnvelopeFrom(a.cred, h, 0);
      EnvelopesStay(config, w, s, a, h, 0);
    }
  }

  lemma {:induction false} ReferenceStays(config: Config, w: World, s: State, a: Attempt, h: string, r: Reply)
    requires Eligible(config, w, s, a, h) && Unclaimed(s, a, h) && a.pc.ClaimReference? && OnPath(a, h)
    requires r == Claimed(RefStep(s.store, ClaimOp(config, a.cred, Pending(a).key), s.now).1 == Accepted)
    ensures Advances(a, ResumeSending(a, r), h)
  {
    assert a.kept == {a.cred.MainKey()} && TxKey(h) !in a.kept;
    assert r == Claimed(true);
  }

  lemma {:induction false} ExpiryStays(config: Config, w: World, s: State, a: Attempt, h: string, r: Reply)
    requires Eligible(config, w, s, a, h) && a.pc.ExpiryLate? && OnPath(a, h)
    requires Reliable(w, s, a.cred, Pending(a), r)
    ensures Advances(a, ResumeFinishing(a, r), h)
  {
    assert r == Passed(true);
  }

  lemma {:induction false} ResumeKeepsCred(a: Attempt, r: Reply)
    requires !a.Halted()
    ensures Resume(a, r).cred == a.cred
  {
  }

  lemma {:induction false} MoveStaysPayable(config: Config, w: World, s: State, s': State, i: AttemptId, h: string,
                                            r: Reply)
    requires Payable(config, w, s, i, h) && ReliableStep(config, w, s, s', i, r)
    ensures Payable(config, w, s', i, h)
  {
    ReliableStepKeeps(config, w, s, s', i, r);
    ResumeKeepsCred(s.attempts[i], r);
  }

  lemma {:induction false} RetryMoves(config: Config, w: World, s: State, s': State, i: AttemptId, h: string, r: Reply)
    requires Payable(config, w, s, i, h) && OnPath(s.attempts[i], h)
    requires ReliableStep(config, w, s, s', i, r)
    requires s.attempts[i].pc.Deadline? ==> r.Passed?
    ensures OnPath(s'.attempts[i], h) && Remaining(s'.attempts[i]) < Remaining(s.attempts[i])
    ensures Payable(config, w, s', i, h)
  {
    var a := s.attempts[i];
    KeysAreFree(config, w, s, i, h);
    if Checking(a.pc) {
      CheckingStays(config, w, s, a, h, r);
    } else if a.pc.ClaimMain? {
      ClaimStays(config, w, s, a, h, r);
    } else if Sponsoring(a.pc) {
      SponsoringStays(config, w, s, a, h, r);
    } else if a.pc.ExpiryLate? {
      ExpiryStays(config, w, s, a, h, r);
    } else {
      ReferenceStays(config, w, s, a, h, r);
    }
    MoveStaysPayable(config, w, s, s', i, h, r);
  }

  // ---------- recovery ----------

  ghost predicate AloneAt(config: Config, w: World, run: seq<State>, n: nat, i: AttemptId)
    requires 0 < n < |run|
  {
    || (EnvironmentStep(run[n - 1], run[n]) && SoundChain(w, run[n].chain))
    || HonestMove(config, w, run[n - 1], run[n], i)
  }

  /** Only the retry moves; the clock and the chain may go on, but not past its challenge's expiry. */
  ghost predicate AloneFrom(config: Config, w: World, run: seq<State>, start: nat, i: AttemptId) {
    && (forall n :: start <= n < |run| ==> i in run[n].attempts && run[n].now < run[n].attempts[i].cred.expires)
    && (forall n: nat :: start < n < |run| ==> AloneAt(config, w, run, n, i))
  }

  ghost predicate HonestMove(config: Config, w: World, s: State, s': State, i: AttemptId) {
    exists r: Reply :: HonestStep(config, w, s, s', i, r)
  }

  /** A reading of the fee payer's deadline answers yes or no. */
  ghost predicate HonestStep(config: Config, w: World, s: State, s': State, i: AttemptId, r: Reply) {
    && ReliableStep(config, w, s, s', i, r)
    && (s.attempts[i].pc.Deadline? ==> r.Passed?)
  }

  /** How often an attempt moved between the states `start` and `n`. */
  function Moves(run: seq<State>, start: nat, n: nat): nat
    requires n < |run|
  {
    if n <= start then 0
    else Moves(run, start, n - 1) + (if run[n - 1].attempts == run[n].attempts then 0 else 1)
  }

  ghost predicate Retrying(config: Config, w: World, s: State, i: AttemptId, h: string) {
    Payable(config, w, s, i, h) && OnPath(s.attempts[i], h)
  }

  lemma {:induction false} RetryingStays(config: Config, w: World, s: State, s': State, i: AttemptId, h: string)
    requires Retrying(config, w, s, i, h)
    requires i in s'.attempts && s'.now < s'.attempts[i].cred.expires
    requires (EnvironmentStep(s, s') && SoundChain(w, s'.chain)) || HonestMove(config, w, s, s', i)
    ensures Retrying(config, w, s', i, h)
    ensures Remaining(s'.attempts[i]) + (if s.attempts == s'.attempts then 0 else 1) <= Remaining(s.attempts[i])
  {
    if EnvironmentStep(s, s') && SoundChain(w, s'.chain) {
      EnvironmentKeeps(config, w, s, s');
    } else {
      var r: Reply :| HonestStep(config, w, s, s', i, r);
      RetryMoves(config, w, s, s', i, h, r);
    }
  }

  /** A property every step keeps while it counts down, at least by one when an attempt moves. */
  lemma {:induction false} CountsDown(run: seq<State>, start: nat, n: nat, left: State -> nat, good: State -> bool)
    requires start <= n < |run| && good(run[start])
    requires forall m :: start < m < |run| && good(run[m - 1]) ==>
      good(run[m]) && left(run[m]) + (if run[m - 1].attempts == run[m].attempts then 0 else 1) <= left(run[m - 1])
    ensures good(run[n]) && Moves(run, start, n) + left(run[n]) <= left(run[start])
    decreases n
  {
    if n == start {
    } else {
      CountsDown(run, start, n - 1, left, good);
    }
  }

  function Left(s: State, i: AttemptId): nat {
    if i in s.attempts then Remaining(s.attempts[i]) else 0
  }

  lemma {:induction false} RetryingRun(config: Config, w: World, run: seq<State>, start: nat, i: AttemptId, h: string)
    requires start < |run| && Retrying(config, w, run[start], i, h) && AloneFrom(config, w, run, start, i)
    ensures Retrying(config, w, run[|run| - 1], i, h)
    ensures Moves(run, start, |run| - 1) + Left(run[|run| - 1], i) <= Left(run[start], i)
  {
    var left, good := (s: State) => Left(s, i), (s: State) => Retrying(config, w, s, i, h);
    forall m | start < m < |run| && good(run[m - 1])
      ensures good(run[m])
      ensures left(run[m]) + (if run[m - 1].attempts == run[m].attempts then 0 else 1) <= left(run[m - 1])
    {
      assert AloneAt(config, w, run, m, i);
      RetryingStays(config, w, run[m - 1], run[m], i, h);
    }
    CountsDown(run, start, |run| - 1, left, good);
  }

  lemma {:induction false} StoppedOnPath(a: Attempt, h: string)
    requires OnPath(a, h) && a.Halted() && Names(a.cred, h)
    ensures CreditedFor(a, h)
  {
  }

  /** What a caller can check before retrying: the payment is on chain, nobody runs, nobody was credited. */
  ghost predicate ReadyToRetry(s: State, i: AttemptId, h: string) {
    && i in s.attempts && s.attempts[i] == Start(s.attempts[i].cred)
    && Lower(h) == h && Names(s.attempts[i].cred, h)
    && OnChain(s, s.attempts[i].cred, h, true, true)
    && s.now < s.attempts[i].cred.expires
    && (forall j :: j in s.attempts && j != i ==> s.attempts[j].Halted() && !CreditedFor(s.attempts[j], h))
  }

  lemma {:induction false} ReadyIsRetrying(config: Config, w: World, s: State, i: AttemptId, h: string)
    requires RInv(config, w, s) && ReadyToRetry(s, i, h) && PolicyAdmits(w, s.attempts[i].cred)
    ensures Retrying(config, w, s, i, h) && Left(s, i) <= 2 * s.attempts[i].cred.EnvelopeCount() + 13
  {
  }

  /** Where a sponsored attempt stays whose envelope the fee payer's policy rejects. */
  predicate BeforeAdmission(pc: PC) {
    Checking(pc) || pc.ClaimMain? || pc.Deadline? || pc.Late? || pc.CoSign? || pc.Releasing? || pc.Failed?
  }

  predicate HeldBack(w: World, a: Attempt) {
    a.cred.kind.Sponsored? && !PolicyAdmits(w, a.cred) ==> BeforeAdmission(a.pc)
  }

  lemma {:induction false} CheckingHeldBack(a: Attempt, r: Reply)
    requires Checking(a.pc) && a.cred.kind.Sponsored?
    ensures BeforeAdmission(ResumeChecking(a, r).pc)
  {
  }

  lemma {:induction false} SponsoringHeldBack(a: Attempt, r: Reply)
    requires (a.pc.Deadline? || a.pc.Late? || (a.pc.CoSign? && r != Passed(true))) && a.cred.kind.Sponsored?
    ensures BeforeAdmission(ResumeSponsoring(a, r).pc)
  {
  }

  lemma {:induction false} HeldBackStays(w: World, s: State, a: Attempt, r: Reply)
    requires !a.Halted() && HeldBack(w, a) && Reliable(w, s, a.cred, Pending(a), r)
    ensures HeldBack(w, Resume(a, r))
  {
    ResumeKeepsCred(a, r);
    if a.cred.kind.Sponsored? && !PolicyAdmits(w, a.cred) {
      if Checking(a.pc) {
        CheckingHeldBack(a, r);
      } else if Sponsoring(a.pc) {
        SponsoringHeldBack(a, r);
      }
    }
  }

  lemma {:induction false} RejectedIsHeldBack(config: Config, w: World, run: seq<State>, n: nat, i: AttemptId)
    requires IsReliableRun(config, w, run) && n < |run| && i in run[n].attempts
    ensures HeldBack(w, run[n].attempts[i])
  {
    if n == 0 {
    } else {
      var s, s' := run[n - 1], run[n];
      assert ReliableAt(config, w, run, n);
      if i in s.attempts {
        RejectedIsHeldBack(config, w, run, n - 1, i);
      }
      if j, r :| ReliableStep(config, w, s, s', j, r) {
        if j == i {
          HeldBackStays(w, s, s.attempts[i], r);
        }
      }
    }
  }

  lemma {:induction false} MoveKeepsCred(config: Config, w: World, s: State, s': State, i: AttemptId)
    requires HonestMove(config, w, s, s', i)
    ensures i in s.attempts && i in s'.attempts && s'.attempts[i].cred == s.attempts[i].cred
  {
    var r: Reply :| HonestStep(config, w, s, s', i, r);
    ResumeKeepsCred(s.attempts[i], r);
  }

  lemma {:induction false} AloneKeepsCred(config: Config, w: World, run: seq<State>, start: nat, n: nat, i: AttemptId)
    requires start <= n < |run| && AloneFrom(config, w, run, start, i)
    ensures i in run[n].attempts && run[n].attempts[i].cred == run[start].attempts[i].cred
  {
    if n == start {
    } else {
      AloneKeepsCred(config, w, run, start, n - 1, i);
      assert AloneAt(config, w, run, n, i);
      if HonestMove(config, w, run[n - 1], run[n], i) {
        MoveKeepsCred(config, w, run[n - 1], run[n], i);
      }
    }
  }

  /**
   From any reachable state in which everybody has stopped and nobody was credited: a retry that
   stops has succeeded for that very transaction, exactly if the fee payer's policy admits the
   envelope it would send (a question that arises only for a local fee payer). It then makes at most
   2 n + 13 calls, n being the fee tokens a local fee payer may use.
   */
  lemma {:induction false} LoneRetrySettles(config: Config, w: World, run: seq<State>, start: nat, i: AttemptId,
                                            h: string)
    requires IsReliableRun(config, w, run) && start < |run|
    requires ReadyToRetry(run[start], i, h)
    requires AloneFrom(config, w, run, start, i)
    ensures var a, a' := run[start].attempts[i], run[|run| - 1].attempts[i];
      && (a'.Halted() ==> (CreditedFor(a', h) <==> PolicyAdmits(w, a.cred)))
      && (PolicyAdmits(w, a.cred) ==> Moves(run, start, |run| - 1) <= 2 * a.cred.EnvelopeCount() + 13)
  {
    AloneKeepsCred(config, w, run, start, |run| - 1, i);
    if PolicyAdmits(w, run[start].attempts[i].cred) {
      ReliableRunKeeps(config, w, run, start);
      ReadyIsRetrying(config, w, run[start], i, h);
      RetryingRun(config, w, run, start, i, h);
      if run[|run| - 1].attempts[i].Halted() {
        StoppedOnPath(run[|run| - 1].attempts[i], h);
      }
    } else {
      RejectedIsHeldBack(config, w, run, |run| - 1, i);
    }
  }

  /** The retry is never stuck: until it has stopped, some reliable step is possible. */
  lemma {:induction false} RetryCanMove(config: Config, w: World, s: State, i: AttemptId)
    requires i in s.attempts && !s.attempts[i].Halted()
    ensures exists s': State :: HonestMove(config, w, s, s', i)
  {
    var a := s.attempts[i];
    var call := Pending(a);
    var step := if call.ClaimKey? then RefStep(s.store, ClaimOp(config, a.cred, call.key), s.now) else (s.store, Ack);
    var r := match call
      case GetKey(key) => Found(Live(s.store, key, s.now))
      case ClaimKey(key) => Claimed(step.1 == Accepted)
      case DeleteKey(_) => Deleted
      case Lookup(hash) => Mined(ReceiptOf(s.chain, hash))
      case ReadExpiry => Passed(s.now < a.cred.expires)
      case LocalCoSign => Passed(PolicyAdmits(w, a.cred))
      case _ => Passed(false);
    var store' := if call.DeleteKey? then s.store - {call.key} else step.0;
    var s' := s.(store := store', attempts := s.attempts[i := Resume(a, r)]);
    assert HonestStep(config, w, s, s', i, r);
    assert HonestMove(config, w, s, s', i);
  }
}
