/**
 A payment that nothing stands in the way of is credited: a lone attempt whose checks pass, whose keys
 are free and whose transaction is mined, sent by itself or before, stops with success. And an attempt
 that hears a refusal, at whatever point, is never credited.
 */
module FreshPayment {
  import opened Text
  import opened ReplayStore
  import opened Settlement
  import opened Recovery
  import opened Retry

  // ---------- favourable answers ----------

  /** Checks pass, a hosted fee payer signs, and an accepted send is answered with the hash that was sent. */
  predicate Favourable(call: Call, r: Reply) {
    match call
    case Other => r == Passed(true)
    case AskFeePayer => r.Signed?
    case Send(hash) => r.Sent? ==> EqualFold(r.hash, hash)
    case _ => true
  }

  /** The attempt has sent its transaction, whether or not the node accepted it, and looks for its receipt. */
  predicate HasSent(a: Attempt) {
    a.pc.Awaiting? || a.pc.Confirming?
  }

  /** The attempt's transaction is on chain when the receipt it depends on is looked for. */
  predicate MinedInTime(s: State, a: Attempt) {
    && (HasSent(a) ==> Lower(a.signed) in s.chain)
    && (a.pc.FetchHash? ==> Lower(a.cred.NamedHash()) in s.chain)
  }

  ghost predicate FavourableStep(config: Config, w: World, s: State, s': State, i: AttemptId, r: Reply) {
    && ReliableStep(config, w, s, s', i, r)
    && Favourable(Pending(s.attempts[i]), r) && MinedInTime(s, s.attempts[i])
  }

  ghost predicate FavourableMove(config: Config, w: World, s: State, s': State, i: AttemptId) {
    exists r :: FavourableStep(config, w, s, s', i, r)
  }

  /** The attempt's own transaction succeeds and pays its challenge once mined, and the challenge lives. */
  ghost predicate Served(w: World, s: State, a: Attempt) {
    && (forall h :: h in s.chain && OwnHash(w, a.cred, h) ==>
          s.chain[h].success && a.cred.challenge in s.chain[h].pays)
    && s.now < a.cred.expires
  }

  ghost predicate PayingAt(config: Config, w: World, run: seq<State>, n: nat, i: AttemptId)
    requires 0 < n < |run|
  {
    || (EnvironmentStep(run[n - 1], run[n]) && SoundChain(w, run[n].chain))
    || FavourableMove(config, w, run[n - 1], run[n], i)
  }

  /** Only this attempt moves, the clock and the chain aside, and everything goes its way. */
  ghost predicate PaysAlone(config: Config, w: World, run: seq<State>, i: AttemptId) {
    && (forall n :: 0 <= n < |run| ==> i in run[n].attempts && Served(w, run[n], run[n].attempts[i]))
    && (forall n: nat :: 0 < n < |run| ==> PayingAt(config, w, run, n, i))
  }

  /** What a caller can check before: the attempt has not begun, and its keys are free. */
  ghost predicate ReadyToPay(config: Config, w: World, s: State, i: AttemptId) {
    && i in s.attempts && s.attempts[i] == Start(s.attempts[i].cred)
    && Consistent(w, s.attempts[i].cred) && PolicyAdmits(w, s.attempts[i].cred) && SoundChain(w, s.chain)
    && forall key :: Needs(w, s.attempts[i].cred, key) ==> !Live(s.store, key, s.now)
  }

  ghost predicate Needs(w: World, cred: Credential, key: Key) {
    || key == cred.MainKey()
    || key == LegacyKey(cred.challenge)
    || (exists h :: OwnHash(w, cred, h) && key == TxKey(Lower(h)))
  }

  // ---------- the way to success ----------

  /** The program points of such an attempt; it is never late, never fails and never releases. */
  predicate OnWay(a: Attempt) {
    match a.pc
    case Late(_) => false
    case Releasing(_) => false
    case Failed(_) => false
    case Crashed => false
    case _ => true
  }

  /** An upper bound on the calls still to make. */
  function Ahead(a: Attempt): nat {
    var n := a.cred.EnvelopeCount();
    match a.pc
    case ReadUsed => n + 20
    case FindIncluded => n + 19
    case FetchHash => n + 18
    case Validate => n + 18
    case ExpiryEarly => n + 17
    case ReadLegacy => n + 16
    case ReadSponsor => n + 15
    case HostedSimulate => n + 14
    case ClaimMain => if a.cred.FeePayer() then n + 13 else 6
    case Deadline => n + 12
    case CoSign => n + 11
    case Fill => n + 11
    case FindEnvelope(m) => 10 + if m <= n then n - m else 0
    case Simulate => 9
    case ExpiryLate => 8
    case DeadlineLate => 7
    case Sending => 5
    case Confirming => 4
    case Awaiting => 4
    case ClaimReference => 3
    case _ => 0
  }

  /** What the attempt has not claimed yet is free, and what it keeps is stored. */
  ghost predicate KeysInHand(w: World, s: State, a: Attempt) {
    && (forall key :: Needs(w, a.cred, key) && key !in a.kept ==> !Live(s.store, key, s.now))
    && (forall key :: key in a.kept ==> key in s.store)
  }

  /** The reference of a success is the transaction the attempt signed, or was given. */
  predicate RefersToSigned(a: Attempt) {
    match a.pc
    case Succeeded(reference) =>
      if a.cred.kind.Proof? then reference == a.cred.challenge else EqualFold(reference, a.signed)
    case ClaimReference => EqualFold(a.reference, a.signed)
    case Awaiting => EqualFold(a.reference, a.signed)
    case _ => a.cred.kind.Hash? ==> a.signed == a.cred.kind.hash
  }

  ghost predicate Underway(config: Config, w: World, s: State, a: Attempt) {
    && Knows(config, w, s, a) && OnWay(a) && KeysInHand(w, s, a)
    && PolicyAdmits(w, a.cred) && SoundChain(w, s.chain) && RefersToSigned(a)
  }

  predicate Nearer(a: Attempt, a': Attempt) {
    OnWay(a') && Ahead(a') < Ahead(a)
  }

  /** A receipt that the attempt finds for its own transaction is a good one. */
  lemma {:induction false} OwnReceiptIsGood(w: World, s: State, a: Attempt, hash: string)
    requires Served(w, s, a) && SoundChain(w, s.chain) && OwnHash(w, a.cred, hash)
    ensures var r := ReceiptOf(s.chain, hash); r.Some? ==> r.value.success && a.cred.challenge in r.value.pays
  {
    LowerIdempotent(hash);
    assert OwnHash(w, a.cred, Lower(hash));
  }

  lemma {:induction false} CheckingNears(config: Config, w: World, s: State, a: Attempt, r: Reply)
    requires Underway(config, w, s, a) && Served(w, s, a) && Checking(a.pc)
    requires Reliable(w, s, a.cred, Pending(a), r) && Favourable(Pending(a), r)
    requires Pending(a).GetKey? ==> r == Found(Live(s.store, Pending(a).key, s.now))
    requires MinedInTime(s, a)
    ensures Nearer(a, ResumeChecking(a, r))
  {
    assert Needs(w, a.cred, a.cred.MainKey()) && Needs(w, a.cred, LegacyKey(a.cred.challenge));
    if a.pc.FetchHash? {
      OwnReceiptIsGood(w, s, a, a.cred.NamedHash());
    }
  }

  /** Settling from a good receipt ends the attempt or leaves the claim of the reference. */
  lemma {:induction false} GoodReceiptSettles(a: Attempt, reference: string, receipt: Receipt)
    requires receipt.success && a.cred.challenge in receipt.pays
    ensures var a' := Settle(a, reference, receipt); OnWay(a') && Ahead(a') <= 3
  {
  }

  lemma {:induction false} ClaimIsWon(config: Config, w: World, s: State, a: Attempt, r: Reply)
    requires KeysInHand(w, s, a) && LocalInv(a) && a.pc.ClaimMain? && s.now < a.cred.expires
    requires r == Claimed(RefStep(s.store, ClaimOp(config, a.cred, a.cred.MainKey()), s.now).1 == Accepted)
    ensures r == Claimed(true)
  {
    assert Needs(w, a.cred, a.cred.MainKey());
  }

  lemma {:induction false} WonClaimNears(a: Attempt)
    requires a.pc.ClaimMain?
    requires a.receipt.Some? ==> a.receipt.value.success && a.cred.challenge in a.receipt.value.pays
    ensures Nearer(a, ResumeClaim(a, Claimed(true)))
  {
    if a.receipt.Some? && a.cred.kind.Unsponsored? {
      GoodReceiptSettles(Win(a, a.cred.MainKey()).(claimed := [a.cred.MainKey()]), a.signed, a.receipt.value);
    }
  }

  lemma {:induction false} ClaimNears(config: Config, w: World, s: State, a: Attempt, r: Reply)
    requires Underway(config, w, s, a) && Served(w, s, a) && a.pc.ClaimMain?
    requires r == Claimed(RefStep(s.store, ClaimOp(config, a.cred, a.cred.MainKey()), s.now).1 == Accepted)
    ensures r == Claimed(true) && Nearer(a, ResumeClaim(a, r))
  {
    ClaimIsWon(config, w, s, a, r);
    if a.receipt.Some? {
      OwnReceiptIsGood(w, s, a, a.signed);
    }
    WonClaimNears(a);
  }

  lemma {:induction false} EnvelopeNears(config: Config, w: World, s: State, a: Attempt, r: Reply)
    requires Underway(config, w, s, a) && a.pc.FindEnvelope?
    ensures Nearer(a, ResumeSponsoring(a, r))
  {
  }

  lemma {:induction false} SponsoringNears(config: Config, w: World, s: State, a: Attempt, r: Reply)
    requires Underway(config, w, s, a) && Sponsoring(a.pc)
    requires Reliable(w, s, a.cred, Pending(a), r) && Favourable(Pending(a), r)
    ensures Nearer(a, ResumeSponsoring(a, r))
  {
    if a.pc.FindEnvelope? {
      EnvelopeNears(config, w, s, a, r);
    }
  }

  lemma {:induction false} FinishingNears(config: Config, w: World, s: State, a: Attempt, r: Reply)
    requires Underway(config, w, s, a) && Served(w, s, a) && Finishing(a.pc)
    requires Reliable(w, s, a.cred, Pending(a), r) && Favourable(Pending(a), r)
    ensures Nearer(a, ResumeFinishing(a, r))
  {
    assert r == Passed(true);
    if a.receipt.Some? {
      OwnReceiptIsGood(w, s, a, a.signed);
      GoodReceiptSettles(a, a.signed, a.receipt.value);
    }
  }

  lemma {:induction false} SoughtIsOwn(config: Config, w: World, s: State, a: Attempt)
    requires Knows(config, w, s, a) && HasSent(a)
    ensures var hash := if a.pc.Awaiting? then a.reference else a.signed;
      Pending(a) == Lookup(hash) && Lower(hash) == Lower(a.signed) && OwnHash(w, a.cred, hash)
  {
  }

  lemma {:induction false} ReceiptNears(config: Config, w: World, s: State, a: Attempt, r: Reply)
    requires Underway(config, w, s, a) && Served(w, s, a) && HasSent(a)
    requires Reliable(w, s, a.cred, Pending(a), r)
    requires MinedInTime(s, a)
    ensures Nearer(a, ResumeSending(a, r))
  {
    var hash := if a.pc.Awaiting? then a.reference else a.signed;
    SoughtIsOwn(config, w, s, a);
    OwnReceiptIsGood(w, s, a, hash);
    GoodReceiptSettles(a, hash, r.receipt.value);
  }

  lemma {:induction false} ReferenceNears(config: Config, w: World, s: State, a: Attempt, r: Reply)
    requires Underway(config, w, s, a) && Served(w, s, a) && a.pc.ClaimReference?
    requires r == Claimed(RefStep(s.store, ClaimOp(config, a.cred, Pending(a).key), s.now).1 == Accepted)
    ensures r == Claimed(true) && Nearer(a, ResumeSending(a, r))
  {
    assert OwnHash(w, a.cred, a.reference) && Needs(w, a.cred, TxKey(Lower(a.reference)));
    assert a.kept == {a.cred.MainKey()};
  }

  lemma {:induction false} SendNears(a: Attempt, r: Reply)
    requires a.pc.Sending? && Favourable(Pending(a), r)
    ensures Nearer(a, ResumeSending(a, r))
  {
  }

  lemma {:induction false} AttemptNears(config: Config, w: World, s: State, s': State, i: AttemptId, r: Reply)
    requires FavourableStep(config, w, s, s', i, r)
    requires Underway(config, w, s, s.attempts[i]) && Served(w, s, s.attempts[i])
    ensures Nearer(s.attempts[i], s'.attempts[i])
    ensures Pending(s.attempts[i]).ClaimKey? ==> r == Claimed(true)
  {
    var a := s.attempts[i];
    if Checking(a.pc) {
      CheckingNears(config, w, s, a, r);
    } else if a.pc.ClaimMain? {
      ClaimNears(config, w, s, a, r);
    } else if Sponsoring(a.pc) {
      SponsoringNears(config, w, s, a, r);
    } else if Finishing(a.pc) {
      FinishingNears(config, w, s, a, r);
    } else if HasSent(a) {
      ReceiptNears(config, w, s, a, r);
    } else if a.pc.ClaimReference? {
      ReferenceNears(config, w, s, a, r);
    } else {
      SendNears(a, r);
    }
  }

  lemma {:induction false} NoDeletes(a: Attempt)
    requires !a.Halted() && OnWay(a)
    ensures !Pending(a).DeleteKey?
  {
  }

  lemma {:induction false} KeysStayInHand(config: Config, w: World, s: State, s': State, i: AttemptId, r: Reply)
    requires AttemptStep(config, s, s', i, r) && r != StoreError
    requires KeysInHand(w, s, s.attempts[i]) && !Pending(s.attempts[i]).DeleteKey?
    requires Disciplined(s.attempts[i], Pending(s.attempts[i]), r, s'.attempts[i])
    ensures KeysInHand(w, s', s'.attempts[i])
  {
  }

  lemma {:induction false} StepLearns(config: Config, w: World, s: State, s': State, i: AttemptId, r: Reply)
    requires ReliableStep(config, w, s, s', i, r) && Knows(config, w, s, s.attempts[i])
    requires Pending(s.attempts[i]).ClaimKey? ==> r == Claimed(true)
    ensures Facts(config, w, s, s'.attempts[i])
    ensures LocalInv(s'.attempts[i]) && Disciplined(s.attempts[i], Pending(s.attempts[i]), r, s'.attempts[i])
  {
    ResumeDiscipline(s.attempts[i], r);
    ResumeKnows(config, w, s, s.attempts[i], r);
  }

  lemma {:induction false} SameKnows(config: Config, w: World, s: State, s': State, a: Attempt)
    requires Knows(config, w, s, a) && OnWay(a) && s'.now >= s.now
    requires forall h :: h in s.chain ==> h in s'.chain && s'.chain[h] == s.chain[h]
    ensures Knows(config, w, s', a)
  {
  }

  lemma {:induction false} CheckingWithSigned(a: Attempt, r: Reply)
    requires Checking(a.pc) && Typed(a) && RefersToSigned(a)
    ensures RefersToSigned(ResumeChecking(a, r))
  {
  }

  lemma {:induction false} SettlesWithSigned(a: Attempt, reference: string, receipt: Receipt)
    requires !a.cred.kind.Proof? && !a.cred.kind.Hash? && EqualFold(reference, a.signed)
    ensures RefersToSigned(Settle(a, reference, receipt))
  {
  }

  lemma {:induction false} ClaimingWithSigned(a: Attempt, r: Reply)
    requires a.pc.ClaimMain? && RefersToSigned(a)
    ensures RefersToSigned(ResumeClaim(a, r))
  {
    if a.cred.kind.Unsponsored? && a.receipt.Some? {
      SettlesWithSigned(Win(a, a.cred.MainKey()).(claimed := [a.cred.MainKey()]), a.signed, a.receipt.value);
    }
  }

  lemma {:induction false} SponsoringWithSigned(a: Attempt, r: Reply)
    requires Sponsoring(a.pc) && LocalInv(a)
    ensures RefersToSigned(ResumeSponsoring(a, r))
  {
  }

  lemma {:induction false} FinishingWithSigned(a: Attempt, r: Reply)
    requires Finishing(a.pc) && LocalInv(a)
    ensures RefersToSigned(ResumeFinishing(a, r))
  {
    if a.receipt.Some? && a.cred.FeePayer() {
      SettlesWithSigned(a, a.signed, a.receipt.value);
    }
  }

  lemma {:induction false} SendingWithSigned(a: Attempt, r: Reply)
    requires a.pc.Sending? || a.pc.Confirming? || a.pc.Awaiting? || a.pc.ClaimReference?
    requires LocalInv(a) && RefersToSigned(a)
    ensures RefersToSigned(ResumeSending(a, r))
  {
    if HasSent(a) && r.Mined? && r.receipt.Some? {
      SettlesWithSigned(a, if a.pc.Awaiting? then a.reference else a.signed, r.receipt.value);
    }
  }

  lemma {:induction false} StaysWithSigned(a: Attempt, r: Reply)
    requires !a.Halted() && OnWay(a) && LocalInv(a) && Typed(a) && RefersToSigned(a)
    ensures RefersToSigned(Resume(a, r))
  {
    if Checking(a.pc) {
      CheckingWithSigned(a, r);
    } else if a.pc.ClaimMain? {
      ClaimingWithSigned(a, r);
    } else if Sponsoring(a.pc) {
      SponsoringWithSigned(a, r);
    } else if Finishing(a.pc) {
      FinishingWithSigned(a, r);
    } else {
      SendingWithSigned(a, r);
    }
  }

  lemma {:induction false} MoveStaysUnderway(config: Config, w: World, s: State, s': State, i: AttemptId, r: Reply)
    requires FavourableStep(config, w, s, s', i, r)
    requires Underway(config, w, s, s.attempts[i]) && Served(w, s, s.attempts[i])
    ensures Underway(config, w, s', s'.attempts[i]) && Ahead(s'.attempts[i]) < Ahead(s.attempts[i])
  {
    AttemptNears(config, w, s, s', i, r);
    StaysWithSigned(s.attempts[i], r);
    StepLearns(config, w, s, s', i, r);
    SameKnows(config, w, s, s', s'.attempts[i]);
    NoDeletes(s.attempts[i]);
    KeysStayInHand(config, w, s, s', i, r);
  }

  lemma {:induction false} WaitStaysUnderway(config: Config, w: World, s: State, s': State, a: Attempt)
    requires EnvironmentStep(s, s') && SoundChain(w, s'.chain) && Underway(config, w, s, a)
    ensures Underway(config, w, s', a)
  {
    SameKnows(config, w, s, s', a);
    forall key | !Live(s.store, key, s.now) ensures !Live(s'.store, key, s'.now) {
    }
  }

  lemma {:induction false} ReadyIsUnderway(config: Config, w: World, s: State, i: AttemptId)
    requires ReadyToPay(config, w, s, i)
    ensures Underway(config, w, s, s.attempts[i]) && Ahead(s.attempts[i]) <= s.attempts[i].cred.EnvelopeCount() + 20
  {
  }

  lemma {:induction false} PayingRun(config: Config, w: World, run: seq<State>, n: nat, i: AttemptId)
    requires n < |run| && PaysAlone(config, w, run, i) && ReadyToPay(config, w, run[0], i)
    ensures Underway(config, w, run[n], run[n].attempts[i]) && run[n].attempts[i].cred == run[0].attempts[i].cred
    ensures Moves(run, 0, n) + Ahead(run[n].attempts[i]) <= Ahead(run[0].attempts[i])
  {
    if n == 0 {
      ReadyIsUnderway(config, w, run[0], i);
    } else {
      PayingRun(config, w, run, n - 1, i);
      PayingStep(config, w, run, n, i);
    }
  }

  lemma {:induction false} PayingStep(config: Config, w: World, run: seq<State>, n: nat, i: AttemptId)
    requires 0 < n < |run| && PaysAlone(config, w, run, i)
    requires Underway(config, w, run[n - 1], run[n - 1].attempts[i])
    ensures Underway(config, w, run[n], run[n].attempts[i]) && run[n].attempts[i].cred == run[n - 1].attempts[i].cred
    ensures Ahead(run[n].attempts[i]) + (if run[n - 1].attempts == run[n].attempts then 0 else 1)
         <= Ahead(run[n - 1].attempts[i])
  {
    var s, s' := run[n - 1], run[n];
    assert PayingAt(config, w, run, n, i);
    if r :| FavourableStep(config, w, s, s', i, r) {
      MoveStaysUnderway(config, w, s, s', i, r);
      ResumeKeepsCred(s.attempts[i], r);
    } else {
      WaitStaysUnderway(config, w, s, s', s.attempts[i]);
    }
  }

  /** Credited for its own transaction, the one it signed, or for its own challenge; and its claims stand. */
  ghost predicate Credit(w: World, s: State, a: Attempt) {
    && a.pc.Succeeded?
    && (if a.cred.kind.Proof? then a.pc.reference == a.cred.challenge
        else OwnHash(w, a.cred, a.pc.reference) && EqualFold(a.pc.reference, a.signed)
             && OnChain(s, a.cred, a.pc.reference, true, true))
    && a.cred.MainKey() in s.store && a.cred.ReferenceKey(a.pc.reference) in s.store
  }

  lemma {:induction false} SuccessIsCredit(config: Config, w: World, s: State, a: Attempt)
    requires Underway(config, w, s, a) && a.Halted()
    ensures Credit(w, s, a)
  {
    assert a.kept == {a.cred.MainKey(), a.cred.ReferenceKey(a.pc.reference)};
  }

  /**
   A fresh payment is credited: from any state in which its keys are free, a lone attempt whose checks
   pass makes at most n + 20 calls, n being the fee tokens a local fee payer may use, and when it stops
   it has succeeded for its own transaction, sent with or without an answer, or for its own challenge.
   */
  lemma {:induction false} FreshPaymentSettles(config: Config, w: World, run: seq<State>, i: AttemptId)
    requires run != [] && PaysAlone(config, w, run, i) && ReadyToPay(config, w, run[0], i)
    ensures var s := run[|run| - 1];
      && (s.attempts[i].Halted() ==> Credit(w, s, s.attempts[i]))
      && Moves(run, 0, |run| - 1) <= run[0].attempts[i].cred.EnvelopeCount() + 20
  {
    PayingRun(config, w, run, |run| - 1, i);
    ReadyIsUnderway(config, w, run[0], i);
    var s := run[|run| - 1];
    if s.attempts[i].Halted() {
      SuccessIsCredit(config, w, s, s.attempts[i]);
    }
  }

  /** Such a payment is never stuck: until it has stopped, a favourable step is possible once it is mined. */
  lemma {:induction false} FreshCanMove(config: Config, w: World, s: State, i: AttemptId, h: string)
    requires i in s.attempts && !s.attempts[i].Halted() && s.now < s.attempts[i].cred.expires
    requires PolicyAdmits(w, s.attempts[i].cred) && MinedInTime(s, s.attempts[i])
    requires s.attempts[i].cred.kind.Hosted? ==> IsEnvelope(w, s.attempts[i].cred, h)
    requires Typed(s.attempts[i])
    ensures exists s': State :: FavourableMove(config, w, s, s', i)
  {
    var a := s.attempts[i];
    var call := Pending(a);
    var step := if call.ClaimKey? then RefStep(s.store, ClaimOp(config, a.cred, call.key), s.now) else (s.store, Ack);
    var r := match call
      case GetKey(key) => Found(Live(s.store, key, s.now))
      case ClaimKey(key) => Claimed(step.1 == Accepted)
      case DeleteKey(_) => Deleted
      case Lookup(hash) => Mined(ReceiptOf(s.chain, hash))
      case Send(hash) => Sent(hash)
      case AskFeePayer => Signed(h)
      case _ => Passed(true);
    var store' := if call.DeleteKey? then s.store - {call.key} else step.0;
    var s' := s.(store := store', attempts := s.attempts[i := Resume(a, r)]);
    assert FavourableStep(config, w, s, s', i, r);
    assert FavourableMove(config, w, s, s', i);
  }

  // ---------- refusals ----------

  predicate GoodReceipt(cred: Credential, r: Reply) {
    r.Mined? && r.receipt.Some? && r.receipt.value.success && cred.challenge in r.receipt.value.pays
  }

  predicate BadReceipt(cred: Credential, r: Reply) {
    r.Mined? && r.receipt.Some? && !GoodReceipt(cred, r)
  }

  /** What an attempt must not hear at each point if it is to be credited. */
  predicate Refuses(a: Attempt, r: Reply) {
    match a.pc
    case FetchHash => !GoodReceipt(a.cred, r)
    case Validate => r != Passed(true)
    case ReadUsed => r != Found(false)
    case FindIncluded => BadReceipt(a.cred, r)
    case ExpiryEarly => r != Passed(true)
    case ReadLegacy => r != Found(false)
    case ReadSponsor => r != Found(false)
    case HostedSimulate => r != Passed(true)
    case ClaimMain => r != Claimed(true)
    case Deadline => if a.cred.kind.Hosted? then r != Passed(true) else !r.Passed?
    case Late(n) => !(r.Mined? && r.receipt.Some?) && n + 1 >= a.cred.EnvelopeCount()
    case CoSign => r != Passed(true)
    case Fill => !r.Signed?
    case FindEnvelope(_) => BadReceipt(a.cred, r)
    case Simulate => r != Passed(true)
    case ExpiryLate => r != Passed(true)
    case DeadlineLate => r != Passed(true)
    case Sending => r.Sent? && !EqualFold(r.hash, a.signed)
    case Confirming => !GoodReceipt(a.cred, r)
    case Awaiting => !GoodReceipt(a.cred, r)
    case ClaimReference => r != Claimed(true)
    case _ => false
  }

  /** Why: what the store, the receipt or the lack of one says, and rejection in all other cases. */
  function Reason(a: Attempt, r: Reply): Failure {
    if r == Found(true) || r == Claimed(false) then AlreadyUsed
    else if r.Mined? && r.receipt.Some? then (if r.receipt.value.success then ReceiptMismatch else Reverted)
    else if HasSent(a) then OutcomeUnknown
    else if r == StoreError && !a.pc.Late? then StoreFailed
    else Rejected
  }

  /** The attempt has failed, is about to, or holds a receipt it can only fail on. */
  predicate Doomed(a: Attempt) {
    || a.pc.Failed? || a.pc.Releasing? || a.pc.Crashed?
    || (&& a.receipt.Some? && !(a.receipt.value.success && a.cred.challenge in a.receipt.value.pays)
        && (a.pc.ExpiryLate? || (a.cred.kind.Unsponsored? && (a.pc.ExpiryEarly? || a.pc.ClaimMain?))))
  }

  /** The kinds of answers that calls have. */
  predicate Fits(call: Call, r: Reply) {
    match call
    case GetKey(_) => r.Found? || r == StoreError
    case ClaimKey(_) => r.Claimed? || r == StoreError
    case DeleteKey(_) => r == Deleted || r == StoreError
    case Lookup(_) => r.Mined?
    case Send(_) => r.Sent? || r == SendFailed
    case AskFeePayer => r.Signed? || r.Passed?
    case _ => r.Passed?
  }

  predicate FailsFor(a: Attempt, failure: Failure) {
    a.pc == PC.Failed(failure) || a.pc == Releasing(failure)
  }

  predicate FoundEarly(a: Attempt) {
    a.pc.FindIncluded? || a.pc.FindEnvelope?
  }

  lemma {:induction false} CheckingRefuses(a: Attempt, r: Reply)
    requires Checking(a.pc) && Typed(a) && Refuses(a, r)
    ensures Doomed(ResumeChecking(a, r))
    ensures Fits(Pending(a), r) && !FoundEarly(a) ==> FailsFor(ResumeChecking(a, r), Reason(a, r))
  {
  }

  lemma {:induction false} ClaimRefuses(a: Attempt, r: Reply)
    requires a.pc.ClaimMain? && Refuses(a, r)
    ensures Doomed(ResumeClaim(a, r))
    ensures Fits(Pending(a), r) ==> FailsFor(ResumeClaim(a, r), Reason(a, r))
  {
  }

  lemma {:induction false} SponsoringRefuses(a: Attempt, r: Reply)
    requires Sponsoring(a.pc) && Refuses(a, r)
    ensures Doomed(ResumeSponsoring(a, r))
    ensures Fits(Pending(a), r) && !FoundEarly(a) ==> FailsFor(ResumeSponsoring(a, r), Reason(a, r))
  {
  }

  lemma {:induction false} FinishingRefuses(a: Attempt, r: Reply)
    requires Finishing(a.pc) && Refuses(a, r)
    ensures Doomed(ResumeFinishing(a, r))
    ensures Fits(Pending(a), r) ==> FailsFor(ResumeFinishing(a, r), Reason(a, r))
  {
    assert ResumeFinishing(a, r) == Refuse(a, r);
  }

  lemma {:induction false} SendingRefuses(a: Attempt, r: Reply)
    requires a.pc.Sending? || a.pc.Confirming? || a.pc.Awaiting? || a.pc.ClaimReference?
    requires Refuses(a, r)
    ensures Doomed(ResumeSending(a, r))
    ensures Fits(Pending(a), r) ==> FailsFor(ResumeSending(a, r), Reason(a, r))
  {
  }

  /** A refusal fails the attempt at once and for that reason, a receipt found early at the latest when used. */
  lemma {:induction false} RefusalDooms(a: Attempt, r: Reply)
    requires !a.Halted() && Typed(a) && Refuses(a, r)
    ensures Doomed(Resume(a, r))
    ensures Fits(Pending(a), r) && !FoundEarly(a) ==> FailsFor(Resume(a, r), Reason(a, r))
  {
    if Checking(a.pc) {
      CheckingRefuses(a, r);
    } else if a.pc.ClaimMain? {
      ClaimRefuses(a, r);
    } else if Sponsoring(a.pc) {
      SponsoringRefuses(a, r);
    } else if Finishing(a.pc) {
      FinishingRefuses(a, r);
    } else {
      SendingRefuses(a, r);
    }
  }

  lemma {:induction false} DoomedWithReceipt(a: Attempt, r: Reply)
    requires !a.Halted() && Typed(a) && Doomed(a) && !a.pc.Releasing?
    ensures Doomed(Resume(a, r))
  {
    if Checking(a.pc) {
      assert Doomed(ResumeChecking(a, r));
    } else if a.pc.ClaimMain? {
      assert Doomed(ResumeClaim(a, r));
    } else {
      assert Doomed(ResumeFinishing(a, r));
    }
  }

  lemma {:induction false} StaysDoomed(a: Attempt, r: Reply)
    requires !a.Halted() && Typed(a) && Doomed(a)
    ensures Doomed(Resume(a, r))
  {
    if a.pc.Releasing? {
      assert Doomed(ResumeReleasing(a));
    } else {
      DoomedWithReceipt(a, r);
    }
  }

  /** Whatever the others do, an attempt that was refused is never credited. */
  lemma {:induction false} NextStaysDoomed(config: Config, s: State, s': State, i: AttemptId)
    requires Next(config, s, s') && i in s.attempts && LocalInv(s.attempts[i])
    requires Typed(s.attempts[i]) && Doomed(s.attempts[i])
    ensures i in s'.attempts && Doomed(s'.attempts[i])
  {
    if j, r :| AttemptStep(config, s, s', j, r) {
      if j == i {
        StaysDoomed(s.attempts[i], r);
      }
    }
  }

  predicate InShape(a: Attempt) {
    LocalInv(a) && Typed(a) && a.cred.WellFormed()
  }

  ghost predicate AllInShape(s: State) {
    forall i :: i in s.attempts ==> InShape(s.attempts[i])
  }

  lemma {:induction false} NextKeepsShape(config: Config, s: State, s': State)
    requires Next(config, s, s') && AllInShape(s)
    ensures AllInShape(s')
  {
    forall i | i in s'.attempts ensures InShape(s'.attempts[i]) {
      if i !in s.attempts {
        StartsClean(s'.attempts[i].cred);
      } else if s'.attempts[i] == s.attempts[i] {
      } else if s'.attempts[i] == s.attempts[i].(pc := Crashed) {
        CrashesClean(s.attempts[i]);
      } else {
        var r :| AttemptStep(config, s, s', i, r);
        ResumeDiscipline(s.attempts[i], r);
        ResumeTyped(s.attempts[i], r);
      }
    }
  }

  lemma {:induction false} RunKeepsShape(config: Config, run: seq<State>, n: nat)
    requires IsRun(config, run) && n < |run|
    ensures AllInShape(run[n])
  {
    if n == 0 {
    } else {
      RunKeepsShape(config, run, n - 1);
      assert NextAt(config, run, n);
      NextKeepsShape(config, run[n - 1], run[n]);
    }
  }

  /** In every run, whatever the others do: who heard a refusal at `m` is doomed, hence not credited, ever after. */
  lemma {:induction false} RefusedIsNeverCredited(config: Config, run: seq<State>, m: nat, n: nat, i: AttemptId,
                                                  r: Reply)
    requires IsRun(config, run) && m < n < |run|
    requires AttemptStep(config, run[m], run[m + 1], i, r) && Refuses(run[m].attempts[i], r)
    ensures i in run[n].attempts && Doomed(run[n].attempts[i]) && !run[n].attempts[i].pc.Succeeded?
  {
    if n == m + 1 {
      RunKeepsShape(config, run, m);
      RefusalDooms(run[m].attempts[i], r);
    } else {
      RefusedIsNeverCredited(config, run, m, n - 1, i, r);
      RunKeepsShape(config, run, n - 1);
      assert NextAt(config, run, n - 1 + 1);
      NextStaysDoomed(config, run[n - 1], run[n], i);
    }
  }

  /** So nothing an attempt that is credited at `n` has heard before was a refusal. */
  lemma {:induction false} CreditedHeardNoRefusal(config: Config, run: seq<State>, n: nat, i: AttemptId)
    requires IsRun(config, run) && n < |run| && i in run[n].attempts && run[n].attempts[i].pc.Succeeded?
    ensures forall m: nat, r :: m < n && AttemptStep(config, run[m], run[m + 1], i, r) ==>
      !Refuses(run[m].attempts[i], r)
  {
    forall m: nat, r | m < n && AttemptStep(config, run[m], run[m + 1], i, r)
      ensures !Refuses(run[m].attempts[i], r)
    {
      if Refuses(run[m].attempts[i], r) {
        RefusedIsNeverCredited(config, run, m, n, i, r);
      }
    }
  }
}
