/**
 What failed attempts leave behind, and why a retry settles a payment that is already on chain.

 Here the store and the node answer truthfully and no attempt crashes; simulations, sends, fee
 payers and the order of steps remain arbitrary.
 */
module Recovery {
  import opened Text
  import opened ReplayStore
  import opened Settlement

  /**
   How keys, transactions and challenges hang together: every key comes from one challenge, a
   challenge has one expiry, an envelope belongs to at most one sponsored transaction, and the fee
   payer's policy for an envelope's fee token admits it or not.
   */
  datatype World = World(
    challengeOf: Key -> string,
    expiryOf: string -> Time,
    sponsorTx: string -> Option<string>,
    admits: string -> bool)

  /** `hash` is a co-signed envelope of the sponsored transaction `cred` carries. */
  predicate IsEnvelope(w: World, cred: Credential, hash: string) {
    && cred.FeePayer()
    && w.sponsorTx(Lower(hash)) == Some(cred.kind.tx)
    && w.challengeOf(TxKey(Lower(hash))) == cred.challenge
  }

  /**
   What can be presented. A challenge's ID authenticates its expiry and whether it has a fee payer.
   Static validation ties a transaction or proof to the challenge of its credential; a bare hash may
   name any transaction, also one that pays another challenge.
   */
  predicate Consistent(w: World, cred: Credential) {
    && cred.WellFormed()
    && w.expiryOf(cred.challenge) == cred.expires
    && (!cred.kind.Hash? ==> w.challengeOf(cred.MainKey()) == cred.challenge)
    && (forall n :: 0 <= n < cred.EnvelopeCount() ==> IsEnvelope(w, cred, cred.Envelope(n)))
    && (cred.kind.Unsponsored? ==> w.sponsorTx(Lower(cred.kind.signedHash)).None?)
  }

  /** The policy check that follows co-signing, under the fee token selected for this attempt. */
  predicate PolicyAdmits(w: World, cred: Credential) {
    cred.kind.Sponsored? ==> w.admits(cred.Envelope(0))
  }

  /** Hashes are folded, and the expiring nonce lets at most one envelope of a transaction in. */
  ghost predicate OneEnvelope(w: World, chain: map<string, Receipt>) {
    && (forall h :: h in chain ==> Lower(h) == h)
    && (forall h, k :: h in chain && k in chain && w.sponsorTx(h).Some? && w.sponsorTx(h) == w.sponsorTx(k) ==> h == k)
  }

  /** The transfers of a transaction satisfy the charge of one challenge only. */
  ghost predicate PaysOneChallenge(w: World, chain: map<string, Receipt>) {
    forall h :: h in chain ==> chain[h].pays <= {w.challengeOf(TxKey(h))}
  }

  ghost predicate SoundChain(w: World, chain: map<string, Receipt>) {
    OneEnvelope(w, chain) && PaysOneChallenge(w, chain)
  }

  function ReceiptOf(chain: map<string, Receipt>, hash: string): Option<Receipt> {
    if Lower(hash) in chain then Some(chain[Lower(hash)]) else None
  }

  predicate Reliable(w: World, s: State, cred: Credential, call: Call, r: Reply) {
    && r != StoreError
    && match call
       case Lookup(hash) => r == Mined(ReceiptOf(s.chain, hash))
       case ReadExpiry => r == Passed(s.now < cred.expires)
       case LocalCoSign => r == Passed(PolicyAdmits(w, cred))
       case AskFeePayer => r.Signed? ==> IsEnvelope(w, cred, r.hash)
       case _ => true
  }

  ghost predicate ReliableStep(config: Config, w: World, s: State, s': State, i: AttemptId, r: Reply) {
    && AttemptStep(config, s, s', i, r)
    && Reliable(w, s, s.attempts[i].cred, Pending(s.attempts[i]), r)
  }

  ghost predicate ConsistentStart(w: World, s: State, s': State) {
    exists i: AttemptId, cred: Credential ::
      i !in s.attempts && Consistent(w, cred) && s' == s.(attempts := s.attempts[i := Start(cred)])
  }

  ghost predicate ReliableNext(config: Config, w: World, s: State, s': State) {
    || (EnvironmentStep(s, s') && SoundChain(w, s'.chain))
    || ConsistentStart(w, s, s')
    || (exists i, r :: ReliableStep(config, w, s, s', i, r))
  }

  ghost predicate ReliableAt(config: Config, w: World, run: seq<State>, n: nat)
    requires 0 < n < |run|
  {
    ReliableNext(config, w, run[n - 1], run[n])
  }

  ghost predicate IsReliableRun(config: Config, w: World, run: seq<State>) {
    && run != [] && Init(run[0]) && SoundChain(w, run[0].chain)
    && forall n: nat :: 0 < n < |run| ==> ReliableAt(config, w, run, n)
  }

  // ---------- what is known about each attempt ----------

  predicate OnChain(s: State, cred: Credential, hash: string, success: bool, pays: bool) {
    && Lower(hash) in s.chain
    && s.chain[Lower(hash)].success == success
    && (cred.challenge in s.chain[Lower(hash)].pays) == pays
  }

  /** The hash of the transaction this attempt pays with. */
  predicate OwnHash(w: World, cred: Credential, hash: string) {
    if cred.FeePayer() then IsEnvelope(w, cred, hash)
    else Lower(hash) == Lower(cred.NamedHash())
  }

  ghost predicate Credited(s: State, hash: string) {
    exists i :: i in s.attempts && s.attempts[i].pc.Succeeded? && !s.attempts[i].cred.kind.Proof?
      && Lower(s.attempts[i].pc.reference) == hash
  }

  /** The transaction was credited, or its replay key can no longer be claimed for this challenge. */
  ghost predicate Spent(config: Config, s: State, a: Attempt) {
    || Credited(s, Lower(a.reference))
    || (config.expireReplayKeys && a.cred.expires + REPLAY_CLAIM_EXPIRY_GRACE <= s.now)
  }

  /** Why an attempt that keeps its claim after failing can never pay. */
  ghost predicate Terminal(config: Config, w: World, s: State, a: Attempt)
    requires a.pc.Failed?
  {
    && OwnHash(w, a.cred, a.reference) && Lower(a.reference) in s.chain
    && match a.pc.failure
       case Reverted => !s.chain[Lower(a.reference)].success
       case ReceiptMismatch => a.cred.challenge !in s.chain[Lower(a.reference)].pays
       case AlreadyUsed => Spent(config, s, a)
       case _ => false
  }

  ghost predicate Knows(config: Config, w: World, s: State, a: Attempt) {
    LocalInv(a) && Facts(config, w, s, a)
  }

  ghost predicate Facts(config: Config, w: World, s: State, a: Attempt) {
    && Typed(a) && Consistent(w, a.cred)
    && (a.receipt.Some? ==> ReceiptOf(s.chain, a.signed) == a.receipt && OwnHash(w, a.cred, a.signed))
    && (a.cred.kind.Unsponsored? ==> a.signed == a.cred.NamedHash())
    && (a.receipt.Some? && a.cred.FeePayer() ==> !Checking(a.pc) && !a.pc.ClaimMain? && !Sponsoring(a.pc))
    && (a.cred.kind.Hash? && (a.pc.ExpiryEarly? || a.pc.ClaimMain?) ==>
          OnChain(s, a.cred, a.cred.NamedHash(), true, true))
    && match a.pc
       case FindEnvelope(_) => OwnHash(w, a.cred, a.signed)
       case Simulate => OwnHash(w, a.cred, a.signed)
       case ExpiryLate => OwnHash(w, a.cred, a.signed)
       case DeadlineLate => OwnHash(w, a.cred, a.signed)
       case Sending => OwnHash(w, a.cred, a.signed)
       case Confirming => OwnHash(w, a.cred, a.signed)
       case Awaiting => OwnHash(w, a.cred, a.reference)
       case ClaimReference => OwnHash(w, a.cred, a.reference) && OnChain(s, a.cred, a.reference, true, true)
       case Succeeded(reference) => !a.cred.kind.Proof? ==>
         OwnHash(w, a.cred, reference) && OnChain(s, a.cred, reference, true, true)
       case Failed(_) => a.included ==> Terminal(config, w, s, a)
       case Crashed => false
       case _ => true
  }

  function KeyDeadline(config: Config, w: World, key: Key): Option<Time> {
    if config.expireReplayKeys then Some(w.expiryOf(w.challengeOf(key)) + REPLAY_CLAIM_EXPIRY_GRACE) else None
  }

  /** Every stored key is somebody's. */
  ghost predicate Owned(s: State) {
    forall k :: k in s.store ==> exists i :: i in s.attempts && k in s.attempts[i].kept
  }

  ghost predicate RInv(config: Config, w: World, s: State) {
    && SoundChain(w, s.chain)
    && (forall i :: i in s.attempts ==> Knows(config, w, s, s.attempts[i]))
    && (forall key :: KeyInv(s, key, KeyDeadline(config, w, key)))
    && Owned(s)
  }

  /** Time passed, blocks were added, receipts were returned: nothing known is forgotten. */
  ghost predicate Grew(s: State, s': State) {
    && s.now <= s'.now
    && (forall h :: h in s.chain ==> h in s'.chain && s'.chain[h] == s.chain[h])
    && (forall h :: Credited(s, h) ==> Credited(s', h))
  }

  lemma {:induction false} KnowsGrows(config: Config, w: World, s: State, s': State, a: Attempt)
    requires Knows(config, w, s, a) && Grew(s, s')
    ensures Knows(config, w, s', a)
  {
  }

  /** Succeeded attempts are never touched again, so what was credited stays credited. */
  lemma {:induction false} CreditStays(s: State, s': State)
    requires forall i :: i in s.attempts && s.attempts[i].pc.Succeeded? ==>
        i in s'.attempts && s'.attempts[i] == s.attempts[i]
    ensures forall h :: Credited(s, h) ==> Credited(s', h)
  {
    forall h | Credited(s, h) ensures Credited(s', h) {
      var j :| j in s.attempts && s.attempts[j].pc.Succeeded? && !s.attempts[j].cred.kind.Proof?
        && Lower(s.attempts[j].pc.reference) == h;
      assert s'.attempts[j] == s.attempts[j];
    }
  }

  lemma {:induction false} OthersKnow(config: Config, w: World, s: State, s': State, i: AttemptId)
    requires forall j :: j in s.attempts ==> Knows(config, w, s, s.attempts[j])
    requires Grew(s, s') && i in s'.attempts && Knows(config, w, s, s'.attempts[i])
    requires forall j :: j in s'.attempts && j != i ==> j in s.attempts && s'.attempts[j] == s.attempts[j]
    ensures forall j :: j in s'.attempts ==> Knows(config, w, s', s'.attempts[j])
  {
    forall j | j in s'.attempts ensures Knows(config, w, s', s'.attempts[j]) {
      assert Knows(config, w, s, s'.attempts[j]);
      KnowsGrows(config, w, s, s', s'.attempts[j]);
    }
  }

  lemma {:induction false} SettleKnows(config: Config, w: World, s: State, a: Attempt, reference: string)
    requires MakesPayment(a) && Consistent(w, a.cred)
    requires a.cred.kind.Unsponsored? ==> a.signed == a.cred.NamedHash()
    requires OwnHash(w, a.cred, reference) && Lower(reference) in s.chain
    requires a.receipt.Some? ==> ReceiptOf(s.chain, a.signed) == a.receipt && OwnHash(w, a.cred, a.signed)
    ensures Facts(config, w, s, Settle(a, reference, s.chain[Lower(reference)]))
  {
  }

  lemma {:induction false} FetchKnows(config: Config, w: World, s: State, a: Attempt, r: Reply)
    requires a.pc.FetchHash? && !a.included
    requires Facts(config, w, s, a) && Reliable(w, s, a.cred, Pending(a), r)
    ensures Facts(config, w, s, ResumeChecking(a, r))
  {
  }

  /** A read that goes on only changes the program point; otherwise the attempt fails without a claim. */
  lemma {:induction false} GoesOn(config: Config, w: World, s: State, a: Attempt, pc: PC)
    requires Checking(a.pc) && Facts(config, w, s, a) && !a.included && a.claimed == []
    requires (pc.ReadSponsor? && a.cred.FeePayer()) || (pc.HostedSimulate? && a.cred.kind.Hosted?)
      || (pc.ClaimMain? && a.cred.FeePayer()) || (pc.ExpiryEarly? && !a.cred.kind.Hash?)
      || (pc.FindIncluded? && a.cred.kind.Unsponsored?) || pc.Failed?
    ensures Facts(config, w, s, a.(pc := pc))
  {
  }

  lemma {:induction false} ReadsKnow(config: Config, w: World, s: State, a: Attempt, r: Reply)
    requires a.pc.ReadLegacy? || a.pc.ReadSponsor? || a.pc.HostedSimulate?
    requires Facts(config, w, s, a) && !a.included && a.claimed == []
    ensures Facts(config, w, s, ResumeChecking(a, r))
  {
    GoesOn(config, w, s, a, ResumeChecking(a, r).pc);
  }

  lemma {:induction false} ValidateKnows(config: Config, w: World, s: State, a: Attempt, r: Reply)
    requires a.pc.Validate? || a.pc.ReadUsed?
    requires Facts(config, w, s, a) && !a.included && a.claimed == []
    ensures Facts(config, w, s, ResumeChecking(a, r))
  {
    GoesOn(config, w, s, a, ResumeChecking(a, r).pc);
  }

  lemma {:induction false} FindIncludedKnows(config: Config, w: World, s: State, a: Attempt, r: Reply)
    requires a.pc.FindIncluded?
    requires Facts(config, w, s, a) && Reliable(w, s, a.cred, Pending(a), r)
    ensures Facts(config, w, s, ResumeChecking(a, r))
  {
  }

  lemma {:induction false} ExpiryKnows(config: Config, w: World, s: State, a: Attempt, r: Reply)
    requires a.pc.ExpiryEarly? && !a.included && Facts(config, w, s, a)
    ensures Facts(config, w, s, ResumeChecking(a, r))
  {
    if r != Passed(true) {
      assert ResumeChecking(a, r) == Refuse(a, r);
    } else if a.cred.kind.Unsponsored? {
    }
  }

  lemma {:induction false} CheckingKnows(config: Config, w: World, s: State, a: Attempt, r: Reply)
    requires Checking(a.pc) && !a.included && a.claimed == []
    requires Facts(config, w, s, a) && Reliable(w, s, a.cred, Pending(a), r)
    ensures Facts(config, w, s, ResumeChecking(a, r))
  {
    if a.pc.FetchHash? {
      FetchKnows(config, w, s, a, r);
    } else if a.pc.FindIncluded? {
      FindIncludedKnows(config, w, s, a, r);
    } else if a.pc.ExpiryEarly? {
      ExpiryKnows(config, w, s, a, r);
    } else if a.pc.Validate? || a.pc.ReadUsed? {
      ValidateKnows(config, w, s, a, r);
    } else {
      ReadsKnow(config, w, s, a, r);
    }
  }

  lemma {:induction false} ClaimKnows(config: Config, w: World, s: State, a: Attempt, r: Reply)
    requires a.pc.ClaimMain? && LocalInv(a) && Facts(config, w, s, a)
    ensures Facts(config, w, s, ResumeClaim(a, r))
  {
    if a.cred.kind.Unsponsored? && r == Claimed(true) && a.receipt.Some? {
      SettleKnows(config, w, s, Win(a, a.cred.MainKey()).(claimed := [a.cred.MainKey()]), a.signed);
    }
  }

  lemma {:induction false} DeadlineKnows(config: Config, w: World, s: State, a: Attempt, r: Reply)
    requires a.pc.Deadline? && a.cred.FeePayer() && !a.included && Facts(config, w, s, a)
    ensures Facts(config, w, s, ResumeSponsoring(a, r))
  {
  }

  lemma {:induction false} LateKnows(config: Config, w: World, s: State, a: Attempt, r: Reply)
    requires a.pc.Late? && a.cred.FeePayer() && !a.included && Facts(config, w, s, a)
    ensures Facts(config, w, s, ResumeSponsoring(a, r))
  {
  }

  lemma {:induction false} CoSignKnows(config: Config, w: World, s: State, a: Attempt, r: Reply)
    requires (a.pc.CoSign? || a.pc.Fill?) && a.cred.FeePayer() && !a.included
    requires Facts(config, w, s, a) && Reliable(w, s, a.cred, Pending(a), r)
    ensures Facts(config, w, s, ResumeSponsoring(a, r))
  {
  }

  lemma {:induction false} EnvelopesKnow(config: Config, w: World, s: State, a: Attempt, r: Reply)
    requires a.pc.FindEnvelope? && a.cred.FeePayer()
    requires Facts(config, w, s, a) && Reliable(w, s, a.cred, Pending(a), r)
    ensures Facts(config, w, s, ResumeSponsoring(a, r))
  {
  }

  lemma {:induction false} SponsoringKnows(config: Config, w: World, s: State, a: Attempt, r: Reply)
    requires Sponsoring(a.pc) && a.cred.FeePayer() && !a.included
    requires Facts(config, w, s, a) && Reliable(w, s, a.cred, Pending(a), r)
    ensures Facts(config, w, s, ResumeSponsoring(a, r))
  {
    if a.pc.FindEnvelope? {
      EnvelopesKnow(config, w, s, a, r);
    } else if a.pc.CoSign? || a.pc.Fill? {
      CoSignKnows(config, w, s, a, r);
    } else if a.pc.Deadline? {
      DeadlineKnows(config, w, s, a, r);
    } else {
      LateKnows(config, w, s, a, r);
    }
  }

  lemma {:induction false} FinishingKnows(config: Config, w: World, s: State, a: Attempt, r: Reply)
    requires (a.pc.ExpiryLate? || a.pc.DeadlineLate?) && LocalInv(a) && Facts(config, w, s, a)
    ensures Facts(config, w, s, ResumeFinishing(a, r))
  {
    if r != Passed(true) {
      assert ResumeFinishing(a, r) == Refuse(a, r);
    } else if a.cred.FeePayer() && a.receipt.Some? {
      SettleKnows(config, w, s, a, a.signed);
    }
  }

  lemma {:induction false} SimulateKnows(config: Config, w: World, s: State, a: Attempt, r: Reply)
    requires a.pc.Simulate? && !a.included && Facts(config, w, s, a)
    ensures Facts(config, w, s, ResumeFinishing(a, r))
  {
    if r == Passed(true) {
      assert ResumeFinishing(a, r) == a.(pc := ExpiryLate);
    } else {
      assert ResumeFinishing(a, r) == Refuse(a, r);
    }
  }

  lemma {:induction false} SendKnows(config: Config, w: World, s: State, a: Attempt, r: Reply)
    requires a.pc.Sending? && !a.included && a.claimed != [] && Facts(config, w, s, a)
    ensures Facts(config, w, s, ResumeSending(a, r))
  {
  }

  lemma {:induction false} AwaitKnows(config: Config, w: World, s: State, a: Attempt, r: Reply)
    requires a.pc.Confirming? || a.pc.Awaiting?
    requires MakesPayment(a) && !a.included && Facts(config, w, s, a) && Reliable(w, s, a.cred, Pending(a), r)
    ensures Facts(config, w, s, ResumeSending(a, r))
  {
    if r.receipt.Some? {
      SettleKnows(config, w, s, a, if a.pc.Confirming? then a.signed else a.reference);
    }
  }

  lemma {:induction false} ClaimReferenceKnows(config: Config, w: World, s: State, a: Attempt, r: Reply)
    requires a.pc.ClaimReference? && LocalInv(a) && Facts(config, w, s, a) && r.Claimed?
    requires r == Claimed(false) ==> Spent(config, s, a)
    ensures Facts(config, w, s, ResumeSending(a, r))
  {
  }

  lemma {:induction false} SendingKnows(config: Config, w: World, s: State, a: Attempt, r: Reply)
    requires a.pc.Sending? || a.pc.Confirming? || a.pc.Awaiting? || a.pc.ClaimReference?
    requires LocalInv(a) && Facts(config, w, s, a) && Reliable(w, s, a.cred, Pending(a), r)
    requires a.pc.ClaimReference? ==> r.Claimed?
    requires a.pc.ClaimReference? && r == Claimed(false) ==> Spent(config, s, a)
    ensures Facts(config, w, s, ResumeSending(a, r))
  {
    if a.pc.Sending? {
      SendKnows(config, w, s, a, r);
    } else if a.pc.ClaimReference? {
      ClaimReferenceKnows(config, w, s, a, r);
    } else {
      AwaitKnows(config, w, s, a, r);
    }
  }

  lemma {:induction false} ReleasingKnows(config: Config, w: World, s: State, a: Attempt, r: Reply)
    requires a.pc.Releasing? && LocalInv(a) && Facts(config, w, s, a)
    ensures Facts(config, w, s, ResumeReleasing(a))
  {
  }

  /** The rest of an attempt, from the last checks before sending on. */
  lemma {:induction false} EndingKnows(config: Config, w: World, s: State, a: Attempt, r: Reply)
    requires !a.Halted() && !Checking(a.pc) && !a.pc.ClaimMain? && !Sponsoring(a.pc)
    requires LocalInv(a) && Facts(config, w, s, a) && Reliable(w, s, a.cred, Pending(a), r)
    requires a.pc.ClaimReference? ==> r.Claimed?
    requires a.pc.ClaimReference? && r == Claimed(false) ==> Spent(config, s, a)
    ensures Facts(config, w, s, Resume(a, r))
  {
    if a.pc.Simulate? {
      SimulateKnows(config, w, s, a, r);
    } else if Finishing(a.pc) {
      FinishingKnows(config, w, s, a, r);
    } else if a.pc.Releasing? {
      ReleasingKnows(config, w, s, a, r);
    } else {
      SendingKnows(config, w, s, a, r);
    }
  }

  lemma {:induction false} ResumeKnows(config: Config, w: World, s: State, a: Attempt, r: Reply)
    requires !a.Halted() && LocalInv(a) && Facts(config, w, s, a) && Reliable(w, s, a.cred, Pending(a), r)
    requires a.pc.ClaimReference? ==> r.Claimed?
    requires a.pc.ClaimReference? && r == Claimed(false) ==> Spent(config, s, a)
    ensures Facts(config, w, s, Resume(a, r))
  {
    if Checking(a.pc) {
      CheckingKnows(config, w, s, a, r);
    } else if a.pc.ClaimMain? {
      ClaimKnows(config, w, s, a, r);
    } else if Sponsoring(a.pc) {
      SponsoringKnows(config, w, s, a, r);
    } else {
      EndingKnows(config, w, s, a, r);
    }
  }

  // ---------- every reliable run ----------

  /** Only a success, or an unsponsored payment in the making, keeps a transaction's key. */
  lemma {:induction false} KeeperOfTxKey(config: Config, w: World, s: State, b: Attempt, hash: string)
    requires Knows(config, w, s, b) && TxKey(hash) in b.kept
    ensures (b.pc.Succeeded? && !b.cred.kind.Proof? && Lower(b.pc.reference) == hash)
         || (b.cred.kind.Unsponsored? && Lower(b.cred.kind.signedHash) == hash && b.kept == {b.cred.MainKey()})
  {
    if b.pc.Succeeded? {
      assert b.kept == {b.cred.MainKey(), b.cred.ReferenceKey(b.pc.reference)};
    } else {
      assert b.cred.MainKey() == TxKey(hash);
    }
  }

  lemma {:induction false} KeeperCredits(config: Config, w: World, s: State, a: Attempt, j: AttemptId, hash: string)
    requires j in s.attempts && Knows(config, w, s, s.attempts[j]) && TxKey(hash) in s.attempts[j].kept
    requires a.cred.FeePayer() && IsEnvelope(w, a.cred, hash) && Lower(hash) == hash
    ensures Credited(s, hash)
  {
    KeeperOfTxKey(config, w, s, s.attempts[j], hash);
  }

  lemma {:induction false} ReferenceIsEnvelope(config: Config, w: World, s: State, a: Attempt)
    requires Knows(config, w, s, a) && a.pc.ClaimReference?
    ensures a.cred.FeePayer() && IsEnvelope(w, a.cred, Lower(a.reference))
    ensures Lower(Lower(a.reference)) == Lower(a.reference)
  {
    LowerIdempotent(a.reference);
  }

  lemma {:induction false} OwnerOf(s: State, key: Key) returns (j: AttemptId)
    requires Owned(s) && key in s.store
    ensures j in s.attempts && key in s.attempts[j].kept
  {
    j :| j in s.attempts && key in s.attempts[j].kept;
  }

  /** If a claim is refused although the deadline has not passed, somebody holds the key. */
  lemma {:induction false} RefusedReferenceIsCredited(config: Config, w: World, s: State, i: AttemptId)
    requires RInv(config, w, s) && i in s.attempts && s.attempts[i].pc.ClaimReference?
    requires TxKey(Lower(s.attempts[i].reference)) in s.store
    ensures Credited(s, Lower(s.attempts[i].reference))
  {
    var a := s.attempts[i];
    ReferenceIsEnvelope(config, w, s, a);
    var j := OwnerOf(s, TxKey(Lower(a.reference)));
    KeeperCredits(config, w, s, a, j, Lower(a.reference));
  }

  lemma {:induction false} ClaimHasKeyDeadline(config: Config, w: World, s: State, a: Attempt, key: Key)
    requires Knows(config, w, s, a) && Claiming(a, key) && PaysOneChallenge(w, s.chain)
    ensures Until(config, a.cred) == KeyDeadline(config, w, key)
  {
  }

  lemma {:induction false} OwnedStep(config: Config, s: State, s': State, i: AttemptId, r: Reply)
    requires AttemptStep(config, s, s', i, r) && r != StoreError
    requires Owned(s) && Disciplined(s.attempts[i], Pending(s.attempts[i]), r, s'.attempts[i])
    ensures Owned(s')
  {
    var call := Pending(s.attempts[i]);
    forall k | k in s'.store
      ensures exists j :: j in s'.attempts && k in s'.attempts[j].kept
    {
      if call.ClaimKey? && r == Claimed(true) && k == call.key {
        assert k in s'.attempts[i].kept;
      } else {
        assert k in s.store;
        var j :| j in s.attempts && k in s.attempts[j].kept;
        assert k in s'.attempts[j].kept;
      }
    }
  }

  lemma {:induction false} AttemptLearns(config: Config, w: World, s: State, s': State, i: AttemptId, r: Reply)
    requires RInv(config, w, s) && ReliableStep(config, w, s, s', i, r)
    ensures Knows(config, w, s, s'.attempts[i])
    ensures Disciplined(s.attempts[i], Pending(s.attempts[i]), r, s'.attempts[i])
  {
    var a := s.attempts[i];
    assert Knows(config, w, s, a);
    ResumeDiscipline(a, r);
    if a.pc.ClaimReference? && r == Claimed(false) && TxKey(Lower(a.reference)) in s.store {
      RefusedReferenceIsCredited(config, w, s, i);
    }
    ResumeKnows(config, w, s, a, r);
  }

  lemma {:induction false} KeysStayHeld(config: Config, w: World, s: State, s': State, i: AttemptId, r: Reply, key: Key)
    requires KeyInv(s, key, KeyDeadline(config, w, key)) && AttemptStep(config, s, s', i, r)
    requires Knows(config, w, s, s.attempts[i]) && PaysOneChallenge(w, s.chain)
    requires Disciplined(s.attempts[i], Pending(s.attempts[i]), r, s'.attempts[i])
    ensures KeyInv(s', key, KeyDeadline(config, w, key))
  {
    var call := Pending(s.attempts[i]);
    if call == ClaimKey(key) {
      ClaimHasKeyDeadline(config, w, s, s.attempts[i], key);
    }
    ClaimStepKeepsInv(config, s, s', i, call, r, s'.attempts[i], key, KeyDeadline(config, w, key));
  }

  lemma {:induction false} ReliableStepKeeps(config: Config, w: World, s: State, s': State, i: AttemptId, r: Reply)
    requires RInv(config, w, s) && ReliableStep(config, w, s, s', i, r)
    ensures RInv(config, w, s')
  {
    AttemptLearns(config, w, s, s', i, r);
    forall key ensures KeyInv(s', key, KeyDeadline(config, w, key)) {
      KeysStayHeld(config, w, s, s', i, r, key);
    }
    OwnedStep(config, s, s', i, r);
    CreditStays(s, s');
    OthersKnow(config, w, s, s', i);
  }

  lemma {:induction false} EnvironmentKeeps(config: Config, w: World, s: State, s': State)
    requires RInv(config, w, s) && EnvironmentStep(s, s') && SoundChain(w, s'.chain)
    ensures RInv(config, w, s')
  {
    assert s'.attempts == s.attempts && s'.store == s.store;
    assert forall h :: Credited(s, h) ==> Credited(s', h);
    forall j | j in s'.attempts ensures Knows(config, w, s', s'.attempts[j]) {
      KnowsGrows(config, w, s, s', s'.attempts[j]);
    }
    forall key ensures KeyInv(s', key, KeyDeadline(config, w, key)) {
      ClaimsOutlastQuiet(s, s', key, KeyDeadline(config, w, key));
    }
  }

  lemma {:induction false} StillOwned(s: State, s': State)
    requires Owned(s) && s'.store == s.store
    requires forall j :: j in s.attempts ==> j in s'.attempts && s'.attempts[j] == s.attempts[j]
    ensures Owned(s')
  {
    forall k | k in s'.store
      ensures exists j :: j in s'.attempts && k in s'.attempts[j].kept
    {
      var j :| j in s.attempts && k in s.attempts[j].kept;
      assert k in s'.attempts[j].kept;
    }
  }

  lemma {:induction false} StartKeeps(config: Config, w: World, s: State, s': State, i: AttemptId, cred: Credential)
    requires RInv(config, w, s) && i !in s.attempts && Consistent(w, cred)
    requires s' == s.(attempts := s.attempts[i := Start(cred)])
    ensures RInv(config, w, s')
  {
    CreditStays(s, s');
    OthersKnow(config, w, s, s', i);
    StillOwned(s, s');
    forall key ensures KeyInv(s', key, KeyDeadline(config, w, key)) {
      ClaimsOutlastQuiet(s, s', key, KeyDeadline(config, w, key));
    }
  }

  lemma {:induction false} ReliableRunKeeps(config: Config, w: World, run: seq<State>, n: nat)
    requires IsReliableRun(config, w, run) && n < |run|
    ensures RInv(config, w, run[n])
    decreases n
  {
    if n == 0 {
    } else {
      ReliableRunKeeps(config, w, run, n - 1);
      var s, s' := run[n - 1], run[n];
      assert ReliableAt(config, w, run, n);
      if EnvironmentStep(s, s') && SoundChain(w, s'.chain) {
        EnvironmentKeeps(config, w, s, s');
      } else if ConsistentStart(w, s, s') {
        var i: AttemptId, cred: Credential :|
          i !in s.attempts && Consistent(w, cred) && s' == s.(attempts := s.attempts[i := Start(cred)]);
        StartKeeps(config, w, s, s', i, cred);
      } else {
        var i, r :| ReliableStep(config, w, s, s', i, r);
        ReliableStepKeeps(config, w, s, s', i, r);
      }
    }
  }

  /**
   Claim balance: a failed attempt has removed exactly the keys it claimed, unless its transaction
   was included and can never pay, when it keeps its main claim. So every stored key belongs to an
   attempt that is still running, has succeeded, or failed for good.
   */
  lemma {:induction false} ClaimsAreBalanced(config: Config, w: World, run: seq<State>)
    requires IsReliableRun(config, w, run)
    ensures var s := run[|run| - 1];
      && (forall i :: i in s.attempts && s.attempts[i].pc.Failed? ==>
            s.attempts[i].kept == if s.attempts[i].included then {s.attempts[i].cred.MainKey()} else {})
      && (forall i :: i in s.attempts && s.attempts[i].pc.Failed? && s.attempts[i].included ==>
            Terminal(config, w, s, s.attempts[i]))
      && (forall k :: k in s.store ==> exists i :: i in s.attempts && k in s.attempts[i].kept)
  {
    ReliableRunKeeps(config, w, run, |run| - 1);
    var s := run[|run| - 1];
    forall i | i in s.attempts && s.attempts[i].pc.Failed?
      ensures s.attempts[i].kept == if s.attempts[i].included then {s.attempts[i].cred.MainKey()} else {}
      ensures s.attempts[i].included ==> Terminal(config, w, s, s.attempts[i])
    {
      assert Knows(config, w, s, s.attempts[i]);
    }
  }
}
