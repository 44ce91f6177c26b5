/**
 Replay keys that expire: exactly when they still settle a payment once, for all time.

 What a server can rely on is stated about the credentials it is presented: its static validation of
 a transaction, and that two credentials which may claim one key have challenges of one expiry.
 */
module Deadlines {
  import opened Text
  import opened ReplayStore
  import opened Settlement

  /**
   A server and its world: the credentials it is presented, which challenges' charges the transfers of a
   transaction satisfy, which envelopes a hosted fee payer may answer for a transaction, and whether
   the clocks by which attempts judge expiry agree with the store's.
   */
  datatype Setting = Setting(config: Config, creds: iset<Credential>, pays: string -> set<string>,
                         fills: string -> set<string>, synchronized: bool)

  /** `h` is the hash of a transaction that this credential may settle with. */
  predicate Names(w: Setting, c: Credential, h: string) {
    match c.kind
    case Hash(x) => h == x
    case Proof => false
    case Unsponsored(x) => h == x
    case Sponsored(_, envelopes) => h in envelopes
    case Hosted(tx) => h in w.fills(tx)
  }

  ghost predicate NamesFolded(w: Setting, c: Credential, folded: string) {
    exists h :: Names(w, c, h) && Lower(h) == folded
  }

  /** Static validation: a transaction that is to be sent pays the charge of its credential's challenge. */
  ghost predicate Screened(w: Setting, c: Credential) {
    && c in w.creds && c.WellFormed() && 0 < c.expires
    && (!c.kind.Hash? ==> forall h :: Names(w, c, h) ==> c.challenge in w.pays(Lower(h)))
  }

  /** The keys an attempt on this credential may come to claim. */
  ghost predicate MayClaim(w: Setting, c: Credential, key: Key) {
    match key
    case TxKey(folded) => NamesFolded(w, c, folded) && c.challenge in w.pays(folded)
    case ProofKey(id) => c.kind.Proof? && c.challenge == id
    case SponsorKey(tx) => c.FeePayer() && c.kind.tx == tx
    case LegacyKey(_) => false
  }

  ghost predicate Claimant(w: Setting, key: Key, c: Credential) {
    Screened(w, c) && MayClaim(w, c, key)
  }

  /** The credentials that may claim `key` have one expiry. */
  ghost predicate Agreed(w: Setting, key: Key) {
    forall c, d :: Claimant(w, key, c) && Claimant(w, key, d) ==> c.expires == d.expires
  }

  // ---------- runs on which these credentials are presented ----------

  ghost predicate ChainPays(w: Setting, s: State) {
    forall h :: h in s.chain ==> s.chain[h].pays == w.pays(h)
  }

  /** Receipts come from the chain and envelopes from the fee payer. */
  predicate Truthful(w: Setting, s: State, c: Credential, call: Call, r: Reply) {
    match call
    case Lookup(hash) =>
      r.Mined? && r.receipt.Some? ==> Lower(hash) in s.chain && r.receipt.value == s.chain[Lower(hash)]
    case AskFeePayer => c.FeePayer() && (r.Signed? ==> r.hash in w.fills(c.kind.tx))
    case ReadExpiry => w.synchronized ==> r == Passed(s.now < c.expires)
    case _ => true
  }

  ghost predicate TruthfulStep(w: Setting, s: State, s': State, i: AttemptId, r: Reply) {
    AttemptStep(w.config, s, s', i, r) && Truthful(w, s, s.attempts[i].cred, Pending(s.attempts[i]), r)
  }

  ghost predicate ScreenedStart(w: Setting, s: State, s': State) {
    exists i: AttemptId, cred: Credential ::
      i !in s.attempts && Screened(w, cred) && s' == s.(attempts := s.attempts[i := Start(cred)])
  }

  ghost predicate PresentedNext(w: Setting, s: State, s': State) {
    || (EnvironmentStep(s, s') && ChainPays(w, s'))
    || ScreenedStart(w, s, s')
    || CrashStep(s, s')
    || (exists i, r :: TruthfulStep(w, s, s', i, r))
  }

  ghost predicate PresentedAt(w: Setting, run: seq<State>, n: nat)
    requires 0 < n < |run|
  {
    PresentedNext(w, run[n - 1], run[n])
  }

  /** A run in which every attempt is on one of `creds`. */
  ghost predicate Presents(w: Setting, run: seq<State>) {
    && run != [] && Init(run[0]) && ChainPays(w, run[0])
    && forall n: nat :: 0 < n < |run| ==> PresentedAt(w, run, n)
  }

  lemma {:induction false} PresentedIsNext(w: Setting, s: State, s': State)
    requires PresentedNext(w, s, s')
    ensures Next(w.config, s, s')
  {
    if ScreenedStart(w, s, s') {
      assert StartStep(s, s');
    } else if i, r :| TruthfulStep(w, s, s', i, r) {
      assert AttemptStep(w.config, s, s', i, r);
    }
  }

  lemma {:induction false} PresentedIsRun(w: Setting, run: seq<State>)
    requires Presents(w, run)
    ensures IsRun(w.config, run)
  {
    forall n: nat | 0 < n < |run| ensures NextAt(w.config, run, n) {
      assert PresentedAt(w, run, n);
      PresentedIsNext(w, run[n - 1], run[n]);
    }
  }

  // ---------- attempts claim only what their credential may claim ----------

  /** What each program point knows about the transaction the attempt settles with. */
  ghost predicate Own(w: Setting, a: Attempt) {
    && Screened(w, a.cred)
    && match a.pc
       case ExpiryEarly => HashPays(w, a.cred)
       case ClaimMain => HashPays(w, a.cred)
       case FindEnvelope(_) => SignedIsOwn(w, a)
       case Simulate => SignedIsOwn(w, a)
       case ExpiryLate => SignedIsOwn(w, a)
       case DeadlineLate => SignedIsOwn(w, a)
       case Sending => SignedIsOwn(w, a)
       case Confirming => SignedIsOwn(w, a)
       case Awaiting => a.cred.FeePayer() ==> NamesFolded(w, a.cred, Lower(a.reference))
       case ClaimReference => a.cred.FeePayer() ==> NamesFolded(w, a.cred, Lower(a.reference))
       case _ => true
  }

  predicate HashPays(w: Setting, c: Credential) {
    c.kind.Hash? ==> c.challenge in w.pays(Lower(c.kind.hash))
  }

  ghost predicate SignedIsOwn(w: Setting, a: Attempt) {
    a.cred.FeePayer() ==> NamesFolded(w, a.cred, Lower(a.signed))
  }

  lemma {:induction false} ClaimIsOwn(w: Setting, a: Attempt, key: Key)
    requires LocalInv(a) && Own(w, a) && Claiming(a, key)
    ensures Claimant(w, key, a.cred)
  {
    if a.pc.ClaimMain? && !a.cred.FeePayer() && !a.cred.kind.Proof? {
      assert Names(w, a.cred, a.cred.NamedHash());
    } else if a.pc.ClaimReference? {
      var h :| Names(w, a.cred, h) && Lower(h) == Lower(a.reference);
    }
  }

  lemma {:induction false} CheckingIsOwn(w: Setting, s: State, a: Attempt, r: Reply)
    requires Checking(a.pc) && LocalInv(a) && Typed(a) && Own(w, a) && ChainPays(w, s)
    requires Truthful(w, s, a.cred, Pending(a), r)
    ensures Own(w, ResumeChecking(a, r))
  {
  }

  lemma {:induction false} EnvelopeIsOwn(w: Setting, a: Attempt, r: Reply)
    requires (a.pc.CoSign? || a.pc.FindEnvelope?) && Typed(a) && Own(w, a)
    ensures Own(w, ResumeSponsoring(a, r))
  {
    if a.cred.kind.Sponsored? {
      assert Names(w, a.cred, a.cred.Envelope(if a.pc.CoSign? then 0 else a.pc.next));
    }
  }

  lemma {:induction false} FillIsOwn(w: Setting, s: State, a: Attempt, r: Reply)
    requires a.pc.Fill? && Typed(a) && Own(w, a) && Truthful(w, s, a.cred, Pending(a), r)
    ensures Own(w, ResumeSponsoring(a, r))
  {
    if r.Signed? {
      assert Names(w, a.cred, r.hash);
    }
  }

  lemma {:induction false} SponsoringIsOwn(w: Setting, s: State, a: Attempt, r: Reply)
    requires Sponsoring(a.pc) && LocalInv(a) && Typed(a) && Own(w, a)
    requires Truthful(w, s, a.cred, Pending(a), r)
    ensures Own(w, ResumeSponsoring(a, r))
  {
    if a.pc.CoSign? || a.pc.FindEnvelope? {
      EnvelopeIsOwn(w, a, r);
    } else if a.pc.Fill? {
      FillIsOwn(w, s, a, r);
    }
  }

  lemma {:induction false} FinishingIsOwn(w: Setting, a: Attempt, r: Reply)
    requires Finishing(a.pc) && LocalInv(a) && Own(w, a)
    ensures Own(w, ResumeFinishing(a, r))
  {
  }

  lemma {:induction false} SendingIsOwn(w: Setting, a: Attempt, r: Reply)
    requires a.pc.Sending? || a.pc.Confirming? || a.pc.Awaiting? || a.pc.ClaimReference?
    requires LocalInv(a) && Own(w, a)
    ensures Own(w, ResumeSending(a, r))
  {
  }

  lemma {:induction false} ClaimingIsOwn(w: Setting, a: Attempt, r: Reply)
    requires a.pc.ClaimMain? && LocalInv(a) && Own(w, a)
    ensures Own(w, ResumeClaim(a, r))
  {
  }

  lemma {:induction false} ResumeIsOwn(w: Setting, s: State, a: Attempt, r: Reply)
    requires !a.Halted() && LocalInv(a) && Typed(a) && Own(w, a) && ChainPays(w, s)
    requires Truthful(w, s, a.cred, Pending(a), r)
    ensures Own(w, Resume(a, r))
  {
    if Checking(a.pc) {
      CheckingIsOwn(w, s, a, r);
    } else if a.pc.ClaimMain? {
      ClaimingIsOwn(w, a, r);
    } else if Sponsoring(a.pc) {
      SponsoringIsOwn(w, s, a, r);
    } else if Finishing(a.pc) {
      FinishingIsOwn(w, a, r);
    } else if a.pc.Releasing? {
      assert ResumeReleasing(a).pc.Releasing? || ResumeReleasing(a).pc.Failed?;
    } else {
      SendingIsOwn(w, a, r);
    }
  }

  ghost predicate AllOwn(w: Setting, s: State) {
    && ChainPays(w, s) && LocalInvs(s)
    && forall i :: i in s.attempts ==> Typed(s.attempts[i]) && Own(w, s.attempts[i])
  }

  lemma {:induction false} StepKeepsOwn(w: Setting, s: State, s': State,
                                        i: AttemptId, r: Reply)
    requires AllOwn(w, s) && TruthfulStep(w, s, s', i, r)
    ensures AllOwn(w, s')
  {
    assert LocalInv(s.attempts[i]) && Own(w, s.attempts[i]);
    ResumeDiscipline(s.attempts[i], r);
    ResumeTyped(s.attempts[i], r);
    ResumeIsOwn(w, s, s.attempts[i], r);
  }

  lemma {:induction false} QuietKeepsOwn(w: Setting, s: State, s': State)
    requires AllOwn(w, s)
    requires (EnvironmentStep(s, s') && ChainPays(w, s')) || ScreenedStart(w, s, s') || CrashStep(s, s')
    ensures AllOwn(w, s')
  {
    forall i | i in s'.attempts ensures LocalInv(s'.attempts[i]) && Typed(s'.attempts[i]) && Own(w, s'.attempts[i])
    {
      if i in s.attempts && s'.attempts[i] != s.attempts[i] {
        CrashesClean(s.attempts[i]);
      } else if i !in s.attempts {
        StartsClean(s'.attempts[i].cred);
      }
    }
  }

  lemma {:induction false} PresentedOwn(w: Setting, run: seq<State>, n: nat)
    requires Presents(w, run) && n < |run|
    ensures AllOwn(w, run[n])
  {
    if n == 0 {
    } else {
      PresentedOwn(w, run, n - 1);
      assert PresentedAt(w, run, n);
      var s, s' := run[n - 1], run[n];
      if i, r :| TruthfulStep(w, s, s', i, r) {
        StepKeepsOwn(w, s, s', i, r);
      } else {
        QuietKeepsOwn(w, s, s');
      }
    }
  }

  // ---------- agreed keys ----------

  /** The deadline that all claims of an agreed key ask for. */
  lemma {:induction false} AgreedClaims(w: Setting, run: seq<State>, key: Key)
    returns (deadline: Option<Time>)
    requires Presents(w, run) && Agreed(w, key)
    ensures forall n :: 0 <= n < |run| ==> ClaimsAgree(w.config, run[n], key, deadline)
  {
    deadline := None;
    if c :| Claimant(w, key, c) {
      deadline := Until(w.config, c);
    }
    forall n | 0 <= n < |run| ensures ClaimsAgree(w.config, run[n], key, deadline) {
      PresentedOwn(w, run, n);
      forall i | i in run[n].attempts && Claiming(run[n].attempts[i], key)
        ensures Until(w.config, run[n].attempts[i].cred) == deadline
      {
        ClaimIsOwn(w, run[n].attempts[i], key);
      }
    }
  }

  lemma {:induction false} AgreedKeyInv(w: Setting, run: seq<State>, key: Key)
    returns (deadline: Option<Time>)
    requires Presents(w, run) && Agreed(w, key)
    ensures LocalInvs(run[|run| - 1]) && KeyInv(run[|run| - 1], key, deadline)
  {
    deadline := AgreedClaims(w, run, key);
    PresentedIsRun(w, run);
    RunKeepsInv(w.config, run, |run| - 1, key, deadline);
  }

  /** However late claims are and whatever expires: one success at most on a key whose claimants agree. */
  lemma {:induction false} AgreedSettlesOnce(w: Setting, run: seq<State>,
                                             key: Key)
    requires Presents(w, run) && Agreed(w, key)
    ensures AtMostOnceOn(run[|run| - 1], key)
  {
    var deadline := AgreedKeyInv(w, run, key);
    InvSettlesOnce(run[|run| - 1], key, deadline);
  }

  /** The transfers of a transaction satisfy the charge of one challenge only. */
  ghost predicate PaysOneChallenge(w: Setting) {
    forall folded, x, y :: x in w.pays(folded) && y in w.pays(folded) ==> x == y
  }

  /** A challenge's ID authenticates its expiry. */
  ghost predicate ChallengeFixesExpiry(w: Setting) {
    forall c, d :: Screened(w, c) && Screened(w, d) && c.challenge == d.challenge ==> c.expires == d.expires
  }

  lemma {:induction false} OneChallengeAgrees(w: Setting, key: Key)
    requires PaysOneChallenge(w) && ChallengeFixesExpiry(w) && (key.TxKey? || key.ProofKey?)
    ensures Agreed(w, key)
  {
    forall c, d | Claimant(w, key, c) && Claimant(w, key, d) ensures c.expires == d.expires {
      assert c.challenge == d.challenge;
    }
  }

  /**
   Expiring replay keys keep the promise for all time and under any delay: a transaction names one
   challenge and a challenge has one expiry, so a key expires for all who may claim it at once.
   */
  lemma {:induction false} SettledAtMostOnceExpiring(w: Setting, run: seq<State>)
    requires Presents(w, run) && PaysOneChallenge(w) && ChallengeFixesExpiry(w)
    ensures AtMostOnce(run[|run| - 1])
  {
    var s := run[|run| - 1];
    forall key ensures AtMostOnceOn(s, key) {
      if key.TxKey? || key.ProofKey? {
        OneChallengeAgrees(w, key);
        AgreedSettlesOnce(w, run, key);
      }
    }
  }

  /** However slow a release is, the key it deletes is one no other attempt relies on. */
  lemma {:induction false} ReleaseDeletesOwnClaimOnly(w: Setting,
                                                      run: seq<State>, i: AttemptId, j: AttemptId)
    requires Presents(w, run)
    requires var s := run[|run| - 1];
      && i in s.attempts && j in s.attempts && i != j && s.attempts[i].pc.Releasing?
      && Agreed(w, s.attempts[i].cred.MainKey())
    ensures var s := run[|run| - 1];
      && Pending(s.attempts[i]).DeleteKey? && Pending(s.attempts[i]).key in s.attempts[i].kept
      && Pending(s.attempts[i]).key !in s.attempts[j].kept
  {
    var s := run[|run| - 1];
    var deadline := AgreedKeyInv(w, run, s.attempts[i].cred.MainKey());
    ReleasesOwnKey(s.attempts[i]);
  }
}
