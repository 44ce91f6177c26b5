/**
 Two credentials that may claim one expiring replay key under different expiries are both settled in
 some run: the second one's claim, delayed until the first one's key has expired, is accepted.
 */
module DeadlineConflicts {
  import opened Text
  import opened ReplayStore
  import opened Settlement
  import opened Deadlines
  import opened SharedTransaction

  // ---------- reachable states ----------

  ghost predicate IsPath(w: Setting, path: seq<State>, s: State, s': State) {
    && path != [] && path[0] == s && path[|path| - 1] == s'
    && forall n: nat :: 0 < n < |path| ==> PresentedAt(w, path, n)
  }

  ghost predicate Reaches(w: Setting, s: State, s': State) {
    exists path :: IsPath(w, path, s, s')
  }

  lemma {:induction false} ReachesItself(w: Setting, s: State)
    ensures Reaches(w, s, s)
  {
    assert IsPath(w, [s], s, s);
  }

  lemma {:induction false} ReachesNext(w: Setting, s0: State, s: State, s': State)
    requires Reaches(w, s0, s) && PresentedNext(w, s, s')
    ensures Reaches(w, s0, s')
  {
    var path :| IsPath(w, path, s0, s);
    var longer := path + [s'];
    forall n: nat | 0 < n < |longer| ensures PresentedAt(w, longer, n) {
      if n < |path| {
        assert PresentedAt(w, path, n);
      }
    }
    assert IsPath(w, longer, s0, s');
  }

  /** `s` with attempt `i` in place of what it had there. */
  function With(s: State, i: AttemptId, a: Attempt): State {
    s.(attempts := s.attempts[i := a])
  }

  lemma {:induction false} Starts(w: Setting, s0: State, s: State, i: AttemptId, c: Credential)
    requires Reaches(w, s0, s) && i !in s.attempts && Screened(w, c)
    ensures Reaches(w, s0, With(s, i, Start(c)))
  {
    assert ScreenedStart(w, s, With(s, i, Start(c)));
    ReachesNext(w, s0, s, With(s, i, Start(c)));
  }

  /** What the store and the world may answer to a call that changes nothing in the store. */
  ghost predicate MayHear(w: Setting, s: State, a: Attempt, r: Reply) {
    && !a.Halted() && !Pending(a).ClaimKey? && !Pending(a).DeleteKey?
    && Answers(w.config, s, a, Pending(a), r, s.store)
    && Truthful(w, s, a.cred, Pending(a), r)
  }

  lemma {:induction false} Hears(w: Setting, s0: State, s: State, i: AttemptId, a: Attempt, r: Reply)
    requires Reaches(w, s0, With(s, i, a)) && MayHear(w, s, a, r)
    ensures Reaches(w, s0, With(s, i, Resume(a, r)))
  {
    var t, t' := With(s, i, a), With(s, i, Resume(a, r));
    assert t' == t.(store := t'.store, attempts := t.attempts[i := Resume(a, r)]);
    assert TruthfulStep(w, t, t', i, r);
    ReachesNext(w, s0, t, t');
  }

  /** The key is free and its deadline, if it gets one, is still to come. */
  predicate Claimable(w: Setting, s: State, c: Credential, key: Key) {
    && !Live(s.store, key, s.now)
    && (w.config.expireReplayKeys ==> s.now < c.expires + REPLAY_CLAIM_EXPIRY_GRACE)
  }

  function WithClaim(w: Setting, s: State, c: Credential, key: Key): State {
    s.(store := s.store[key := Entry("", Until(w.config, c))])
  }

  lemma {:induction false} Claims(w: Setting, s0: State, s: State, i: AttemptId, a: Attempt, key: Key)
    requires Reaches(w, s0, With(s, i, a)) && Claiming(a, key) && Claimable(w, s, a.cred, key)
    ensures Reaches(w, s0, With(WithClaim(w, s, a.cred, key), i, Resume(a, Claimed(true))))
  {
    var t, t' := With(s, i, a), With(WithClaim(w, s, a.cred, key), i, Resume(a, Claimed(true)));
    assert RefStep(t.store, ClaimOp(w.config, a.cred, key), t.now) == (t'.store, Accepted);
    assert t' == t.(store := t'.store, attempts := t.attempts[i := Resume(a, Claimed(true))]);
    assert TruthfulStep(w, t, t', i, Claimed(true));
    ReachesNext(w, s0, t, t');
  }

  lemma {:induction false} Waits(w: Setting, s0: State, s: State, now: Time)
    requires Reaches(w, s0, s) && s.now <= now && ChainPays(w, s)
    ensures Reaches(w, s0, s.(now := now))
  {
    ReachesNext(w, s0, s, s.(now := now));
  }

  // ---------- from its start to the claim of its reference ----------

  /** An attempt that will have settled on `key` as soon as it claims it. */
  predicate Poised(a: Attempt, c: Credential, key: Key) {
    && a.cred == c && Claiming(a, key)
    && Settles(Resume(a, Claimed(true)), key)
  }

  /** The clock by which expiry is judged allows this credential. */
  predicate Timely(w: Setting, s: State, c: Credential) {
    w.synchronized ==> s.now < c.expires
  }

  predicate OnChainFor(s: State, c: Credential, folded: string) {
    folded in s.chain && s.chain[folded].success && c.challenge in s.chain[folded].pays
  }

  lemma {:induction false} PassesExpiry(w: Setting, s0: State, s: State, i: AttemptId, a: Attempt)
    requires Reaches(w, s0, With(s, i, a)) && (a.pc.ExpiryEarly? || a.pc.ExpiryLate?) && Timely(w, s, a.cred)
    ensures Reaches(w, s0, With(s, i, Resume(a, Passed(true))))
  {
    Hears(w, s0, s, i, a, Passed(true));
  }

  lemma {:induction false} MainPoised(a: Attempt)
    requires a.pc.ClaimMain? && !a.cred.FeePayer()
    requires a.cred.kind.Unsponsored? ==>
      && a.receipt.Some? && a.receipt.value.success && a.cred.challenge in a.receipt.value.pays
      && a.signed == a.cred.kind.signedHash
    ensures Poised(a, a.cred, a.cred.MainKey())
  {
  }

  lemma {:induction false} ReferencePoised(a: Attempt)
    requires a.pc.ClaimReference? && a.cred.FeePayer()
    ensures Poised(a, a.cred, TxKey(Lower(a.reference)))
  {
  }

  lemma {:induction false} PushPoised(w: Setting, s0: State, s: State, i: AttemptId, c: Credential)
    returns (a: Attempt)
    requires Reaches(w, s0, With(s, i, Start(c))) && c.kind.Hash? && Timely(w, s, c)
    requires OnChainFor(s, c, Lower(c.kind.hash))
    ensures Poised(a, c, c.MainKey()) && Reaches(w, s0, With(s, i, a))
  {
    var a0 := Start(c);
    var r := Mined(Some(s.chain[Lower(c.kind.hash)]));
    Hears(w, s0, s, i, a0, r);
    var a1 := Resume(a0, r);
    assert a1 == a0.(pc := ExpiryEarly);
    Hears(w, s0, s, i, a1, Passed(true));
    a := Resume(a1, Passed(true));
    assert a == a1.(pc := ClaimMain);
  }

  lemma {:induction false} ProofPoised(w: Setting, s0: State, s: State, i: AttemptId, c: Credential)
    returns (a: Attempt)
    requires Reaches(w, s0, With(s, i, Start(c))) && c.kind.Proof? && Timely(w, s, c)
    ensures Poised(a, c, c.MainKey()) && Reaches(w, s0, With(s, i, a))
  {
    var a0 := Start(c);
    Hears(w, s0, s, i, a0, Passed(true));
    var a1 := Resume(a0, Passed(true));
    assert a1 == a0.(pc := ExpiryEarly);
    Hears(w, s0, s, i, a1, Passed(true));
    a := Resume(a1, Passed(true));
    assert a == a1.(pc := ClaimMain);
  }

  lemma {:induction false} UnsponsoredFound(w: Setting, s0: State, s: State, i: AttemptId, c: Credential)
    returns (a: Attempt)
    requires Reaches(w, s0, With(s, i, Start(c))) && c.kind.Unsponsored?
    requires OnChainFor(s, c, Lower(c.kind.signedHash)) && !Live(s.store, c.MainKey(), s.now)
    ensures a.cred == c && a.pc == ExpiryEarly && Reaches(w, s0, With(s, i, a))
    ensures a.receipt == Some(s.chain[Lower(c.kind.signedHash)]) && a.signed == c.kind.signedHash
  {
    var a0 := Start(c);
    Hears(w, s0, s, i, a0, Found(false));
    var a1 := Resume(a0, Found(false));
    assert a1 == a0.(pc := FindIncluded);
    var receipt := Some(s.chain[Lower(c.kind.signedHash)]);
    Hears(w, s0, s, i, a1, Mined(receipt));
    a := Resume(a1, Mined(receipt));
    assert a == a1.(receipt := receipt, pc := ExpiryEarly);
  }

  lemma {:induction false} UnsponsoredPoised(w: Setting, s0: State, s: State, i: AttemptId, c: Credential)
    returns (a: Attempt)
    requires Reaches(w, s0, With(s, i, Start(c))) && c.kind.Unsponsored? && Timely(w, s, c)
    requires OnChainFor(s, c, Lower(c.kind.signedHash)) && !Live(s.store, c.MainKey(), s.now)
    ensures Poised(a, c, c.MainKey()) && Reaches(w, s0, With(s, i, a))
  {
    var a2 := UnsponsoredFound(w, s0, s, i, c);
    PassesExpiry(w, s0, s, i, a2);
    var a3 := Resume(a2, Passed(true));
    assert a3 == a2.(pc := ExpiryLate);
    PassesExpiry(w, s0, s, i, a3);
    a := Resume(a3, Passed(true));
    assert a == a3.(pc := ClaimMain);
    MainPoised(a);
  }

  /** The checks before any claim: no reservation of an earlier version, and the transaction is unused. */
  lemma {:induction false} SponsorReads(w: Setting, s0: State, s: State, i: AttemptId, c: Credential, a: Attempt)
    requires Reaches(w, s0, With(s, i, a)) && c.FeePayer() && Timely(w, s, c)
    requires a == Start(c).(pc := ExpiryEarly)
    requires !Live(s.store, c.MainKey(), s.now) && !Live(s.store, LegacyKey(c.challenge), s.now)
    ensures Reaches(w, s0, With(s, i, a.(pc := if c.kind.Hosted? then HostedSimulate else ClaimMain)))
  {
    PassesExpiry(w, s0, s, i, a);
    var a2 := a.(pc := ReadLegacy);
    assert Resume(a, Passed(true)) == a2;
    Hears(w, s0, s, i, a2, Found(false));
    var a3 := a.(pc := ReadSponsor);
    assert Resume(a2, Found(false)) == a3;
    Hears(w, s0, s, i, a3, Found(false));
    assert Resume(a3, Found(false)) == a3.(pc := if c.kind.Hosted? then HostedSimulate else ClaimMain);
  }

  lemma {:induction false} SponsorStarts(w: Setting, s0: State, s: State, i: AttemptId, c: Credential)
    requires Reaches(w, s0, With(s, i, Start(c))) && c.FeePayer()
    ensures Reaches(w, s0, With(s, i, Start(c).(pc := ExpiryEarly)))
  {
    if c.kind.Hosted? {
      Hears(w, s0, s, i, Start(c), Passed(true));
      assert Resume(Start(c), Passed(true)) == Start(c).(pc := ExpiryEarly);
    } else {
      assert Start(c).(pc := ExpiryEarly) == Start(c);
    }
  }

  lemma {:induction false} SponsorScreened(w: Setting, s0: State, s: State, i: AttemptId, c: Credential, a: Attempt)
    requires Reaches(w, s0, With(s, i, a)) && c.FeePayer() && a.cred == c
    requires a.pc == if c.kind.Hosted? then HostedSimulate else ClaimMain
    ensures Reaches(w, s0, With(s, i, a.(pc := ClaimMain)))
  {
    if c.kind.Hosted? {
      Hears(w, s0, s, i, a, Passed(true));
      assert Resume(a, Passed(true)) == a.(pc := ClaimMain);
    } else {
      assert a.(pc := ClaimMain) == a;
    }
  }

  /** A fee-payer attempt up to the claim of the sender's transaction. */
  lemma {:induction false} SponsorClaims(w: Setting, s0: State, s: State, i: AttemptId, c: Credential)
    returns (a: Attempt)
    requires Reaches(w, s0, With(s, i, Start(c))) && c.FeePayer() && Timely(w, s, c)
    requires Claimable(w, s, c, c.MainKey()) && !Live(s.store, LegacyKey(c.challenge), s.now)
    ensures a.cred == c && a.pc == Deadline && a.receipt == None && a.claimed == [c.MainKey()] && !a.included
    ensures Reaches(w, s0, With(WithClaim(w, s, c, c.MainKey()), i, a))
  {
    SponsorStarts(w, s0, s, i, c);
    var a1 := Start(c).(pc := ExpiryEarly);
    SponsorReads(w, s0, s, i, c, a1);
    SponsorScreened(w, s0, s, i, c, a1.(pc := if c.kind.Hosted? then HostedSimulate else ClaimMain));
    var a4 := a1.(pc := ClaimMain);
    Claims(w, s0, s, i, a4, c.MainKey());
    a := Resume(a4, Claimed(true));
  }

  /** Skipping the envelopes that are looked up before the one on chain. */
  lemma {:induction false} EnvelopesSkipped(w: Setting, s0: State, s: State, i: AttemptId, a: Attempt, n: nat)
    requires a.cred.kind.Sponsored? && a.pc == FindEnvelope(0) && n < a.cred.EnvelopeCount()
    requires Reaches(w, s0, With(s, i, a))
    ensures Reaches(w, s0, With(s, i, a.(pc := FindEnvelope(n))))
  {
    if n == 0 {
      assert a.(pc := FindEnvelope(0)) == a;
    } else {
      EnvelopesSkipped(w, s0, s, i, a, n - 1);
      var b := a.(pc := FindEnvelope(n - 1));
      Hears(w, s0, s, i, b, Mined(None));
      assert Resume(b, Mined(None)) == a.(pc := FindEnvelope(n));
    }
  }

  /** From the claimed transaction to the lookup of the envelope `h`. */
  lemma {:induction false} HostedLookedUp(w: Setting, s0: State, s: State, i: AttemptId, a: Attempt, h: string)
    requires Reaches(w, s0, With(s, i, a)) && a.cred.kind.Hosted? && a.pc == Deadline && Names(w, a.cred, h)
    ensures Reaches(w, s0, With(s, i, a.(signed := h, pc := FindEnvelope(0))))
  {
    Hears(w, s0, s, i, a, Passed(true));
    assert Resume(a, Passed(true)) == a.(pc := Fill);
    Hears(w, s0, s, i, a.(pc := Fill), Signed(h));
    assert Resume(a.(pc := Fill), Signed(h)) == a.(signed := h, pc := FindEnvelope(0));
  }

  lemma {:induction false} LocalLookedUp(w: Setting, s0: State, s: State, i: AttemptId, a: Attempt, n: nat)
    requires Reaches(w, s0, With(s, i, a)) && a.cred.kind.Sponsored? && a.pc == Deadline && n < a.cred.EnvelopeCount()
    ensures Reaches(w, s0, With(s, i, a.(signed := a.cred.Envelope(0), pc := FindEnvelope(n))))
  {
    Hears(w, s0, s, i, a, Passed(true));
    assert Resume(a, Passed(true)) == a.(pc := CoSign);
    Hears(w, s0, s, i, a.(pc := CoSign), Passed(true));
    var b := a.(signed := a.cred.Envelope(0), pc := FindEnvelope(0));
    assert Resume(a.(pc := CoSign), Passed(true)) == b;
    EnvelopesSkipped(w, s0, s, i, b, n);
  }

  lemma {:induction false} EnvelopeLookedUp(w: Setting, s0: State, s: State, i: AttemptId, a: Attempt, h: string)
    returns (b: Attempt)
    requires Reaches(w, s0, With(s, i, a)) && a.cred.FeePayer() && a.pc == Deadline && Names(w, a.cred, h)
    ensures b.cred == a.cred && b.pc.FindEnvelope? && Pending(b) == Lookup(h)
    ensures b.cred.kind.Hosted? ==> b.signed == h
    ensures Reaches(w, s0, With(s, i, b))
  {
    if a.cred.kind.Hosted? {
      HostedLookedUp(w, s0, s, i, a, h);
      b := a.(signed := h, pc := FindEnvelope(0));
    } else {
      var n :| 0 <= n < |a.cred.kind.envelopes| && a.cred.kind.envelopes[n] == h;
      LocalLookedUp(w, s0, s, i, a, n);
      b := a.(signed := a.cred.Envelope(0), pc := FindEnvelope(n));
    }
  }

  lemma {:induction false} ReceiptTaken(w: Setting, s0: State, s: State, i: AttemptId, a: Attempt, h: string)
    requires Reaches(w, s0, With(s, i, a)) && a.cred.FeePayer()
    requires a.pc.FindEnvelope? && Pending(a) == Lookup(h) && (a.cred.kind.Hosted? ==> a.signed == h)
    requires Lower(h) in s.chain
    ensures Reaches(w, s0, With(s, i, a.(receipt := Some(s.chain[Lower(h)]), signed := h, pc := ExpiryLate)))
  {
    var receipt := Some(s.chain[Lower(h)]);
    Hears(w, s0, s, i, a, Mined(receipt));
    assert Resume(a, Mined(receipt)) == a.(receipt := receipt, signed := h, pc := ExpiryLate);
  }

  /** From the receipt of the envelope to the claim of its hash. */
  lemma {:induction false} EnvelopeFound(w: Setting, s0: State, s: State, i: AttemptId, a: Attempt, h: string)
    returns (b: Attempt)
    requires Reaches(w, s0, With(s, i, a)) && a.cred.FeePayer() && Timely(w, s, a.cred)
    requires a.pc.FindEnvelope? && Pending(a) == Lookup(h) && (a.cred.kind.Hosted? ==> a.signed == h)
    requires OnChainFor(s, a.cred, Lower(h))
    ensures Poised(b, a.cred, TxKey(Lower(h))) && Reaches(w, s0, With(s, i, b))
  {
    ReceiptTaken(w, s0, s, i, a, h);
    var a1 := a.(receipt := Some(s.chain[Lower(h)]), signed := h, pc := ExpiryLate);
    PassesExpiry(w, s0, s, i, a1);
    b := Resume(a1, Passed(true));
    assert b == a1.(included := true, reference := h, pc := ClaimReference);
    ReferencePoised(b);
  }

  /** What a fee payer's attempt claims on the way. */
  function Underway(w: Setting, s: State, c: Credential): State {
    if c.FeePayer() then WithClaim(w, s, c, c.MainKey()) else s
  }

  /** Nothing stands in the way of the attempt: its transaction is on chain and its keys are free. */
  ghost predicate MayPoise(w: Setting, s: State, c: Credential, key: Key) {
    && Claimant(w, key, c) && (key.TxKey? || key.ProofKey?) && Timely(w, s, c)
    && Claimable(w, s, c, c.MainKey()) && !Live(s.store, LegacyKey(c.challenge), s.now)
    && (key.TxKey? ==> OnChainFor(s, c, key.hash))
  }

  lemma {:induction false} Poises(w: Setting, s0: State, s: State, i: AttemptId, c: Credential, key: Key)
    returns (a: Attempt)
    requires Reaches(w, s0, s) && i !in s.attempts && MayPoise(w, s, c, key)
    ensures Poised(a, c, key) && Reaches(w, s0, With(Underway(w, s, c), i, a))
  {
    Starts(w, s0, s, i, c);
    if c.FeePayer() {
      var h :| Names(w, c, h) && Lower(h) == key.hash;
      var t := WithClaim(w, s, c, c.MainKey());
      var a1 := SponsorClaims(w, s0, s, i, c);
      var a2 := EnvelopeLookedUp(w, s0, t, i, a1, h);
      a := EnvelopeFound(w, s0, t, i, a2, h);
    } else if c.kind.Proof? {
      a := ProofPoised(w, s0, s, i, c);
    } else if c.kind.Hash? {
      a := PushPoised(w, s0, s, i, c);
    } else {
      a := UnsponsoredPoised(w, s0, s, i, c);
    }
  }

  // ---------- two successes ----------

  /** Nothing has happened yet, except that the transaction `key` stands for, if any, is on chain. */
  function Beginning(w: Setting, key: Key): State {
    State(map[], if key.TxKey? then map[key.hash := Receipt(true, w.pays(key.hash))] else map[], 0, map[])
  }

  /** The claim of `key` by an attempt that is poised to make it. */
  lemma {:induction false} ClaimsItsKey(w: Setting, s0: State, s: State, i: AttemptId, a: Attempt, c: Credential,
                                        key: Key)
    requires Reaches(w, s0, s) && i in s.attempts && s.attempts[i] == a && Poised(a, c, key) && Claimable(w, s, c, key)
    ensures Reaches(w, s0, With(WithClaim(w, s, c, key), i, Resume(a, Claimed(true))))
  {
    assert With(s, i, a) == s;
    Claims(w, s0, s, i, a, key);
  }

  /** Both attempts are poised: one claims, the clock passes its deadline, and the other one claims. */
  lemma {:induction false} BothSettle(w: Setting, s0: State, s: State, a: Attempt, c: Credential, b: Attempt,
                                      d: Credential, key: Key) returns (s': State)
    requires w.config.expireReplayKeys && Reaches(w, s0, s) && ChainPays(w, s)
    requires 0 in s.attempts && s.attempts[0] == a && 1 in s.attempts && s.attempts[1] == b
    requires Poised(a, c, key) && Poised(b, d, key) && c.expires < d.expires
    requires key !in s.store && s.now < Due(c)
    ensures Reaches(w, s0, s') && !AtMostOnceOn(s', key)
  {
    ClaimsItsKey(w, s0, s, 0, a, c, key);
    var s1 := With(WithClaim(w, s, c, key), 0, Resume(a, Claimed(true)));
    Waits(w, s0, s1, Due(c));
    var s2 := s1.(now := Due(c));
    ClaimsItsKey(w, s0, s2, 1, b, d, key);
    s' := With(WithClaim(w, s2, d, key), 1, Resume(b, Claimed(true)));
    assert Settles(s'.attempts[0], key) && Settles(s'.attempts[1], key);
  }

  /** Their transactions differ, so both attempts get as far as the claim of the reference. */
  lemma {:induction false} SettleSideBySide(w: Setting, c: Credential, d: Credential, key: Key) returns (s: State)
    requires w.config.expireReplayKeys && (key.TxKey? || key.ProofKey?)
    requires Claimant(w, key, c) && Claimant(w, key, d) && c.expires < d.expires && !SameTransaction(c, d)
    ensures Reaches(w, Beginning(w, key), s) && !AtMostOnceOn(s, key)
  {
    var s0 := Beginning(w, key);
    ReachesItself(w, s0);
    var a := Poises(w, s0, s0, 0, c, key);
    var s1 := With(Underway(w, s0, c), 0, a);
    var b := Poises(w, s0, s1, 1, d, key);
    var s2 := With(Underway(w, s1, d), 1, b);
    s := BothSettle(w, s0, s2, a, c, b, d, key);
  }

  /** One attempt settles, the clock passes its deadline, and the other one starts. */
  lemma {:induction false} SettleInTurn(w: Setting, c: Credential, d: Credential, key: Key) returns (s: State)
    requires w.config.expireReplayKeys && (key.TxKey? || key.ProofKey?)
    requires Claimant(w, key, c) && Claimant(w, key, d) && c.expires < d.expires
    requires w.synchronized ==> Due(c) < d.expires
    ensures Reaches(w, Beginning(w, key), s) && !AtMostOnceOn(s, key)
  {
    var s0 := Beginning(w, key);
    ReachesItself(w, s0);
    var a := Poises(w, s0, s0, 0, c, key);
    var s1 := With(Underway(w, s0, c), 0, a);
    ClaimsItsKey(w, s0, s1, 0, a, c, key);
    var s2 := With(WithClaim(w, s1, c, key), 0, Resume(a, Claimed(true)));
    Waits(w, s0, s2, Due(c));
    var s3 := s2.(now := Due(c));
    var b := Poises(w, s0, s3, 1, d, key);
    var s4 := With(Underway(w, s3, d), 1, b);
    ClaimsItsKey(w, s0, s4, 1, b, d, key);
    s := With(WithClaim(w, s4, d, key), 1, Resume(b, Claimed(true)));
    assert Settles(s.attempts[0], key) && Settles(s.attempts[1], key);
  }

  /** An attempt that is refused after its claim, up to the release. */
  lemma {:induction false} IsRefused(w: Setting, s0: State, s: State, i: AttemptId, a: Attempt)
    requires Reaches(w, s0, With(s, i, a)) && a.cred.FeePayer() && a.pc == Deadline && a.claimed != [] && !a.included
    ensures Reaches(w, s0, With(s, i, a.(pc := Releasing(Rejected))))
  {
    Hears(w, s0, s, i, a, Passed(true));
    var b := a.(pc := if a.cred.kind.Hosted? then Fill else CoSign);
    assert Resume(a, Passed(true)) == b;
    Hears(w, s0, s, i, b, Passed(false));
    assert Resume(b, Passed(false)) == a.(pc := Releasing(Rejected));
  }

  /** The release, which deletes the key whoever has claimed it since. */
  lemma {:induction false} Releases(w: Setting, s0: State, s: State, i: AttemptId, a: Attempt, key: Key)
    requires Reaches(w, s0, With(s, i, a)) && a.pc.Releasing? && a.claimed == [key]
    ensures Reaches(w, s0, With(s.(store := s.store - {key}), i, Resume(a, Deleted)))
  {
    var t, t' := With(s, i, a), With(s.(store := s.store - {key}), i, Resume(a, Deleted));
    assert t' == t.(store := t'.store, attempts := t.attempts[i := Resume(a, Deleted)]);
    assert TruthfulStep(w, t, t', i, Deleted);
    ReachesNext(w, s0, t, t');
  }

  /** A third attempt claims the transaction and stalls until its claim has expired. */
  lemma {:induction false} ThirdStalls(w: Setting, key: Key, f: Credential) returns (s: State, a: Attempt)
    requires w.config.expireReplayKeys && key.TxKey? && f.FeePayer() && Screened(w, f)
    ensures s == With(WithClaim(w, Beginning(w, key), f, f.MainKey()), 2, a).(now := Due(f))
    ensures Reaches(w, Beginning(w, key), s)
    ensures a.cred == f && a.pc == Deadline && a.claimed == [f.MainKey()] && !a.included
  {
    var s0 := Beginning(w, key);
    ReachesItself(w, s0);
    Starts(w, s0, s0, 2, f);
    a := SponsorClaims(w, s0, s0, 2, f);
    var s1 := With(WithClaim(w, s0, f, f.MainKey()), 2, a);
    Waits(w, s0, s1, Due(f));
    s := s1.(now := Due(f));
  }

  /** Its release then frees the transaction, whoever has claimed it in between. */
  lemma {:induction false} ThirdReleases(w: Setting, s0: State, s: State, a: Attempt, main: Key) returns (s': State)
    requires Reaches(w, s0, s) && 2 in s.attempts && s.attempts[2] == a
    requires a.cred.FeePayer() && a.pc == Deadline && a.claimed == [main] && !a.included
    ensures Reaches(w, s0, s') && s'.store == s.store - {main} && s'.now == s.now && s'.chain == s.chain
    ensures s'.attempts.Keys == s.attempts.Keys
    ensures forall i :: i in s.attempts && i != 2 ==> s'.attempts[i] == s.attempts[i]
  {
    assert With(s, 2, a) == s;
    IsRefused(w, s0, s, 2, a);
    var b := a.(pc := Releasing(Rejected));
    Releases(w, s0, s, 2, b, main);
    s' := With(s.(store := s.store - {main}), 2, Resume(b, Deleted));
  }

  /** One attempt is poised and its transaction is free again: the other one gets as far, and both settle. */
  lemma {:induction false} SettleBehind(w: Setting, s0: State, s: State, a: Attempt, c: Credential, d: Credential,
                                        key: Key) returns (s': State)
    requires w.config.expireReplayKeys && Reaches(w, s0, s) && ChainPays(w, s)
    requires 0 in s.attempts && s.attempts[0] == a && 1 !in s.attempts && Poised(a, c, key)
    requires c.expires < d.expires && MayPoise(w, s, d, key) && key != d.MainKey() && key !in s.store
    requires s.now < Due(c)
    ensures Reaches(w, s0, s') && !AtMostOnceOn(s', key)
  {
    var b := Poises(w, s0, s, 1, d, key);
    s' := BothSettle(w, s0, With(Underway(w, s, d), 1, b), a, c, b, d, key);
  }

  /** One attempt is poised, and a third attempt's late release has freed its transaction. */
  lemma {:induction false} FreedBehind(w: Setting, c: Credential, f: Credential, key: Key)
    returns (s: State, a: Attempt)
    requires w.config.expireReplayKeys && key.TxKey? && c.FeePayer() && Claimant(w, key, c)
    requires Claimant(w, c.MainKey(), f) && Due(f) < c.expires
    ensures Reaches(w, Beginning(w, key), s) && s.store == map[] && s.now == Due(f)
    ensures s.chain == Beginning(w, key).chain
    ensures s.attempts.Keys == {0, 2} && s.attempts[0] == a && Poised(a, c, key)
  {
    var s0 := Beginning(w, key);
    var s1, stalled := ThirdStalls(w, key, f);
    a := Poises(w, s0, s1, 0, c, key);
    var s2 := With(Underway(w, s1, c), 0, a);
    s := ThirdReleases(w, s0, s2, stalled, c.MainKey());
  }

  /** With a third attempt's late release in between, both attempts claim the transaction in time. */
  lemma {:induction false} SettleAfterThird(w: Setting, c: Credential, d: Credential, f: Credential, key: Key)
    returns (s: State)
    requires w.config.expireReplayKeys && (key.TxKey? || key.ProofKey?)
    requires Claimant(w, key, c) && Claimant(w, key, d) && c.expires < d.expires && SameTransaction(c, d)
    requires Claimant(w, c.MainKey(), f) && Due(f) < c.expires
    ensures Reaches(w, Beginning(w, key), s) && !AtMostOnceOn(s, key)
  {
    var s0 := Beginning(w, key);
    var s1, a := FreedBehind(w, c, f, key);
    s := SettleBehind(w, s0, s1, a, c, d, key);
  }

  lemma {:induction false} ReachedByRun(w: Setting, s0: State, s: State) returns (run: seq<State>)
    requires Reaches(w, s0, s) && Init(s0) && ChainPays(w, s0)
    ensures Presents(w, run) && run[|run| - 1] == s
  {
    run :| IsPath(w, run, s0, s);
  }

  /** Two separable credentials that may claim `key` under different expiries both succeed in some run. */
  lemma {:induction false} ConflictSettlesTwice(w: Setting, c: Credential, d: Credential, key: Key)
    returns (run: seq<State>)
    requires w.config.expireReplayKeys && (key.TxKey? || key.ProofKey?) && Conflicting(w, key, c, d)
    ensures Presents(w, run) && !AtMostOnceOn(run[|run| - 1], key)
  {
    var s: State;
    if !SameTransaction(c, d) {
      s := SettleSideBySide(w, c, d, key);
    } else if !w.synchronized || Due(c) < d.expires {
      s := SettleInTurn(w, c, d, key);
    } else {
      var f :| Claimant(w, c.MainKey(), f) && Due(f) < c.expires;
      s := SettleAfterThird(w, c, d, f, key);
    }
    run := ReachedByRun(w, Beginning(w, key), s);
  }

  /** In every run on which these credentials are presented, at most one success on `key`. */
  ghost predicate SettlesOnce(w: Setting, key: Key) {
    forall run :: Presents(w, run) ==> AtMostOnceOn(run[|run| - 1], key)
  }

  lemma {:induction false} WithoutConflict(w: Setting, run: seq<State>, key: Key)
    requires w.config.expireReplayKeys && (key.TxKey? || key.ProofKey?) && Presents(w, run)
    requires forall c, d :: !Conflicting(w, key, c, d)
    ensures AtMostOnceOn(run[|run| - 1], key)
  {
    if Agreed(w, key) {
      AgreedSettlesOnce(w, run, key);
    } else {
      var tx := DisagreementEntangles(w, key);
      EntangledSettlesOnce(w, run, key, tx);
    }
  }

  /**
   With expiring replay keys a transaction or proof is settled at most once, for all time and whatever
   is delayed, exactly when no two credentials that may claim its key are in conflict; and if clocks
   are not synchronized, exactly when all of them have one expiry.
   */
  lemma {:induction false} SettlesOnceIffNoConflict(w: Setting, key: Key)
    requires w.config.expireReplayKeys && (key.TxKey? || key.ProofKey?)
    ensures SettlesOnce(w, key) <==> forall c, d :: !Conflicting(w, key, c, d)
    ensures !w.synchronized ==> (SettlesOnce(w, key) <==> Agreed(w, key))
  {
    if c, d :| Conflicting(w, key, c, d) {
      var run := ConflictSettlesTwice(w, c, d, key);
      assert Presents(w, run);
    } else {
      forall run | Presents(w, run) ensures AtMostOnceOn(run[|run| - 1], key) {
        WithoutConflict(w, run, key);
      }
    }
    if !w.synchronized && !Agreed(w, key) {
      var c, d :| Claimant(w, key, c) && Claimant(w, key, d) && c.expires < d.expires;
      assert Conflicting(w, key, c, d);
    }
  }
}
