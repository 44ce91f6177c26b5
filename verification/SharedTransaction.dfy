/**
 Fee-payer credentials that carry one transaction: the claim of that transaction comes before their
 last look at the clock, so with synchronized clocks it tells them apart even where the deadlines of
 their reference key do not.
 */
module SharedTransaction {
  import opened Text
  import opened ReplayStore
  import opened Settlement
  import opened Deadlines

  function Due(c: Credential): Time {
    c.expires + REPLAY_CLAIM_EXPIRY_GRACE
  }

  predicate SameTransaction(c: Credential, d: Credential) {
    c.FeePayer() && c.MainKey() == d.MainKey()
  }

  /**
   Some run settles both `c` and the later expiring `d`. Only synchronized clocks and a shared
   transaction can prevent it, and they do not if `d` is still acceptable when the claims of `c` have
   expired, or `c` when those of another credential for that transaction have: an attempt on that one
   can then, by a late release, free the transaction that `c` holds.
   */
  ghost predicate Separable(w: Setting, c: Credential, d: Credential) {
    || !w.synchronized
    || !SameTransaction(c, d)
    || Due(c) < d.expires
    || (exists f :: Claimant(w, c.MainKey(), f) && Due(f) < c.expires)
  }

  ghost predicate Conflicting(w: Setting, key: Key, c: Credential, d: Credential) {
    Claimant(w, key, c) && Claimant(w, key, d) && c.expires < d.expires && Separable(w, c, d)
  }

  /** Claimants of `key` disagree, but no two of them are separable: all of them carry `tx`. */
  ghost predicate Entangled(w: Setting, key: Key, tx: string) {
    && w.synchronized && w.config.expireReplayKeys && key.TxKey?
    && (forall c :: Claimant(w, key, c) ==> c.FeePayer() && c.kind.tx == tx)
    && (forall c, d :: Claimant(w, key, c) && Claimant(w, key, d) && c.expires < d.expires ==> d.expires <= Due(c))
    && (forall c, f :: Sooner(w, key, c) && Claimant(w, SponsorKey(tx), f) ==> c.expires <= Due(f))
  }

  /** A claimant of `key` with a competitor that expires later. */
  ghost predicate Sooner(w: Setting, key: Key, c: Credential) {
    Claimant(w, key, c) && exists d :: Claimant(w, key, d) && c.expires < d.expires
  }

  lemma {:induction false} DisagreementEntangles(w: Setting, key: Key) returns (tx: string)
    requires w.config.expireReplayKeys && (key.TxKey? || key.ProofKey?)
    requires !Agreed(w, key) && forall c, d :: !Conflicting(w, key, c, d)
    ensures Entangled(w, key, tx)
  {
    var c, d :| Claimant(w, key, c) && Claimant(w, key, d) && c.expires < d.expires;
    assert !Conflicting(w, key, c, d);
    tx := c.kind.tx;
    forall e | Claimant(w, key, e) ensures e.FeePayer() && e.kind.tx == tx {
      assert !Conflicting(w, key, c, e) && !Conflicting(w, key, e, c);
      assert !Conflicting(w, key, d, e) && !Conflicting(w, key, e, d);
    }
    forall a, b | Claimant(w, key, a) && Claimant(w, key, b) && a.expires < b.expires
      ensures b.expires <= Due(a)
      ensures forall f :: Claimant(w, SponsorKey(tx), f) ==> a.expires <= Due(f)
    {
      assert !Conflicting(w, key, a, b) && a.MainKey() == SponsorKey(tx);
    }
  }

  // ---------- the invariant ----------

  /** No claim of the transaction has expired yet. */
  ghost predicate Early(w: Setting, tx: string, now: Time) {
    forall f :: Claimant(w, SponsorKey(tx), f) ==> now < Due(f)
  }

  /** The attempt has looked at the clock for the last time. */
  predicate Cleared(a: Attempt, tx: string) {
    && a.cred.FeePayer() && a.cred.kind.tx == tx
    && (a.pc.DeadlineLate? || a.pc.Sending? || a.pc.Confirming? || a.pc.Awaiting? || a.pc.ClaimReference?
        || a.pc.Succeeded?)
  }

  /** The attempt alone keeps the key, and the entry is its own. */
  ghost predicate SoleKeeper(s: State, i: AttemptId, key: Key)
    requires i in s.attempts
  {
    && key in s.attempts[i].kept
    && key in s.store && s.store[key].deadline == Some(Due(s.attempts[i].cred))
    && forall j :: j in s.attempts && j != i ==> key !in s.attempts[j].kept
  }

  ghost predicate KeepersClaim(w: Setting, s: State, key: Key) {
    forall i :: i in s.attempts && key in s.attempts[i].kept ==> Claimant(w, key, s.attempts[i].cred)
  }

  /** While no claim of the transaction has expired, it has at most one keeper. */
  ghost predicate TransactionInv(w: Setting, s: State, tx: string) {
    var main := SponsorKey(tx);
    && KeepersClaim(w, s, main)
    && (main in s.store ==>
          exists f :: Claimant(w, main, f) && s.store[main].deadline == Some(Due(f)))
    && (Early(w, tx, s.now) ==>
          forall i :: i in s.attempts && main in s.attempts[i].kept ==> SoleKeeper(s, i, main))
  }

  ghost predicate Precedes(w: Setting, key: Key, c: Credential, d: Credential) {
    Claimant(w, key, c) && Claimant(w, key, d) && c.expires < d.expires
  }

  /** Who is cleared and has a later competitor holds the transaction until its claim expires. */
  ghost predicate HoldsOn(w: Setting, s: State, key: Key, tx: string, i: AttemptId)
    requires i in s.attempts
  {
    var a := s.attempts[i];
    Cleared(a, tx) && Sooner(w, key, a.cred) && s.now < Due(a.cred) ==> SoleKeeper(s, i, SponsorKey(tx))
  }

  ghost predicate NotBothCleared(w: Setting, s: State, key: Key, tx: string, i: AttemptId, j: AttemptId)
    requires i in s.attempts && j in s.attempts
  {
    var a, b := s.attempts[i], s.attempts[j];
    Cleared(a, tx) && Cleared(b, tx) ==> !Precedes(w, key, a.cred, b.cred)
  }

  ghost predicate ClearedInv(w: Setting, s: State, key: Key, tx: string) {
    && (forall i :: i in s.attempts ==> HoldsOn(w, s, key, tx, i))
    && (forall i, j :: i in s.attempts && j in s.attempts && i != j ==> NotBothCleared(w, s, key, tx, i, j))
  }

  predicate DifferentExpiries(s: State, key: Key, i: AttemptId, j: AttemptId)
    requires i in s.attempts && j in s.attempts
  {
    key in s.attempts[i].kept && key in s.attempts[j].kept ==>
      s.attempts[i].cred.expires != s.attempts[j].cred.expires
  }

  /** The reference key is never given back, so each success on it expires later than the one before. */
  ghost predicate ReferenceInv(w: Setting, s: State, key: Key) {
    && KeepersClaim(w, s, key)
    && (key in s.store ==> s.store[key].deadline.Some?)
    && (forall i :: i in s.attempts && key in s.attempts[i].kept ==>
          key in s.store && Due(s.attempts[i].cred) <= s.store[key].deadline.value)
    && (forall i, j :: i in s.attempts && j in s.attempts && i != j ==> DifferentExpiries(s, key, i, j))
  }

  ghost predicate SharedInv(w: Setting, s: State, key: Key, tx: string) {
    AllOwn(w, s) && TransactionInv(w, s, tx) && ClearedInv(w, s, key, tx) && ReferenceInv(w, s, key)
  }

  // ---------- one step of one attempt ----------

  /** Attempt `i` of `s` becomes `a'` by making `call` and hearing `r`. */
  ghost predicate Becomes(w: Setting, s: State, s': State, i: AttemptId, call: Call, r: Reply, a': Attempt) {
    && i in s.attempts && w.config.expireReplayKeys
    && Answers(w.config, s, s.attempts[i], call, r, s'.store)
    && s' == s.(store := s'.store, attempts := s.attempts[i := a'])
    && Disciplined(s.attempts[i], call, r, a')
    && (call.ClaimKey? ==> Claimant(w, call.key, s.attempts[i].cred))
  }

  lemma {:induction false} StepBecomes(w: Setting, s: State, s': State, i: AttemptId, r: Reply)
    requires AllOwn(w, s) && TruthfulStep(w, s, s', i, r) && w.config.expireReplayKeys
    ensures Becomes(w, s, s', i, Pending(s.attempts[i]), r, s'.attempts[i])
  {
    var a := s.attempts[i];
    assert LocalInv(a) && Own(w, a);
    ResumeDiscipline(a, r);
    if Pending(a).ClaimKey? {
      ClaimIsOwn(w, a, Pending(a).key);
    }
  }

  lemma {:induction false} KeepersStay(w: Setting, s: State, s': State, i: AttemptId, call: Call, r: Reply, a': Attempt,
                                       key: Key)
    requires Becomes(w, s, s', i, call, r, a') && KeepersClaim(w, s, key)
    ensures KeepersClaim(w, s', key)
  {
    assert key in a'.kept ==> key in s.attempts[i].kept || (call == ClaimKey(key) && r == Claimed(true));
  }

  /** Before its deadline nobody takes the key away from its sole keeper. */
  lemma {:induction false} SoleKeeperStays(w: Setting, s: State, s': State, i: AttemptId, call: Call, r: Reply,
                                           a': Attempt, j: AttemptId, key: Key)
    requires Becomes(w, s, s', i, call, r, a')
    requires j in s.attempts && SoleKeeper(s, j, key) && s.now < Due(s.attempts[j].cred)
    requires key in s'.attempts[j].kept
    ensures SoleKeeper(s', j, key)
  {
    assert Live(s.store, key, s.now);
    assert call == DeleteKey(key) ==> i == j;
  }

  /** What the store may hold for a key after the step: nothing, what it held, or the entry of a claim. */
  lemma {:induction false} EntryAfter(w: Setting, s: State, s': State, i: AttemptId, call: Call, r: Reply, a': Attempt,
                                      key: Key)
    requires Becomes(w, s, s', i, call, r, a') && key in s'.store
    ensures || (key in s.store && s'.store[key] == s.store[key])
            || (&& call == ClaimKey(key) && s'.store[key].deadline == Some(Due(s.attempts[i].cred))
                && !Live(s.store, key, s.now) && s.now < Due(s.attempts[i].cred))
  {
  }

  lemma {:induction false} TransactionStays(w: Setting, s: State, s': State, i: AttemptId, call: Call, r: Reply,
                                            a': Attempt, tx: string)
    requires Becomes(w, s, s', i, call, r, a') && TransactionInv(w, s, tx)
    ensures TransactionInv(w, s', tx)
  {
    var main := SponsorKey(tx);
    KeepersStay(w, s, s', i, call, r, a', main);
    if main in s'.store {
      EntryAfter(w, s, s', i, call, r, a', main);
    }
    if Early(w, tx, s.now) {
      forall j | j in s'.attempts && main in s'.attempts[j].kept ensures SoleKeeper(s', j, main) {
        if main in s.attempts[j].kept {
          SoleKeeperStays(w, s, s', i, call, r, a', j, main);
        } else {
          assert j == i && call == ClaimKey(main) && r == Claimed(true) && !Live(s.store, main, s.now);
        }
      }
    }
  }

  /** A success on the key expires later than every one before, or its claim would have been refused. */
  lemma {:induction false} ExpiriesStay(w: Setting, s: State, s': State, i: AttemptId, call: Call, r: Reply,
                                        a': Attempt,
                                        key: Key, j: AttemptId, k: AttemptId)
    requires Becomes(w, s, s', i, call, r, a') && ReferenceInv(w, s, key)
    requires j in s.attempts && k in s.attempts && j != k
    ensures DifferentExpiries(s', key, j, k)
  {
    assert DifferentExpiries(s, key, j, k);
    if call == ClaimKey(key) && r == Claimed(true) {
      assert !Live(s.store, key, s.now) && s.now < Due(s.attempts[i].cred);
    }
  }

  lemma {:induction false} KeepersAreCovered(w: Setting, s: State, s': State, i: AttemptId, call: Call, r: Reply,
                                             a': Attempt, key: Key, j: AttemptId)
    requires Becomes(w, s, s', i, call, r, a') && ReferenceInv(w, s, key) && call != DeleteKey(key)
    requires j in s.attempts && key in s'.attempts[j].kept
    ensures key in s'.store && s'.store[key].deadline.Some?
    ensures Due(s'.attempts[j].cred) <= s'.store[key].deadline.value
  {
    if key in s'.store {
      EntryAfter(w, s, s', i, call, r, a', key);
    }
  }

  lemma {:induction false} ReferenceStays(w: Setting, s: State, s': State, i: AttemptId, call: Call, r: Reply,
                                          a': Attempt, key: Key)
    requires Becomes(w, s, s', i, call, r, a') && ReferenceInv(w, s, key) && call != DeleteKey(key)
    ensures ReferenceInv(w, s', key)
  {
    KeepersStay(w, s, s', i, call, r, a', key);
    if key in s'.store {
      EntryAfter(w, s, s', i, call, r, a', key);
    }
    forall j | j in s'.attempts && key in s'.attempts[j].kept
      ensures key in s'.store && Due(s'.attempts[j].cred) <= s'.store[key].deadline.value
    {
      KeepersAreCovered(w, s, s', i, call, r, a', key, j);
    }
    forall j, k | j in s'.attempts && k in s'.attempts && j != k ensures DifferentExpiries(s', key, j, k) {
      ExpiriesStay(w, s, s', i, call, r, a', key, j, k);
    }
  }

  /** The reference key is nobody's main key, and only main keys are given back. */
  lemma {:induction false} ReferenceNotDeleted(w: Setting, s: State, i: AttemptId, key: Key, tx: string)
    requires AllOwn(w, s) && Entangled(w, key, tx) && i in s.attempts && !s.attempts[i].Halted()
    ensures Pending(s.attempts[i]) != DeleteKey(key)
  {
    var a := s.attempts[i];
    assert LocalInv(a) && Own(w, a);
    if a.pc.Releasing? {
      ReleasesOwnKey(a);
      if a.cred.kind.Unsponsored? && a.cred.MainKey() == key {
        assert Names(w, a.cred, a.cred.kind.signedHash);
        assert Claimant(w, key, a.cred);
      }
    }
  }

  lemma {:induction false} CheckingNotCleared(a: Attempt, r: Reply, tx: string)
    requires Checking(a.pc)
    ensures !Cleared(ResumeChecking(a, r), tx)
  {
  }

  lemma {:induction false} SponsoringNotCleared(a: Attempt, r: Reply, tx: string)
    requires Sponsoring(a.pc)
    ensures !Cleared(ResumeSponsoring(a, r), tx)
  {
  }

  lemma {:induction false} NotYetCleared(a: Attempt, r: Reply, tx: string)
    requires a.cred.FeePayer() && (Checking(a.pc) || a.pc.ClaimMain? || Sponsoring(a.pc))
    ensures !Cleared(Resume(a, r), tx)
  {
    if Checking(a.pc) {
      CheckingNotCleared(a, r, tx);
    } else if Sponsoring(a.pc) {
      SponsoringNotCleared(a, r, tx);
    } else {
      assert !Cleared(ResumeClaim(a, r), tx);
    }
  }

  /** An attempt is cleared by a look at the clock, having claimed the transaction. */
  lemma {:induction false} ClearsByClock(a: Attempt, r: Reply, tx: string)
    requires !a.Halted() && LocalInv(a) && !Cleared(a, tx) && Cleared(Resume(a, r), tx)
    requires Resume(a, r).cred == a.cred
    ensures a.pc.ExpiryLate? && r == Passed(true) && SponsorKey(tx) in a.kept
  {
    if Checking(a.pc) || a.pc.ClaimMain? || Sponsoring(a.pc) {
      NotYetCleared(a, r, tx);
    }
  }

  lemma {:induction false} ClearedKeeps(a: Attempt, tx: string)
    requires LocalInv(a) && Cleared(a, tx)
    ensures SponsorKey(tx) in a.kept
  {
  }

  lemma {:induction false} SoonerIsEarly(w: Setting, key: Key, tx: string, c: Credential, now: Time)
    requires Entangled(w, key, tx) && Sooner(w, key, c) && now < c.expires
    ensures Early(w, tx, now)
  {
  }

  /** At its last look at the clock an attempt with a later competitor is the only one on the transaction. */
  lemma {:induction false} ClearingIsSole(w: Setting, s: State, i: AttemptId, key: Key, tx: string)
    requires Entangled(w, key, tx) && TransactionInv(w, s, tx) && i in s.attempts
    requires SponsorKey(tx) in s.attempts[i].kept && Sooner(w, key, s.attempts[i].cred)
    requires s.now < s.attempts[i].cred.expires
    ensures SoleKeeper(s, i, SponsorKey(tx))
  {
    SoonerIsEarly(w, key, tx, s.attempts[i].cred, s.now);
  }

  /** What is known of an attempt that has just been cleared. */
  ghost predicate JustCleared(w: Setting, s: State, s': State, i: AttemptId, tx: string) {
    && i in s.attempts && i in s'.attempts && Cleared(s'.attempts[i], tx) && !Cleared(s.attempts[i], tx)
    && SponsorKey(tx) in s.attempts[i].kept && s.now < s.attempts[i].cred.expires && s'.store == s.store
  }

  lemma {:induction false} ClearingIsTimely(w: Setting, s: State, s': State, i: AttemptId, r: Reply, tx: string)
    requires w.synchronized && AllOwn(w, s) && TruthfulStep(w, s, s', i, r)
    requires Cleared(s'.attempts[i], tx) && !Cleared(s.attempts[i], tx)
    ensures JustCleared(w, s, s', i, tx)
  {
    var a := s.attempts[i];
    assert LocalInv(a);
    ResumeDiscipline(a, r);
    ClearsByClock(a, r, tx);
  }

  lemma {:induction false} HoldsOnStays(w: Setting, s: State, s': State, i: AttemptId, r: Reply, key: Key, tx: string,
                                        j: AttemptId)
    requires Entangled(w, key, tx) && SharedInv(w, s, key, tx) && TruthfulStep(w, s, s', i, r) && AllOwn(w, s')
    requires j in s'.attempts
    ensures HoldsOn(w, s', key, tx, j)
  {
    var main := SponsorKey(tx);
    if Cleared(s'.attempts[j], tx) && Sooner(w, key, s'.attempts[j].cred) && s'.now < Due(s'.attempts[j].cred) {
      StepBecomes(w, s, s', i, r);
      assert LocalInv(s'.attempts[j]);
      ClearedKeeps(s'.attempts[j], tx);
      if Cleared(s.attempts[j], tx) {
        assert HoldsOn(w, s, key, tx, j);
      } else {
        ClearingIsTimely(w, s, s', i, r, tx);
        ClearingIsSole(w, s, i, key, tx);
      }
      SoleKeeperStays(w, s, s', i, Pending(s.attempts[i]), r, s'.attempts[i], j, main);
    }
  }

  /** Two attempts on the transaction: neither can be the sole keeper. */
  lemma {:induction false} NeverBothCleared(w: Setting, s: State, s': State, i: AttemptId, r: Reply, key: Key,
                                            tx: string, j: AttemptId, k: AttemptId)
    requires Entangled(w, key, tx) && SharedInv(w, s, key, tx) && TruthfulStep(w, s, s', i, r)
    requires j in s'.attempts && k in s'.attempts && j != k
    ensures NotBothCleared(w, s', key, tx, j, k)
  {
    var a, b := s'.attempts[j], s'.attempts[k];
    if Cleared(a, tx) && Cleared(b, tx) && Precedes(w, key, a.cred, b.cred) {
      StepBecomes(w, s, s', i, r);
      assert NotBothCleared(w, s, key, tx, j, k) && HoldsOn(w, s, key, tx, j);
      assert Sooner(w, key, a.cred) && b.cred.expires <= Due(a.cred);
      assert LocalInv(s.attempts[k]);
      ClearingIsTimely(w, s, s', i, r, tx);
      if i == j {
        ClearedKeeps(s.attempts[k], tx);
        ClearingIsSole(w, s, j, key, tx);
      }
    }
  }

  lemma {:induction false} SharedStepStays(w: Setting, s: State, s': State, i: AttemptId, r: Reply, key: Key,
                                           tx: string)
    requires Entangled(w, key, tx) && SharedInv(w, s, key, tx) && TruthfulStep(w, s, s', i, r)
    ensures SharedInv(w, s', key, tx)
  {
    var call := Pending(s.attempts[i]);
    StepKeepsOwn(w, s, s', i, r);
    StepBecomes(w, s, s', i, r);
    TransactionStays(w, s, s', i, call, r, s'.attempts[i], tx);
    ReferenceNotDeleted(w, s, i, key, tx);
    ReferenceStays(w, s, s', i, call, r, s'.attempts[i], key);
    forall j | j in s'.attempts ensures HoldsOn(w, s', key, tx, j) {
      HoldsOnStays(w, s, s', i, r, key, tx, j);
    }
    forall j, k | j in s'.attempts && k in s'.attempts && j != k ensures NotBothCleared(w, s', key, tx, j, k) {
      NeverBothCleared(w, s, s', i, r, key, tx, j, k);
    }
  }

  // ---------- every other step ----------

  /** The store is as it was, time has passed, and nobody keeps or has cleared more than before. */
  ghost predicate Quieter(s: State, s': State) {
    && s'.store == s.store && s.now <= s'.now
    && (forall i :: i in s.attempts ==> i in s'.attempts)
    && (forall i :: i in s'.attempts ==> if i in s.attempts then Fainter(s.attempts[i], s'.attempts[i])
                                         else s'.attempts[i] == Start(s'.attempts[i].cred))
  }

  predicate Fainter(a: Attempt, a': Attempt) {
    a'.cred == a.cred && a'.kept == a.kept && (a' == a || a'.pc.Crashed?)
  }

  lemma {:induction false} QuietIsQuieter(w: Setting, s: State, s': State)
    requires EnvironmentStep(s, s') || ScreenedStart(w, s, s') || CrashStep(s, s')
    ensures Quieter(s, s')
  {
    forall i | i in s'.attempts && i !in s.attempts ensures s'.attempts[i] == Start(s'.attempts[i].cred) {
      StartsClean(s'.attempts[i].cred);
    }
  }

  lemma {:induction false} QuietlyKept(s: State, s': State, i: AttemptId, key: Key)
    requires Quieter(s, s') && i in s'.attempts && key in s'.attempts[i].kept
    ensures i in s.attempts && key in s.attempts[i].kept && s'.attempts[i].cred == s.attempts[i].cred
  {
  }

  lemma {:induction false} SoleQuietly(s: State, s': State, i: AttemptId, key: Key)
    requires Quieter(s, s') && i in s.attempts && SoleKeeper(s, i, key)
    ensures SoleKeeper(s', i, key)
  {
  }

  lemma {:induction false} TransactionQuietly(w: Setting, s: State, s': State, tx: string)
    requires Quieter(s, s') && TransactionInv(w, s, tx)
    ensures TransactionInv(w, s', tx)
  {
    if Early(w, tx, s'.now) {
      assert Early(w, tx, s.now);
      forall i | i in s'.attempts && SponsorKey(tx) in s'.attempts[i].kept ensures SoleKeeper(s', i, SponsorKey(tx)) {
        SoleQuietly(s, s', i, SponsorKey(tx));
      }
    }
  }

  lemma {:induction false} ClearedQuietly(w: Setting, s: State, s': State, key: Key, tx: string)
    requires Quieter(s, s') && ClearedInv(w, s, key, tx)
    ensures ClearedInv(w, s', key, tx)
  {
    forall i | i in s'.attempts ensures HoldsOn(w, s', key, tx, i) {
      if Cleared(s'.attempts[i], tx) {
        assert HoldsOn(w, s, key, tx, i);
      }
    }
    forall i, j | i in s'.attempts && j in s'.attempts && i != j ensures NotBothCleared(w, s', key, tx, i, j) {
      if Cleared(s'.attempts[i], tx) && Cleared(s'.attempts[j], tx) {
        assert NotBothCleared(w, s, key, tx, i, j);
      }
    }
  }

  lemma {:induction false} ReferenceQuietly(w: Setting, s: State, s': State, key: Key)
    requires Quieter(s, s') && ReferenceInv(w, s, key)
    ensures ReferenceInv(w, s', key)
  {
    forall i, j | i in s'.attempts && j in s'.attempts && i != j ensures DifferentExpiries(s', key, i, j) {
      if key in s'.attempts[i].kept && key in s'.attempts[j].kept {
        assert DifferentExpiries(s, key, i, j);
      }
    }
  }

  lemma {:induction false} SharedQuietly(w: Setting, s: State, s': State, key: Key, tx: string)
    requires SharedInv(w, s, key, tx)
    requires (EnvironmentStep(s, s') && ChainPays(w, s')) || ScreenedStart(w, s, s') || CrashStep(s, s')
    ensures SharedInv(w, s', key, tx)
  {
    QuietKeepsOwn(w, s, s');
    QuietIsQuieter(w, s, s');
    TransactionQuietly(w, s, s', tx);
    ClearedQuietly(w, s, s', key, tx);
    ReferenceQuietly(w, s, s', key);
  }

  lemma {:induction false} SharedNext(w: Setting, s: State, s': State, key: Key, tx: string)
    requires PresentedNext(w, s, s') && Entangled(w, key, tx) && SharedInv(w, s, key, tx)
    ensures SharedInv(w, s', key, tx)
  {
    if i, r :| TruthfulStep(w, s, s', i, r) {
      SharedStepStays(w, s, s', i, r, key, tx);
    } else {
      SharedQuietly(w, s, s', key, tx);
    }
  }

  lemma {:induction false} SharedRun(w: Setting, run: seq<State>, n: nat, key: Key, tx: string)
    requires Presents(w, run) && n < |run| && Entangled(w, key, tx)
    ensures SharedInv(w, run[n], key, tx)
  {
    if n == 0 {
    } else {
      SharedRun(w, run, n - 1, key, tx);
      assert PresentedAt(w, run, n);
      SharedNext(w, run[n - 1], run[n], key, tx);
    }
  }

  /** So no two of them are ever settled on `key`, although their deadlines differ. */
  lemma {:induction false} EntangledSettlesOnce(w: Setting, run: seq<State>, key: Key, tx: string)
    requires Presents(w, run) && Entangled(w, key, tx)
    ensures AtMostOnceOn(run[|run| - 1], key)
  {
    var s := run[|run| - 1];
    SharedRun(w, run, |run| - 1, key, tx);
    forall i | i in s.attempts && Settles(s.attempts[i], key)
      ensures key in s.attempts[i].kept && Cleared(s.attempts[i], tx) && Claimant(w, key, s.attempts[i].cred)
    {
      assert LocalInv(s.attempts[i]);
    }
    forall i, j | i in s.attempts && j in s.attempts && i != j
      ensures !(Settles(s.attempts[i], key) && Settles(s.attempts[j], key))
    {
      assert DifferentExpiries(s, key, i, j);
      assert NotBothCleared(w, s, key, tx, i, j) && NotBothCleared(w, s, key, tx, j, i);
    }
  }
}
