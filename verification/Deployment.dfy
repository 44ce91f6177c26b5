/**
 Settlement over the store a development server runs with: every run of the protocol whose store
 calls go to MemoryStore, under printed keys, is a run of the protocol over a table of keys.
 */
module Deployment {
  import opened Text
  import opened ReplayStore
  import opened Settlement
  import opened Deadlines

  datatype Deployed = Deployed(memory: Memory, chain: map<string, Receipt>, now: Time,
                               attempts: map<AttemptId, Attempt>)

  /** The protocol's state if its store held `store`. */
  function View(d: Deployed, store: Table<Key>): State {
    State(store, d.chain, d.now, d.attempts)
  }

  /** The operation a store call makes, on keys; the other calls make none. */
  function StoreOp(config: Config, cred: Credential, call: Call): Op<Key>
    requires call.GetKey? || call.ClaimKey? || call.DeleteKey?
  {
    match call
    case GetKey(key) => Op.Get(key)
    case ClaimKey(key) => ClaimOp(config, cred, key)
    case DeleteKey(key) => Op.Delete(key)
  }

  /** MemoryStore never fails, and its answer is the reply. */
  predicate StoreReplies(call: Call, answer: Answer, r: Reply) {
    match call
    case GetKey(_) => r == Found(answer.Value?)
    case ClaimKey(_) => r == Claimed(answer == Accepted)
    case DeleteKey(_) => r == Deleted
    case _ => !r.Claimed? && !r.Found?
  }

  predicate MemoryReplies(config: Config, d: Deployed, cred: Credential, call: Call, r: Reply, memory': Memory) {
    if call.GetKey? || call.ClaimKey? || call.DeleteKey? then
      var (m, answer) := MemStep(d.memory, PrintOp(StoreOp(config, cred, call)), d.now);
      memory' == m && StoreReplies(call, answer, r)
    else memory' == d.memory && StoreReplies(call, Ack, r)
  }

  ghost predicate DeployedStep(w: Setting, d: Deployed, d': Deployed, i: AttemptId, r: Reply) {
    && i in d.attempts && !d.attempts[i].Halted()
    && var a := d.attempts[i];
    && MemoryReplies(w.config, d, a.cred, Pending(a), r, d'.memory)
    && Truthful(w, View(d, map[]), a.cred, Pending(a), r)
    && d' == d.(memory := d'.memory, attempts := d.attempts[i := Resume(a, r)])
  }

  /** Clock, chain, starts and crashes, which leave the store alone. */
  ghost predicate DeployedQuiet(w: Setting, d: Deployed, d': Deployed) {
    var s, s' := View(d, map[]), View(d', map[]);
    && d'.memory == d.memory
    && ((EnvironmentStep(s, s') && ChainPays(w, s')) || ScreenedStart(w, s, s') || CrashStep(s, s'))
  }

  ghost predicate DeployedNext(w: Setting, d: Deployed, d': Deployed) {
    DeployedQuiet(w, d, d') || exists i, r :: DeployedStep(w, d, d', i, r)
  }

  ghost predicate DeployedAt(w: Setting, run: seq<Deployed>, n: nat)
    requires 0 < n < |run|
  {
    DeployedNext(w, run[n - 1], run[n])
  }

  /** A run of a server that starts with an empty MemoryStore. */
  ghost predicate IsDeployedRun(w: Setting, run: seq<Deployed>) {
    && run != [] && run[0].memory == Memory(map[], 0) && run[0].attempts == map[] && ChainPays(w, View(run[0], map[]))
    && forall n: nat :: 0 < n < |run| ==> DeployedAt(w, run, n)
  }

  /** Hashes and challenge IDs have the lengths they are printed with. */
  ghost predicate WellPrinted(w: Setting) {
    forall c :: Screened(w, c) ==>
      && IsChallengeIDText(c.challenge)
      && (c.FeePayer() ==> SponsorKey(c.kind.tx).WellFormed())
      && (forall h :: Names(w, c, h) ==> IsHashText(Lower(h)))
  }

  // ---------- refinement ----------

  ghost predicate Holds(d: Deployed, store: Table<Key>, printed: Table<string>) {
    Agrees(d.memory.table, printed, d.now) && Prints(store, printed)
  }

  /** The same but for the store, and MemoryStore holds what can still be read of the table. */
  ghost predicate Refines(d: Deployed, s: State) {
    && s == View(d, s.store)
    && exists printed :: Holds(d, s.store, printed)
  }

  lemma {:induction false} ClaimantKeyPrints(w: Setting, c: Credential, key: Key)
    requires WellPrinted(w) && Claimant(w, key, c)
    ensures key.WellFormed()
  {
    if key.TxKey? {
      var h :| Names(w, c, h) && Lower(h) == key.hash;
      LowerIdempotent(h);
    }
  }

  lemma {:induction false} MainKeyPrints(w: Setting, c: Credential)
    requires WellPrinted(w) && Screened(w, c)
    ensures c.MainKey().WellFormed() && LegacyKey(c.challenge).WellFormed()
  {
    if c.kind.Hash? || c.kind.Unsponsored? {
      assert Names(w, c, c.NamedHash());
      LowerIdempotent(c.NamedHash());
    }
  }

  lemma {:induction false} PendingKeyPrints(w: Setting, a: Attempt)
    requires WellPrinted(w) && !a.Halted() && LocalInv(a) && Own(w, a)
    ensures var call := Pending(a); call.GetKey? || call.ClaimKey? || call.DeleteKey? ==> call.key.WellFormed()
  {
    MainKeyPrints(w, a.cred);
    if Pending(a).ClaimKey? {
      ClaimIsOwn(w, a, Pending(a).key);
      ClaimantKeyPrints(w, a.cred, Pending(a).key);
    } else if a.pc.Releasing? {
      ReleasesOwnKey(a);
    }
  }

  /** One store call: MemoryStore and the table answer alike and stay in step. */
  lemma {:induction false} CallRefines(d: Deployed, d': Deployed, store: Table<Key>, printed: Table<string>,
                                       op: Op<Key>)
    requires Holds(d, store, printed) && op.key.WellFormed()
    requires d'.memory == MemStep(d.memory, PrintOp(op), d.now).0 && d'.now == d.now
    ensures MemStep(d.memory, PrintOp(op), d.now).1 == RefStep(store, op, d.now).1
    ensures Holds(d', RefStep(store, op, d.now).0, RefStep(printed, PrintOp(op), d.now).0)
  {
    StepRefines(d.memory, printed, PrintOp(op), d.now);
    PrintedStep(store, printed, op, d.now);
  }

  function StoreAfter(config: Config, s: State, cred: Credential, call: Call): Table<Key> {
    if call.GetKey? || call.ClaimKey? || call.DeleteKey? then RefStep(s.store, StoreOp(config, cred, call), s.now).0
    else s.store
  }

  lemma {:induction false} RepliesAnswer(config: Config, s: State, a: Attempt, call: Call, r: Reply)
    requires if call.GetKey? || call.ClaimKey? || call.DeleteKey?
             then StoreReplies(call, RefStep(s.store, StoreOp(config, a.cred, call), s.now).1, r)
             else StoreReplies(call, Ack, r)
    ensures Answers(config, s, a, call, r, StoreAfter(config, s, a.cred, call))
  {
  }

  /** The reply MemoryStore's answer stands for is one the table may give. */
  lemma {:induction false} StoreStepRefines(w: Setting, d: Deployed, d': Deployed, s: State, a: Attempt, r: Reply)
    requires Refines(d, s) && !a.Halted() && MemoryReplies(w.config, d, a.cred, Pending(a), r, d'.memory)
    requires d'.now == d.now
    requires var call := Pending(a); call.GetKey? || call.ClaimKey? || call.DeleteKey? ==> call.key.WellFormed()
    ensures var store := StoreAfter(w.config, s, a.cred, Pending(a));
      && Answers(w.config, s, a, Pending(a), r, store)
      && exists printed :: Holds(d', store, printed)
  {
    var call := Pending(a);
    var printed :| Holds(d, s.store, printed);
    if call.GetKey? || call.ClaimKey? || call.DeleteKey? {
      CallRefines(d, d', s.store, printed, StoreOp(w.config, a.cred, call));
    } else {
      assert Holds(d', s.store, printed);
    }
    RepliesAnswer(w.config, s, a, call, r);
  }

  lemma {:induction false} ViewSteps(w: Setting, d: Deployed, d': Deployed, s: State, store': Table<Key>, i: AttemptId,
                                     r: Reply)
    requires DeployedStep(w, d, d', i, r) && s == View(d, s.store)
    requires Answers(w.config, s, d.attempts[i], Pending(d.attempts[i]), r, store')
    ensures PresentedNext(w, s, View(d', store'))
  {
    assert TruthfulStep(w, s, View(d', store'), i, r);
  }

  lemma {:induction false} StepRefinesSettlement(w: Setting, d: Deployed, d': Deployed, s: State, i: AttemptId,
                                                 r: Reply)
    returns (s': State)
    requires Refines(d, s) && AllOwn(w, s) && WellPrinted(w) && DeployedStep(w, d, d', i, r)
    ensures Refines(d', s') && PresentedNext(w, s, s')
  {
    var a := d.attempts[i];
    assert LocalInv(s.attempts[i]) && Own(w, s.attempts[i]);
    PendingKeyPrints(w, a);
    StoreStepRefines(w, d, d', s, a, r);
    var store' := StoreAfter(w.config, s, a.cred, Pending(a));
    ViewSteps(w, d, d', s, store', i, r);
    s' := View(d', store');
  }

  lemma {:induction false} QuietRefinesSettlement(w: Setting, d: Deployed, d': Deployed, s: State) returns (s': State)
    requires Refines(d, s) && DeployedQuiet(w, d, d')
    ensures Refines(d', s') && PresentedNext(w, s, s')
  {
    var printed :| Holds(d, s.store, printed);
    s' := View(d', s.store);
    var t, t' := View(d, map[]), View(d', map[]);
    assert d.now <= d'.now && Holds(d', s'.store, printed) by {
      forall key, u: Time | d'.now <= u
        ensures Live(d'.memory.table, key, u) == Live(printed, key, u)
        ensures Live(d'.memory.table, key, u) ==> d'.memory.table[key] == printed[key]
      {
        assert Live(d.memory.table, key, u) == Live(printed, key, u);
      }
    }
    if ScreenedStart(w, t, t') {
      assert ScreenedStart(w, s, s');
    } else if CrashStep(t, t') {
      assert CrashStep(s, s');
    } else {
      assert EnvironmentStep(s, s') && ChainPays(w, s');
    }
  }

  /** Every run over MemoryStore is a run over the table: what is proved of the one holds of the other. */
  lemma {:induction false} DeployedRunIsPresented(w: Setting, run: seq<Deployed>, n: nat) returns (spec: seq<State>)
    requires IsDeployedRun(w, run) && n < |run| && WellPrinted(w)
    ensures |spec| == n + 1 && Presents(w, spec) && Refines(run[n], spec[n])
  {
    if n == 0 {
      spec := [View(run[0], map[])];
      assert Holds(run[0], map[], map[]);
    } else {
      var init := DeployedRunIsPresented(w, run, n - 1);
      var s, s' := init[n - 1], init[n - 1];
      PresentedOwn(w, init, n - 1);
      assert DeployedAt(w, run, n);
      var d, d' := run[n - 1], run[n];
      if DeployedQuiet(w, d, d') {
        s' := QuietRefinesSettlement(w, d, d', s);
      } else {
        var i, r :| DeployedStep(w, d, d', i, r);
        s' := StepRefinesSettlement(w, d, d', s, i, r);
      }
      spec := init + [s'];
      forall m: nat | 0 < m < |spec| ensures PresentedAt(w, spec, m) {
        if m < n {
          assert PresentedAt(w, init, m);
        }
      }
    }
  }

  /**
   A server over MemoryStore settles each transaction and proof at most once, with or without expiring
   keys, whatever its clock, its sweeps and its attempts do.
   */
  lemma {:induction false} MemoryStoreSettlesOnce(w: Setting, run: seq<Deployed>)
    requires IsDeployedRun(w, run) && WellPrinted(w)
    requires w.config.expireReplayKeys ==> PaysOneChallenge(w) && ChallengeFixesExpiry(w)
    ensures AtMostOnce(View(run[|run| - 1], map[]))
  {
    var spec := DeployedRunIsPresented(w, run, |run| - 1);
    if w.config.expireReplayKeys {
      SettledAtMostOnceExpiring(w, spec);
    } else {
      PresentedIsRun(w, spec);
      SettledAtMostOnce(w.config, spec);
    }
    var s, t := spec[|spec| - 1], View(run[|run| - 1], map[]);
    forall key ensures AtMostOnceOn(t, key) {
      assert AtMostOnceOn(s, key);
    }
  }
}
