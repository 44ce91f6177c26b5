/**
 Concurrent CreateCredential calls for one challenge share one signing. Every access to the signing
 map happens under its mutex, so each such section is one step; any number of goroutines interleave.
 */
module SingleFlight {
  type Proc = nat
  type CallId = nat
  /** A challenge's JSON text: equal only when every field matches. */
  type Key = string
  type Credential = nat

  /** What a signing came to; a panic is recorded as an error of its own. */
  datatype Outcome = Pending | Made(credential: Credential) | ContextEnded | Errored | Panicked
  {
    predicate Set() { !Pending? }
  }

  /** signingCall, with the goroutine that leads it. */
  datatype Signing = Signing(key: Key, leader: Proc, outcome: Outcome, done: bool, waiters: nat)

  datatype PC =
    | Entering
    | Waiting(call: CallId)
    | Woken(call: CallId)
    | Leading(call: CallId)
    | Recorded(call: CallId)
    | Unlisted(call: CallId)
    | Led(call: CallId)
    | Joined(call: CallId, credential: Credential)
    | Failed
  {
    predicate Leads(c: CallId) { (Leading? || Recorded? || Unlisted?) && call == c }
    predicate Listed(c: CallId) { (Leading? || Recorded?) && call == c }
  }

  datatype Goroutine = Goroutine(key: Key, pc: PC, cancelled: bool)

  datatype State = State(signing: map<Key, CallId>, calls: seq<Signing>, procs: map<Proc, Goroutine>)

  ghost predicate Init(s: State) {
    s == State(map[], [], map[])
  }

  function At(s: State, g: Proc, pc: PC): State
    requires g in s.procs
  {
    s.(procs := s.procs[g := s.procs[g].(pc := pc)])
  }

  // ---------- steps ----------

  ghost predicate Spawn(s: State, s': State, g: Proc, key: Key) {
    g !in s.procs && s' == s.(procs := s.procs[g := Goroutine(key, Entering, false)])
  }

  ghost predicate Cancel(s: State, s': State, g: Proc) {
    g in s.procs && s' == s.(procs := s.procs[g := s.procs[g].(cancelled := true)])
  }

  /** Under the mutex: join the signing in the map, or list a new one and lead it. */
  function Entered(s: State, g: Proc): State
    requires g in s.procs
  {
    var key := s.procs[g].key;
    if key in s.signing && s.signing[key] < |s.calls| then
      var c := s.signing[key];
      At(s.(calls := s.calls[c := s.calls[c].(waiters := s.calls[c].waiters + 1)]), g, Waiting(c))
    else
      var c := |s.calls|;
      At(s.(calls := s.calls + [Signing(key, g, Pending, false, 0)], signing := s.signing[key := c]), g, Leading(c))
  }

  /** What a joiner makes of the finished signing. */
  function Read(s: State, g: Proc): State
    requires g in s.procs && s.procs[g].pc.Woken? && s.procs[g].pc.call < |s.calls|
  {
    var c := s.procs[g].pc.call;
    match s.calls[c].outcome
    case Made(credential) => At(s, g, Joined(c, credential))
    case ContextEnded => At(s, g, if s.procs[g].cancelled then Failed else Entering)
    case _ => At(s, g, Failed)
  }

  /** createCredential returns or panics, and the outcome is written to the call. */
  function Finished(s: State, g: Proc, outcome: Outcome): State
    requires g in s.procs && s.procs[g].pc.Leading? && s.procs[g].pc.call < |s.calls|
  {
    var c := s.procs[g].pc.call;
    At(s.(calls := s.calls[c := s.calls[c].(outcome := outcome)]), g, Recorded(c))
  }

  function Delisted(s: State, g: Proc): State
    requires g in s.procs && s.procs[g].pc.Recorded?
  {
    At(s.(signing := s.signing - {s.procs[g].key}), g, Unlisted(s.procs[g].pc.call))
  }

  function Closed(s: State, g: Proc): State
    requires g in s.procs && s.procs[g].pc.Unlisted? && s.procs[g].pc.call < |s.calls|
  {
    var c := s.procs[g].pc.call;
    At(s.(calls := s.calls[c := s.calls[c].(done := true)]), g, Led(c))
  }

  /** A step of goroutine g; `outcome` is what createCredential does, when this step is its end. */
  ghost predicate Moves(s: State, s': State, g: Proc, outcome: Outcome) {
    g in s.procs &&
    match s.procs[g].pc
    case Entering => s' == Entered(s, g)
    case Waiting(c) =>
      c < |s.calls| && (
        || (s.calls[c].done && s' == At(s, g, Woken(c)))
        || (s.procs[g].cancelled && s' == At(s, g, Failed)))
    case Woken(c) => c < |s.calls| && s' == Read(s, g)
    case Leading(c) => c < |s.calls| && outcome.Set() && s' == Finished(s, g, outcome)
    case Recorded(_) => s' == Delisted(s, g)
    case Unlisted(c) => c < |s.calls| && s' == Closed(s, g)
    case _ => false
  }

  ghost predicate Next(s: State, s': State) {
    || (exists g, key :: Spawn(s, s', g, key))
    || (exists g :: Cancel(s, s', g))
    || (exists g, outcome :: Moves(s, s', g, outcome))
  }

  ghost predicate StepsAt(run: seq<State>, i: nat)
    requires i + 1 < |run|
  {
    Next(run[i], run[i + 1])
  }

  ghost predicate IsRun(run: seq<State>) {
    run != [] && Init(run[0]) && forall i: nat :: i + 1 < |run| ==> StepsAt(run, i)
  }

  // ---------- the invariant ----------

  /** What each goroutine's place in the code says about the shared state. */
  ghost predicate ProcInv(s: State, g: Proc)
    requires g in s.procs
  {
    var p := s.procs[g];
    match p.pc
    case Entering => true
    case Waiting(c) => c < |s.calls| && s.calls[c].key == p.key
    case Woken(c) => c < |s.calls| && s.calls[c].key == p.key && s.calls[c].done
    case Leading(c) =>
      c < |s.calls| && s.calls[c].key == p.key && s.calls[c].leader == g && s.calls[c].outcome.Pending?
      && p.key in s.signing && s.signing[p.key] == c
    case Recorded(c) =>
      c < |s.calls| && s.calls[c].key == p.key && s.calls[c].leader == g && s.calls[c].outcome.Set()
      && p.key in s.signing && s.signing[p.key] == c
    case Unlisted(c) => c < |s.calls| && s.calls[c].key == p.key && s.calls[c].leader == g && s.calls[c].outcome.Set()
    case Led(c) => c < |s.calls| && s.calls[c].key == p.key && s.calls[c].leader == g && s.calls[c].done
    case Joined(c, credential) =>
      c < |s.calls| && s.calls[c].key == p.key && s.calls[c].done && s.calls[c].outcome == Made(credential)
    case Failed => true
  }

  /** A signing is done exactly when its leader has gone through the whole deferred cleanup. */
  ghost predicate CallInv(s: State, c: CallId)
    requires c < |s.calls|
  {
    var call := s.calls[c];
    && call.leader in s.procs
    && (if call.done then s.procs[call.leader].pc == Led(c) && call.outcome.Set()
        else s.procs[call.leader].pc.Leads(c))
  }

  /** The map lists a signing only while its leader is at work on it. */
  ghost predicate EntryInv(s: State, key: Key)
    requires key in s.signing
  {
    var c := s.signing[key];
    && c < |s.calls| && s.calls[c].key == key && s.calls[c].leader in s.procs
    && s.procs[s.calls[c].leader].pc.Listed(c)
  }

  ghost predicate Inv(s: State) {
    && (forall g :: g in s.procs ==> ProcInv(s, g))
    && (forall c :: 0 <= c < |s.calls| ==> CallInv(s, c))
    && (forall key :: key in s.signing ==> EntryInv(s, key))
  }

  /** Where a joiner may go next. */
  predicate JoinerMove(s: State, g: Proc, pc: PC)
    requires g in s.procs && (s.procs[g].pc.Waiting? || s.procs[g].pc.Woken?)
  {
    var c := s.procs[g].pc.call;
    || pc == Failed
    || pc == Entering
    || (c < |s.calls| && pc == Woken(c) && s.calls[c].done)
    || (&& c < |s.calls| && s.procs[g].pc.Woken? && pc.Joined? && pc.call == c
        && s.calls[c].outcome == Made(pc.credential))
  }

  lemma {:induction false} EnteredKeepsInv(s: State, g: Proc)
    requires Inv(s) && g in s.procs && s.procs[g].pc == Entering
    ensures Inv(Entered(s, g))
  {
    var s' := Entered(s, g);
    assert ProcInv(s, g);
    assert s.procs[g].key in s.signing ==> EntryInv(s, s.procs[g].key);
    forall h | h in s'.procs ensures ProcInv(s', h) {
      assert ProcInv(s, h);
    }
    forall c | 0 <= c < |s'.calls| ensures CallInv(s', c) {
      assert c < |s.calls| ==> CallInv(s, c);
    }
    forall k | k in s'.signing ensures EntryInv(s', k) {
      assert k in s.signing ==> EntryInv(s, k);
    }
  }

  lemma {:induction false} FinishedKeepsInv(s: State, g: Proc, outcome: Outcome)
    requires Inv(s) && g in s.procs && s.procs[g].pc.Leading? && s.procs[g].pc.call < |s.calls| && outcome.Set()
    ensures Inv(Finished(s, g, outcome))
  {
    var s' := Finished(s, g, outcome);
    assert ProcInv(s, g);
    forall h | h in s'.procs ensures ProcInv(s', h) {
      assert ProcInv(s, h);
    }
    forall c | 0 <= c < |s'.calls| ensures CallInv(s', c) {
      assert c < |s.calls| ==> CallInv(s, c);
    }
    forall k | k in s'.signing ensures EntryInv(s', k) {
      assert k in s.signing ==> EntryInv(s, k);
    }
  }

  lemma {:induction false} DelistedKeepsInv(s: State, g: Proc)
    requires Inv(s) && g in s.procs && s.procs[g].pc.Recorded?
    ensures Inv(Delisted(s, g))
  {
    var s' := Delisted(s, g);
    assert ProcInv(s, g);
    forall h | h in s'.procs ensures ProcInv(s', h) {
      assert ProcInv(s, h);
    }
    forall c | 0 <= c < |s'.calls| ensures CallInv(s', c) {
      assert c < |s.calls| ==> CallInv(s, c);
    }
    forall k | k in s'.signing ensures EntryInv(s', k) {
      assert k in s.signing ==> EntryInv(s, k);
    }
  }

  lemma {:induction false} ClosedKeepsInv(s: State, g: Proc)
    requires Inv(s) && g in s.procs && s.procs[g].pc.Unlisted? && s.procs[g].pc.call < |s.calls|
    ensures Inv(Closed(s, g))
  {
    var s' := Closed(s, g);
    assert ProcInv(s, g);
    forall h | h in s'.procs ensures ProcInv(s', h) {
      assert ProcInv(s, h);
    }
    forall c | 0 <= c < |s'.calls| ensures CallInv(s', c) {
      assert c < |s.calls| ==> CallInv(s, c);
    }
    forall k | k in s'.signing ensures EntryInv(s', k) {
      assert k in s.signing ==> EntryInv(s, k);
    }
  }

  /** A joiner's own moves touch nothing shared. */
  lemma {:induction false} JoinerKeepsInv(s: State, g: Proc, pc: PC)
    requires Inv(s) && g in s.procs && (s.procs[g].pc.Waiting? || s.procs[g].pc.Woken?) && JoinerMove(s, g, pc)
    ensures Inv(At(s, g, pc))
  {
    var s' := At(s, g, pc);
    assert ProcInv(s, g);
    forall h | h in s'.procs ensures ProcInv(s', h) {
      assert ProcInv(s, h);
    }
    forall c | 0 <= c < |s'.calls| ensures CallInv(s', c) {
      assert c < |s.calls| ==> CallInv(s, c);
    }
    forall k | k in s'.signing ensures EntryInv(s', k) {
      assert k in s.signing ==> EntryInv(s, k);
    }
  }

  lemma {:induction false} MoveKeepsInv(s: State, s': State, g: Proc, outcome: Outcome)
    requires Inv(s) && Moves(s, s', g, outcome)
    ensures Inv(s')
  {
    assert ProcInv(s, g);
    match s.procs[g].pc
    case Entering => EnteredKeepsInv(s, g);
    case Waiting(_) => JoinerKeepsInv(s, g, s'.procs[g].pc);
    case Woken(_) => JoinerKeepsInv(s, g, s'.procs[g].pc);
    case Leading(_) => FinishedKeepsInv(s, g, outcome);
    case Recorded(_) => DelistedKeepsInv(s, g);
    case Unlisted(_) => ClosedKeepsInv(s, g);
    case _ =>
  }

  lemma {:induction false} OthersKeepInv(s: State, s': State, g: Proc, key: Key)
    requires Inv(s) && (Spawn(s, s', g, key) || Cancel(s, s', g))
    ensures Inv(s')
  {
    forall h | h in s'.procs ensures ProcInv(s', h) {
      if h in s.procs {
        assert ProcInv(s, h);
      }
    }
    forall c | 0 <= c < |s'.calls| ensures CallInv(s', c) {
      assert CallInv(s, c);
    }
    forall k | k in s'.signing ensures EntryInv(s', k) {
      assert EntryInv(s, k);
    }
  }

  lemma {:induction false} RunKeepsInv(run: seq<State>, n: nat)
    requires IsRun(run) && n < |run|
    ensures Inv(run[n])
  {
    if n == 0 {
    } else {
      var s, s' := run[n - 1], run[n];
      RunKeepsInv(run, n - 1);
      assert StepsAt(run, n - 1);
      if g, key :| Spawn(s, s', g, key) {
        OthersKeepInv(s, s', g, key);
      } else if g :| Cancel(s, s', g) {
        OthersKeepInv(s, s', g, "");
      } else {
        var g, outcome :| Moves(s, s', g, outcome);
        MoveKeepsInv(s, s', g, outcome);
      }
    }
  }

  // ---------- what callers rely on ----------

  /** Two executions of createCredential for one challenge never overlap. */
  lemma {:induction false} SigningsNeverOverlap(run: seq<State>, n: nat, g: Proc, h: Proc)
    requires IsRun(run) && n < |run| && g in run[n].procs && h in run[n].procs
    requires run[n].procs[g].pc.Leading? && run[n].procs[h].pc.Leading? && run[n].procs[g].key == run[n].procs[h].key
    ensures g == h
  {
    RunKeepsInv(run, n);
    assert ProcInv(run[n], g) && ProcInv(run[n], h);
  }

  /** A map entry exists only while the leader of that very signing is active. */
  lemma {:induction false} EntryMeansActive(run: seq<State>, n: nat, key: Key)
    requires IsRun(run) && n < |run| && key in run[n].signing
    ensures var s, c := run[n], run[n].signing[key];
      && c < |s.calls| && s.calls[c].leader in s.procs && s.procs[s.calls[c].leader].key == key
      && s.procs[s.calls[c].leader].pc.Listed(c)
  {
    RunKeepsInv(run, n);
    assert EntryInv(run[n], key);
    assert ProcInv(run[n], run[n].calls[run[n].signing[key]].leader);
  }

  /** Nobody but a signing's leader writes to it, and the outcome only once. */
  predicate Grows(call: Signing, later: Signing) {
    && later.key == call.key && later.leader == call.leader
    && (call.outcome.Set() ==> later.outcome == call.outcome)
    && (call.done ==> later.done)
  }

  lemma {:induction false} CallGrows(s: State, s': State, c: CallId)
    requires Inv(s) && Next(s, s') && c < |s.calls|
    ensures c < |s'.calls| && Grows(s.calls[c], s'.calls[c])
  {
    if g, outcome :| Moves(s, s', g, outcome) {
      assert ProcInv(s, g);
    }
  }

  /** A call's outcome, once recorded, and its key and leader never change. */
  lemma {:induction false} OutcomeIsFinal(run: seq<State>, m: nat, n: nat, c: CallId)
    requires IsRun(run) && m <= n < |run| && c < |run[m].calls|
    ensures c < |run[n].calls| && Grows(run[m].calls[c], run[n].calls[c])
    decreases n - m
  {
    if m == n {
    } else {
      RunKeepsInv(run, m);
      assert StepsAt(run, m);
      CallGrows(run[m], run[m + 1], c);
      OutcomeIsFinal(run, m + 1, n, c);
    }
  }

  /**
   A joiner that returns a credential returns the one made by the signing it joined, for its own
   challenge; so all who joined one signing return the same credential.
   */
  lemma {:induction false} JoinersShare(run: seq<State>, m: nat, n: nat, g: Proc, h: Proc)
    requires IsRun(run) && m < |run| && n < |run| && g in run[m].procs && h in run[n].procs
    requires run[m].procs[g].pc.Joined? && run[n].procs[h].pc.Joined?
        && run[m].procs[g].pc.call == run[n].procs[h].pc.call
    ensures run[m].procs[g].pc.credential == run[n].procs[h].pc.credential
    ensures run[m].procs[g].pc.call < |run[m].calls|
    ensures run[m].calls[run[m].procs[g].pc.call].key == run[m].procs[g].key == run[n].procs[h].key
  {
    RunKeepsInv(run, m);
    RunKeepsInv(run, n);
    assert ProcInv(run[m], g) && ProcInv(run[n], h);
    if m <= n {
      OutcomeIsFinal(run, m, n, run[m].procs[g].pc.call);
    } else {
      OutcomeIsFinal(run, n, m, run[m].procs[g].pc.call);
    }
  }

  lemma {:induction false} WokenStep(s: State, s': State, g: Proc)
    requires Inv(s) && Next(s, s') && g in s.procs && s.procs[g].pc.Woken?
    ensures g in s'.procs && s'.procs[g].key == s.procs[g].key
    ensures s'.procs[g].pc != s.procs[g].pc ==>
      && s.procs[g].pc.call < |s.calls|
      && match s.calls[s.procs[g].pc.call].outcome
         case Made(credential) => s'.procs[g].pc == Joined(s.procs[g].pc.call, credential)
         case ContextEnded => s'.procs[g].pc == if s.procs[g].cancelled then Failed else Entering
         case _ => s'.procs[g].pc == Failed
  {
    assert ProcInv(s, g);
  }

  lemma {:induction false} JoinedStays(s: State, s': State, g: Proc)
    requires Next(s, s') && g in s.procs && s.procs[g].pc.Joined?
    ensures g in s'.procs && s'.procs[g].pc == s.procs[g].pc
  {
  }

  /**
   Who wakes from a signing that made a credential gets that credential: at every later point it has
   it, or has not looked yet.
   */
  lemma {:induction false} WokenGetsTheCredential(run: seq<State>, m: nat, n: nat, g: Proc, c: CallId,
                                                  credential: Credential)
    requires IsRun(run) && m <= n < |run| && g in run[m].procs && run[m].procs[g].pc == Woken(c)
    requires c < |run[m].calls| && run[m].calls[c].outcome == Made(credential)
    ensures g in run[n].procs && (run[n].procs[g].pc == Woken(c) || run[n].procs[g].pc == Joined(c, credential))
    decreases n
  {
    if m == n {
    } else {
      WokenGetsTheCredential(run, m, n - 1, g, c, credential);
      OutcomeIsFinal(run, m, n - 1, c);
      RunKeepsInv(run, n - 1);
      assert StepsAt(run, n - 1);
      if run[n - 1].procs[g].pc.Woken? {
        WokenStep(run[n - 1], run[n], g);
      } else {
        JoinedStays(run[n - 1], run[n], g);
      }
    }
  }

  /** The signing it joined, one for its own key, ended in an error or a panic. */
  predicate JoinedAFailure(s: State, g: Proc) {
    && g in s.procs && s.procs[g].pc.Woken? && s.procs[g].pc.call < |s.calls|
    && s.calls[s.procs[g].pc.call].key == s.procs[g].key
    && (s.calls[s.procs[g].pc.call].outcome.Errored? || s.calls[s.procs[g].pc.call].outcome.Panicked?)
  }

  lemma {:induction false} FailsOnlyWoken(s: State, s': State, g: Proc)
    requires Inv(s) && Next(s, s') && g in s.procs && !s.procs[g].pc.Woken? && s.procs[g].pc != Failed
    ensures g in s'.procs && (s'.procs[g].pc == Failed ==> s.procs[g].cancelled)
  {
    assert ProcInv(s, g);
  }

  lemma {:induction false} WokenFails(s: State, s': State, g: Proc)
    requires Inv(s) && Next(s, s') && g in s.procs && s.procs[g].pc.Woken?
    ensures g in s'.procs && (s'.procs[g].pc == Failed ==> s.procs[g].cancelled || JoinedAFailure(s, g))
  {
    WokenStep(s, s', g);
    assert ProcInv(s, g) && CallInv(s, s.procs[g].pc.call);
  }

  /** A caller fails only if it was cancelled, or if the signing it joined failed. */
  lemma {:induction false} FailedForAReason(run: seq<State>, n: nat, g: Proc)
    requires IsRun(run) && n + 1 < |run| && g in run[n].procs && run[n].procs[g].pc != Failed
    ensures g in run[n + 1].procs
    ensures run[n + 1].procs[g].pc == Failed ==> run[n].procs[g].cancelled || JoinedAFailure(run[n], g)
  {
    RunKeepsInv(run, n);
    assert StepsAt(run, n);
    if run[n].procs[g].pc.Woken? {
      WokenFails(run[n], run[n + 1], g);
    } else {
      FailsOnlyWoken(run[n], run[n + 1], g);
    }
  }

  /** Nobody waits in vain: a waiter can wake, or the leader it waits for can take a step. */
  lemma {:induction false} WaitersAreNotStuck(run: seq<State>, n: nat, g: Proc)
    requires IsRun(run) && n < |run| && g in run[n].procs && run[n].procs[g].pc.Waiting?
    ensures var s, c := run[n], run[n].procs[g].pc.call;
      && c < |s.calls| && s.calls[c].leader in s.procs
      && (s.calls[c].done ==> Moves(s, At(s, g, Woken(c)), g, Pending))
      && (!s.calls[c].done ==> exists s', outcome :: Moves(s, s', s.calls[c].leader, outcome))
  {
    var s, c := run[n], run[n].procs[g].pc.call;
    RunKeepsInv(run, n);
    assert ProcInv(s, g) && CallInv(s, c);
    var l := s.calls[c].leader;
    if !s.calls[c].done {
      assert ProcInv(s, l);
      if s.procs[l].pc.Leading? {
        assert Moves(s, Finished(s, l, Panicked), l, Panicked);
      } else if s.procs[l].pc.Recorded? {
        assert Moves(s, Delisted(s, l), l, Panicked);
      } else {
        assert Moves(s, Closed(s, l), l, Panicked);
      }
    }
  }

  /** How many steps of its own a goroutine took between the states `m` and `n`. */
  function Steps(run: seq<State>, m: nat, n: nat, g: Proc): nat
    requires n < |run|
  {
    if n <= m then 0
    else
      Steps(run, m, n - 1, g)
      + (if g in run[n - 1].procs && g in run[n].procs && run[n - 1].procs[g].pc != run[n].procs[g].pc then 1 else 0)
  }

  /** Where a leader is that many steps after createCredential returned or panicked. */
  predicate Cleaned(pc: PC, c: CallId, steps: nat) {
    match steps
    case 0 => pc == Recorded(c)
    case 1 => pc == Unlisted(c)
    case _ => steps == 2 && pc == Led(c)
  }

  lemma {:induction false} CleanupGoesOn(s: State, s': State, l: Proc, c: CallId, steps: nat)
    requires Next(s, s') && l in s.procs && Cleaned(s.procs[l].pc, c, steps)
    ensures l in s'.procs
    ensures Cleaned(s'.procs[l].pc, c, steps + if s.procs[l].pc != s'.procs[l].pc then 1 else 0)
  {
    if g, outcome :| Moves(s, s', g, outcome) {
    }
  }

  lemma {:induction false} CleanupStep(run: seq<State>, m: nat, n: nat, l: Proc, c: CallId)
    requires IsRun(run) && m < n < |run| && l in run[n - 1].procs
    requires Cleaned(run[n - 1].procs[l].pc, c, Steps(run, m, n - 1, l))
    ensures l in run[n].procs && Cleaned(run[n].procs[l].pc, c, Steps(run, m, n, l))
  {
    assert StepsAt(run, n - 1);
    CleanupGoesOn(run[n - 1], run[n], l, c, Steps(run, m, n - 1, l));
  }

  /** Whatever is interleaved, the deferred cleanup is two steps of the leader. */
  lemma {:induction false} CleanupTakesTwoSteps(run: seq<State>, m: nat, n: nat, l: Proc, c: CallId)
    requires IsRun(run) && m <= n < |run| && l in run[m].procs && run[m].procs[l].pc == Recorded(c)
    ensures l in run[n].procs && Cleaned(run[n].procs[l].pc, c, Steps(run, m, n, l))
    decreases n
  {
    if m == n {
    } else {
      CleanupTakesTwoSteps(run, m, n - 1, l, c);
      CleanupStep(run, m, n, l, c);
    }
  }

  /**
   Once createCredential has returned or panicked, the leader takes at most two more steps, can always
   take the next one, and after the second one every joiner can wake, whatever else happened meanwhile.
   */
  lemma {:induction false} FinishReleasesJoiners(run: seq<State>, m: nat, n: nat, l: Proc, c: CallId)
    requires IsRun(run) && m <= n < |run| && l in run[m].procs && run[m].procs[l].pc == Recorded(c)
    ensures Steps(run, m, n, l) <= 2
    ensures Steps(run, m, n, l) < 2 ==> exists s' :: Moves(run[n], s', l, Pending)
    ensures Steps(run, m, n, l) == 2 ==> forall g :: g in run[n].procs && run[n].procs[g].pc == Waiting(c) ==>
      Moves(run[n], At(run[n], g, Woken(c)), g, Pending)
  {
    CleanupTakesTwoSteps(run, m, n, l, c);
    RunKeepsInv(run, n);
    assert ProcInv(run[n], l);
    if Steps(run, m, n, l) == 0 {
      assert Moves(run[n], Delisted(run[n], l), l, Pending);
    } else if Steps(run, m, n, l) == 1 {
      assert Moves(run[n], Closed(run[n], l), l, Pending);
    }
  }
}
