/**
 The client transport's payment loop. Whatever the server answers, it bounds what is sent and paid.
 The server, the hooks and the payment methods are a function from the round to what they do in it.
 */
module RoundTrip {
  import opened Text

  /** A credential is identified by reference; a hash credential's transfer is already on chain. */
  datatype Credential = Credential(id: nat, isHash: bool)

  /** Challenge ID, method name and intent. */
  datatype Key = Key(id: string, name: string, intent: string)

  const ZERO_KEY := Key("", "", "")

  datatype Problem = NoProblem | OutcomeUnknown | Expired | InvalidPayload | OtherProblem

  /** What the offers of a 402 come to after ranking, ordering and the origin check. */
  datatype Offer = NonePayable | OrderFails | OriginRejected | Selected(key: Key)

  datatype Reply = ConnectionError | Answer | Demand(problem: Problem, offer: Offer)

  /** The OnChallenge hook calls createCredential some number of times and then returns. */
  datatype Hook = NoHook | Hook(calls: nat, outcome: HookOutcome)
  datatype HookOutcome = Fails(forwards: bool) | LeavesIt | Supplies(credential: Credential)

  /** One round: the server's reply, and what happens if the loop goes on to pay. */
  datatype Round = Round(reply: Reply, clones: bool, hook: Hook, made: Option<Credential>, formats: bool)

  datatype Event =
    | Send(paid: bool, key: Key, credential: Option<Credential>, callerPaid: bool, reply: Reply)
    | Create(key: Key, ok: bool)
    | Keep(key: Key, kept: Credential)

  datatype Result = Response | Unknown | Failed | Declined

  // ---------- creating a credential ----------

  /** What createCredential returns, and how often it ran the payment method. */
  datatype Obtained = Obtained(credential: Option<Credential>, runs: nat, declined: bool)

  function Obtain(hook: Hook, made: Option<Credential>): Obtained {
    if hook == NoHook then Obtained(made, 1, false)
    else
      var runs := if hook.calls > 0 then 1 else 0;
      match hook.outcome
      case Fails(forwards) => Obtained(None, runs, runs == 0 || (made == None && !forwards))
      case LeavesIt => Obtained(made, 1, false)
      case Supplies(credential) => Obtained(Some(credential), runs, false)
  }

  /** The closure handed to the hook: it runs the method once and then repeats the first result. */
  class Creator {
    const made: Option<Credential>
    var created: bool
    var createdVal: Option<Credential>
    var runs: nat

    ghost predicate Valid()
      reads this
    {
      runs == (if created then 1 else 0) && (created ==> createdVal == made)
    }

    constructor (made: Option<Credential>)
      ensures Valid() && !created && this.made == made
    {
      this.made := made;
      created, createdVal, runs := false, None, 0;
    }

    method Create() returns (r: Option<Credential>)
      requires Valid()
      modifies this
      ensures Valid() && created && r == made
    {
      if created {
        return createdVal;
      }
      created := true;
      runs := runs + 1;
      createdVal := made;
      return createdVal;
    }
  }

  method CreateCredential(hook: Hook, made: Option<Credential>) returns (r: Obtained)
    ensures r == Obtain(hook, made)
  {
    var creator := new Creator(made);
    if hook == NoHook {
      var cred := creator.Create();
      return Obtained(cred, creator.runs, false);
    }
    for i := 0 to hook.calls
      invariant creator.Valid() && creator.created == (i > 0)
    {
      var _ := creator.Create();
    }
    match hook.outcome {
      case Fails(forwards) =>
        if creator.created && creator.createdVal == None && forwards {
          return Obtained(None, creator.runs, false);
        }
        if creator.created && creator.createdVal != None {
          return Obtained(None, creator.runs, false);
        }
        return Obtained(None, creator.runs, true);
      case LeavesIt =>
        var cred := creator.Create();
        return Obtained(cred, creator.runs, false);
      case Supplies(credential) =>
        return Obtained(Some(credential), creator.runs, false);
    }
  }

  // ---------- the loop as a function ----------

  datatype State = State(
    credentials: map<Key, Credential>, sent: bool, sentKey: Key, sentCred: Option<Credential>, callerPaid: bool)

  /** The credential the caller put on the request: none, one that does not parse, or one that does. */
  datatype Caller = NoCredential | Unreadable | Carries(key: Key, credential: Credential)

  function Start(caller: Caller): State {
    match caller
    case NoCredential => State(map[], false, ZERO_KEY, None, false)
    case Unreadable => State(map[], true, ZERO_KEY, None, true)
    case Carries(key, credential) => State(map[key := credential], true, key, Some(credential), true)
  }

  datatype Verdict = Stop(result: Result) | Pay(key: Key)

  /** Which replies end the loop. */
  function Screen(st: State, reply: Reply, retries: nat, maxRetries: nat): Verdict {
    match reply
    case ConnectionError => Stop(if st.sent then Unknown else Failed)
    case Answer => Stop(Response)
    case Demand(problem, offer) =>
      if problem == OutcomeUnknown then Stop(if st.sent then Unknown else Response)
      else if st.callerPaid && problem == Expired then Stop(Response)
      else if retries >= maxRetries then Stop(Response)
      else
        match offer
        case OrderFails => Stop(Failed)
        case NonePayable => Stop(if st.sent then Response else Failed)
        case OriginRejected => Stop(Failed)
        case Selected(key) =>
          if st.sent && st.sentCred.Some? && st.sentCred.value.isHash
             && (key !in st.credentials || problem == InvalidPayload) then Stop(Response)
          else Pay(key)
  }

  /** An invalid-payload answer discards the credential that was sent. */
  function Kept(st: State, reply: Reply): map<Key, Credential> {
    if reply.Demand? && reply.problem == InvalidPayload then st.credentials - {st.sentKey} else st.credentials
  }

  datatype Stepped = Done(result: Result) | Next(state: State)

  /** Paying the selected challenge: reuse the credential made for it, or obtain one. */
  function PayStep(caller: Caller, trace: seq<Event>, st: State, round: Round, key: Key): (seq<Event>, Stepped) {
    var kept := Kept(st, round.reply);
    if !round.clones then (trace, Done(Failed))
    else
      var obtained := if key in kept then Obtained(Some(kept[key]), 0, false) else Obtain(round.hook, round.made);
      var trace' := if obtained.runs > 0 then trace + [Create(key, round.made.Some?)] else trace;
      if obtained.credential == None then (trace', Done(if obtained.declined then Declined else Failed))
      else
        var cred := obtained.credential.value;
        var (credentials, stored) :=
          if key in kept then (kept, trace') else (kept[key := cred], trace' + [Keep(key, cred)]);
        if !round.formats then (stored, Done(Failed))
        else (stored, Next(State(credentials, true, key, Some(cred), caller.Carries? && cred == caller.credential)))
  }

  function Sending(st: State, reply: Reply): Event {
    Send(st.sent, st.sentKey, st.sentCred, st.callerPaid, reply)
  }

  /** What the loop does from round `retries` on, after `trace`. */
  function Run(caller: Caller, env: nat -> Round, trace: seq<Event>, st: State, retries: nat,
               maxRetries: nat): (seq<Event>, Result)
    decreases maxRetries - retries
  {
    var round := env(retries);
    var sent := trace + [Sending(st, round.reply)];
    match Screen(st, round.reply, retries, maxRetries)
    case Stop(result) => (sent, result)
    case Pay(key) =>
      var (trace', step) := PayStep(caller, sent, st, round, key);
      match step
      case Done(result) => (trace', result)
      case Next(st') => Run(caller, env, trace', st', retries + 1, maxRetries)
  }

  // ---------- the loop ----------

  /** Prepares the retry, reuses the credential kept for the challenge or obtains one, and prints it. */
  method PayFor(round: Round, key: Key, kept: map<Key, Credential>, sent: seq<Event>, ghost caller: Caller,
                ghost st: State)
    returns (trace: seq<Event>, credentials: map<Key, Credential>, cred: Option<Credential>, failure: Result)
    requires kept == Kept(st, round.reply)
    ensures PayStep(caller, sent, st, round, key)
         == (trace, if cred == None then Done(failure)
                    else Next(State(credentials, true, key, cred, caller.Carries? && cred.value == caller.credential)))
  {
    trace, credentials, cred, failure := sent, kept, None, Failed;
    if !round.clones {
      return;
    }
    var paying: Credential;
    if key in credentials {
      paying := credentials[key];
    } else {
      var obtained := CreateCredential(round.hook, round.made);
      if obtained.runs > 0 {
        trace := trace + [Create(key, round.made.Some?)];
      }
      if obtained.credential == None {
        failure := if obtained.declined then Declined else Failed;
        return;
      }
      paying := obtained.credential.value;
      trace := trace + [Keep(key, paying)];
      credentials := credentials[key := paying];
    }
    if !round.formats {
      return;
    }
    cred := Some(paying);
  }

  method DoRoundTrip(caller: Caller, env: nat -> Round, maxRetries: nat) returns (trace: seq<Event>, result: Result)
    ensures (trace, result) == Run(caller, env, [], Start(caller), 0, maxRetries)
  {
    var credentials: map<Key, Credential> := map[];
    var sent, sentKey: Key, sentCred: Option<Credential> := caller != NoCredential, ZERO_KEY, None;
    var callerPaid, callerCred: Option<Credential> := sent, None;
    if caller.Carries? {
      sentKey, sentCred, callerCred := caller.key, Some(caller.credential), Some(caller.credential);
      credentials := credentials[sentKey := caller.credential];
    }
    trace := [];
    var retries := 0;
    ghost var whole := Run(caller, env, [], Start(caller), 0, maxRetries);
    while true
      invariant retries <= maxRetries && callerCred == (if caller.Carries? then Some(caller.credential) else None)
      invariant Run(caller, env, trace, State(credentials, sent, sentKey, sentCred, callerPaid), retries, maxRetries)
        == whole
      decreases maxRetries - retries
    {
      var round := env(retries);
      ghost var st := State(credentials, sent, sentKey, sentCred, callerPaid);
      trace := trace + [Send(sent, sentKey, sentCred, callerPaid, round.reply)];
      if round.reply == ConnectionError {
        return trace, if sent then Unknown else Failed;
      }
      if round.reply == Answer {
        return trace, Response;
      }
      var problem := round.reply.problem;
      if problem == OutcomeUnknown {
        return trace, if sent then Unknown else Response;
      }
      if callerPaid && problem == Expired {
        return trace, Response;
      }
      if retries >= maxRetries {
        return trace, Response;
      }
      match round.reply.offer {
        case OrderFails => return trace, Failed;
        case NonePayable => return trace, if sent then Response else Failed;
        case OriginRejected => return trace, Failed;
        case Selected(_) =>
      }
      var key := round.reply.offer.key;
      if sent && sentCred.Some? && sentCred.value.isHash {
        if key !in credentials || problem == InvalidPayload {
          return trace, Response;
        }
      }
      if problem == InvalidPayload {
        credentials := credentials - {sentKey};
      }
      var cred: Option<Credential>, failure: Result;
      trace, credentials, cred, failure := PayFor(round, key, credentials, trace, caller, st);
      if cred == None {
        return trace, failure;
      }
      sentKey, sent, sentCred := key, true, cred;
      callerPaid := callerCred.Some? && cred == callerCred;
      retries := retries + 1;
    }
  }

  // ---------- what a trace contains ----------

  function Sends(trace: seq<Event>): nat {
    if trace == [] then 0 else Sends(trace[..|trace| - 1]) + if trace[|trace| - 1].Send? then 1 else 0
  }

  /** How often the payment method ran, for one challenge or (None) for all of them. */
  function Creates(trace: seq<Event>, key: Option<Key>): nat {
    if trace == [] then 0
    else
      var last := trace[|trace| - 1];
      Creates(trace[..|trace| - 1], key) + if last.Create? && (key == None || last.key == key.value) then 1 else 0
  }

  /** An invalid-payload answer to a round that sent a credential for this challenge. */
  predicate Rejects(e: Event, key: Key) {
    e.Send? && e.credential.Some? && e.key == key && e.reply.Demand? && e.reply.problem == InvalidPayload
  }

  function Rejections(trace: seq<Event>, key: Key): nat {
    if trace == [] then 0
    else Rejections(trace[..|trace| - 1], key) + if Rejects(trace[|trace| - 1], key) then 1 else 0
  }

  predicate CreatesFor(e: Event, key: Option<Key>) {
    e.Create? && (key == None || e.key == key.value)
  }

  lemma {:induction false} Append(trace: seq<Event>, e: Event, key: Option<Key>, k: Key)
    ensures Sends(trace + [e]) == Sends(trace) + if e.Send? then 1 else 0
    ensures Creates(trace + [e], key) == Creates(trace, key) + if CreatesFor(e, key) then 1 else 0
    ensures Rejections(trace + [e], k) == Rejections(trace, k) + if Rejects(e, k) then 1 else 0
  {
    assert (trace + [e])[..|trace|] == trace;
  }

  /** How one payment step extends the trace: at most one creation, and only without a kept credential. */
  lemma {:induction false} PayStepTrace(caller: Caller, trace: seq<Event>, st: State, round: Round, key: Key,
                                        of: Option<Key>, k: Key)
    ensures var kept := Kept(st, round.reply);
      var (trace', step) := PayStep(caller, trace, st, round, key);
      && Sends(trace') == Sends(trace) && Rejections(trace', k) == Rejections(trace, k)
      && Creates(trace, of) <= Creates(trace', of)
      && Creates(trace', of) <= Creates(trace, of) + (if (of == None || of.value == key) && key !in kept then 1 else 0)
      && (step.Next? ==> (step.state.sent && step.state.sentCred.Some? && step.state.sentKey == key
                          && step.state.credentials.Keys == kept.Keys + {key}))
  {
    var obtained := Obtain(round.hook, round.made);
    Append(trace, Create(key, round.made.Some?), of, k);
    var trace1 := if obtained.runs > 0 then trace + [Create(key, round.made.Some?)] else trace;
    if obtained.credential.Some? {
      Append(trace1, Keep(key, obtained.credential.value), of, k);
    }
  }

  // ---------- bounds ----------

  /** At most maxRetries + 1 requests are sent. */
  lemma {:induction false} SendsAreBounded(caller: Caller, env: nat -> Round, trace: seq<Event>, st: State,
                                           retries: nat, maxRetries: nat)
    requires retries <= maxRetries && Sends(trace) == retries
    ensures Sends(Run(caller, env, trace, st, retries, maxRetries).0) <= maxRetries + 1
    decreases maxRetries - retries
  {
    var round := env(retries);
    var sent := trace + [Sending(st, round.reply)];
    Append(trace, Sending(st, round.reply), None, ZERO_KEY);
    var verdict := Screen(st, round.reply, retries, maxRetries);
    if verdict.Pay? {
      PayStepTrace(caller, sent, st, round, verdict.key, None, ZERO_KEY);
      var step := PayStep(caller, sent, st, round, verdict.key);
      if step.1.Next? {
        SendsAreBounded(caller, env, step.0, step.1.state, retries + 1, maxRetries);
      }
    }
  }

  /** Every creation so far is matched by a rejection, but for the credential still kept. */
  predicate Covered(trace: seq<Event>, st: State, key: Key) {
    && (st.sentCred == None ==> st.credentials == map[])
    && Creates(trace, Some(key)) <= Rejections(trace, key) + if key in st.credentials then 1 else 0
  }

  lemma {:induction false} CreatesAreBounded(caller: Caller, env: nat -> Round, trace: seq<Event>, st: State,
                                             retries: nat, maxRetries: nat, key: Key)
    requires Covered(trace, st, key)
    ensures var trace' := Run(caller, env, trace, st, retries, maxRetries).0;
      Creates(trace', Some(key)) <= Rejections(trace', key) + 1
    decreases maxRetries - retries
  {
    var round := env(retries);
    var sent := trace + [Sending(st, round.reply)];
    Append(trace, Sending(st, round.reply), Some(key), key);
    var verdict := Screen(st, round.reply, retries, maxRetries);
    if verdict.Pay? {
      PayStepTrace(caller, sent, st, round, verdict.key, Some(key), key);
      var step := PayStep(caller, sent, st, round, verdict.key);
      if step.1.Next? {
        CreatesAreBounded(caller, env, step.0, step.1.state, retries + 1, maxRetries, key);
      }
    }
  }

  /** Every credential sent is a hash. */
  predicate OnlyHashes(trace: seq<Event>) {
    trace == [] || (OnlyHashes(trace[..|trace| - 1]) && !SendsOther(trace[|trace| - 1]))
  }

  predicate SendsOther(e: Event) {
    e.Send? && e.credential.Some? && !e.credential.value.isHash
  }

  lemma {:induction false} OnlyHashesAppend(trace: seq<Event>, e: Event)
    ensures OnlyHashes(trace + [e]) <==> OnlyHashes(trace) && !SendsOther(e)
  {
    assert (trace + [e])[..|trace|] == trace;
  }

  lemma {:induction false} PayStepSendsNothing(caller: Caller, trace: seq<Event>, st: State, round: Round, key: Key)
    ensures OnlyHashes(PayStep(caller, trace, st, round, key).0) <==> OnlyHashes(trace)
  {
    var obtained := Obtain(round.hook, round.made);
    OnlyHashesAppend(trace, Create(key, round.made.Some?));
    var trace1 := if obtained.runs > 0 then trace + [Create(key, round.made.Some?)] else trace;
    if obtained.credential.Some? {
      OnlyHashesAppend(trace1, Keep(key, obtained.credential.value));
    }
  }

  /** As long as only hashes went out, and the next one is a hash, the method ran at most this often. */
  predicate PaidOnce(caller: Caller, trace: seq<Event>, st: State) {
    && (st.sentCred.Some? ==> st.sent) && (caller.Carries? ==> st.sentCred.Some?)
    && (OnlyHashes(trace) && (st.sentCred.Some? ==> st.sentCred.value.isHash) ==>
          Creates(trace, None) <= if st.sentCred.Some? && !caller.Carries? then 1 else 0)
  }

  lemma {:induction false} HashesPayOnce(caller: Caller, env: nat -> Round, trace: seq<Event>, st: State,
                                         retries: nat, maxRetries: nat)
    requires PaidOnce(caller, trace, st)
    ensures var trace' := Run(caller, env, trace, st, retries, maxRetries).0;
      OnlyHashes(trace') ==> Creates(trace', None) <= if caller.Carries? then 0 else 1
    decreases maxRetries - retries
  {
    var round := env(retries);
    var send := Sending(st, round.reply);
    var sent := trace + [send];
    Append(trace, send, None, ZERO_KEY);
    OnlyHashesAppend(trace, send);
    var verdict := Screen(st, round.reply, retries, maxRetries);
    if verdict.Pay? {
      PayStepTrace(caller, sent, st, round, verdict.key, None, ZERO_KEY);
      PayStepSendsNothing(caller, sent, st, round, verdict.key);
      var step := PayStep(caller, sent, st, round, verdict.key);
      if step.1.Next? {
        HashesPayOnce(caller, env, step.0, step.1.state, retries + 1, maxRetries);
      }
    }
  }

  // ---------- what ends the loop, and what is sent ----------

  /** After this answer nothing may follow: the payment's outcome is not known, or the caller must reconcile. */
  predicate MustEnd(e: Event) {
    e.Send? && (
      || e.reply == ConnectionError || e.reply == Answer
      || (e.reply.Demand? && e.reply.problem == OutcomeUnknown)
      || (e.reply.Demand? && e.reply.problem == Expired && e.callerPaid))
  }

  predicate NoneMustEnd(trace: seq<Event>) {
    forall i :: 0 <= i < |trace| ==> !MustEnd(trace[i])
  }

  /** A credential was kept for this challenge, or came with the caller's request. */
  predicate Belongs(caller: Caller, trace: seq<Event>, key: Key, credential: Credential) {
    caller == Carries(key, credential) || Keep(key, credential) in trace
  }

  /** Each credential goes out only for the challenge it was obtained for. */
  predicate SentAsObtained(caller: Caller, trace: seq<Event>) {
    forall i :: 0 <= i < |trace| && trace[i].Send? && trace[i].credential.Some? ==>
      Belongs(caller, trace[..i], trace[i].key, trace[i].credential.value)
  }

  predicate Owned(caller: Caller, trace: seq<Event>, st: State) {
    && (forall key :: key in st.credentials ==> Belongs(caller, trace, key, st.credentials[key]))
    && (st.sentCred.Some? ==> Belongs(caller, trace, st.sentKey, st.sentCred.value))
  }

  lemma {:induction false} RunEnds(caller: Caller, env: nat -> Round, trace: seq<Event>, st: State, retries: nat,
                                   maxRetries: nat)
    requires NoneMustEnd(trace)
    ensures var (trace', result) := Run(caller, env, trace, st, retries, maxRetries);
      && trace' != []
      && (forall i :: 0 <= i < |trace'| && MustEnd(trace'[i]) ==> i == |trace'| - 1)
      && (result == Unknown <==>
            var last := trace'[|trace'| - 1];
            && last.Send? && last.paid
            && (last.reply == ConnectionError || (last.reply.Demand? && last.reply.problem == OutcomeUnknown)))
      && (result == Declined ==>
          !(trace'[|trace'| - 1].Create? && trace'[|trace'| - 1].ok) && !trace'[|trace'| - 1].Keep?)
    decreases maxRetries - retries
  {
    var round := env(retries);
    var sent := trace + [Sending(st, round.reply)];
    var verdict := Screen(st, round.reply, retries, maxRetries);
    if verdict.Pay? {
      var step := PayStep(caller, sent, st, round, verdict.key);
      assert NoneMustEnd(step.0);
      if step.1.Next? {
        RunEnds(caller, env, step.0, step.1.state, retries + 1, maxRetries);
      }
    }
  }

  lemma {:induction false} CredentialsStayWithTheirChallenge(caller: Caller, env: nat -> Round, trace: seq<Event>,
                                                             st: State, retries: nat, maxRetries: nat)
    requires Owned(caller, trace, st) && SentAsObtained(caller, trace)
    ensures SentAsObtained(caller, Run(caller, env, trace, st, retries, maxRetries).0)
    decreases maxRetries - retries
  {
    var round := env(retries);
    var sent := trace + [Sending(st, round.reply)];
    SentGrows(caller, trace, Sending(st, round.reply));
    var verdict := Screen(st, round.reply, retries, maxRetries);
    if verdict.Pay? {
      var obtained := Obtain(round.hook, round.made);
      var created := sent + [Create(verdict.key, round.made.Some?)];
      SentGrows(caller, sent, Create(verdict.key, round.made.Some?));
      var trace1 := if obtained.runs > 0 then created else sent;
      if obtained.credential.Some? {
        SentGrows(caller, trace1, Keep(verdict.key, obtained.credential.value));
      }
      var step := PayStep(caller, sent, st, round, verdict.key);
      if step.1.Next? {
        assert forall e :: e in trace ==> e in step.0;
        CredentialsStayWithTheirChallenge(caller, env, step.0, step.1.state, retries + 1, maxRetries);
      }
    }
  }

  lemma {:induction false} SentGrows(caller: Caller, trace: seq<Event>, e: Event)
    requires SentAsObtained(caller, trace)
    requires e.Send? && e.credential.Some? ==> Belongs(caller, trace, e.key, e.credential.value)
    ensures SentAsObtained(caller, trace + [e])
  {
    forall i | 0 <= i < |trace + [e]| && (trace + [e])[i].Send? && (trace + [e])[i].credential.Some?
      ensures Belongs(caller, (trace + [e])[..i], (trace + [e])[i].key, (trace + [e])[i].credential.value)
    {
      assert (trace + [e])[..i] == trace[..i];
    }
    assert trace[..|trace|] == trace;
  }

  /**
   Whatever the server, the hook and the payment methods do: at most maxRetries + 1 requests; per
   challenge at most one creation more than rejections of its credential; nothing after an answer that
   leaves the outcome unknown; and if every credential sent is a hash, one creation at most, none when
   the caller brought one.
   */
  lemma {:induction false} RoundTripIsSafe(caller: Caller, env: nat -> Round, maxRetries: nat, key: Key)
    ensures var (trace, result) := Run(caller, env, [], Start(caller), 0, maxRetries);
      && Sends(trace) <= maxRetries + 1
      && Creates(trace, Some(key)) <= Rejections(trace, key) + 1
      && (forall i :: 0 <= i < |trace| && MustEnd(trace[i]) ==> i == |trace| - 1)
      && (OnlyHashes(trace) ==> Creates(trace, None) <= if caller.Carries? then 0 else 1)
      && SentAsObtained(caller, trace)
  {
    SendsAreBounded(caller, env, [], Start(caller), 0, maxRetries);
    CreatesAreBounded(caller, env, [], Start(caller), 0, maxRetries, key);
    RunEnds(caller, env, [], Start(caller), 0, maxRetries);
    HashesPayOnce(caller, env, [], Start(caller), 0, maxRetries);
    CredentialsStayWithTheirChallenge(caller, env, [], Start(caller), 0, maxRetries);
  }

  // ---------- a hash is the last payment ----------

  predicate SendsHash(e: Event) {
    e.Send? && e.credential.Some? && e.credential.value.isHash
  }

  predicate HashSent(trace: seq<Event>) {
    exists i :: 0 <= i < |trace| && SendsHash(trace[i])
  }

  /** The payment method ran again although a hash, whose transfer is on chain, had been sent. */
  predicate PaysAfterHash(trace: seq<Event>) {
    exists i, j :: 0 <= i < j < |trace| && SendsHash(trace[i]) && trace[j].Create?
  }

  predicate CarriesHash(caller: Caller) {
    caller.Carries? && caller.credential.isHash
  }

  /** A caller's credential of another type is one round's head start towards a mixed cache. */
  function HeadStart(caller: Caller): nat {
    if caller.Carries? && !caller.credential.isHash then 1 else 0
  }

  predicate LastIsHash(st: State) {
    st.sentCred.Some? && st.sentCred.value.isHash
  }

  predicate CachesOther(st: State) {
    exists key :: key in st.credentials && !st.credentials[key].isHash
  }

  /**
   Forgetting a hash takes three rounds: one to cache a credential of another type, one to send the
   hash, and one to send the cached credential again.
   */
  predicate Remembers(caller: Caller, trace: seq<Event>, st: State, rounds: nat) {
    && !PaysAfterHash(trace)
    && (HashSent(trace) ==> LastIsHash(st) || rounds >= 3)
    && (LastIsHash(st) && CachesOther(st) ==> rounds >= 2)
    && (CachesOther(st) ==> rounds >= 1)
    && (CarriesHash(caller) ==> LastIsHash(st) && !CachesOther(st))
  }

  lemma {:induction false} AppendedHash(trace: seq<Event>, e: Event)
    ensures HashSent(trace + [e]) <==> HashSent(trace) || SendsHash(e)
    ensures PaysAfterHash(trace + [e]) <==> PaysAfterHash(trace) || (HashSent(trace) && e.Create?)
  {
    var grown := trace + [e];
    assert forall i :: 0 <= i < |trace| ==> grown[i] == trace[i];
    assert grown[|trace|] == e;
  }

  /** Paying appends no send, and a creation only for a challenge without a kept credential. */
  lemma {:induction false} PayStepAfterHash(caller: Caller, trace: seq<Event>, st: State, round: Round, key: Key)
    ensures var trace' := PayStep(caller, trace, st, round, key).0;
      && (HashSent(trace') <==> HashSent(trace))
      && (PaysAfterHash(trace') ==> PaysAfterHash(trace) || (HashSent(trace) && key !in Kept(st, round.reply)))
  {
    var obtained := Obtain(round.hook, round.made);
    AppendedHash(trace, Create(key, round.made.Some?));
    var trace1 := if obtained.runs > 0 then trace + [Create(key, round.made.Some?)] else trace;
    if obtained.credential.Some? {
      AppendedHash(trace1, Keep(key, obtained.credential.value));
    }
  }

  lemma {:induction false} RemembersRound(caller: Caller, trace: seq<Event>, st: State, round: Round, key: Key,
                                          retries: nat, maxRetries: nat)
    requires CarriesHash(caller) || maxRetries + HeadStart(caller) <= 3
    requires st.sentCred.Some? ==> st.sent
    requires Remembers(caller, trace, st, retries + HeadStart(caller))
    requires Screen(st, round.reply, retries, maxRetries) == Pay(key)
    ensures var (trace', step) := PayStep(caller, trace + [Sending(st, round.reply)], st, round, key);
      && !PaysAfterHash(trace')
      && (step.Next? ==> Remembers(caller, trace', step.state, retries + 1 + HeadStart(caller)))
  {
    var sent := trace + [Sending(st, round.reply)];
    var kept := Kept(st, round.reply);
    AppendedHash(trace, Sending(st, round.reply));
    PayStepAfterHash(caller, sent, st, round, key);
    assert HashSent(sent) ==> LastIsHash(st);
    assert LastIsHash(st) ==> kept == st.credentials && key in kept;
    var (_, step) := PayStep(caller, sent, st, round, key);
    if step.Next? {
      var next := step.state;
      assert forall k :: k in next.credentials && k != key ==>
          k in st.credentials && next.credentials[k] == st.credentials[k];
      assert next.credentials[key] == next.sentCred.value;
      if LastIsHash(next) && CachesOther(next) {
        var k :| k in next.credentials && !next.credentials[k].isHash;
        assert k in st.credentials && !st.credentials[k].isHash;
      }
      if LastIsHash(st) && !LastIsHash(next) {
        assert !st.credentials[key].isHash;
      }
    }
  }

  /** With few enough retries, or a hash from the caller, no answer of anyone makes the loop pay after a hash. */
  lemma {:induction false} HashStaysLast(caller: Caller, env: nat -> Round, trace: seq<Event>, st: State,
                                         retries: nat, maxRetries: nat)
    requires CarriesHash(caller) || maxRetries + HeadStart(caller) <= 3
    requires st.sentCred.Some? ==> st.sent
    requires Remembers(caller, trace, st, retries + HeadStart(caller))
    ensures !PaysAfterHash(Run(caller, env, trace, st, retries, maxRetries).0)
    decreases maxRetries - retries
  {
    var round := env(retries);
    var verdict := Screen(st, round.reply, retries, maxRetries);
    AppendedHash(trace, Sending(st, round.reply));
    if verdict.Pay? {
      RemembersRound(caller, trace, st, round, verdict.key, retries, maxRetries);
      var step := PayStep(caller, trace + [Sending(st, round.reply)], st, round, verdict.key);
      if step.1.Next? {
        HashStaysLast(caller, env, step.0, step.1.state, retries + 1, maxRetries);
      }
    }
  }

  lemma {:induction false} RunExtends(caller: Caller, env: nat -> Round, trace: seq<Event>, st: State,
                                      retries: nat, maxRetries: nat)
    ensures trace <= Run(caller, env, trace, st, retries, maxRetries).0
    decreases maxRetries - retries
  {
    var round := env(retries);
    var verdict := Screen(st, round.reply, retries, maxRetries);
    if verdict.Pay? {
      var step := PayStep(caller, trace + [Sending(st, round.reply)], st, round, verdict.key);
      if step.1.Next? {
        RunExtends(caller, env, step.0, step.1.state, retries + 1, maxRetries);
      }
    }
  }

  /** A round in which the server demands payment for `key` and the method makes `made`. */
  function Demanding(key: Key, made: Credential): Round {
    Round(Demand(NoProblem, Selected(key)), true, NoHook, Some(made), true)
  }

  /** One such round for a challenge that is not cached. */
  lemma {:induction false} PaysNew(caller: Caller, env: nat -> Round, trace: seq<Event>, st: State, retries: nat,
                                   maxRetries: nat, key: Key, made: Credential)
    requires retries < maxRetries && env(retries) == Demanding(key, made)
    requires key !in st.credentials && !LastIsHash(st)
    ensures var callerPaid := caller.Carries? && made == caller.credential;
      var st' := State(st.credentials[key := made], true, key, Some(made), callerPaid);
      Run(caller, env, trace, st, retries, maxRetries)
        == Run(caller, env, trace + [Sending(st, env(retries).reply)] + [Create(key, true)] + [Keep(key, made)], st',
               retries + 1, maxRetries)
  {
    var round := env(retries);
    var sent := trace + [Sending(st, round.reply)];
    assert Screen(st, round.reply, retries, maxRetries) == Pay(key);
    assert PayStep(caller, sent, st, round, key).0 == sent + [Create(key, true)] + [Keep(key, made)];
  }

  /** One such round for a challenge that is cached: its credential goes out again. */
  lemma {:induction false} PaysCached(caller: Caller, env: nat -> Round, trace: seq<Event>, st: State, retries: nat,
                                      maxRetries: nat, key: Key, made: Credential)
    requires retries < maxRetries && env(retries) == Demanding(key, made)
    requires key in st.credentials
    ensures var cred := st.credentials[key];
      Run(caller, env, trace, st, retries, maxRetries)
        == Run(caller, env, trace + [Sending(st, env(retries).reply)],
               State(st.credentials, true, key, Some(cred), caller.Carries? && cred == caller.credential),
               retries + 1, maxRetries)
  {
    assert Screen(st, env(retries).reply, retries, maxRetries) == Pay(key);
  }

  /** Three more rounds after one that cached and sent another type: a hash, the cached one again, a payment. */
  lemma {:induction false} ForgetsHash(caller: Caller, env: nat -> Round, trace: seq<Event>, st: State, retries: nat,
                                       maxRetries: nat, keys: (Key, Key, Key), hash: Credential)
    requires keys.0 != keys.1 && keys.0 != keys.2 && keys.1 != keys.2 && hash.isHash
    requires st.credentials.Keys == {keys.0} && !st.credentials[keys.0].isHash && !LastIsHash(st)
    requires retries + 3 <= maxRetries
    requires env(retries) == Demanding(keys.1, hash) && env(retries + 1) == Demanding(keys.0, hash)
    requires env(retries + 2) == Demanding(keys.2, hash)
    ensures PaysAfterHash(Run(caller, env, trace, st, retries, maxRetries).0)
  {
    var other := st.credentials[keys.0];
    PaysNew(caller, env, trace, st, retries, maxRetries, keys.1, hash);
    var callerPaid := caller.Carries? && hash == caller.credential;
    var st1 := State(st.credentials[keys.1 := hash], true, keys.1, Some(hash), callerPaid);
    var trace1 := trace + [Sending(st, env(retries).reply)] + [Create(keys.1, true)] + [Keep(keys.1, hash)];
    PaysCached(caller, env, trace1, st1, retries + 1, maxRetries, keys.0, hash);
    var st2 := State(st1.credentials, true, keys.0, Some(other), caller.Carries? && other == caller.credential);
    var trace2 := trace1 + [Sending(st1, env(retries + 1).reply)];
    PaysNew(caller, env, trace2, st2, retries + 2, maxRetries, keys.2, hash);
    var st3 := State(st2.credentials[keys.2 := hash], true, keys.2, Some(hash), callerPaid);
    var trace3 := trace2 + [Sending(st2, env(retries + 2).reply)] + [Create(keys.2, true)] + [Keep(keys.2, hash)];
    AppendedHash(trace1, Sending(st1, env(retries + 1).reply));
    AppendedHash(trace2, Sending(st2, env(retries + 2).reply));
    AppendedHash(trace2 + [Sending(st2, env(retries + 2).reply)], Create(keys.2, true));
    AppendedHash(trace2 + [Sending(st2, env(retries + 2).reply)] + [Create(keys.2, true)], Keep(keys.2, hash));
    RunExtends(caller, env, trace3, st3, retries + 3, maxRetries);
    PaidAfterHashStays(trace3, Run(caller, env, trace3, st3, retries + 3, maxRetries).0);
  }

  lemma {:induction false} PaidAfterHashStays(trace: seq<Event>, longer: seq<Event>)
    requires PaysAfterHash(trace) && trace <= longer
    ensures PaysAfterHash(longer)
  {
    var i, j :| 0 <= i < j < |trace| && SendsHash(trace[i]) && trace[j].Create?;
    assert longer[i] == trace[i] && longer[j] == trace[j];
  }

  /** Otherwise a server that offers an earlier challenge again makes the loop forget the hash and pay a new one. */
  lemma {:induction false} MixedTypesMayPayAgain(caller: Caller, maxRetries: nat) returns (env: nat -> Round)
    requires !CarriesHash(caller) && maxRetries + HeadStart(caller) > 3
    ensures PaysAfterHash(Run(caller, env, [], Start(caller), 0, maxRetries).0)
  {
    var a := if caller.Carries? then caller.key else ZERO_KEY;
    var b, d := Key(a.id + "b", a.name, a.intent), Key(a.id + "dd", a.name, a.intent);
    var other, hash := Credential(0, false), Credential(1, true);
    var first := 1 - HeadStart(caller);
    env := (k: nat) =>
      if k < first then Demanding(a, other)
      else if k == first then Demanding(b, hash)
      else if k == first + 1 then Demanding(a, hash)
      else Demanding(d, hash);
    assert |b.id| == |a.id| + 1 && |d.id| == |a.id| + 2;
    if first == 0 {
      ForgetsHash(caller, env, [], Start(caller), 0, maxRetries, (a, b, d), hash);
    } else {
      PaysNew(caller, env, [], Start(caller), 0, maxRetries, a, other);
      var st := State(map[a := other], true, a, Some(other), false);
      var trace := [] + [Sending(Start(caller), env(0).reply)] + [Create(a, true)] + [Keep(a, other)];
      ForgetsHash(caller, env, trace, st, 1, maxRetries, (a, b, d), hash);
    }
  }

  /** In this environment no creation follows the sending of a hash. */
  predicate HashIsLast(caller: Caller, env: nat -> Round, maxRetries: nat) {
    !PaysAfterHash(Run(caller, env, [], Start(caller), 0, maxRetries).0)
  }

  /**
   A hash credential is the last payment, whatever servers, hooks and methods do and whatever types
   they mix, exactly when the caller brought a hash or the retries are too few to forget one. The
   default of three retries is few enough unless the caller brought a credential of another type.
   */
  lemma {:induction false} HashIsLastPaymentIff(caller: Caller, maxRetries: nat)
    ensures (forall env: nat -> Round :: HashIsLast(caller, env, maxRetries))
       <==> CarriesHash(caller) || maxRetries + HeadStart(caller) <= 3
  {
    if CarriesHash(caller) || maxRetries + HeadStart(caller) <= 3 {
      forall env: nat -> Round ensures HashIsLast(caller, env, maxRetries) {
        HashStaysLast(caller, env, [], Start(caller), 0, maxRetries);
      }
    } else {
      var env := MixedTypesMayPayAgain(caller, maxRetries);
      assert !HashIsLast(caller, env, maxRetries);
    }
  }
}
