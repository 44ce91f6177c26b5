/**
 What every round of the payment loop does, told from its trace alone: which answers end it and how, and
 whose credential goes out next. A hook that fails ends the run, and a hook that refuses outright pays
 nothing.
 */
module PaymentRounds {
  import opened Text
  import opened RoundTrip

  /** The credentials at hand after a trace: those kept, but for what an invalid-payload answer discards. */
  function Remembered(caller: Caller, trace: seq<Event>): map<Key, Credential> {
    if trace == [] then (if caller.Carries? then map[caller.key := caller.credential] else map[])
    else
      var before := Remembered(caller, trace[..|trace| - 1]);
      match trace[|trace| - 1]
      case Create(_, _) => before
      case Keep(key, kept) => before[key := kept]
      case Send(_, key, _, _, reply) =>
        if reply.Demand? && reply.problem == InvalidPayload then before - {key} else before
  }

  /** The request the caller made. */
  predicate IsFirst(caller: Caller, env: nat -> Round, e: Event) {
    e == match caller
         case NoCredential => Send(false, ZERO_KEY, None, false, env(0).reply)
         case Unreadable => Send(true, ZERO_KEY, None, true, env(0).reply)
         case Carries(key, credential) => Send(true, key, Some(credential), true, env(0).reply)
  }

  /** A hash was sent, and the demand is not for the challenge it paid. */
  predicate WouldPayTwice(e: Event, key: Key, remembered: map<Key, Credential>)
    requires e.Send? && e.reply.Demand?
  {
    && e.paid && e.credential.Some? && e.credential.value.isHash
    && (e.reply.problem == InvalidPayload || key !in remembered)
  }

  /** The demand leaves it open to pay: nothing is unknown or spent, and a retry is left. */
  predicate MayRetry(e: Event, left: int) {
    && e.Send? && e.reply.Demand? && e.reply.problem != OutcomeUnknown
    && !(e.callerPaid && e.reply.problem == Expired) && left > 0
  }

  predicate Pays(e: Event, left: int, remembered: map<Key, Credential>) {
    && MayRetry(e, left) && e.reply.offer.Selected? && !WouldPayTwice(e, e.reply.offer.key, remembered)
  }

  /** How a round ends the run that does not go on to pay. */
  function Ending(e: Event, left: int): Result
    requires e.Send?
  {
    if e.reply == Answer then Response
    else if e.reply == ConnectionError then (if e.paid then Unknown else Failed)
    else if e.reply.problem == OutcomeUnknown && e.paid then Unknown
    else if MayRetry(e, left) && (e.reply.offer.OrderFails? || e.reply.offer.OriginRejected?) then Failed
    else if MayRetry(e, left) && e.reply.offer.NonePayable? && !e.paid then Failed
    else Response
  }

  /** The events of a payment that obtains credential `c`, and the request that carries it. */
  predicate PaysWith(caller: Caller, next: Round, key: Key, c: Credential, formats: bool, steps: seq<Event>,
                     rest: seq<Event>, result: Result) {
    && steps <= rest
    && if !formats then rest == steps && result == Failed
       else |rest| > |steps|
            && rest[|steps|] == Send(true, key, Some(c), caller.Carries? && c == caller.credential, next.reply)
  }

  /** Declined: the hook failed, and neither made a credential nor forwards the method's own error. */
  predicate Declines(round: Round) {
    && round.hook.Hook? && round.hook.outcome.Fails?
    && (round.hook.calls == 0 || (round.made == None && !round.hook.outcome.forwards))
  }

  /** A new credential: the hook's own, or the method's, or none. */
  predicate Obtains(caller: Caller, round: Round, next: Round, key: Key, rest: seq<Event>, result: Result) {
    var made := [Create(key, round.made.Some?)];
    var called := if round.hook.Hook? && round.hook.calls > 0 then made else [];
    if round.hook.Hook? && round.hook.outcome.Fails? then
      rest == called && result == if Declines(round) then Declined else Failed
    else if round.hook.Hook? && round.hook.outcome.Supplies? then
      var c := round.hook.outcome.credential;
      PaysWith(caller, next, key, c, round.formats, called + [Keep(key, c)], rest, result)
    else if round.made == None then rest == made && result == Failed
    else
      var c := round.made.value;
      PaysWith(caller, next, key, c, round.formats, made + [Keep(key, c)], rest, result)
  }

  /** Paying a demand for `key`. */
  predicate GoesOn(caller: Caller, round: Round, next: Round, key: Key, remembered: map<Key, Credential>,
                   rest: seq<Event>, result: Result) {
    if !round.clones then rest == [] && result == Failed
    else if key in remembered then
      PaysWith(caller, next, key, remembered[key], round.formats, [], rest, result)
    else Obtains(caller, round, next, key, rest, result)
  }

  /** All that follows a request in a run, given what came before. */
  predicate Follows(caller: Caller, env: nat -> Round, maxRetries: nat, before: seq<Event>, e: Event,
                    rest: seq<Event>, result: Result)
    requires e.Send?
  {
    var k := Sends(before);
    var round := env(k);
    && e.reply == round.reply
    && if Pays(e, maxRetries - k, Remembered(caller, before)) then
         GoesOn(caller, round, env(k + 1), e.reply.offer.key, Remembered(caller, before + [e]), rest, result)
       else rest == [] && result == Ending(e, maxRetries - k)
  }

  predicate FollowsAt(caller: Caller, env: nat -> Round, maxRetries: nat, trace: seq<Event>, result: Result, i: nat)
    requires i < |trace| && trace[i].Send?
  {
    Follows(caller, env, maxRetries, trace[..i], trace[i], trace[i + 1..], result)
  }

  // ---------- the loop keeps the rules ----------

  lemma {:induction false} Appended(caller: Caller, trace: seq<Event>, e: Event)
    ensures Sends(trace + [e]) == Sends(trace) + if e.Send? then 1 else 0
    ensures Remembered(caller, trace + [e]) == match e
      case Create(_, _) => Remembered(caller, trace)
      case Keep(key, kept) => Remembered(caller, trace)[key := kept]
      case Send(_, key, _, _, reply) =>
        if reply.Demand? && reply.problem == InvalidPayload then Remembered(caller, trace) - {key}
        else Remembered(caller, trace)
  {
    assert (trace + [e])[..|trace|] == trace;
  }

  /** The loop's variables say what the trace says. */
  predicate Tracks(caller: Caller, trace: seq<Event>, st: State, retries: nat) {
    st.credentials == Remembered(caller, trace) && Sends(trace) == retries
  }

  lemma {:induction false} ScreenPays(st: State, round: Round, retries: nat, maxRetries: nat)
    requires retries <= maxRetries
    ensures var e := Sending(st, round.reply);
      match Screen(st, round.reply, retries, maxRetries)
      case Stop(result) => !Pays(e, maxRetries - retries, st.credentials) && result == Ending(e, maxRetries - retries)
      case Pay(key) => Pays(e, maxRetries - retries, st.credentials) && key == e.reply.offer.key
  {
  }

  /** What can come after a payment step: nothing if it failed, and else the request it prepared. */
  predicate Continues(step: Stepped, next: Round, tail: seq<Event>, result: Result) {
    match step
    case Done(failure) => tail == [] && result == failure
    case Next(st) => tail != [] && tail[0] == Sending(st, next.reply)
  }

  lemma {:induction false} ReuseGoesOn(caller: Caller, sent: seq<Event>, st: State, round: Round, key: Key, next: Round,
                                       tail: seq<Event>, result: Result)
    requires round.clones && key in Kept(st, round.reply)
    requires Continues(PayStep(caller, sent, st, round, key).1, next, tail, result)
    ensures PayStep(caller, sent, st, round, key).0 == sent
    ensures GoesOn(caller, round, next, key, Kept(st, round.reply), tail, result)
  {
  }

  /** The events of obtaining a credential. */
  function Steps(round: Round, key: Key): seq<Event> {
    var obtained := Obtain(round.hook, round.made);
    (if obtained.runs > 0 then [Create(key, round.made.Some?)] else [])
    + (if obtained.credential.Some? then [Keep(key, obtained.credential.value)] else [])
  }

  lemma {:induction false} StepsAppend(caller: Caller, sent: seq<Event>, st: State, round: Round, key: Key)
    requires round.clones && key !in Kept(st, round.reply)
    ensures PayStep(caller, sent, st, round, key).0 == sent + Steps(round, key)
  {
  }

  lemma {:induction false} NewGoesOn(caller: Caller, sent: seq<Event>, st: State, round: Round, key: Key, next: Round,
                                     tail: seq<Event>, result: Result)
    requires round.clones && key !in Kept(st, round.reply)
    requires Continues(PayStep(caller, sent, st, round, key).1, next, tail, result)
    ensures Obtains(caller, round, next, key, Steps(round, key) + tail, result)
  {
  }

  lemma {:induction false} PayStepGoesOn(caller: Caller, sent: seq<Event>, st: State, round: Round, key: Key,
                                         next: Round, tail: seq<Event>, result: Result)
    requires Continues(PayStep(caller, sent, st, round, key).1, next, tail, result)
    ensures var trace' := PayStep(caller, sent, st, round, key).0;
      && sent <= trace'
      && GoesOn(caller, round, next, key, Kept(st, round.reply), (trace' + tail)[|sent|..], result)
  {
    var trace' := PayStep(caller, sent, st, round, key).0;
    if !round.clones {
      assert (trace' + tail)[|sent|..] == [];
    } else if key in Kept(st, round.reply) {
      ReuseGoesOn(caller, sent, st, round, key, next, tail, result);
      assert (trace' + tail)[|sent|..] == tail;
    } else {
      StepsAppend(caller, sent, st, round, key);
      NewGoesOn(caller, sent, st, round, key, next, tail, result);
      assert (trace' + tail)[|sent|..] == Steps(round, key) + tail;
    }
  }

  /** The trace with a creation, if there was one, and then with what is kept, if anything. */
  function WithCreate(trace: seq<Event>, key: Key, ok: bool, runs: nat): seq<Event> {
    if runs > 0 then trace + [Create(key, ok)] else trace
  }

  function WithKeep(trace: seq<Event>, key: Key, c: Option<Credential>): seq<Event> {
    if c.Some? then trace + [Keep(key, c.value)] else trace
  }

  lemma {:induction false} CreateTracks(caller: Caller, trace: seq<Event>, key: Key, ok: bool, runs: nat)
    ensures var trace' := WithCreate(trace, key, ok, runs);
      && trace <= trace' && Sends(trace') == Sends(trace) && Remembered(caller, trace') == Remembered(caller, trace)
      && forall i :: |trace| <= i < |trace'| ==> !trace'[i].Send?
  {
    Appended(caller, trace, Create(key, ok));
  }

  lemma {:induction false} KeepTracks(caller: Caller, trace: seq<Event>, key: Key, c: Option<Credential>)
    ensures var trace' := WithKeep(trace, key, c);
      && trace <= trace' && Sends(trace') == Sends(trace)
      && (c.Some? ==> Remembered(caller, trace') == Remembered(caller, trace)[key := c.value])
      && forall i :: |trace| <= i < |trace'| ==> !trace'[i].Send?
  {
    if c.Some? {
      Appended(caller, trace, Keep(key, c.value));
    }
  }

  lemma {:induction false} StepsAre(sent: seq<Event>, round: Round, key: Key)
    ensures var obtained := Obtain(round.hook, round.made);
      sent + Steps(round, key)
      == WithKeep(WithCreate(sent, key, round.made.Some?, obtained.runs), key, obtained.credential)
  {
  }

  lemma {:induction false} StepsTrack(caller: Caller, sent: seq<Event>, round: Round, key: Key)
    ensures var trace', c := sent + Steps(round, key), Obtain(round.hook, round.made).credential;
      && Sends(trace') == Sends(sent)
      && (forall i :: |sent| <= i < |trace'| ==> !trace'[i].Send?)
      && (c.Some? ==> Remembered(caller, trace') == Remembered(caller, sent)[key := c.value])
  {
    var obtained := Obtain(round.hook, round.made);
    StepsAre(sent, round, key);
    CreateTracks(caller, sent, key, round.made.Some?, obtained.runs);
    KeepTracks(caller, WithCreate(sent, key, round.made.Some?, obtained.runs), key, obtained.credential);
  }

  lemma {:induction false} PayStepTracks(caller: Caller, sent: seq<Event>, st: State, round: Round, key: Key)
    requires Remembered(caller, sent) == Kept(st, round.reply)
    ensures var (trace', step) := PayStep(caller, sent, st, round, key);
      && sent <= trace' && Sends(trace') == Sends(sent)
      && (forall i :: |sent| <= i < |trace'| ==> !trace'[i].Send?)
      && (step.Next? ==> step.state.credentials == Remembered(caller, trace'))
  {
    if round.clones && key !in Kept(st, round.reply) {
      StepsAppend(caller, sent, st, round, key);
      StepsTrack(caller, sent, round, key);
    }
  }

  /** The rules hold of a round that ends as it was screened, or goes on as it pays. */
  lemma {:induction false} RoundFollows(caller: Caller, env: nat -> Round, maxRetries: nat, trace: seq<Event>,
                                        st: State, retries: nat, whole: seq<Event>, result: Result)
    requires retries <= maxRetries && Tracks(caller, trace, st, retries)
    requires var sent := trace + [Sending(st, env(retries).reply)];
      && sent <= whole
      && match Screen(st, env(retries).reply, retries, maxRetries)
         case Stop(r) => whole == sent && result == r
         case Pay(key) =>
           GoesOn(caller, env(retries), env(retries + 1), key, Kept(st, env(retries).reply), whole[|sent|..], result)
    ensures FollowsAt(caller, env, maxRetries, whole, result, |trace|)
  {
    var e := Sending(st, env(retries).reply);
    Appended(caller, trace, e);
    ScreenPays(st, env(retries), retries, maxRetries);
    assert whole[..|trace|] == trace && whole[|trace|] == e;
    assert whole[|trace| + 1..] == whole[|trace + [e]|..];
  }

  /** The rules hold of a round that pays, whatever the run does after its next request. */
  lemma {:induction false} PaidRoundFollows(caller: Caller, env: nat -> Round, maxRetries: nat, trace: seq<Event>,
                                            st: State, retries: nat, key: Key, whole: seq<Event>, result: Result)
    requires retries <= maxRetries && Tracks(caller, trace, st, retries)
    requires Screen(st, env(retries).reply, retries, maxRetries) == Pay(key)
    requires var (trace', step) :=
      PayStep(caller, trace + [Sending(st, env(retries).reply)], st, env(retries), key);
      trace' <= whole && Continues(step, env(retries + 1), whole[|trace'|..], result)
    ensures FollowsAt(caller, env, maxRetries, whole, result, |trace|)
  {
    var sent := trace + [Sending(st, env(retries).reply)];
    var trace' := PayStep(caller, sent, st, env(retries), key).0;
    assert whole == trace' + whole[|trace'|..];
    PayStepGoesOn(caller, sent, st, env(retries), key, env(retries + 1), whole[|trace'|..], result);
    RoundFollows(caller, env, maxRetries, trace, st, retries, whole, result);
  }

  ghost predicate AllFollow(caller: Caller, env: nat -> Round, maxRetries: nat, trace: seq<Event>, result: Result,
                            from: nat) {
    forall i :: from <= i < |trace| && trace[i].Send? ==> FollowsAt(caller, env, maxRetries, trace, result, i)
  }

  lemma {:induction false} AllFollowFrom(caller: Caller, env: nat -> Round, maxRetries: nat, trace: seq<Event>,
                                         result: Result, n: nat, m: nat)
    requires n < m && n < |trace| && trace[n].Send? && FollowsAt(caller, env, maxRetries, trace, result, n)
    requires forall i :: n < i < m && i < |trace| ==> !trace[i].Send?
    requires AllFollow(caller, env, maxRetries, trace, result, m)
    ensures AllFollow(caller, env, maxRetries, trace, result, n)
  {
  }

  lemma {:induction false} StepContinues(step: Stepped, next: Round, whole: seq<Event>, result: Result, n: nat)
    requires n <= |whole|
    requires match step
      case Done(failure) => |whole| == n && result == failure
      case Next(st) => n < |whole| && whole[n] == Sending(st, next.reply)
    ensures Continues(step, next, whole[n..], result)
  {
  }

  lemma {:induction false} StoppedRunFollows(caller: Caller, env: nat -> Round, trace: seq<Event>, st: State,
                                             retries: nat, maxRetries: nat)
    requires retries <= maxRetries && Tracks(caller, trace, st, retries)
    requires Screen(st, env(retries).reply, retries, maxRetries).Stop?
    ensures var (whole, result) := Run(caller, env, trace, st, retries, maxRetries);
      && |trace| < |whole| && trace <= whole && whole[|trace|] == Sending(st, env(retries).reply)
      && AllFollow(caller, env, maxRetries, whole, result, |trace|)
  {
    var (whole, result) := Run(caller, env, trace, st, retries, maxRetries);
    assert whole == trace + [Sending(st, env(retries).reply)];
    RoundFollows(caller, env, maxRetries, trace, st, retries, whole, result);
    AllFollowFrom(caller, env, maxRetries, whole, result, |trace|, |whole|);
  }

  /** From any point on, every request is followed by what the rules say. */
  lemma {:induction false} RunFollows(caller: Caller, env: nat -> Round, trace: seq<Event>, st: State, retries: nat,
                                      maxRetries: nat)
    requires retries <= maxRetries && Tracks(caller, trace, st, retries)
    ensures var (whole, result) := Run(caller, env, trace, st, retries, maxRetries);
      && |trace| < |whole| && trace <= whole && whole[|trace|] == Sending(st, env(retries).reply)
      && AllFollow(caller, env, maxRetries, whole, result, |trace|)
    decreases maxRetries - retries, 1
  {
    var screened := Screen(st, env(retries).reply, retries, maxRetries);
    if screened.Stop? {
      StoppedRunFollows(caller, env, trace, st, retries, maxRetries);
    } else {
      PaidRunFollows(caller, env, trace, st, retries, maxRetries, screened.key);
    }
  }

  lemma {:induction false} PaidRunIs(caller: Caller, env: nat -> Round, trace: seq<Event>, st: State, retries: nat,
                                     maxRetries: nat, key: Key)
    requires Screen(st, env(retries).reply, retries, maxRetries) == Pay(key)
    ensures retries < maxRetries
    ensures var (trace', step) := PayStep(caller, trace + [Sending(st, env(retries).reply)], st, env(retries), key);
      Run(caller, env, trace, st, retries, maxRetries)
      == match step
         case Done(result) => (trace', result)
         case Next(st') => Run(caller, env, trace', st', retries + 1, maxRetries)
  {
  }

  lemma {:induction false} PaidRoundTracks(caller: Caller, trace: seq<Event>, st: State, retries: nat, round: Round,
                                           key: Key)
    requires Tracks(caller, trace, st, retries)
    ensures var (trace', step) := PayStep(caller, trace + [Sending(st, round.reply)], st, round, key);
      && trace + [Sending(st, round.reply)] <= trace'
      && (forall i :: |trace| < i < |trace'| ==> !trace'[i].Send?)
      && (step.Next? ==> Tracks(caller, trace', step.state, retries + 1))
  {
    Appended(caller, trace, Sending(st, round.reply));
    PayStepTracks(caller, trace + [Sending(st, round.reply)], st, round, key);
  }

  lemma {:induction false} PaidRunFollows(caller: Caller, env: nat -> Round, trace: seq<Event>, st: State, retries: nat,
                                          maxRetries: nat, key: Key)
    requires retries <= maxRetries && Tracks(caller, trace, st, retries)
    requires Screen(st, env(retries).reply, retries, maxRetries) == Pay(key)
    ensures var (whole, result) := Run(caller, env, trace, st, retries, maxRetries);
      && |trace| < |whole| && trace <= whole && whole[|trace|] == Sending(st, env(retries).reply)
      && AllFollow(caller, env, maxRetries, whole, result, |trace|)
    decreases maxRetries - retries, 0
  {
    var (trace', step) := PayStep(caller, trace + [Sending(st, env(retries).reply)], st, env(retries), key);
    var (whole, result) := Run(caller, env, trace, st, retries, maxRetries);
    PaidRunIs(caller, env, trace, st, retries, maxRetries, key);
    PaidRoundTracks(caller, trace, st, retries, env(retries), key);
    if step.Next? {
      RunFollows(caller, env, trace', step.state, retries + 1, maxRetries);
    }
    StepContinues(step, env(retries + 1), whole, result, |trace'|);
    PaidRoundFollows(caller, env, maxRetries, trace, st, retries, key, whole, result);
    AllFollowFrom(caller, env, maxRetries, whole, result, |trace|, |trace'|);
  }

  /** Every request of every run is followed by exactly what the rules say, from the caller's own on. */
  lemma {:induction false} RoundsFollow(caller: Caller, env: nat -> Round, maxRetries: nat)
    ensures var (trace, result) := Run(caller, env, [], Start(caller), 0, maxRetries);
      && trace != [] && IsFirst(caller, env, trace[0])
      && AllFollow(caller, env, maxRetries, trace, result, 0)
  {
    RunFollows(caller, env, [], Start(caller), 0, maxRetries);
  }

  /**
   A user who refuses pays nothing: when the hook fails without having created a credential, for a
   challenge without one, the request just answered is the last event of the run, which is declined.
   */
  lemma {:induction false} RefusalPaysNothing(caller: Caller, env: nat -> Round, maxRetries: nat, i: nat)
    requires var trace := Run(caller, env, [], Start(caller), 0, maxRetries).0;
      && i < |trace| && trace[i].Send?
      && var k := Sends(trace[..i]);
      && Pays(trace[i], maxRetries - k, Remembered(caller, trace[..i])) && env(k).clones
      && trace[i].reply.offer.key !in Remembered(caller, trace[..i])
      && env(k).hook.Hook? && env(k).hook.calls == 0 && env(k).hook.outcome.Fails?
    ensures var (trace, result) := Run(caller, env, [], Start(caller), 0, maxRetries);
      |trace| == i + 1 && result == Declined
  {
    RoundsFollow(caller, env, maxRetries);
    var (trace, result) := Run(caller, env, [], Start(caller), 0, maxRetries);
    assert FollowsAt(caller, env, maxRetries, trace, result, i);
    Appended(caller, trace[..i], trace[i]);
  }

  lemma {:induction false} NoSendLeft(trace: seq<Event>, i: nat)
    requires i < |trace| && forall j :: i < j < |trace| ==> !trace[j].Send?
    ensures NoSend(trace[i + 1..])
  {
  }

  predicate NoSend(trace: seq<Event>) {
    forall j :: 0 <= j < |trace| ==> !trace[j].Send?
  }

  lemma {:induction false} LastPaymentDeclines(caller: Caller, round: Round, next: Round, key: Key,
                                               remembered: map<Key, Credential>, rest: seq<Event>, result: Result)
    requires GoesOn(caller, round, next, key, remembered, rest, result) && NoSend(rest)
    ensures result == Declined <==> round.clones && key !in remembered && Declines(round)
  {
  }

  lemma {:induction false} LastRoundDeclines(caller: Caller, env: nat -> Round, maxRetries: nat, before: seq<Event>,
                                             e: Event, rest: seq<Event>, result: Result)
    requires e.Send? && Follows(caller, env, maxRetries, before, e, rest, result) && NoSend(rest)
    ensures var k := Sends(before);
      result == Declined
      <==> && Pays(e, maxRetries - k, Remembered(caller, before)) && env(k).clones
           && e.reply.offer.key !in Remembered(caller, before + [e]) && Declines(env(k))
  {
    var k := Sends(before);
    if Pays(e, maxRetries - k, Remembered(caller, before)) {
      LastPaymentDeclines(caller, env(k), env(k + 1), e.reply.offer.key, Remembered(caller, before + [e]), rest,
          result);
    }
  }

  /** Declined: exactly when the last round's hook refuses, in the sense of Declines. */
  lemma {:induction false} DeclinedIff(caller: Caller, env: nat -> Round, maxRetries: nat, i: nat)
    requires var trace := Run(caller, env, [], Start(caller), 0, maxRetries).0;
      && i < |trace| && trace[i].Send? && forall j :: i < j < |trace| ==> !trace[j].Send?
    ensures var (trace, result) := Run(caller, env, [], Start(caller), 0, maxRetries);
      var k := Sends(trace[..i]);
      result == Declined
      <==> && Pays(trace[i], maxRetries - k, Remembered(caller, trace[..i])) && env(k).clones
           && trace[i].reply.offer.key !in Remembered(caller, trace[..i] + [trace[i]]) && Declines(env(k))
  {
    RoundsFollow(caller, env, maxRetries);
    var (trace, result) := Run(caller, env, [], Start(caller), 0, maxRetries);
    assert FollowsAt(caller, env, maxRetries, trace, result, i);
    NoSendLeft(trace, i);
    LastRoundDeclines(caller, env, maxRetries, trace[..i], trace[i], trace[i + 1..], result);
  }
}
