/**
 What every call of the MCP payment loop is followed by, told from its trace alone: a new credential is
 made only for a challenge the user approved, and the tool's own answer ends the loop.
 */
module McpRounds {
  import opened Text
  import opened McpLoop

  /** The credentials at hand after a trace. */
  function Remembered(trace: seq<Event>): map<Key, Credential> {
    if trace == [] then map[]
    else
      var before := Remembered(trace[..|trace| - 1]);
      match trace[|trace| - 1]
      case Create(_, key, credential) => if credential.Some? then before[key := credential.value] else before
      case Call(_, key, _, reply) => if reply.PaymentRequired? && reply.invalidPayload then before - {key} else before
  }

  /** The next call carries this credential. */
  predicate CallsWith(challenge: Challenge, key: Key, c: Credential, next: Reply, rest: seq<Event>) {
    rest != [] && rest[0] == Call(Some(challenge), key, Some(c), next)
  }

  predicate Stops(rest: seq<Event>, answered: bool, answer: bool) {
    rest == [] && answered == answer
  }

  /** What follows a demand: the credential at hand, or a new one if the user approves, or the end. */
  predicate Pays(encode: Encoder, turn: Turn, next: Reply, remembered: map<Key, Credential>, rest: seq<Event>,
                 answered: bool) {
    if turn.NonePayable? || encode(turn.challenge).None? then Stops(rest, answered, false)
    else
      var ch := turn.challenge;
      var key := Key(ch.id, ch.name, ch.intent, encode(ch).value);
      if key in remembered then CallsWith(ch, key, remembered[key], next, rest)
      else if !turn.approved then Stops(rest, answered, false)
      else
        && rest != [] && rest[0] == Create(ch, key, turn.created)
        && if turn.created.Some? && turn.formats then CallsWith(ch, key, turn.created.value, next, rest[1..])
           else Stops(rest[1..], answered, false)
  }

  /** All that follows a call in a run, given what came before. */
  predicate Follows(encode: Encoder, env: nat -> Reply, before: seq<Event>, e: Event, rest: seq<Event>, answered: bool)
    requires e.Call?
  {
    var k := Calls(before);
    && e.reply == env(k)
    && if e.reply.Final? || k >= 3 then Stops(rest, answered, true)
       else Pays(encode, e.reply.turn, env(k + 1), Remembered(before + [e]), rest, answered)
  }

  predicate FollowsAt(encode: Encoder, env: nat -> Reply, trace: seq<Event>, answered: bool, i: nat)
    requires i < |trace| && trace[i].Call?
  {
    Follows(encode, env, trace[..i], trace[i], trace[i + 1..], answered)
  }

  ghost predicate AllFollow(encode: Encoder, env: nat -> Reply, trace: seq<Event>, answered: bool, from: nat) {
    forall i :: from <= i < |trace| && trace[i].Call? ==> FollowsAt(encode, env, trace, answered, i)
  }

  lemma {:induction false} RememberedAppend(trace: seq<Event>, e: Event)
    ensures Remembered(trace + [e]) == match e
      case Create(_, key, credential) =>
        if credential.Some? then Remembered(trace)[key := credential.value] else Remembered(trace)
      case Call(_, key, _, reply) =>
        if reply.PaymentRequired? && reply.invalidPayload then Remembered(trace) - {key} else Remembered(trace)
  {
    assert (trace + [e])[..|trace|] == trace;
  }

  /** What can come after a payment step: nothing if it failed, and else the call it prepared. */
  predicate Continues(paid: Paid, challenge: Option<Challenge>, next: Reply, tail: seq<Event>, answered: bool) {
    match paid
    case Refused => tail == [] && !answered
    case Pays(credential, key, _) => tail != [] && tail[0] == Call(challenge, key, Some(credential), next)
  }

  function ChallengeOf(turn: Turn): Option<Challenge> {
    if turn.Select? then Some(turn.challenge) else None
  }

  lemma {:induction false} PayStepPays(encode: Encoder, called: seq<Event>, credentials: map<Key, Credential>,
                                       turn: Turn, next: Reply, tail: seq<Event>, answered: bool)
    requires Continues(PayStep(encode, called, credentials, turn).1, ChallengeOf(turn), next, tail, answered)
    ensures var trace' := PayStep(encode, called, credentials, turn).0;
      && called <= trace'
      && Pays(encode, turn, next, credentials, (trace' + tail)[|called|..], answered)
  {
    var trace' := PayStep(encode, called, credentials, turn).0;
    if trace' == called {
      assert (trace' + tail)[|called|..] == tail;
    } else {
      assert (trace' + tail)[|called|..] == [trace'[|called|]] + tail;
    }
  }

  lemma {:induction false} PayStepTracks(encode: Encoder, called: seq<Event>, credentials: map<Key, Credential>,
                                         turn: Turn)
    requires Remembered(called) == credentials
    ensures var (trace', paid) := PayStep(encode, called, credentials, turn);
      && called <= trace' && Calls(trace') == Calls(called)
      && (forall i :: |called| <= i < |trace'| ==> !trace'[i].Call?)
      && (paid.Pays? ==> paid.credentials == Remembered(trace') && turn.Select?)
  {
    if turn.Select? && KeyOf(encode, turn.challenge).Some? {
      var e := Create(turn.challenge, KeyOf(encode, turn.challenge).value, turn.created);
      Append(called, e, ZERO_KEY);
      RememberedAppend(called, e);
    }
  }

  predicate Tracks(trace: seq<Event>, st: State, attempt: nat) {
    st.credentials == Remembered(trace) && Calls(trace) == attempt
  }

  lemma {:induction false} CallFollows(encode: Encoder, env: nat -> Reply, trace: seq<Event>, st: State, attempt: nat,
                                       whole: seq<Event>, answered: bool)
    requires attempt <= MAX_PAYMENT_ATTEMPTS && Tracks(trace, st, attempt)
    requires var called := trace + [Calling(st, env(attempt))];
      && called <= whole
      && if env(attempt).Final? || attempt >= MAX_PAYMENT_ATTEMPTS then whole == called && answered
         else Pays(encode, env(attempt).turn, env(attempt + 1), Remaining(st, env(attempt)), whole[|called|..],
             answered)
    ensures FollowsAt(encode, env, whole, answered, |trace|)
  {
    var e := Calling(st, env(attempt));
    RememberedAppend(trace, e);
    assert whole[..|trace|] == trace && whole[|trace|] == e;
    assert whole[|trace| + 1..] == whole[|trace + [e]|..];
  }

  lemma {:induction false} AllFollowFrom(encode: Encoder, env: nat -> Reply, trace: seq<Event>, answered: bool, n: nat,
                                         m: nat)
    requires n < m && n < |trace| && trace[n].Call? && FollowsAt(encode, env, trace, answered, n)
    requires forall i :: n < i < m && i < |trace| ==> !trace[i].Call?
    requires AllFollow(encode, env, trace, answered, m)
    ensures AllFollow(encode, env, trace, answered, n)
  {
  }

  /** The rules hold of a call that is paid for, whatever the run does after the next call. */
  lemma {:induction false} PaidCallFollows(encode: Encoder, env: nat -> Reply, trace: seq<Event>, st: State,
                                           attempt: nat, whole: seq<Event>, answered: bool)
    requires attempt < MAX_PAYMENT_ATTEMPTS && Tracks(trace, st, attempt) && env(attempt).PaymentRequired?
    requires var turn := env(attempt).turn;
      var (trace', paid) :=
        PayStep(encode, trace + [Calling(st, env(attempt))], Remaining(st, env(attempt)), turn);
      && trace' <= whole
      && Continues(paid, ChallengeOf(turn), env(attempt + 1), whole[|trace'|..], answered)
    ensures FollowsAt(encode, env, whole, answered, |trace|)
  {
    var called, kept, turn := trace + [Calling(st, env(attempt))], Remaining(st, env(attempt)), env(attempt).turn;
    var trace' := PayStep(encode, called, kept, turn).0;
    assert whole == trace' + whole[|trace'|..];
    PayStepPays(encode, called, kept, turn, env(attempt + 1), whole[|trace'|..], answered);
    CallFollows(encode, env, trace, st, attempt, whole, answered);
  }

  lemma {:induction false} StepContinues(paid: Paid, challenge: Option<Challenge>, next: Reply, whole: seq<Event>,
                                         answered: bool, n: nat)
    requires n <= |whole|
    requires match paid
      case Refused => |whole| == n && !answered
      case Pays(credential, key, _) => n < |whole| && whole[n] == Call(challenge, key, Some(credential), next)
    ensures Continues(paid, challenge, next, whole[n..], answered)
  {
  }

  lemma {:induction false} RunFollows(encode: Encoder, env: nat -> Reply, trace: seq<Event>, st: State, attempt: nat)
    requires attempt <= MAX_PAYMENT_ATTEMPTS && Tracks(trace, st, attempt)
    ensures var (whole, answered) := Run(encode, env, trace, st, attempt);
      && |trace| < |whole| && trace <= whole && whole[|trace|] == Calling(st, env(attempt))
      && AllFollow(encode, env, whole, answered, |trace|)
    decreases MAX_PAYMENT_ATTEMPTS - attempt, 1
  {
    var (whole, answered) := Run(encode, env, trace, st, attempt);
    if env(attempt).Final? || attempt >= MAX_PAYMENT_ATTEMPTS {
      CallFollows(encode, env, trace, st, attempt, whole, answered);
    } else {
      DemandFollows(encode, env, trace, st, attempt);
    }
  }

  lemma {:induction false} DemandFollows(encode: Encoder, env: nat -> Reply, trace: seq<Event>, st: State, attempt: nat)
    requires attempt < MAX_PAYMENT_ATTEMPTS && Tracks(trace, st, attempt) && env(attempt).PaymentRequired?
    ensures var (whole, answered) := Run(encode, env, trace, st, attempt);
      && |trace| < |whole| && trace <= whole && whole[|trace|] == Calling(st, env(attempt))
      && AllFollow(encode, env, whole, answered, |trace|)
    decreases MAX_PAYMENT_ATTEMPTS - attempt, 0
  {
    var e, turn := Calling(st, env(attempt)), env(attempt).turn;
    var called, kept := trace + [e], Remaining(st, env(attempt));
    RememberedAppend(trace, e);
    Append(trace, e, ZERO_KEY);
    PayStepTracks(encode, called, kept, turn);
    var (trace', paid) := PayStep(encode, called, kept, turn);
    var (whole, answered) := Run(encode, env, trace, st, attempt);
    if paid.Pays? {
      RunFollows(encode, env, trace', State(paid.credentials, paid.key, Some(turn.challenge), Some(paid.credential)),
                 attempt + 1);
    }
    StepContinues(paid, ChallengeOf(turn), env(attempt + 1), whole, answered, |trace'|);
    PaidCallFollows(encode, env, trace, st, attempt, whole, answered);
    AllFollowFrom(encode, env, whole, answered, |trace|, |trace'|);
  }

  /** Every call of every run is followed by exactly what the rules say, from the unpaid one on. */
  lemma {:induction false} CallsFollow(encode: Encoder, env: nat -> Reply)
    ensures var (trace, answered) := Run(encode, env, [], START, 0);
      && trace != [] && trace[0] == Call(None, ZERO_KEY, None, env(0))
      && AllFollow(encode, env, trace, answered, 0)
  {
    RunFollows(encode, env, [], START, 0);
  }

  /** The call before a point of the trace. */
  lemma {:induction false} LastCall(trace: seq<Event>, j: nat) returns (i: nat)
    requires 0 < j <= |trace| && trace[0].Call?
    ensures i < j && trace[i].Call? && forall k :: i < k < j ==> !trace[k].Call?
  {
    if trace[j - 1].Call? {
      i := j - 1;
    } else {
      i := LastCall(trace, j - 1);
    }
  }

  /** Nothing is created that the user did not approve, in answer to the very demand before it. */
  lemma {:induction false} CreatesAreApproved(encode: Encoder, env: nat -> Reply, j: nat)
    requires var trace := Run(encode, env, [], START, 0).0; j < |trace| && trace[j].Create?
    ensures var trace := Run(encode, env, [], START, 0).0;
      && j > 0 && trace[j - 1].Call? && trace[j - 1].reply.PaymentRequired?
      && var turn := trace[j - 1].reply.turn;
      && turn.Select? && turn.approved && turn.challenge == trace[j].challenge && turn.created == trace[j].credential
  {
    CallsFollow(encode, env);
    var (trace, answered) := Run(encode, env, [], START, 0);
    var i := LastCall(trace, j);
    assert FollowsAt(encode, env, trace, answered, i);
    var rest := trace[i + 1..];
    assert rest[j - i - 1] == trace[j];
  }
}
