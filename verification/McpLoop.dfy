/**
 The MCP client's payment loop around a tool call. Like the HTTP transport it reuses a credential, but
 only for a challenge that is identical in every echoed field.
 */
module McpLoop {
  import opened Text

  const MAX_PAYMENT_ATTEMPTS := 3

  /** The fields a credential echoes; `rest` stands for all but the first three. */
  datatype Challenge = Challenge(id: string, name: string, intent: string, rest: string)

  datatype Key = Key(id: string, name: string, intent: string, encoded: string)

  const ZERO_KEY := Key("", "", "", "")

  type Credential = nat

  /** JSON text of an echoed challenge. */
  type Encoder = Challenge -> Option<string>

  ghost predicate Injective(encode: Encoder) {
    forall a, b {:trigger encode(a), encode(b)} :: encode(a).Some? && encode(a) == encode(b) ==> a == b
  }

  /** newCredentialKey. */
  function KeyOf(encode: Encoder, challenge: Challenge): Option<Key> {
    match encode(challenge)
    case None => None
    case Some(text) => Some(Key(challenge.id, challenge.name, challenge.intent, text))
  }

  /** What paying comes to: no payable challenge, or one with the user's answer and the method's. */
  datatype Turn = NonePayable | Select(challenge: Challenge, approved: bool, created: Option<Credential>, formats: bool)

  datatype Reply = Final | PaymentRequired(invalidPayload: bool, turn: Turn)

  datatype Event =
    | Call(paid: Option<Challenge>, key: Key, credential: Option<Credential>, reply: Reply)
    | Create(challenge: Challenge, key: Key, credential: Option<Credential>)

  datatype State = State(credentials: map<Key, Credential>, sent: Key, paid: Option<Challenge>,
      credential: Option<Credential>)

  const START := State(map[], ZERO_KEY, None, None)

  datatype Paid = Refused | Pays(credential: Credential, key: Key, credentials: map<Key, Credential>)

  /** Config.pay, after its selection of a challenge. */
  function PayStep(encode: Encoder, trace: seq<Event>, credentials: map<Key, Credential>, turn: Turn): (seq<Event>,
                   Paid) {
    if turn == NonePayable then (trace, Refused)
    else
      var key := KeyOf(encode, turn.challenge);
      if key == None then (trace, Refused)
      else if key.value in credentials then (trace, Pays(credentials[key.value], key.value, credentials))
      else if !turn.approved then (trace, Refused)
      else
        var trace' := trace + [Create(turn.challenge, key.value, turn.created)];
        if turn.created == None || !turn.formats then (trace', Refused)
        else (trace', Pays(turn.created.value, key.value, credentials[key.value := turn.created.value]))
  }

  function Calling(st: State, reply: Reply): Event {
    Call(st.paid, st.sent, st.credential, reply)
  }

  function Remaining(st: State, reply: Reply): map<Key, Credential> {
    if reply.PaymentRequired? && reply.invalidPayload then st.credentials - {st.sent} else st.credentials
  }

  /** From the call after `attempt` payments on; true when the tool's own answer is returned. */
  function Run(encode: Encoder, env: nat -> Reply, trace: seq<Event>, st: State, attempt: nat): (seq<Event>, bool)
    decreases MAX_PAYMENT_ATTEMPTS - attempt
  {
    var reply := env(attempt);
    var called := trace + [Calling(st, reply)];
    if reply == Final || attempt >= MAX_PAYMENT_ATTEMPTS then (called, true)
    else
      var (trace', paid) := PayStep(encode, called, Remaining(st, reply), reply.turn);
      match paid
      case Refused => (trace', false)
      case Pays(credential, key, credentials) =>
        Run(encode, env, trace', State(credentials, key, Some(reply.turn.challenge), Some(credential)), attempt + 1)
  }

  class Cache {
    var credentials: map<Key, Credential>

    constructor ()
      ensures credentials == map[]
    {
      credentials := map[];
    }

    /** Config.pay writes the shared map. */
    method Pay(encode: Encoder, trace: seq<Event>, turn: Turn) returns (trace': seq<Event>, paid: Paid)
      modifies this
      ensures (trace', paid) == PayStep(encode, trace, old(credentials), turn)
      ensures credentials == if paid.Pays? then paid.credentials else old(credentials)
    {
      trace' := trace;
      if turn == NonePayable {
        return trace', Refused;
      }
      var key := KeyOf(encode, turn.challenge);
      if key == None {
        return trace', Refused;
      }
      if key.value in credentials {
        return trace', Pays(credentials[key.value], key.value, credentials);
      }
      if !turn.approved {
        return trace', Refused;
      }
      trace' := trace' + [Create(turn.challenge, key.value, turn.created)];
      if turn.created == None || !turn.formats {
        return trace', Refused;
      }
      credentials := credentials[key.value := turn.created.value];
      return trace', Pays(turn.created.value, key.value, credentials);
    }
  }

  method Middleware(encode: Encoder, env: nat -> Reply) returns (trace: seq<Event>, answered: bool)
    ensures (trace, answered) == Run(encode, env, [], START, 0)
  {
    var cache := new Cache();
    var sent := ZERO_KEY;
    var reply := env(0);
    trace := [Call(None, sent, None, reply)];
    ghost var before: seq<Event>, st := [], START;
    var attempt := 0;
    while true
      invariant attempt <= MAX_PAYMENT_ATTEMPTS && reply == env(attempt)
      invariant trace == before + [Calling(st, reply)]
      invariant st.credentials == cache.credentials && st.sent == sent
      invariant Run(encode, env, before, st, attempt) == Run(encode, env, [], START, 0)
      decreases MAX_PAYMENT_ATTEMPTS - attempt
    {
      if reply == Final || attempt == MAX_PAYMENT_ATTEMPTS {
        return trace, true;
      }
      if reply.invalidPayload {
        cache.credentials := cache.credentials - {sent};
      }
      var paid;
      trace, paid := cache.Pay(encode, trace, reply.turn);
      if paid == Refused {
        return trace, false;
      }
      sent := paid.key;
      var challenge := reply.turn.challenge;
      before, st := trace, State(cache.credentials, sent, Some(challenge), Some(paid.credential));
      attempt := attempt + 1;
      reply := env(attempt);
      trace := trace + [Call(Some(challenge), sent, Some(paid.credential), reply)];
    }
  }

  // ---------- what a trace contains ----------

  function Calls(trace: seq<Event>): nat {
    if trace == [] then 0 else Calls(trace[..|trace| - 1]) + if trace[|trace| - 1].Call? then 1 else 0
  }

  predicate CreatesFor(e: Event, key: Key) {
    e.Create? && e.key == key
  }

  predicate Rejects(e: Event, key: Key) {
    e.Call? && e.credential.Some? && e.key == key && e.reply.PaymentRequired? && e.reply.invalidPayload
  }

  function Creates(trace: seq<Event>, key: Key): nat {
    if trace == [] then 0 else Creates(trace[..|trace| - 1], key) + if CreatesFor(trace[|trace| - 1], key) then 1 else 0
  }

  function Rejections(trace: seq<Event>, key: Key): nat {
    if trace == [] then 0 else Rejections(trace[..|trace| - 1], key) + if Rejects(trace[|trace| - 1], key) then 1 else 0
  }

  lemma {:induction false} Append(trace: seq<Event>, e: Event, key: Key)
    ensures Calls(trace + [e]) == Calls(trace) + if e.Call? then 1 else 0
    ensures Creates(trace + [e], key) == Creates(trace, key) + if CreatesFor(e, key) then 1 else 0
    ensures Rejections(trace + [e], key) == Rejections(trace, key) + if Rejects(e, key) then 1 else 0
  {
    assert (trace + [e])[..|trace|] == trace;
  }

  predicate Covered(trace: seq<Event>, st: State, key: Key) {
    && (st.credential == None ==> st.credentials == map[])
    && Creates(trace, key) <= Rejections(trace, key) + if key in st.credentials then 1 else 0
  }

  /** Some challenge with this key was paid with this credential. */
  ghost predicate CreatedUnder(encode: Encoder, trace: seq<Event>, key: Key, credential: Credential) {
    exists challenge :: KeyOf(encode, challenge) == Some(key) && Create(challenge, key, Some(credential)) in trace
  }

  /** Every credential sent was created earlier, for the very challenge it now answers. */
  predicate SentForItsChallenge(trace: seq<Event>) {
    forall i :: 0 <= i < |trace| && trace[i].Call? && trace[i].credential.Some? ==>
      trace[i].paid.Some? && Create(trace[i].paid.value, trace[i].key, trace[i].credential) in trace[..i]
  }

  ghost predicate Owned(encode: Encoder, trace: seq<Event>, st: State) {
    && SentForItsChallenge(trace)
    && (forall key :: key in st.credentials ==> CreatedUnder(encode, trace, key, st.credentials[key]))
    && (st.credential.Some? ==> st.paid.Some? && Create(st.paid.value, st.sent, st.credential) in trace)
  }

  /** How one payment step extends the trace: at most one creation, and only without a kept credential. */
  lemma {:induction false} PayStepTrace(encode: Encoder, trace: seq<Event>, credentials: map<Key, Credential>,
                                        turn: Turn, key: Key)
    ensures var (trace', paid) := PayStep(encode, trace, credentials, turn);
      && Calls(trace') == Calls(trace) && Rejections(trace', key) == Rejections(trace, key)
      && Creates(trace', key)
         <= Creates(trace, key) + (if KeyFor(encode, turn, key) && key !in credentials then 1 else 0)
      && (paid.Pays? ==> KeyFor(encode, turn, paid.key) && paid.credentials.Keys == credentials.Keys + {paid.key})
  {
    if turn.Select? && KeyOf(encode, turn.challenge).Some? {
      Append(trace, Create(turn.challenge, KeyOf(encode, turn.challenge).value, turn.created), key);
    }
  }

  predicate KeyFor(encode: Encoder, turn: Turn, key: Key) {
    turn.Select? && KeyOf(encode, turn.challenge) == Some(key)
  }

  lemma {:induction false} CallsAreBounded(encode: Encoder, env: nat -> Reply, trace: seq<Event>, st: State,
                                           attempt: nat, key: Key)
    requires attempt <= MAX_PAYMENT_ATTEMPTS && Calls(trace) == attempt && Covered(trace, st, key)
    ensures var trace' := Run(encode, env, trace, st, attempt).0;
      Calls(trace') <= MAX_PAYMENT_ATTEMPTS + 1 && Creates(trace', key) <= Rejections(trace', key) + 1
    decreases MAX_PAYMENT_ATTEMPTS - attempt
  {
    var reply := env(attempt);
    var called := trace + [Calling(st, reply)];
    Append(trace, Calling(st, reply), key);
    if reply.PaymentRequired? && attempt < MAX_PAYMENT_ATTEMPTS {
      PayStepTrace(encode, called, Remaining(st, reply), reply.turn, key);
      var (trace', paid) := PayStep(encode, called, Remaining(st, reply), reply.turn);
      if paid.Pays? {
        var st' := State(paid.credentials, paid.key, Some(reply.turn.challenge), Some(paid.credential));
        CallsAreBounded(encode, env, trace', st', attempt + 1, key);
      }
    }
  }

  lemma {:induction false} SentGrows(trace: seq<Event>, e: Event)
    requires SentForItsChallenge(trace)
    requires e.Call? && e.credential.Some? ==> e.paid.Some? && Create(e.paid.value, e.key, e.credential) in trace
    ensures SentForItsChallenge(trace + [e])
  {
    var grown := trace + [e];
    forall i | 0 <= i < |grown| && grown[i].Call? && grown[i].credential.Some?
      ensures grown[i].paid.Some? && Create(grown[i].paid.value, grown[i].key, grown[i].credential) in grown[..i]
    {
      assert grown[..i] == trace[..i];
    }
    assert trace[..|trace|] == trace;
  }

  lemma {:induction false} PayKeepsOwned(encode: Encoder, trace: seq<Event>, st: State,
                                         credentials: map<Key, Credential>, turn: Turn)
    requires Injective(encode) && Owned(encode, trace, st)
    requires forall key :: key in credentials ==> key in st.credentials && credentials[key] == st.credentials[key]
    ensures var (trace', paid) := PayStep(encode, trace, credentials, turn);
      && SentForItsChallenge(trace')
      && (paid.Pays? ==> Owned(encode, trace',
          State(paid.credentials, paid.key, Some(turn.challenge), Some(paid.credential))))
  {
    if turn.Select? && KeyOf(encode, turn.challenge).Some? {
      var key := KeyOf(encode, turn.challenge).value;
      if key in credentials {
        assert CreatedUnder(encode, trace, key, st.credentials[key]);
      } else if turn.approved {
        var e := Create(turn.challenge, key, turn.created);
        SentGrows(trace, e);
        assert e in trace + [e];
        assert forall k, c {:trigger CreatedUnder(encode, trace, k, c)} ::
          CreatedUnder(encode, trace, k, c) ==> CreatedUnder(encode, trace + [e], k, c);
        if turn.created.Some? {
          assert CreatedUnder(encode, trace + [e], key, turn.created.value);
        }
      }
    }
  }

  lemma {:induction false} CredentialsStayWithTheirChallenge(encode: Encoder, env: nat -> Reply, trace: seq<Event>,
                                                             st: State, attempt: nat)
    requires Injective(encode) && Owned(encode, trace, st)
    ensures SentForItsChallenge(Run(encode, env, trace, st, attempt).0)
    decreases MAX_PAYMENT_ATTEMPTS - attempt
  {
    var reply := env(attempt);
    var called := trace + [Calling(st, reply)];
    SentGrows(trace, Calling(st, reply));
    assert forall k, c {:trigger CreatedUnder(encode, trace, k, c)} ::
      CreatedUnder(encode, trace, k, c) ==> CreatedUnder(encode, called, k, c);
    assert Owned(encode, called, st);
    if reply.PaymentRequired? && attempt < MAX_PAYMENT_ATTEMPTS {
      PayKeepsOwned(encode, called, st, Remaining(st, reply), reply.turn);
      var (trace', paid) := PayStep(encode, called, Remaining(st, reply), reply.turn);
      if paid.Pays? {
        CredentialsStayWithTheirChallenge(encode, env, trace',
          State(paid.credentials, paid.key, Some(reply.turn.challenge), Some(paid.credential)), attempt + 1);
      }
    }
  }

  /**
   Whatever the server answers: at most four calls; per challenge at most one creation more than
   invalid-payload answers to its credential; and a credential is sent only in answer to a challenge
   identical to the one it was created for.
   */
  lemma {:induction false} MiddlewareIsSafe(encode: Encoder, env: nat -> Reply, key: Key)
    ensures var trace := Run(encode, env, [], START, 0).0;
      && Calls(trace) <= 4
      && Creates(trace, key) <= Rejections(trace, key) + 1
      && (Injective(encode) ==> SentForItsChallenge(trace))
  {
    CallsAreBounded(encode, env, [], START, 0, key);
    if Injective(encode) {
      CredentialsStayWithTheirChallenge(encode, env, [], START, 0);
    }
  }
}
