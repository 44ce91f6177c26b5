/**
 The server's decision for one request: release a challenge, refuse, or settle the credential; and what
 any number of such decisions reveal to a client that cannot forge IDs.
 */
module Verify {
  import opened Text
  import opened Challenges
  import opened Binding
  import opened ReplayStore

  /** The server's surroundings: encodings, the MAC, the body digest and the clock format. */
  datatype Server = Server(
    codec: Codec, mac: Mac, digest: string -> string, normalDigest: string -> string,
        parseExpires: string -> Option<Time>)

  datatype Body = NoBody | Bytes(content: string) | Undigestible

  datatype Params = Params(
    disableNonce: bool, authorization: string, intentName: string, request: Json, body: Body, realm: string,
    secretKey: string, methodName: string, description: string, meta: Option<Meta>, expires: string, header: string)

  /** What settling the credential comes to. */
  datatype Settlement = Settles | Refuses(status402: bool, invalidPayload: bool) | RefusesPlainly | Breaks

  /** Randomness, time and settlement of one call. */
  datatype Moment = Moment(nonce: string, defaultExpires: string, now: Time, settlement: Settlement)

  datatype Rejection =
    | NotPresented | Malformed | NotIssued | RealmMismatch | MethodMismatch | IntentMismatch | RequestMismatch
    | NoExpiry | BadExpiry | PaymentExpired | MetaMismatch | DigestMismatch | NotSettled

  /** Nothing, a released challenge, or the verified credential. */
  datatype Outcome = Failed | Released(challenge: Challenge, why: Rejection) | Verified(credential: Credential)

  const NONCE_KEY := "_mppx_nonce"
  const OLD_NONCE_KEY := "_mpp_nonce"

  function MetaOrEmpty(meta: Option<Meta>): Meta {
    if meta.Some? then meta.value else map[]
  }

  function ApplicationMeta(meta: Option<Meta>): Meta {
    MetaOrEmpty(meta) - {NONCE_KEY, OLD_NONCE_KEY}
  }

  /** The challenge the server would issue now, from its own parameters alone. */
  function FreshSpec(sv: Server, p: Params, t: Moment): Spec {
    var meta :=
      if p.disableNonce then p.meta
      else Some(MetaOrEmpty(p.meta)[NONCE_KEY := "0x" + t.nonce]);
    Spec(p.realm, p.methodName, p.intentName, Some(p.request), if p.expires == "" then t.defaultExpires else p.expires,
         if p.body.Bytes? then sv.digest(p.body.content) else "", p.description, meta, p.header)
  }

  function Fresh(sv: Server, p: Params, t: Moment): Option<Challenge> {
    if NONCE_KEY in MetaOrEmpty(p.meta) || OLD_NONCE_KEY in MetaOrEmpty(p.meta) || p.body.Undigestible? then None
    else NewChallenge(sv.codec, sv.mac, p.secretKey, FreshSpec(sv, p, t))
  }

  /** The challenge a credential claims to answer. */
  function EchoSpec(codec: Codec, e: Echo): Spec {
    Spec(e.realm, e.methodName, e.intent, codec.decode(e.request), e.expires, e.digest, "", e.meta, e.header)
  }

  function Echoed(sv: Server, secret: string, e: Echo): Option<Challenge> {
    if e.request != "" && sv.codec.decode(e.request) == None then None
    else NewChallenge(sv.codec, sv.mac, secret, EchoSpec(sv.codec, e))
  }

  predicate SameJson(codec: Codec, a: Json, b: Json) {
    codec.canonical(a).Some? && codec.canonical(a) == codec.canonical(b)
  }

  predicate DigestAgrees(sv: Server, digest: string, body: Body) {
    if body.NoBody? then digest == ""
    else digest != "" && body.Bytes? && sv.digest(body.content) == sv.normalDigest(digest)
  }

  /** Steps 6 to 8: why an authentic echo does not fit this route, if it does not. */
  function Mismatch(sv: Server, p: Params, t: Moment, e: Echo): Option<Rejection> {
    var request := sv.codec.decode(e.request);
    if e.realm != p.realm then Some(RealmMismatch)
    else if e.methodName != p.methodName then Some(MethodMismatch)
    else if e.intent != p.intentName then Some(IntentMismatch)
    else if request == None || !SameJson(sv.codec, request.value, p.request) then Some(RequestMismatch)
    else if e.expires == "" then Some(NoExpiry)
    else if sv.parseExpires(e.expires) == None then Some(BadExpiry)
    else if t.now >= sv.parseExpires(e.expires).value then Some(PaymentExpired)
    else if ApplicationMeta(e.meta) != MetaOrEmpty(p.meta) then Some(MetaMismatch)
    else if !DigestAgrees(sv, e.digest, p.body) then Some(DigestMismatch)
    else None
  }

  function Settle(own: Challenge, echoed: Challenge, cred: Credential, settlement: Settlement): Outcome {
    match settlement
    case Settles => Verified(cred)
    case Refuses(status402, invalidPayload) =>
      if !status402 then Failed else Released(if invalidPayload then own else echoed, NotSettled)
    case RefusesPlainly => Released(echoed, NotSettled)
    case Breaks => Failed
  }

  /** What the Authorization value holds. */
  datatype Presentation = Absent | Ambiguous | Unreadable | Shown(credential: Credential)

  function Presented(codec: Codec, authorization: string): Presentation {
    var found := FindPayment(authorization);
    if authorization == "" then Absent
    else if found == None then Ambiguous
    else if found == Some("") then Absent
    else
      match ParseCredential(codec, found.value)
      case None => Unreadable
      case Some(cred) => Shown(cred)
  }

  /** VerifyOrChallenge. */
  function VerifyOrChallenge(sv: Server, p: Params, t: Moment): Outcome {
    var own := Fresh(sv, p, t);
    if own == None then Failed else Answer(sv, p, t, own.value)
  }

  function Answer(sv: Server, p: Params, t: Moment, own: Challenge): Outcome {
    match Presented(sv.codec, p.authorization)
    case Absent => Released(own, NotPresented)
    case Ambiguous => Failed
    case Unreadable => Released(own, Malformed)
    case Shown(cred) => Decide(sv, p, t, own, cred)
  }

  function Decide(sv: Server, p: Params, t: Moment, own: Challenge, cred: Credential): Outcome {
    var e := cred.challenge;
    var echoed := Echoed(sv, p.secretKey, e);
    if echoed == None then Released(own, Malformed)
    else if e.id != echoed.value.id then Released(own, NotIssued)
    else
      var mismatch := Mismatch(sv, p, t, e);
      if mismatch.Some? then Released(own, mismatch.value)
      else Settle(own, echoed.value, cred, t.settlement)
  }

  /** The early-return chain, statement by statement. */
  method DoVerifyOrChallenge(sv: Server, p: Params, t: Moment) returns (r: Outcome)
    ensures r == VerifyOrChallenge(sv, p, t)
  {
    var expires := p.expires;
    if expires == "" {
      expires := t.defaultExpires;
    }
    var meta := p.meta;
    if NONCE_KEY in MetaOrEmpty(meta) || OLD_NONCE_KEY in MetaOrEmpty(meta) {
      return Failed;
    }
    if !p.disableNonce {
      meta := Some(MetaOrEmpty(meta)[NONCE_KEY := "0x" + t.nonce]);
    }
    var digest := "";
    if !p.body.NoBody? {
      if p.body.Undigestible? {
        return Failed;
      }
      digest := sv.digest(p.body.content);
    }
    var challenge := NewChallenge(sv.codec, sv.mac, p.secretKey,
      Spec(p.realm, p.methodName, p.intentName, Some(p.request), expires, digest, p.description, meta, p.header));
    if challenge == None {
      return Failed;
    }
    r := AnswerPresented(sv, p, t, challenge.value);
  }

  /** With this route's challenge at hand: finds and parses the credential, and decides. */
  method AnswerPresented(sv: Server, p: Params, t: Moment, challenge: Challenge) returns (r: Outcome)
    ensures r == Answer(sv, p, t, challenge)
  {
    if p.authorization == "" {
      return Released(challenge, NotPresented);
    }
    var authHeader := FindPayment(p.authorization);
    if authHeader == None {
      return Failed;
    }
    if authHeader.value == "" {
      return Released(challenge, NotPresented);
    }
    var credential := ParseCredential(sv.codec, authHeader.value);
    if credential == None {
      return Released(challenge, Malformed);
    }
    r := DecideCredential(sv, p, t, challenge, credential.value);
  }

  method DecideCredential(sv: Server, p: Params, t: Moment, challenge: Challenge,
                          credential: Credential) returns (r: Outcome)
    ensures r == Decide(sv, p, t, challenge, credential)
  {
    var echo := credential.challenge;
    var echoedRequest: Option<Json> := None;
    if echo.request != "" {
      echoedRequest := sv.codec.decode(echo.request);
      if echoedRequest == None {
        return Released(challenge, Malformed);
      }
    }
    var echoed := Echoed(sv, p.secretKey, echo);
    if echoed == None {
      return Released(challenge, Malformed);
    }
    if echo.id != echoed.value.id {
      return Released(challenge, NotIssued);
    }
    if echo.realm != p.realm {
      return Released(challenge, RealmMismatch);
    }
    if echo.methodName != p.methodName {
      return Released(challenge, MethodMismatch);
    }
    if echo.intent != p.intentName {
      return Released(challenge, IntentMismatch);
    }
    var request := sv.codec.decode(echo.request);
    if request == None || !SameJson(sv.codec, request.value, p.request) {
      return Released(challenge, RequestMismatch);
    }
    if echo.expires == "" {
      return Released(challenge, NoExpiry);
    }
    var expiry := sv.parseExpires(echo.expires);
    if expiry == None {
      return Released(challenge, BadExpiry);
    }
    if t.now >= expiry.value {
      return Released(challenge, PaymentExpired);
    }
    if ApplicationMeta(echo.meta) != MetaOrEmpty(p.meta) {
      return Released(challenge, MetaMismatch);
    }
    if !DigestAgrees(sv, echo.digest, p.body) {
      return Released(challenge, DigestMismatch);
    }
    match t.settlement {
      case Settles => return Verified(credential);
      case Refuses(status402, invalidPayload) =>
        if !status402 {
          return Failed;
        }
        if invalidPayload {
          return Released(challenge, NotSettled);
        }
        return Released(echoed.value, NotSettled);
      case RefusesPlainly => return Released(echoed.value, NotSettled);
      case Breaks => return Failed;
    }
  }

  // ---------- one decision ----------

  /** The message whose MAC authenticates what the server itself chose in this call. */
  function FreshMessage(sv: Server, p: Params, t: Moment): Option<string> {
    match BoundOf(sv.codec, FreshSpec(sv, p, t)) case None => None case Some(b) => Some(Message(b))
  }

  function EchoBound(codec: Codec, e: Echo): Option<Bound> {
    BoundOf(codec, EchoSpec(codec, e))
  }

  /** The request's credential carries a genuine ID for the fields it echoes. */
  predicate PresentsGenuine(sv: Server, p: Params) {
    && Presented(sv.codec, p.authorization).Shown?
    && Genuine(sv, p.secretKey, Presented(sv.codec, p.authorization).credential.challenge)
  }

  predicate Genuine(sv: Server, secret: string, e: Echo) {
    EchoBound(sv.codec, e).Some? && e.id == sv.mac(secret, Message(EchoBound(sv.codec, e).value))
  }

  lemma {:induction false} EchoedIsGenuine(sv: Server, secret: string, e: Echo)
    requires Echoed(sv, secret, e).Some? && e.id == Echoed(sv, secret, e).value.id
    ensures Genuine(sv, secret, e)
  {
  }

  lemma {:induction false} DecideIsSafe(sv: Server, p: Params, t: Moment, own: Challenge, cred: Credential)
    ensures var r := Decide(sv, p, t, own, cred);
      && (r.Released? ==>
            || r.challenge == own
            || (Genuine(sv, p.secretKey, cred.challenge) && r.challenge.id == cred.challenge.id))
      && (r.Verified? ==>
            && r.credential == cred && Genuine(sv, p.secretKey, cred.challenge)
            && Mismatch(sv, p, t, cred.challenge) == None)
  {
    var echoed := Echoed(sv, p.secretKey, cred.challenge);
    if echoed.Some? && cred.challenge.id == echoed.value.id {
      EchoedIsGenuine(sv, p.secretKey, cred.challenge);
    }
  }

  lemma {:induction false} FreshIsOwn(sv: Server, p: Params, t: Moment)
    requires Fresh(sv, p, t).Some?
    ensures FreshMessage(sv, p, t).Some?
        && Fresh(sv, p, t).value.id == sv.mac(p.secretKey, FreshMessage(sv, p, t).value)
  {
  }

  /** Only server-chosen IDs go out, or the ID the client already had. */
  lemma {:induction false} ReleaseIsSafe(sv: Server, p: Params, t: Moment)
    requires VerifyOrChallenge(sv, p, t).Released?
    ensures var id := VerifyOrChallenge(sv, p, t).challenge.id;
      || (FreshMessage(sv, p, t).Some? && id == sv.mac(p.secretKey, FreshMessage(sv, p, t).value))
      || (PresentsGenuine(sv, p) && id == Presented(sv.codec, p.authorization).credential.challenge.id)
  {
    var shown := Presented(sv.codec, p.authorization);
    FreshIsOwn(sv, p, t);
    if shown.Shown? {
      DecideIsSafe(sv, p, t, Fresh(sv, p, t).value, shown.credential);
    }
  }

  /** What a verified credential is known to say. */
  lemma {:induction false} VerifiedIsBound(sv: Server, p: Params, t: Moment)
    requires VerifyOrChallenge(sv, p, t).Verified?
    ensures var cred := VerifyOrChallenge(sv, p, t).credential;
      var e := cred.challenge;
      && Presented(sv.codec, p.authorization) == Shown(cred) && Genuine(sv, p.secretKey, e)
      && e.realm == p.realm && e.methodName == p.methodName && e.intent == p.intentName
      && sv.codec.decode(e.request).Some? && SameJson(sv.codec, sv.codec.decode(e.request).value, p.request)
      && sv.parseExpires(e.expires).Some? && t.now < sv.parseExpires(e.expires).value
      && ApplicationMeta(e.meta) == MetaOrEmpty(p.meta) && DigestAgrees(sv, e.digest, p.body)
  {
    var shown := Presented(sv.codec, p.authorization);
    DecideIsSafe(sv, p, t, Fresh(sv, p, t).value, shown.credential);
  }

  // ---------- any number of decisions ----------

  datatype Request = Request(params: Params, moment: Moment)

  /** The message a call's response reveals a MAC for. */
  function Revealed(sv: Server, r: Request): Option<string> {
    var outcome := VerifyOrChallenge(sv, r.params, r.moment);
    if !outcome.Released? then None
    else if FreshMessage(sv, r.params, r.moment).Some?
            && outcome.challenge.id == sv.mac(r.params.secretKey, FreshMessage(sv, r.params, r.moment).value)
    then FreshMessage(sv, r.params, r.moment)
    else EchoMessage(sv, r.params)
  }

  function EchoMessage(sv: Server, p: Params): Option<string> {
    if !PresentsGenuine(sv, p) then None
    else Some(Message(EchoBound(sv.codec, Presented(sv.codec, p.authorization).credential.challenge).value))
  }

  /** MACs other holders of the key have revealed, for challenges of theirs. */
  type Elsewhere = iset<Bound>

  ghost predicate KnownBefore(sv: Server, run: seq<Request>, n: nat, elsewhere: Elsewhere, message: string)
    requires n <= |run|
  {
    || (exists b :: b in elsewhere && Message(b) == message)
    || (exists i :: 0 <= i < n && Revealed(sv, run[i]) == Some(message))
  }

  /**
   Nobody presents a MAC under the shared key that was not revealed before: the assumption on
   HMAC-SHA256, for calls that all use that key.
   */
  ghost predicate Unforgeable(sv: Server, secret: string, run: seq<Request>, elsewhere: Elsewhere) {
    && (forall i :: 0 <= i < |run| ==> run[i].params.secretKey == secret)
    && (forall b :: b in elsewhere ==> Bindable(b))
    && (forall n :: 0 <= n < |run| && PresentsGenuine(sv, run[n].params) ==>
          KnownBefore(sv, run, n, elsewhere, EchoMessage(sv, run[n].params).value))
  }

  /** The fields some holder of the key put in a challenge of its own before call n. */
  ghost predicate Issued(sv: Server, run: seq<Request>, n: nat, elsewhere: Elsewhere, b: Bound)
    requires n <= |run|
  {
    || b in elsewhere
    || (exists i :: 0 <= i < n && BoundOf(sv.codec, FreshSpec(sv, run[i].params, run[i].moment)) == Some(b))
  }

  ghost predicate IssuedMessage(sv: Server, run: seq<Request>, n: nat, elsewhere: Elsewhere, message: string)
    requires n <= |run|
  {
    exists b :: Issued(sv, run, n, elsewhere, b) && Message(b) == message
  }

  /** Every MAC ever revealed authenticates fields that a holder of the key chose. */
  lemma {:induction false} RevealedWasIssued(sv: Server, secret: string, run: seq<Request>, elsewhere: Elsewhere,
                                             n: nat)
    requires Unforgeable(sv, secret, run, elsewhere) && n < |run| && Revealed(sv, run[n]).Some?
    ensures IssuedMessage(sv, run, n + 1, elsewhere, Revealed(sv, run[n]).value)
    decreases n, 1
  {
    var r := run[n];
    var message := Revealed(sv, r).value;
    if FreshMessage(sv, r.params, r.moment) == Some(message) {
      var b := BoundOf(sv.codec, FreshSpec(sv, r.params, r.moment)).value;
      assert Issued(sv, run, n + 1, elsewhere, b);
    } else {
      GenuineWasIssued(sv, secret, run, elsewhere, n);
      var b :| Issued(sv, run, n, elsewhere, b) && Message(b) == message;
      assert Issued(sv, run, n + 1, elsewhere, b);
    }
  }

  lemma {:induction false} GenuineWasIssued(sv: Server, secret: string, run: seq<Request>, elsewhere: Elsewhere, n: nat)
    requires Unforgeable(sv, secret, run, elsewhere) && n < |run| && PresentsGenuine(sv, run[n].params)
    ensures IssuedMessage(sv, run, n, elsewhere, EchoMessage(sv, run[n].params).value)
    decreases n, 0
  {
    var message := EchoMessage(sv, run[n].params).value;
    assert KnownBefore(sv, run, n, elsewhere, message);
    if b :| b in elsewhere && Message(b) == message {
      assert Issued(sv, run, n, elsewhere, b);
    } else {
      var i :| 0 <= i < n && Revealed(sv, run[i]) == Some(message);
      RevealedWasIssued(sv, secret, run, elsewhere, i);
      var b :| Issued(sv, run, i + 1, elsewhere, b) && Message(b) == message;
      assert Issued(sv, run, n, elsewhere, b);
    }
  }

  /**
   Every verified credential, in every run, echoes a challenge some holder of the key issued: not just
   a genuine ID, but exactly the realm, method, intent, encoded request, expiry, digest, header and
   encoded metadata that were issued with it.
   */
  lemma {:induction false} VerifiedWasIssued(sv: Server, secret: string, run: seq<Request>, elsewhere: Elsewhere,
                                             n: nat)
    requires Lossless(sv.codec) && Unforgeable(sv, secret, run, elsewhere) && n < |run|
    requires VerifyOrChallenge(sv, run[n].params, run[n].moment).Verified?
    ensures var e := VerifyOrChallenge(sv, run[n].params, run[n].moment).credential.challenge;
      EchoBound(sv.codec, e).Some? && Issued(sv, run, n, elsewhere, EchoBound(sv.codec, e).value)
  {
    var p := run[n].params;
    VerifiedIsBound(sv, p, run[n].moment);
    var e := Presented(sv.codec, p.authorization).credential.challenge;
    GenuineWasIssued(sv, secret, run, elsewhere, n);
    var b :| Issued(sv, run, n, elsewhere, b) && Message(b) == EchoMessage(sv, p).value;
    IssuedIsBindable(sv, run, n, elsewhere, b);
    BoundIsBindable(sv.codec, EchoSpec(sv.codec, e));
    MessageIsInjective(b, EchoBound(sv.codec, e).value);
  }

  lemma {:induction false} IssuedIsBindable(sv: Server, run: seq<Request>, n: nat, elsewhere: Elsewhere, b: Bound)
    requires Lossless(sv.codec) && n <= |run| && Issued(sv, run, n, elsewhere, b)
    requires forall x :: x in elsewhere ==> Bindable(x)
    ensures Bindable(b)
  {
    if b !in elsewhere {
      var i :| 0 <= i < n && BoundOf(sv.codec, FreshSpec(sv, run[i].params, run[i].moment)) == Some(b);
      BoundIsBindable(sv.codec, FreshSpec(sv, run[i].params, run[i].moment));
    }
  }
}
