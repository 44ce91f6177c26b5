/**
 What the server answers, case by case: a credential is verified exactly when it stands every check and
 its settlement succeeds; otherwise the answer names the first check it fails, or what settling came to.
 The challenges that are released are described by their fields. The client's way with a challenge ends
 in that success, for one offer or for several.
 */
module Outcomes {
  import opened Text
  import opened AuthParams
  import opened Challenges
  import opened Binding
  import opened ReplayStore
  import opened Verify
  import opened Issuance

  // ---------- the checks ----------

  /** What each rejection says about the echo. */
  predicate Fails(sv: Server, p: Params, t: Moment, e: Echo, why: Rejection) {
    match why
    case Malformed => EchoBound(sv.codec, e).None? || (e.request != "" && sv.codec.decode(e.request).None?)
    case NotIssued =>
      EchoBound(sv.codec, e).None? || e.id != sv.mac(p.secretKey, Message(EchoBound(sv.codec, e).value))
    case RealmMismatch => e.realm != p.realm
    case MethodMismatch => e.methodName != p.methodName
    case IntentMismatch => e.intent != p.intentName
    case RequestMismatch =>
      || sv.codec.decode(e.request).None? || sv.codec.canonical(p.request).None?
      || sv.codec.canonical(sv.codec.decode(e.request).value) != sv.codec.canonical(p.request)
    case NoExpiry => e.expires == ""
    case BadExpiry => sv.parseExpires(e.expires).None?
    case PaymentExpired => sv.parseExpires(e.expires).Some? && sv.parseExpires(e.expires).value <= t.now
    case MetaMismatch => MetaOrEmpty(e.meta) - {NONCE_KEY, OLD_NONCE_KEY} != MetaOrEmpty(p.meta)
    case DigestMismatch =>
      if p.body.NoBody? then e.digest != ""
      else e.digest == "" || p.body.Undigestible? || sv.digest(p.body.content) != sv.normalDigest(e.digest)
    case _ => false
  }

  /** The order in which the checks are made. */
  function Position(why: Rejection): nat {
    match why
    case Malformed => 0
    case NotIssued => 1
    case RealmMismatch => 2
    case MethodMismatch => 3
    case IntentMismatch => 4
    case RequestMismatch => 5
    case NoExpiry => 6
    case BadExpiry => 7
    case PaymentExpired => 8
    case MetaMismatch => 9
    case DigestMismatch => 10
    case _ => 11
  }

  ghost predicate Admissible(sv: Server, p: Params, t: Moment, e: Echo) {
    forall why :: !Fails(sv, p, t, e, why)
  }

  ghost predicate FailsFirst(sv: Server, p: Params, t: Moment, e: Echo, why: Rejection) {
    && Fails(sv, p, t, e, why)
    && forall other :: Position(other) < Position(why) ==> !Fails(sv, p, t, e, other)
  }

  lemma {:induction false} NoMismatchAdmits(sv: Server, p: Params, t: Moment, e: Echo, why: Rejection)
    requires !Fails(sv, p, t, e, Malformed) && !Fails(sv, p, t, e, NotIssued)
    ensures Mismatch(sv, p, t, e) == None ==> !Fails(sv, p, t, e, why)
  {
  }

  lemma {:induction false} MismatchFails(sv: Server, p: Params, t: Moment, e: Echo)
    ensures var found := Mismatch(sv, p, t, e); found.Some? ==> Fails(sv, p, t, e, found.value)
  {
  }

  lemma {:induction false} EarlierChecksPass(sv: Server, p: Params, t: Moment, e: Echo, other: Rejection)
    requires !Fails(sv, p, t, e, Malformed) && !Fails(sv, p, t, e, NotIssued)
    ensures var found := Mismatch(sv, p, t, e);
      found.Some? && Position(other) < Position(found.value) ==> !Fails(sv, p, t, e, other)
  {
  }

  lemma {:induction false} MismatchIsFirst(sv: Server, p: Params, t: Moment, e: Echo)
    requires !Fails(sv, p, t, e, Malformed) && !Fails(sv, p, t, e, NotIssued)
    ensures Mismatch(sv, p, t, e) == None ==> Admissible(sv, p, t, e)
    ensures Mismatch(sv, p, t, e).Some? ==> FailsFirst(sv, p, t, e, Mismatch(sv, p, t, e).value)
  {
    MismatchFails(sv, p, t, e);
    forall why ensures
      && (Mismatch(sv, p, t, e) == None ==> !Fails(sv, p, t, e, why))
      && (Mismatch(sv, p, t, e).Some? && Position(why) < Position(Mismatch(sv, p, t, e).value) ==>
            !Fails(sv, p, t, e, why))
    {
      NoMismatchAdmits(sv, p, t, e, why);
      EarlierChecksPass(sv, p, t, e, why);
    }
  }

  // ---------- the challenges ----------

  /** The parameters a challenge can be issued for. */
  predicate Issuable(sv: Server, p: Params, t: Moment) {
    && NONCE_KEY !in MetaOrEmpty(p.meta) && OLD_NONCE_KEY !in MetaOrEmpty(p.meta)
    && !p.body.Undigestible? && BoundOf(sv.codec, FreshSpec(sv, p, t)).Some?
  }

  /** A challenge with exactly the route's fields, an expiry of its own if none is given, and a new nonce. */
  predicate IsFresh(sv: Server, p: Params, t: Moment, c: Challenge) {
    && c.realm == p.realm && c.methodName == p.methodName && c.intent == p.intentName
    && c.request == Some(p.request) && Some(c.requestB64) == sv.codec.canonical(p.request)
    && c.expires == (if p.expires != "" then p.expires else t.defaultExpires)
    && c.digest == (match p.body case Bytes(content) => sv.digest(content) case _ => "")
    && c.description == p.description && c.header == Advertised(p.header)
    && (if p.disableNonce then c.meta == p.meta
        else c.meta.Some? && NONCE_KEY in c.meta.value && c.meta.value[NONCE_KEY] == "0x" + t.nonce
             && c.meta.value - {NONCE_KEY} == MetaOrEmpty(p.meta))
    && HasId(sv, p.secretKey, c)
  }

  /** The ID is the MAC of the challenge's own fields. */
  predicate HasId(sv: Server, secret: string, c: Challenge) {
    && ParseAdvertised(c.header).Some?
    && (c.meta.Some? ==> sv.codec.canonical(TextMap(c.meta.value)).Some?)
    && c.id == sv.mac(secret, Message(Bound(
         c.realm, c.methodName, c.intent, c.requestB64, c.expires, c.digest, ParseAdvertised(c.header).value,
         if c.meta.Some? then sv.codec.canonical(TextMap(c.meta.value)).value else "")))
  }

  /** The challenge the client answered: its own ID and the fields it echoed. */
  predicate IsClients(sv: Server, e: Echo, c: Challenge) {
    && c.id == e.id && c.realm == e.realm && c.methodName == e.methodName && c.intent == e.intent
    && c.request == sv.codec.decode(e.request) && c.expires == e.expires && c.digest == e.digest
    && c.meta == e.meta && c.header == Advertised(e.header)
  }

  lemma {:induction false} FreshFields(sv: Server, p: Params, t: Moment)
    ensures Issuable(sv, p, t) <==> Fresh(sv, p, t).Some?
    ensures Fresh(sv, p, t).Some? ==> IsFresh(sv, p, t, Fresh(sv, p, t).value)
  {
    AdvertisedTwice(p.header);
    if Fresh(sv, p, t).Some? {
      var meta := FreshSpec(sv, p, t).meta;
      assert !p.disableNonce ==> meta.value - {NONCE_KEY} == MetaOrEmpty(p.meta);
    }
  }

  // ---------- finding the credential ----------

  predicate IsPayment(part: string) {
    AfterScheme(Trim(part)).Some?
  }

  ghost predicate OnlyPayment(parts: seq<string>, i: nat) {
    && i < |parts| && IsPayment(parts[i])
    && forall j :: 0 <= j < |parts| && j != i ==> !IsPayment(parts[j])
  }

  lemma {:induction false} PartsFound(parts: seq<string>)
    ensures PaymentParts(parts) == [] <==> forall i :: 0 <= i < |parts| ==> !IsPayment(parts[i])
    ensures forall i: nat :: OnlyPayment(parts, i) ==> PaymentParts(parts) == [Trim(parts[i])]
    ensures |PaymentParts(parts)| == 1 ==> exists i: nat :: OnlyPayment(parts, i)
    decreases |parts|
  {
    if parts == [] {
    } else {
      var tail := parts[1..];
      PartsFound(tail);
      assert forall i :: 0 <= i < |tail| ==> tail[i] == parts[i + 1];
      if IsPayment(parts[0]) {
        assert PaymentParts(tail) == [] ==> OnlyPayment(parts, 0);
      } else if i: nat :| OnlyPayment(tail, i) {
        assert OnlyPayment(parts, i + 1);
      }
      forall i: nat | OnlyPayment(parts, i) ensures PaymentParts(parts) == [Trim(parts[i])] {
        if i > 0 {
          assert OnlyPayment(tail, i - 1);
        }
      }
    }
  }

  /** Among the values of a merged header the one Payment value counts; two are an error, and so is length. */
  lemma {:induction false} FindPaymentMeans(header: string, value: string)
    requires value != ""
    ensures FindPayment(header) == Some(value)
      <==> |header| <= MAX_AUTHORIZATION
           && exists i: nat :: OnlyPayment(Split(header), i) && Trim(Split(header)[i]) == value
    ensures FindPayment(header) == Some("")
      <==> |header| <= MAX_AUTHORIZATION
           && forall i :: 0 <= i < |Split(header)| ==> !IsPayment(Split(header)[i])
  {
    PartsFound(Split(header));
    PartsAreNotEmpty(Split(header));
  }

  lemma {:induction false} PartsAreNotEmpty(parts: seq<string>)
    ensures forall i :: 0 <= i < |PaymentParts(parts)| ==> PaymentParts(parts)[i] != ""
    decreases |parts|
  {
    if parts == [] {
    } else {
      PartsAreNotEmpty(parts[1..]);
      assert AfterScheme("") == None;
    }
  }

  // ---------- the answer ----------

  /** What settling comes to, for a credential that stands every check. */
  predicate SettledAs(sv: Server, p: Params, t: Moment, cred: Credential, r: Outcome) {
    match t.settlement
    case Settles => r == Verified(cred)
    case Breaks => r == Failed
    case RefusesPlainly => r.Released? && r.why.NotSettled? && IsClients(sv, cred.challenge, r.challenge)
    case Refuses(status402, invalidPayload) =>
      if !status402 then r == Failed
      else r.Released? && r.why.NotSettled?
           && if invalidPayload then IsFresh(sv, p, t, r.challenge) else IsClients(sv, cred.challenge, r.challenge)
  }

  ghost predicate JudgedAs(sv: Server, p: Params, t: Moment, cred: Credential, r: Outcome) {
    if Admissible(sv, p, t, cred.challenge) then SettledAs(sv, p, t, cred, r)
    else r.Released? && IsFresh(sv, p, t, r.challenge) && FailsFirst(sv, p, t, cred.challenge, r.why)
  }

  lemma {:induction false} EchoedIs(sv: Server, p: Params, t: Moment, e: Echo)
    ensures Echoed(sv, p.secretKey, e).Some? <==> !Fails(sv, p, t, e, Malformed)
    ensures Echoed(sv, p.secretKey, e).Some? ==>
      (Echoed(sv, p.secretKey, e).value.id == e.id <==> !Fails(sv, p, t, e, NotIssued))
    ensures Echoed(sv, p.secretKey, e).Some? && Echoed(sv, p.secretKey, e).value.id == e.id ==>
      IsClients(sv, e, Echoed(sv, p.secretKey, e).value)
  {
  }

  lemma {:induction false} RejectedFirst(sv: Server, p: Params, t: Moment, own: Challenge, cred: Credential)
    requires !Admissible(sv, p, t, cred.challenge)
    ensures var r := Decide(sv, p, t, own, cred);
      r.Released? && r.challenge == own && FailsFirst(sv, p, t, cred.challenge, r.why)
  {
    var e := cred.challenge;
    EchoedIs(sv, p, t, e);
    if Fails(sv, p, t, e, Malformed) {
      assert FailsFirst(sv, p, t, e, Malformed);
    } else if Fails(sv, p, t, e, NotIssued) {
      assert FailsFirst(sv, p, t, e, NotIssued);
    } else {
      MismatchIsFirst(sv, p, t, e);
    }
  }

  lemma {:induction false} AdmittedSettles(sv: Server, p: Params, t: Moment, own: Challenge, cred: Credential)
    requires Admissible(sv, p, t, cred.challenge) && IsFresh(sv, p, t, own)
    ensures SettledAs(sv, p, t, cred, Decide(sv, p, t, own, cred))
  {
    var e := cred.challenge;
    EchoedIs(sv, p, t, e);
    MismatchIsFirst(sv, p, t, e);
    DecideSettles(sv, p, t, own, cred);
  }

  lemma {:induction false} ShownIsJudged(sv: Server, p: Params, t: Moment, cred: Credential)
    requires Issuable(sv, p, t) && Presented(sv.codec, p.authorization) == Shown(cred)
    ensures JudgedAs(sv, p, t, cred, VerifyOrChallenge(sv, p, t))
  {
    FreshFields(sv, p, t);
    var own := Fresh(sv, p, t).value;
    if Admissible(sv, p, t, cred.challenge) {
      AdmittedSettles(sv, p, t, own, cred);
    } else {
      RejectedFirst(sv, p, t, own, cred);
    }
  }

  /** The whole answer, for every request. */
  lemma {:induction false} AnswerIs(sv: Server, p: Params, t: Moment)
    ensures var r := VerifyOrChallenge(sv, p, t);
      if !Issuable(sv, p, t) then r == Failed
      else match Presented(sv.codec, p.authorization)
        case Absent => r.Released? && r.why.NotPresented? && IsFresh(sv, p, t, r.challenge)
        case Ambiguous => r == Failed
        case Unreadable => r.Released? && r.why.Malformed? && IsFresh(sv, p, t, r.challenge)
        case Shown(cred) => JudgedAs(sv, p, t, cred, r)
  {
    FreshFields(sv, p, t);
    var shown := Presented(sv.codec, p.authorization);
    if shown.Shown? && Issuable(sv, p, t) {
      ShownIsJudged(sv, p, t, shown.credential);
    }
  }

  /** Verified: exactly the admissible credential that was shown and whose settlement succeeds. */
  lemma {:induction false} VerifiedIff(sv: Server, p: Params, t: Moment, cred: Credential)
    ensures VerifyOrChallenge(sv, p, t) == Verified(cred)
      <==> && Issuable(sv, p, t) && Presented(sv.codec, p.authorization) == Shown(cred)
           && Admissible(sv, p, t, cred.challenge) && t.settlement == Settles
  {
    AnswerIs(sv, p, t);
  }

  /** An error without a challenge: nothing could be issued, the header is ambiguous, or settling says so. */
  lemma {:induction false} FailedIff(sv: Server, p: Params, t: Moment)
    ensures VerifyOrChallenge(sv, p, t) == Failed
      <==> || !Issuable(sv, p, t) || Presented(sv.codec, p.authorization).Ambiguous?
           || (&& Presented(sv.codec, p.authorization).Shown?
               && Admissible(sv, p, t, Presented(sv.codec, p.authorization).credential.challenge)
               && (t.settlement.Breaks? || (t.settlement.Refuses? && !t.settlement.status402)))
  {
    AnswerIs(sv, p, t);
  }

  // ---------- the client's way ends in success ----------

  /** The request shows a credential that answers this challenge with this payload. */
  predicate Answers(sv: Server, q: Params, id: string, payload: Json, source: string) {
    && Presented(sv.codec, q.authorization).Shown?
    && var cred := Presented(sv.codec, q.authorization).credential;
    && cred.challenge.id == id && cred.payload == sv.codec.plain(payload) && cred.source == source
  }

  predicate ByRejection(r: Outcome) {
    r.Released? && !r.why.NotSettled?
  }

  lemma {:induction false} SettleIsNoRejection(own: Challenge, echoed: Challenge, cred: Credential,
                                               settlement: Settlement)
    ensures !ByRejection(Settle(own, echoed, cred, settlement))
  {
  }

  lemma {:induction false} OnlyRejectionsReject(sv: Server, p: Params, t: Moment, cred: Credential, r: Outcome)
    requires JudgedAs(sv, p, t, cred, r) && !ByRejection(r)
    ensures Admissible(sv, p, t, cred.challenge) && SettledAs(sv, p, t, cred, r)
  {
    assert !Fails(sv, p, t, cred.challenge, NotSettled);
  }

  /** What got as far as settling stood every check. */
  lemma {:induction false} SettlementMeansAdmissible(sv: Server, q: Params, u: Moment)
    requires ReachesSettlement(sv, q, u)
    ensures var cred := Presented(sv.codec, q.authorization).credential;
      Admissible(sv, q, u, cred.challenge) && SettledAs(sv, q, u, cred, VerifyOrChallenge(sv, q, u))
  {
    FreshFields(sv, q, u);
    var cred := Presented(sv.codec, q.authorization).credential;
    ShownIsJudged(sv, q, u, cred);
    SettleIsNoRejection(Fresh(sv, q, u).value, Echoed(sv, q.secretKey, cred.challenge).value, cred, u.settlement);
    OnlyRejectionsReject(sv, q, u, cred, VerifyOrChallenge(sv, q, u));
  }

  lemma {:induction false} SpecIsAnswered(sv: Server, s: Spec, q: Params, payload: Json, source: string)
    requires Lossless(sv.codec)
    requires var c := NewChallenge(sv.codec, sv.mac, q.secretKey, s);
      && c.Some? && FormatChallenge(sv.codec, c.value).Some?
      && Submitted(sv.codec, FormatChallenge(sv.codec, c.value).value, payload, source) == Some(q.authorization)
    ensures Answers(sv, q, NewChallenge(sv.codec, sv.mac, q.secretKey, s).value.id, payload, source)
  {
    SubmittedEcho(sv.codec, sv.mac, q.secretKey, s, payload, source);
  }

  /**
   A released challenge, printed, parsed, echoed and submitted in time, is paid: if settling succeeds the
   answer is the credential with that challenge's ID and the client's payload, and if not, it is the
   refusal that settling asks for.
   */
  lemma {:induction false} ReleasedIsPaid(sv: Server, p: Params, t: Moment, q: Params, u: Moment, payload: Json,
                                          source: string)
    requires Sound(sv) && SameRoute(p, q) && SameJson(sv.codec, p.request, q.request) && Issuable(sv, q, u)
    requires VerifyOrChallenge(sv, p, t).Released?
    requires var c := VerifyOrChallenge(sv, p, t).challenge;
      && FormatChallenge(sv.codec, c).Some? && BeforeExpiry(sv, c.expires, u.now)
      && Submitted(sv.codec, FormatChallenge(sv.codec, c).value, payload, source) == Some(q.authorization)
    ensures Answers(sv, q, VerifyOrChallenge(sv, p, t).challenge.id, payload, source)
    ensures SettledAs(sv, q, u, Presented(sv.codec, q.authorization).credential, VerifyOrChallenge(sv, q, u))
  {
    FreshFields(sv, q, u);
    ReleasedIsAccepted(sv, p, t, q, u, payload, source);
    SettlementMeansAdmissible(sv, q, u);
    var s := ReleasedHasSpec(sv, p, t);
    SpecIsAnswered(sv, s, q, payload, source);
  }

  /** A refusal by charge offers everything again, at place j with the challenge that settling asks for. */
  predicate OfferedAgain(sv: Server, q: Params, u: Moment, j: nat, count: nat, cred: Credential, own: bool,
      r: Charged) {
    && r.Offered? && |r.challenges| == count && j < count
    && if own then IsClients(sv, cred.challenge, r.challenges[j]) else IsFresh(sv, q, u, r.challenges[j])
  }

  predicate ChargedAs(sv: Server, q: Params, u: Moment, j: nat, count: nat, cred: Credential, r: Charged) {
    match u.settlement
    case Settles => r == Paid(cred)
    case Breaks => r == NothingCharged
    case RefusesPlainly => OfferedAgain(sv, q, u, j, count, cred, true, r)
    case Refuses(status402, invalidPayload) =>
      if !status402 then r == NothingCharged else OfferedAgain(sv, q, u, j, count, cred, !invalidPayload, r)
  }

  lemma {:induction false} ChargeFollows(sv: Server, base: Params, requests: seq<Json>, times: nat -> Moment)
    requires requests != []
    requires forall i :: 0 <= i < |requests| ==> Fresh(sv, OfferParams(base, requests, i), times(i)).Some?
    ensures var j := SelectOffer(sv.codec, base.authorization, requests);
      var r := Charge(sv, base, requests, times);
      && j < |requests|
      && match VerifyOrChallenge(sv, OfferParams(base, requests, j), times(j))
         case Failed => r == NothingCharged
         case Verified(cred) => r == Paid(cred)
         case Released(c, _) => r.Offered? && |r.challenges| == |requests| && r.challenges[j] == c
  {
    SelectInRange(sv.codec, base.authorization, requests);
    var j := SelectOffer(sv.codec, base.authorization, requests);
    var r := VerifyOrChallenge(sv, OfferParams(base, requests, j), times(j));
    if r.Released? {
      forall i | 0 <= i < |requests| ensures OfferAt(sv, base, requests, times, j, r.challenge, i).Some? {
        assert Fresh(sv, OfferParams(base, requests, i), times(i)).Some?;
        assert FreshSpec(sv, UnpaidParams(base, requests, i), times(i))
            == FreshSpec(sv, OfferParams(base, requests, i), times(i));
      }
    }
  }

  /**
   Any challenge charge offers, for any number of offers, is paid when it is submitted to charge in time:
   if settling succeeds charge answers with the client's credential for that very challenge.
   */
  lemma {:induction false} OfferedIsPaid(sv: Server, base: Params, requests: seq<Json>, times: nat -> Moment, i: nat,
                                         base': Params, times': nat -> Moment, payload: Json, source: string)
    requires Sound(sv) && requests != [] && i < |requests| && SameRoute(base, base')
    requires Charge(sv, base, requests, times).Offered?
    requires var c := Charge(sv, base, requests, times).challenges[i];
      && FormatChallenge(sv.codec, c).Some?
      && Submitted(sv.codec, FormatChallenge(sv.codec, c).value, payload, source) == Some(base'.authorization)
      && forall j :: 0 <= j < |requests| ==>
           Fresh(sv, OfferParams(base', requests, j), times'(j)).Some? && BeforeExpiry(sv, c.expires, times'(j).now)
    ensures Answers(sv, base', Charge(sv, base, requests, times).challenges[i].id, payload, source)
    ensures exists j: nat ::
      j < |requests| && SameJson(sv.codec, requests[i], requests[j])
      && ChargedAs(sv, OfferParams(base', requests, j), times'(j), j, |requests|,
                   Presented(sv.codec, base'.authorization).credential, Charge(sv, base', requests, times'))
  {
    ChargeAcceptsOwn(sv, base, requests, times, i, base', times', payload, source);
    var s := OfferedHasSpec(sv, base, requests, times, i);
    SpecIsAnswered(sv, s, base', payload, source);
    var j := SelectOffer(sv.codec, base'.authorization, requests);
    SettlementMeansAdmissible(sv, OfferParams(base', requests, j), times'(j));
    ChargeFollows(sv, base', requests, times');
    assert ChargedAs(sv, OfferParams(base', requests, j), times'(j), j, |requests|,
                     Presented(sv.codec, base'.authorization).credential, Charge(sv, base', requests, times'));
  }

  /** The other offers are newly issued, each for its own request. */
  lemma {:induction false} OtherOffersAreFresh(sv: Server, base: Params, requests: seq<Json>, times: nat -> Moment,
                                               k: nat)
    requires requests != [] && Charge(sv, base, requests, times).Offered? && k < |requests|
    requires k != SelectOffer(sv.codec, base.authorization, requests)
    ensures |Charge(sv, base, requests, times).challenges| == |requests|
        && IsFresh(sv, OfferParams(base, requests, k), times(k), Charge(sv, base, requests, times).challenges[k])
  {
    OfferedIs(sv, base, requests, times, k);
    FreshFields(sv, UnpaidParams(base, requests, k), times(k));
  }
}
