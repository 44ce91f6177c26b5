/**
 A server accepts the challenges it issues: printed, parsed, echoed and submitted again before they
 expire, for any number of offers.
 */
module Issuance {
  import opened Text
  import opened Challenges
  import opened Binding
  import opened ReplayStore
  import opened Verify

  /** What the server's surroundings do with values of its own making. */
  ghost predicate Sound(sv: Server) {
    && Lossless(sv.codec)
    && (forall content {:trigger sv.digest(content)} ::
          sv.digest(content) != "" && sv.normalDigest(sv.digest(content)) == sv.digest(content))
  }

  /** A client's way with a challenge: parse it, echo it, send a credential. */
  function Submitted(codec: Codec, header: string, payload: Json, source: string): Option<string> {
    match ParseChallenge(codec, header)
    case None => None
    case Some(c) => FormatCredential(codec, Credential(ToEcho(codec, c), payload, source))
  }

  /** The echo of the challenge as the server reads it back. */
  predicate EchoesSpec(codec: Codec, s: Spec, id: string, e: Echo) {
    && e.id == id && e.realm == s.realm && e.methodName == s.methodName && e.intent == s.intent
    && Some(e.request) == EncodeRequest(codec, s.request) && e.expires == s.expires && e.digest == s.digest
    && e.meta == s.meta && e.header == Advertised(s.header)
  }

  lemma {:induction false} AdvertisedTwice(header: string)
    ensures Advertised(Advertised(header)) == Advertised(header)
    ensures ParseAdvertised(Advertised(header)) == ParseAdvertised(header)
  {
  }

  /** A new challenge keeps its spec through the wire, the parser and the echo. */
  lemma {:induction false} ParsedEcho(codec: Codec, mac: Mac, secret: string, s: Spec)
    requires Lossless(codec) && NewChallenge(codec, mac, secret, s).Some?
    requires FormatChallenge(codec, NewChallenge(codec, mac, secret, s).value).Some?
    ensures var c := NewChallenge(codec, mac, secret, s).value;
      var r := ParseChallenge(codec, FormatChallenge(codec, c).value);
      && r.Some? && EchoesSpec(codec, s, c.id, ToEcho(codec, r.value)) && Faithful(codec, ToEcho(codec, r.value))
  {
    var c := NewChallenge(codec, mac, secret, s).value;
    ChallengeRoundTrip(codec, c);
    AdvertisedTwice(s.header);
    var r := ParseChallenge(codec, FormatChallenge(codec, c).value).value;
    assert IsBase64Url(c.requestB64) && r.requestB64 == c.requestB64;
    FaithfulEcho(codec, FormatChallenge(codec, c).value);
  }

  /** A parsed challenge keeps the issuer's encoding whenever it could be mistaken for another. */
  lemma {:induction false} FaithfulEcho(codec: Codec, header: string)
    requires ParseChallenge(codec, header).Some?
    ensures Faithful(codec, ToEcho(codec, ParseChallenge(codec, header).value))
  {
  }

  lemma {:induction false} EchoesOn(codec: Codec, s: Spec, id: string, e: Echo, r: Echo)
    requires EchoesSpec(codec, s, id, e) && SameEcho(e, r)
    ensures EchoesSpec(codec, s, id, r)
  {
    AdvertisedTwice(s.header);
  }

  /** The server reads the same echo from the credential. */
  lemma {:induction false} SubmittedEcho(codec: Codec, mac: Mac, secret: string, s: Spec, payload: Json, source: string)
    requires Lossless(codec) && NewChallenge(codec, mac, secret, s).Some?
    requires FormatChallenge(codec, NewChallenge(codec, mac, secret, s).value).Some?
    requires var c := NewChallenge(codec, mac, secret, s).value;
      Submitted(codec, FormatChallenge(codec, c).value, payload, source).Some?
    ensures var c := NewChallenge(codec, mac, secret, s).value;
      var h := Submitted(codec, FormatChallenge(codec, c).value, payload, source).value;
      var shown := Presented(codec, h);
      && shown.Shown? && EchoesSpec(codec, s, c.id, shown.credential.challenge)
      && shown.credential.payload == codec.plain(payload) && shown.credential.source == source
  {
    var c := NewChallenge(codec, mac, secret, s).value;
    ParsedEcho(codec, mac, secret, s);
    var r := ParseChallenge(codec, FormatChallenge(codec, c).value).value;
    var cred := Credential(ToEcho(codec, r), payload, source);
    CredentialRoundTrip(codec, cred);
    var header := FormatCredential(codec, cred).value;
    EchoesOn(codec, s, c.id, cred.challenge, ParseCredential(codec, header).value.challenge);
  }

  /** The echoed fields give back the very same ID. */
  lemma {:induction false} EchoedHasId(sv: Server, secret: string, s: Spec, e: Echo)
    requires Lossless(sv.codec) && BoundOf(sv.codec, s).Some? && s.request.Some?
    requires EchoesSpec(sv.codec, s, NewChallenge(sv.codec, sv.mac, secret, s).value.id, e)
    ensures sv.codec.decode(e.request).Some? && SameJson(sv.codec, sv.codec.decode(e.request).value, s.request.value)
    ensures Echoed(sv, secret, e).Some? && Echoed(sv, secret, e).value.id == e.id
  {
    assert sv.codec.canonical(s.request.value) == Some(e.request);
    AdvertisedTwice(s.header);
    assert BoundOf(sv.codec, EchoSpec(sv.codec, e)) == BoundOf(sv.codec, s);
  }

  /** The server's parameters at issuance and at submission: the same but for these three. */
  predicate SameRoute(p: Params, q: Params) {
    q == p.(authorization := q.authorization, request := q.request, expires := q.expires)
  }

  /** A challenge of this spec is one for this route. */
  predicate FitsRoute(sv: Server, q: Params, s: Spec) {
    && s.realm == q.realm && s.methodName == q.methodName && s.intent == q.intentName
    && s.request.Some? && SameJson(sv.codec, s.request.value, q.request)
    && ApplicationMeta(s.meta) == MetaOrEmpty(q.meta) && DigestAgrees(sv, s.digest, q.body)
  }

  predicate BeforeExpiry(sv: Server, expires: string, now: Time) {
    expires != "" && sv.parseExpires(expires).Some? && now < sv.parseExpires(expires).value
  }

  lemma {:induction false} NothingMismatches(sv: Server, q: Params, u: Moment, s: Spec, id: string, e: Echo)
    requires FitsRoute(sv, q, s) && EchoesSpec(sv.codec, s, id, e) && BeforeExpiry(sv, s.expires, u.now)
    requires sv.codec.decode(e.request).Some? && SameJson(sv.codec, sv.codec.decode(e.request).value, s.request.value)
    ensures Mismatch(sv, q, u, e) == None
  {
  }

  lemma {:induction false} DecideSettles(sv: Server, q: Params, u: Moment, own: Challenge, cred: Credential)
    requires Echoed(sv, q.secretKey, cred.challenge).Some?
    requires Echoed(sv, q.secretKey, cred.challenge).value.id == cred.challenge.id
        && Mismatch(sv, q, u, cred.challenge) == None
    ensures Decide(sv, q, u, own, cred)
        == Settle(own, Echoed(sv, q.secretKey, cred.challenge).value, cred, u.settlement)
  {
  }

  /** The server got as far as settling the credential it was shown. */
  predicate ReachesSettlement(sv: Server, q: Params, u: Moment) {
    && Fresh(sv, q, u).Some? && Presented(sv.codec, q.authorization).Shown?
    && var cred := Presented(sv.codec, q.authorization).credential;
    && Echoed(sv, q.secretKey, cred.challenge).Some?
    && VerifyOrChallenge(sv, q, u)
       == Settle(Fresh(sv, q, u).value, Echoed(sv, q.secretKey, cred.challenge).value, cred, u.settlement)
  }

  lemma {:induction false} FittingEchoSettles(sv: Server, s: Spec, q: Params, u: Moment, cred: Credential)
    requires Lossless(sv.codec) && FitsRoute(sv, q, s) && Fresh(sv, q, u).Some? && BeforeExpiry(sv, s.expires, u.now)
    requires NewChallenge(sv.codec, sv.mac, q.secretKey, s).Some?
    requires EchoesSpec(sv.codec, s, NewChallenge(sv.codec, sv.mac, q.secretKey, s).value.id, cred.challenge)
    requires Presented(sv.codec, q.authorization) == Shown(cred)
    ensures ReachesSettlement(sv, q, u)
  {
    EchoedHasId(sv, q.secretKey, s, cred.challenge);
    NothingMismatches(sv, q, u, s, NewChallenge(sv.codec, sv.mac, q.secretKey, s).value.id, cred.challenge);
    DecideSettles(sv, q, u, Fresh(sv, q, u).value, cred);
  }

  /** A challenge that fits the route, sent through printer, parser and echo, is accepted before it expires. */
  lemma {:induction false} FittingIsAccepted(sv: Server, s: Spec, q: Params, u: Moment, payload: Json, source: string)
    requires Lossless(sv.codec) && FitsRoute(sv, q, s) && Fresh(sv, q, u).Some? && BeforeExpiry(sv, s.expires, u.now)
    requires var c := NewChallenge(sv.codec, sv.mac, q.secretKey, s);
      && c.Some? && FormatChallenge(sv.codec, c.value).Some?
      && Submitted(sv.codec, FormatChallenge(sv.codec, c.value).value, payload, source) == Some(q.authorization)
    ensures ReachesSettlement(sv, q, u)
        && Presented(sv.codec, q.authorization).credential.payload == sv.codec.plain(payload)
  {
    SubmittedEcho(sv.codec, sv.mac, q.secretKey, s, payload, source);
    FittingEchoSettles(sv, s, q, u, Presented(sv.codec, q.authorization).credential);
  }

  /** What the server chose for itself fits its route. */
  lemma {:induction false} FreshFits(sv: Server, p: Params, t: Moment)
    requires Sound(sv) && Fresh(sv, p, t).Some?
    ensures FitsRoute(sv, p, FreshSpec(sv, p, t))
    ensures NewChallenge(sv.codec, sv.mac, p.secretKey, FreshSpec(sv, p, t)) == Fresh(sv, p, t)
  {
    var s := FreshSpec(sv, p, t);
    assert ApplicationMeta(s.meta) == MetaOrEmpty(p.meta);
    if p.body.Bytes? {
      assert sv.digest(p.body.content) != "";
    }
  }

  /** So does an echoed challenge that passed every check. */
  lemma {:induction false} EchoFits(sv: Server, p: Params, t: Moment, e: Echo)
    requires Mismatch(sv, p, t, e) == None && Echoed(sv, p.secretKey, e).Some?
    ensures FitsRoute(sv, p, EchoSpec(sv.codec, e))
    ensures NewChallenge(sv.codec, sv.mac, p.secretKey, EchoSpec(sv.codec, e)) == Echoed(sv, p.secretKey, e)
  {
  }

  /** The spec behind a challenge the server released. */
  ghost predicate ReleasedFor(sv: Server, p: Params, c: Challenge, s: Spec) {
    FitsRoute(sv, p, s) && NewChallenge(sv.codec, sv.mac, p.secretKey, s) == Some(c)
  }

  lemma {:induction false} ReleasedHasSpec(sv: Server, p: Params, t: Moment) returns (s: Spec)
    requires Sound(sv) && VerifyOrChallenge(sv, p, t).Released?
    ensures ReleasedFor(sv, p, VerifyOrChallenge(sv, p, t).challenge, s)
  {
    var c := VerifyOrChallenge(sv, p, t).challenge;
    FreshFits(sv, p, t);
    s := FreshSpec(sv, p, t);
    if Some(c) != Fresh(sv, p, t) {
      var e := Presented(sv.codec, p.authorization).credential.challenge;
      EchoFits(sv, p, t, e);
      s := EchoSpec(sv.codec, e);
    }
  }

  lemma {:induction false} SpecKeepsRoute(sv: Server, p: Params, q: Params, s: Spec)
    requires FitsRoute(sv, p, s) && SameRoute(p, q) && SameJson(sv.codec, p.request, q.request)
    ensures FitsRoute(sv, q, s)
  {
  }

  /**
   Any challenge the server releases, in answer to any request, is accepted when it is submitted before
   it expires with the same parameters and body: with or without nonce, metadata, digest or header.
   */
  lemma {:induction false} ReleasedIsAccepted(sv: Server, p: Params, t: Moment, q: Params, u: Moment, payload: Json,
                                              source: string)
    requires Sound(sv) && SameRoute(p, q) && SameJson(sv.codec, p.request, q.request) && Fresh(sv, q, u).Some?
    requires VerifyOrChallenge(sv, p, t).Released?
    requires var c := VerifyOrChallenge(sv, p, t).challenge;
      && FormatChallenge(sv.codec, c).Some? && BeforeExpiry(sv, c.expires, u.now)
      && Submitted(sv.codec, FormatChallenge(sv.codec, c).value, payload, source) == Some(q.authorization)
    ensures ReachesSettlement(sv, q, u)
        && Presented(sv.codec, q.authorization).credential.payload == sv.codec.plain(payload)
  {
    var s := ReleasedHasSpec(sv, p, t);
    SpecKeepsRoute(sv, p, q, s);
    FittingIsAccepted(sv, s, q, u, payload, source);
  }

  // ---------- several offers ----------

  const SCOPE_KEY := "_mppx_scope"

  /** challengeMeta: the metadata with the scope, unless they conflict. */
  function ChallengeMeta(meta: Option<Meta>, scope: string): Option<Option<Meta>> {
    if scope == "" then Some(meta)
    else if SCOPE_KEY in MetaOrEmpty(meta) then (if MetaOrEmpty(meta)[SCOPE_KEY] != scope then None else Some(meta))
    else Some(Some(MetaOrEmpty(meta)[SCOPE_KEY := scope]))
  }

  lemma {:induction false} ScopeIsMerged(meta: Option<Meta>, scope: string)
    requires scope != "" && ChallengeMeta(meta, scope).Some?
    ensures var merged := MetaOrEmpty(ChallengeMeta(meta, scope).value);
      && SCOPE_KEY in merged && merged[SCOPE_KEY] == scope && merged - {SCOPE_KEY} == MetaOrEmpty(meta) - {SCOPE_KEY}
  {
  }

  lemma {:induction false} VerifiedCarriesMeta(sv: Server, p: Params, t: Moment)
    requires VerifyOrChallenge(sv, p, t).Verified?
    ensures ApplicationMeta(VerifyOrChallenge(sv, p, t).credential.challenge.meta) == MetaOrEmpty(p.meta)
  {
    VerifiedIsBound(sv, p, t);
  }

  /** A scope is bound: a credential verified under it carries it, next to the handler's own metadata. */
  lemma {:induction false} ScopeIsCarried(sv: Server, p: Params, t: Moment, meta: Option<Meta>, scope: string)
    requires scope != "" && ChallengeMeta(meta, scope).Some?
    requires VerifyOrChallenge(sv, p.(meta := ChallengeMeta(meta, scope).value), t).Verified?
    ensures var cred := VerifyOrChallenge(sv, p.(meta := ChallengeMeta(meta, scope).value), t).credential;
      var carried := ApplicationMeta(cred.challenge.meta);
      && SCOPE_KEY in carried && carried[SCOPE_KEY] == scope
      && carried - {SCOPE_KEY} == MetaOrEmpty(meta) - {SCOPE_KEY}
  {
    ScopeIsMerged(meta, scope);
    VerifiedCarriesMeta(sv, p.(meta := ChallengeMeta(meta, scope).value), t);
  }

  /** The first offer the credential's request equals, or the first of all. */
  function FirstOffer(codec: Codec, echoed: Json, requests: seq<Json>, i: nat): nat
    requires i <= |requests|
    decreases |requests| - i
  {
    if i == |requests| then 0
    else if SameJson(codec, echoed, requests[i]) then i
    else FirstOffer(codec, echoed, requests, i + 1)
  }

  function SelectFor(codec: Codec, shown: Presentation, requests: seq<Json>): nat {
    if |requests| < 2 || !shown.Shown? then 0
    else
      var echoed := codec.decode(shown.credential.challenge.request);
      if echoed == None then 0 else FirstOffer(codec, echoed.value, requests, 0)
  }

  function SelectOffer(codec: Codec, authorization: string, requests: seq<Json>): nat {
    SelectFor(codec, Presented(codec, authorization), requests)
  }

  method SelectChargeOffer(codec: Codec, authorization: string, requests: seq<Json>) returns (selected: nat)
    ensures selected == SelectOffer(codec, authorization, requests)
  {
    if |requests| < 2 {
      return 0;
    }
    var shown := Presented(codec, authorization);
    if !shown.Shown? {
      return 0;
    }
    var echoed := codec.decode(shown.credential.challenge.request);
    if echoed == None {
      return 0;
    }
    selected := FindOffer(codec, echoed.value, requests);
  }

  method FindOffer(codec: Codec, echoed: Json, requests: seq<Json>) returns (selected: nat)
    ensures selected == FirstOffer(codec, echoed, requests, 0)
  {
    var i := 0;
    while i < |requests|
      invariant i <= |requests|
      invariant FirstOffer(codec, echoed, requests, i) == FirstOffer(codec, echoed, requests, 0)
    {
      if SameJson(codec, echoed, requests[i]) {
        return i;
      }
      i := i + 1;
    }
    return 0;
  }

  lemma {:induction false} FirstOfferMatches(codec: Codec, echoed: Json, requests: seq<Json>, from: nat, i: nat)
    requires from <= i < |requests| && SameJson(codec, echoed, requests[i])
    ensures var j := FirstOffer(codec, echoed, requests, from); j < |requests| && SameJson(codec, echoed, requests[j])
    decreases i - from
  {
    if from < i && !SameJson(codec, echoed, requests[from]) {
      FirstOfferMatches(codec, echoed, requests, from + 1, i);
    }
  }

  /** The offer selected is the first that equals the echoed request, if any does, and else the first of all. */
  lemma {:induction false} FirstOfferIsFirst(codec: Codec, echoed: Json, requests: seq<Json>, from: nat)
    requires from <= |requests|
    ensures var j := FirstOffer(codec, echoed, requests, from);
      || (from <= j < |requests| && SameJson(codec, echoed, requests[j])
          && forall k :: from <= k < j ==> !SameJson(codec, echoed, requests[k]))
      || (j == 0 && forall k :: from <= k < |requests| ==> !SameJson(codec, echoed, requests[k]))
    decreases |requests| - from
  {
    if from == |requests| {
    } else {
      FirstOfferIsFirst(codec, echoed, requests, from + 1);
    }
  }

  lemma {:induction false} SelectInRange(codec: Codec, authorization: string, requests: seq<Json>)
    requires requests != []
    ensures SelectOffer(codec, authorization, requests) < |requests|
  {
    var shown := Presented(codec, authorization);
    if shown.Shown? && codec.decode(shown.credential.challenge.request).Some? {
      FirstOfferInRange(codec, codec.decode(shown.credential.challenge.request).value, requests, 0);
    }
  }

  lemma {:induction false} FirstOfferInRange(codec: Codec, echoed: Json, requests: seq<Json>, from: nat)
    requires requests != [] && from <= |requests|
    ensures FirstOffer(codec, echoed, requests, from) < |requests|
    decreases |requests| - from
  {
    if from == |requests| {
    } else {
      FirstOfferInRange(codec, echoed, requests, from + 1);
    }
  }

  /** The parameters with which offer i is verified, and those with which it is only issued. */
  function OfferParams(base: Params, requests: seq<Json>, i: nat): Params
    requires i < |requests|
  {
    base.(request := requests[i])
  }

  function UnpaidParams(base: Params, requests: seq<Json>, i: nat): Params
    requires i < |requests|
  {
    base.(request := requests[i], authorization := "")
  }

  /** The challenge offered at place i. */
  function OfferAt(sv: Server, base: Params, requests: seq<Json>, times: nat -> Moment, selected: nat, c: Challenge,
                   i: nat): Option<Challenge>
    requires i < |requests|
  {
    if i == selected then Some(c) else Fresh(sv, UnpaidParams(base, requests, i), times(i))
  }

  datatype Charged = NothingCharged | Paid(credential: Credential) | Offered(challenges: seq<Challenge>)

  /** charge, once its offers are built. */
  function Charge(sv: Server, base: Params, requests: seq<Json>, times: nat -> Moment): Charged
    requires requests != []
  {
    SelectInRange(sv.codec, base.authorization, requests);
    var selected := SelectOffer(sv.codec, base.authorization, requests);
    match VerifyOrChallenge(sv, OfferParams(base, requests, selected), times(selected))
    case Failed => NothingCharged
    case Verified(cred) => Paid(cred)
    case Released(c, _) =>
      if forall i :: 0 <= i < |requests| ==> OfferAt(sv, base, requests, times, selected, c, i).Some? then
        Offered(seq(|requests|,
            i requires 0 <= i < |requests| => OfferAt(sv, base, requests, times, selected, c, i).value))
      else NothingCharged
  }

  /** Without a credential the server only issues. */
  lemma {:induction false} UnpaidIsFresh(sv: Server, p: Params, t: Moment)
    requires p.authorization == ""
    ensures VerifyOrChallenge(sv, p, t)
        == if Fresh(sv, p, t) == None then Failed else Released(Fresh(sv, p, t).value, NotPresented)
  {
  }

  method IssueOffer(sv: Server, params: Params, t: Moment) returns (c: Option<Challenge>)
    requires params.authorization == ""
    ensures c == Fresh(sv, params, t)
  {
    UnpaidIsFresh(sv, params, t);
    var result := DoVerifyOrChallenge(sv, params, t);
    return if result.Released? then Some(result.challenge) else None;
  }

  method ChargeOfferChallenges(sv: Server, base: Params, requests: seq<Json>, times: nat -> Moment, selected: nat,
                               c: Challenge)
    returns (challenges: Option<seq<Challenge>>)
    requires selected < |requests|
    ensures challenges.Some?
        <==> forall i :: 0 <= i < |requests| ==> OfferAt(sv, base, requests, times, selected, c, i).Some?
    ensures challenges.Some? ==> |challenges.value| == |requests|
    ensures challenges.Some? ==> forall i :: 0 <= i < |requests| ==>
      OfferAt(sv, base, requests, times, selected, c, i) == Some(challenges.value[i])
  {
    ghost var expected :=
        seq(|requests|, i requires 0 <= i < |requests| => OfferAt(sv, base, requests, times, selected, c, i));
    var offers := new Challenge[|requests|](_ => c);
    var params := base.(authorization := "");
    var i := 0;
    while i < |requests|
      invariant i <= |requests| && params == base.(authorization := "", request := params.request)
      invariant forall k :: 0 <= k < i ==> expected[k] == Some(offers[k])
    {
      if i != selected {
        params := params.(request := requests[i]);
        var issued := IssueOffer(sv, params, times(i));
        assert expected[i] == issued;
        if issued == None {
          return None;
        }
        offers[i] := issued.value;
      } else {
        offers[i] := c;
      }
      i := i + 1;
    }
    forall k | 0 <= k < |requests| ensures OfferAt(sv, base, requests, times, selected, c, k) == Some(offers[k]) {
      assert expected[k] == Some(offers[k]);
    }
    return Some(offers[..]);
  }

  lemma {:induction false} OfferedIs(sv: Server, base: Params, requests: seq<Json>, times: nat -> Moment, i: nat)
    requires requests != [] && Charge(sv, base, requests, times).Offered? && i < |requests|
    ensures var selected := SelectOffer(sv.codec, base.authorization, requests);
      && selected < |requests| && |Charge(sv, base, requests, times).challenges| == |requests|
      && var r := VerifyOrChallenge(sv, OfferParams(base, requests, selected), times(selected));
      && r.Released?
      && OfferAt(sv, base, requests, times, selected, r.challenge, i)
         == Some(Charge(sv, base, requests, times).challenges[i])
  {
    SelectInRange(sv.codec, base.authorization, requests);
  }

  /** Verifies against the selected offer, then fills in the others. */
  method DoCharge(sv: Server, base: Params, requests: seq<Json>, times: nat -> Moment) returns (r: Charged)
    requires requests != []
    ensures r == Charge(sv, base, requests, times)
  {
    SelectInRange(sv.codec, base.authorization, requests);
    var selected := SelectChargeOffer(sv.codec, base.authorization, requests);
    var result := DoVerifyOrChallenge(sv, base.(request := requests[selected]), times(selected));
    match result {
      case Failed => return NothingCharged;
      case Verified(cred) => return Paid(cred);
      case Released(c, _) =>
        var challenges := ChargeOfferChallenges(sv, base, requests, times, selected, c);
        if challenges == None {
          return NothingCharged;
        }
        r := Offered(challenges.value);
        assert r == Charge(sv, base, requests, times) by {
          assert challenges.value == seq(|requests|, i requires 0 <= i < |requests| =>
            OfferAt(sv, base, requests, times, selected, c, i).value);
        }
    }
  }

  /** Each offered challenge was released for its own request. */
  lemma {:induction false} OfferedHasSpec(sv: Server, base: Params, requests: seq<Json>, times: nat -> Moment,
                                          i: nat) returns (s: Spec)
    requires Sound(sv) && requests != [] && Charge(sv, base, requests, times).Offered? && i < |requests|
    ensures |Charge(sv, base, requests, times).challenges| == |requests|
    ensures ReleasedFor(sv, OfferParams(base, requests, i), Charge(sv, base, requests, times).challenges[i], s)
  {
    OfferedIs(sv, base, requests, times, i);
    if i == SelectOffer(sv.codec, base.authorization, requests) {
      s := ReleasedHasSpec(sv, OfferParams(base, requests, i), times(i));
    } else {
      s := UnpaidHasSpec(sv, base, requests, times(i), i);
    }
  }

  lemma {:induction false} UnpaidHasSpec(sv: Server, base: Params, requests: seq<Json>, t: Moment,
                                         i: nat) returns (s: Spec)
    requires Sound(sv) && i < |requests| && Fresh(sv, UnpaidParams(base, requests, i), t).Some?
    ensures ReleasedFor(sv, OfferParams(base, requests, i), Fresh(sv, UnpaidParams(base, requests, i), t).value, s)
  {
    var p := UnpaidParams(base, requests, i);
    FreshFits(sv, p, t);
    s := FreshSpec(sv, p, t);
    SpecKeepsRoute(sv, p, OfferParams(base, requests, i), s);
  }

  /** The submitted offer is found again, or one whose request is the same JSON. */
  lemma {:induction false} OfferIsSelected(codec: Codec, requests: seq<Json>, i: nat, shown: Presentation)
    requires i < |requests| && shown.Shown?
    requires var echoed := codec.decode(shown.credential.challenge.request);
      echoed.Some? && SameJson(codec, echoed.value, requests[i])
    ensures var j := SelectFor(codec, shown, requests);
      j < |requests| && SameJson(codec, requests[i], requests[j])
  {
    if |requests| >= 2 {
      FirstOfferMatches(codec, codec.decode(shown.credential.challenge.request).value, requests, 0, i);
    }
  }

  lemma {:induction false} SubmittedIsSelected(sv: Server, secret: string, s: Spec, requests: seq<Json>, i: nat,
                                               authorization: string, payload: Json, source: string)
    requires Lossless(sv.codec) && i < |requests| && s.request.Some? && SameJson(sv.codec, s.request.value, requests[i])
    requires var c := NewChallenge(sv.codec, sv.mac, secret, s);
      && c.Some? && FormatChallenge(sv.codec, c.value).Some?
      && Submitted(sv.codec, FormatChallenge(sv.codec, c.value).value, payload, source) == Some(authorization)
    ensures var j := SelectOffer(sv.codec, authorization, requests);
      j < |requests| && SameJson(sv.codec, requests[i], requests[j])
  {
    SubmittedEcho(sv.codec, sv.mac, secret, s, payload, source);
    EchoedHasId(sv, secret, s, Presented(sv.codec, authorization).credential.challenge);
    OfferIsSelected(sv.codec, requests, i, Presented(sv.codec, authorization));
  }

  /**
   Any challenge charge returns, for any number of offers, is accepted when submitted to charge before
   it expires with the same parameters, body and offers.
   */
  lemma {:induction false} ChargeAcceptsOwn(sv: Server, base: Params, requests: seq<Json>, times: nat -> Moment, i: nat,
                                            base': Params, times': nat -> Moment, payload: Json, source: string)
    requires Sound(sv) && requests != [] && i < |requests| && SameRoute(base, base')
    requires Charge(sv, base, requests, times).Offered?
    requires var c := Charge(sv, base, requests, times).challenges[i];
      && FormatChallenge(sv.codec, c).Some?
      && Submitted(sv.codec, FormatChallenge(sv.codec, c).value, payload, source) == Some(base'.authorization)
      && forall j :: 0 <= j < |requests| ==>
           Fresh(sv, OfferParams(base', requests, j), times'(j)).Some? && BeforeExpiry(sv, c.expires, times'(j).now)
    ensures var j := SelectOffer(sv.codec, base'.authorization, requests);
      && j < |requests| && SameJson(sv.codec, requests[i], requests[j])
      && ReachesSettlement(sv, OfferParams(base', requests, j), times'(j))
  {
    var s := OfferedHasSpec(sv, base, requests, times, i);
    SubmittedIsSelected(sv, base.secretKey, s, requests, i, base'.authorization, payload, source);
    var j := SelectOffer(sv.codec, base'.authorization, requests);
    var q := OfferParams(base', requests, j);
    SpecKeepsRoute(sv, OfferParams(base, requests, i), q, s);
    FittingIsAccepted(sv, s, q, times'(j), payload, source);
  }
}
