/**
 Challenges and credentials on the wire: printing and parsing a challenge, echoing it, and carrying
 the echo in a credential.
 */
module Challenges {
  import opened Text
  import opened AuthParams
  import ChargeRequest

  type Value = ChargeRequest.Value
  type Json = map<string, Value>
  type Meta = map<string, string>

  const MAX_HEADER := 16 * 1024
  const MAX_AUTHORIZATION := 64 * 1024
  const HEADER_AUTHORIZATION := "Authorization"

  /**
   JSON and base64url, uninterpreted: the canonical and the stable encoding of an object, their
   common decoder, what decoding makes of the values of an encoded object, and the text of a value
   that is not a string.
   */
  datatype Codec = Codec(
    canonical: Json -> Option<string>, stable: Json -> Option<string>, decode: string -> Option<Json>,
    plain: Json -> Json, show: Value -> string)

  function TextMap(meta: Meta): Json {
    map k | k in meta :: ChargeRequest.Text(meta[k])
  }

  function AnyStr(codec: Codec, v: Value): string {
    match v case Text(s) => s case Null => "" case _ => codec.show(v)
  }

  function MetaOf(codec: Codec, m: Json): Meta {
    map k | k in m :: AnyStr(codec, m[k])
  }

  predicate IsBase64Url(s: string) {
    s != "" && forall i :: 0 <= i < |s| ==> IsKeyChar(s[i])
  }

  /** What the theorems need of JSON and base64url; valid UTF-8 text is presumed. */
  ghost predicate Lossless(codec: Codec) {
    && (forall m {:trigger codec.canonical(m)} :: codec.canonical(m).Some? ==>
          var e := codec.canonical(m).value;
          IsBase64Url(e) && codec.decode(e).Some? && codec.canonical(codec.decode(e).value) == Some(e))
    && (forall meta {:trigger TextMap(meta)} ::
          && codec.canonical(TextMap(meta)).Some?
          && codec.decode(codec.canonical(TextMap(meta)).value) == Some(TextMap(meta)))
    && (forall dict, payload, source {:trigger CredentialMap(dict, payload, source)} ::
          var e := codec.stable(CredentialMap(dict, payload, source));
          e.Some? ==>
            && IsBase64Url(e.value)
            && codec.decode(e.value) == Some(CredentialMap(dict, codec.plain(payload), source)))
    && (forall meta {:trigger TextMap(meta)} :: codec.plain(TextMap(meta)) == TextMap(meta))
  }

  // ---------- header names ----------

  predicate IsMethodName(s: string) {
    s != "" && forall i :: 0 <= i < |s| ==> 'a' <= s[i] <= 'z'
  }

  predicate IsHeaderName(s: string) {
    s != "" && forall i :: 0 <= i < |s| ==> IsTokenChar(s[i])
  }

  /** AdvertisedCredentialHeader: Authorization is the default and is never named. */
  function Advertised(header: string): string {
    if header == "" || EqualFold(header, HEADER_AUTHORIZATION) then "" else header
  }

  function ParseAdvertised(header: string): Option<string> {
    var h := Advertised(header);
    if h == "" || IsHeaderName(h) then Some(h) else None
  }

  // ---------- challenges ----------

  datatype Challenge = Challenge(
    id: string, methodName: string, intent: string, request: Option<Json>, realm: string, requestB64: string,
    digest: string, expires: string, description: string, meta: Option<Meta>, metaB64: string, header: string)

  function EncodeRequest(codec: Codec, request: Option<Json>): Option<string> {
    codec.canonical(if request.Some? then request.value else map[])
  }

  /** opaqueEncodes: as many entries, and every one agrees. */
  predicate OpaqueEncodes(codec: Codec, meta: Meta, encoded: string) {
    codec.decode(encoded).Some? && MetaOf(codec, codec.decode(encoded).value) == meta
  }

  function WireOpaque(codec: Codec, meta: Meta, encoded: string): Option<string> {
    if encoded != "" && OpaqueEncodes(codec, meta, encoded) then Some(encoded) else codec.canonical(TextMap(meta))
  }

  /** preservedOpaqueB64. */
  function PreservedOpaque(codec: Codec, meta: Meta, encoded: string): string {
    if encoded == "" then ""
    else if "_raw" !in meta && codec.canonical(TextMap(meta)) == Some(encoded) then ""
    else encoded
  }

  const NAMES := ["id", "realm", "method", "intent", "request", "digest", "expires", "description", "header", "opaque"]

  function Values(c: Challenge, requestB64: string, meta: string): seq<string> {
    [c.id, c.realm, c.methodName, c.intent, requestB64, c.digest, c.expires, c.description, Advertised(c.header), meta]
  }

  function AllParams(values: seq<string>): seq<Param>
    requires |values| == |NAMES|
  {
    seq(|NAMES|, i requires 0 <= i < |NAMES| => Param(NAMES[i], values[i]))
  }

  /** Empty values are left out. */
  function NonEmpty(params: seq<Param>): seq<Param> {
    if params == [] then []
    else (if params[0].value == "" then [] else [params[0]]) + NonEmpty(params[1..])
  }

  /** The request parameter as it goes on the wire. */
  function WireRequest(codec: Codec, c: Challenge): Option<string> {
    if c.requestB64 == "" then EncodeRequest(codec, c.request)
    else if codec.decode(c.requestB64).Some? then Some(c.requestB64)
    else None
  }

  /** The opaque parameter, empty when there is none. */
  function OpaqueParam(codec: Codec, c: Challenge): Option<string> {
    if c.meta == None then Some("") else WireOpaque(codec, c.meta.value, c.metaB64)
  }

  /** FormatChallenge. */
  function FormatChallenge(codec: Codec, c: Challenge): Option<string> {
    var request, meta := WireRequest(codec, c), OpaqueParam(codec, c);
    if ParseAdvertised(c.header) == None || request == None || meta == None then None
    else
      var values := Values(c, request.value, meta.value);
      var text := ChallengeText(NonEmpty(AllParams(values)));
      if c.id == "" || c.realm == "" || c.methodName == "" || c.intent == "" || request.value == "" then None
      else if !IsMethodName(c.methodName) || exists i :: 0 <= i < |values| && !NoBreaks(values[i]) then None
      else if |text| > MAX_HEADER then None
      else Some(text)
  }

  function Get(params: Meta, name: string): string {
    if name in params then params[name] else ""
  }

  /** strings.Cut at the first space. */
  function SpaceIndex(s: string): (n: nat)
    ensures n <= |s|
  {
    if s != "" && s[0] != ' ' then 1 + SpaceIndex(s[1..]) else 0
  }

  /** The token after the scheme name, when the scheme is Payment. */
  function AfterScheme(header: string): Option<string> {
    var n := SpaceIndex(header);
    if n < |header| && EqualFold(header[..n], SCHEME_PAYMENT) then Some(header[n + 1..]) else None
  }

  /** ParseChallenge. */
  function ParseChallenge(codec: Codec, text: string): Option<Challenge> {
    var header := Trim(text);
    var rest := AfterScheme(header);
    if |header| > MAX_HEADER || rest == None then None
    else
      match ParseParams(rest.value, map[])
      case None => None
      case Some(params) => ChallengeOf(codec, params)
  }

  function ChallengeOf(codec: Codec, params: Meta): Option<Challenge> {
    var request, header := codec.decode(Get(params, "request")), ParseAdvertised(Get(params, "header"));
    var metaB64 := Get(params, "opaque");
    if Get(params, "id") == "" || Get(params, "realm") == "" || Get(params, "method") == ""
       || Get(params, "intent") == "" || Get(params, "request") == "" || !IsMethodName(Get(params, "method"))
       || request == None || header == None then None
    else if metaB64 != "" && codec.decode(metaB64) == None then None
    else
      var meta := if metaB64 == "" then None else Some(MetaOf(codec, codec.decode(metaB64).value));
      Some(Challenge(
        Get(params, "id"), Get(params, "method"), Get(params, "intent"), request, Get(params, "realm"),
        Get(params, "request"),
        Get(params, "digest"), Get(params, "expires"), Get(params, "description"), meta,
        if meta == None then "" else PreservedOpaque(codec, meta.value, metaB64), header.value))
  }

  // ---------- credentials ----------

  datatype Echo = Echo(
    id: string, realm: string, methodName: string, intent: string, request: string, expires: string, digest: string,
    meta: Option<Meta>, header: string, metaB64: string)

  datatype Credential = Credential(challenge: Echo, payload: Json, source: string)

  /** Challenge.ToEcho. */
  function ToEcho(codec: Codec, c: Challenge): Echo {
    var encoded := EncodeRequest(codec, c.request);
    Echo(c.id, c.realm, c.methodName, c.intent,
         if c.requestB64 != "" then c.requestB64 else if encoded.Some? then encoded.value else "",
         c.expires, c.digest, c.meta, Advertised(c.header), c.metaB64)
  }

  /** The JSON object of a credential. */
  function CredentialMap(dict: Meta, payload: Json, source: string): Json {
    var m: Json := map["challenge" := ChargeRequest.Object(TextMap(dict)), "payload" := ChargeRequest.Object(payload)];
    if source == "" then m else m["source" := ChargeRequest.Text(source)]
  }

  function With(m: Meta, key: string, value: string): Meta {
    if value == "" then m else m[key := value]
  }

  /** The opaque text of an echo: the issuer's encoding, a raw text, or the canonical encoding. */
  function EchoedOpaque(codec: Codec, e: Echo): Option<string>
    requires e.meta.Some?
  {
    if e.metaB64 != "" && OpaqueEncodes(codec, e.meta.value, e.metaB64) then Some(e.metaB64)
    else if "_raw" in e.meta.value then Some(e.meta.value["_raw"])
    else codec.canonical(TextMap(e.meta.value))
  }

  function EchoBase(e: Echo): Meta {
    With(With(With(
      map["id" := e.id, "realm" := e.realm, "method" := e.methodName, "intent" := e.intent, "request" := e.request],
      "expires", e.expires), "digest", e.digest), "header", Advertised(e.header))
  }

  function EchoDict(codec: Codec, e: Echo): Option<Meta> {
    if e.meta == None then Some(EchoBase(e))
    else
      var text := EchoedOpaque(codec, e);
      if text == None then None else Some(EchoBase(e)["opaque" := text.value])
  }

  /** FormatCredential. */
  function FormatCredential(codec: Codec, cred: Credential): Option<string> {
    var e := cred.challenge;
    var dict := EchoDict(codec, e);
    if e.id == "" || !IsMethodName(e.methodName) || e.intent == "" || e.request == ""
       || ParseAdvertised(e.header) == None || dict == None then None
    else
      var encoded := codec.stable(CredentialMap(dict.value, cred.payload, cred.source));
      if encoded == None || |SCHEME_PAYMENT + (" " + encoded.value)| > MAX_AUTHORIZATION then None
      else Some(SCHEME_PAYMENT + (" " + encoded.value))
  }

  /** The Payment values among the parts of a merged header. */
  function PaymentParts(parts: seq<string>): seq<string> {
    if parts == [] then []
    else (if AfterScheme(Trim(parts[0])).Some? then [Trim(parts[0])] else []) + PaymentParts(parts[1..])
  }

  /** FindPaymentAuthorizationStrict: None when the header is too long or holds two Payment values. */
  function FindPayment(header: string): Option<string> {
    if |header| > MAX_AUTHORIZATION then None
    else
      var found := PaymentParts(Split(header));
      if |found| > 1 then None else if found == [] then Some("") else Some(found[0])
  }

  function Lookup(m: Json, key: string): Value {
    if key in m then m[key] else ChargeRequest.Null
  }

  /** ParseCredential. */
  function ParseCredential(codec: Codec, text: string): Option<Credential> {
    var found := FindPayment(text);
    if found == None || AfterScheme(found.value) == None then None
    else
      match codec.decode(Trim(AfterScheme(found.value).value))
      case None => None
      case Some(data) => CredentialOf(codec, data)
  }

  function CredentialOf(codec: Codec, data: Json): Option<Credential> {
    var dict, payload := Lookup(data, "challenge"), Lookup(data, "payload");
    if !dict.Object? || !payload.Object? then None
    else
      match EchoOf(codec, dict.fields)
      case None => None
      case Some(echo) => Some(Credential(echo, payload.fields, AnyStr(codec, Lookup(data, "source"))))
  }

  function EchoOf(codec: Codec, dict: Json): Option<Echo> {
    var text := (key: string) => AnyStr(codec, Lookup(dict, key));
    var header, found := ParseAdvertised(text("header")), Lookup(dict, "opaque");
    if header == None || text("id") == "" || !IsMethodName(text("method")) || text("intent") == ""
        || text("request") == "" then None
    else if found.Text? && codec.decode(found.text) == None then None
    else
      var meta :=
        if found.Text? then Some(MetaOf(codec, codec.decode(found.text).value))
        else if found.Object? then Some(MetaOf(codec, found.fields))
        else None;
      Some(Echo(text("id"), text("realm"), text("method"), text("intent"), text("request"), text("expires"),
                text("digest"), meta, header.value,
                if found.Text? then PreservedOpaque(codec, meta.value, found.text) else ""))
  }

  // ---------- what is refused ----------

  /** The params a challenge is parsed from: all it must have, and nothing that does not decode. */
  predicate Complete(codec: Codec, params: Meta) {
    && Get(params, "id") != "" && Get(params, "realm") != "" && IsMethodName(Get(params, "method"))
    && Get(params, "intent") != "" && Get(params, "request") != ""
    && codec.decode(Get(params, "request")).Some? && ParseAdvertised(Get(params, "header")).Some?
    && (Get(params, "opaque") != "" ==> codec.decode(Get(params, "opaque")).Some?)
  }

  /** A challenge is parsed exactly from complete params, and carries them as they are. */
  lemma {:induction false} ParsedCarriesParams(codec: Codec, params: Meta)
    ensures ChallengeOf(codec, params).Some? <==> Complete(codec, params)
    ensures ChallengeOf(codec, params).Some? ==>
      var c := ChallengeOf(codec, params).value;
      && c.id == Get(params, "id") && c.realm == Get(params, "realm") && c.methodName == Get(params, "method")
      && c.intent == Get(params, "intent") && c.requestB64 == Get(params, "request")
      && c.request == codec.decode(Get(params, "request")) && c.digest == Get(params, "digest")
      && c.expires == Get(params, "expires") && c.description == Get(params, "description")
      && Some(c.header) == ParseAdvertised(Get(params, "header"))
      && (c.meta.None? <==> Get(params, "opaque") == "")
  {
    assert !IsMethodName("");
  }

  // ---------- a printed challenge parses back ----------

  predicate Apart(params: seq<Param>) {
    forall i, j :: 0 <= i < j < |params| ==> params[i].name != params[j].name
  }

  lemma {:induction false} NamesAreApart()
    ensures forall i :: 0 <= i < |NAMES| ==> IsName(NAMES[i])
    ensures forall i, j :: 0 <= i < j < |NAMES| ==> NAMES[i] != NAMES[j]
  {
    forall i | 0 <= i < |NAMES| ensures IsName(NAMES[i]) {
      LowerPointwise(NAMES[i]);
      assert forall k :: 0 <= k < |NAMES[i]| ==> 'a' <= NAMES[i][k] <= 'z';
    }
    forall i, j | 0 <= i < j < |NAMES| ensures NAMES[i] != NAMES[j] {
      assert |NAMES[i]| != |NAMES[j]| || NAMES[i][0] != NAMES[j][0];
    }
  }

  /** A name keeps its value through params that do not mention it. */
  lemma {:induction false} OthersKeep(params: seq<Param>, acc: Meta, name: string)
    requires forall i :: 0 <= i < |params| ==> params[i].name != name
    ensures Get(ParamsMap(NonEmpty(params), acc), name) == Get(acc, name)
    decreases |params|
  {
    if params == [] {
    } else {
      var acc' := if params[0].value == "" then acc else acc[params[0].name := params[0].value];
      OthersKeep(params[1..], acc', name);
      NonEmptyUnfolds(params, acc);
    }
  }

  lemma {:induction false} NonEmptyUnfolds(params: seq<Param>, acc: Meta)
    requires params != []
    ensures ParamsMap(NonEmpty(params), acc)
         == ParamsMap(NonEmpty(params[1..]),
                      if params[0].value == "" then acc else acc[params[0].name := params[0].value])
  {
    if params[0].value == "" {
      assert NonEmpty(params) == NonEmpty(params[1..]);
    } else {
      assert NonEmpty(params)[1..] == NonEmpty(params[1..]);
    }
  }

  /** Each name reads as its value, an omitted one as empty. */
  lemma {:induction false} EachReads(params: seq<Param>, acc: Meta, i: nat)
    requires Apart(params) && i < |params| && forall k :: 0 <= k < |params| ==> params[k].name !in acc
    ensures Get(ParamsMap(NonEmpty(params), acc), params[i].name) == params[i].value
    decreases |params|
  {
    var tail := params[1..];
    var acc' := if params[0].value == "" then acc else acc[params[0].name := params[0].value];
    NonEmptyUnfolds(params, acc);
    if i == 0 {
      OthersKeep(tail, acc', params[0].name);
    } else {
      EachReads(tail, acc', i - 1);
    }
  }

  lemma {:induction false} NonEmptyIsDistinct(params: seq<Param>, seen: set<string>)
    requires Apart(params) && forall k :: 0 <= k < |params| ==> params[k].name !in seen
    ensures Distinct(NonEmpty(params), seen)
    ensures forall p :: p in NonEmpty(params) ==> p in params
    decreases |params|
  {
    if params == [] {
    } else {
      var p, tail := params[0], params[1..];
      if p.value == "" {
        NonEmptyIsDistinct(tail, seen);
        assert NonEmpty(params) == NonEmpty(tail);
      } else {
        NonEmptyIsDistinct(tail, seen + {p.name});
        assert NonEmpty(params)[1..] == NonEmpty(tail);
      }
    }
  }

  /** What ParseParams makes of the printed values. */
  lemma {:induction false} ValuesRead(values: seq<string>)
    requires |values| == |NAMES| && forall i :: 0 <= i < |values| ==> NoBreaks(values[i])
    ensures var r := ParseParams(PrintParams(NonEmpty(AllParams(values))), map[]);
      r.Some? && forall i :: 0 <= i < |NAMES| ==> Get(r.value, NAMES[i]) == values[i]
  {
    var all := AllParams(values);
    NamesAreApart();
    assert Apart(all);
    NonEmptyIsDistinct(all, {});
    var params := NonEmpty(all);
    forall i | 0 <= i < |params| ensures Printable(params[i]) {
      assert params[i] in all;
    }
    var none: Meta := map[];
    assert none.Keys == {};
    ParamsRoundTrip(params, none);
    forall i | 0 <= i < |NAMES| ensures Get(ParamsMap(params, none), NAMES[i]) == values[i] {
      EachReads(all, none, i);
      assert all[i].name == NAMES[i];
    }
  }

  lemma {:induction false} SpaceReads(word: string, rest: string)
    requires ' ' !in word
    ensures SpaceIndex(word + (" " + rest)) == |word|
    decreases |word|
  {
    if word != "" {
      assert (word + (" " + rest))[1..] == word[1..] + (" " + rest);
      SpaceReads(word[1..], rest);
    } else {
      assert word + (" " + rest) == " " + rest;
    }
  }

  lemma {:induction false} SchemeReads(rest: string)
    ensures AfterScheme(SCHEME_PAYMENT + (" " + rest)) == Some(rest)
  {
    var h := SCHEME_PAYMENT + (" " + rest);
    SpaceReads(SCHEME_PAYMENT, rest);
    assert h[..7] == SCHEME_PAYMENT && h[8..] == rest;
  }

  /** The fields a challenge keeps on the wire. */
  predicate SameFields(codec: Codec, c: Challenge, r: Challenge) {
    && r.id == c.id && r.realm == c.realm && r.methodName == c.methodName && r.intent == c.intent
    && r.digest == c.digest && r.expires == c.expires && r.description == c.description
    && r.header == Advertised(c.header) && Some(r.requestB64) == WireRequest(codec, c)
    && r.request == codec.decode(r.requestB64) && r.meta == c.meta
    && (r.meta.Some? ==> WireOpaque(codec, r.meta.value, r.metaB64) == WireOpaque(codec, c.meta.value, c.metaB64))
  }

  /** The opaque parameter decodes to the metadata, and encodes back to itself. */
  lemma {:induction false} OpaqueReads(codec: Codec, meta: Meta, metaB64: string)
    requires Lossless(codec)
    ensures WireOpaque(codec, meta, metaB64).Some?
    ensures var wire := WireOpaque(codec, meta, metaB64).value;
      && wire != "" && OpaqueEncodes(codec, meta, wire)
      && WireOpaque(codec, meta, PreservedOpaque(codec, meta, wire)) == Some(wire)
      && ("_raw" in meta ==> PreservedOpaque(codec, meta, wire) == wire)
  {
    assert codec.canonical(TextMap(meta)).Some?;
    assert MetaOf(codec, TextMap(meta)) == meta;
  }

  lemma {:induction false} WireRequestReads(codec: Codec, c: Challenge)
    requires Lossless(codec) && WireRequest(codec, c).Some?
    ensures codec.decode(WireRequest(codec, c).value).Some?
  {
    if c.requestB64 == "" {
      assert codec.canonical(if c.request.Some? then c.request.value else map[]).Some?;
    }
  }

  lemma {:induction false} ParamsGiveChallenge(codec: Codec, c: Challenge, params: Meta)
    requires Lossless(codec) && FormatChallenge(codec, c).Some?
    requires var values := Values(c, WireRequest(codec, c).value, OpaqueParam(codec, c).value);
      forall i :: 0 <= i < |NAMES| ==> Get(params, NAMES[i]) == values[i]
    ensures ChallengeOf(codec, params).Some? && SameFields(codec, c, ChallengeOf(codec, params).value)
  {
    WireRequestReads(codec, c);
    if c.meta.Some? {
      OpaqueReads(codec, c.meta.value, c.metaB64);
    }
    assert Get(params, NAMES[0]) == c.id && Get(params, NAMES[1]) == c.realm && Get(params, NAMES[2]) == c.methodName;
    assert Get(params, NAMES[3]) == c.intent && Get(params, NAMES[4]) == WireRequest(codec, c).value;
    assert Get(params, NAMES[5]) == c.digest && Get(params, NAMES[6]) == c.expires
        && Get(params, NAMES[7]) == c.description;
    assert Get(params, NAMES[8]) == Advertised(c.header) && Get(params, NAMES[9]) == OpaqueParam(codec, c).value;
  }

  lemma {:induction false} FormattedText(codec: Codec, c: Challenge)
    requires FormatChallenge(codec, c).Some?
    ensures var values := Values(c, WireRequest(codec, c).value, OpaqueParam(codec, c).value);
      && (forall i :: 0 <= i < |values| ==> NoBreaks(values[i]))
      && FormatChallenge(codec, c) == Some(ChallengeText(NonEmpty(AllParams(values))))
      && NonEmpty(AllParams(values)) != [] && Named(NonEmpty(AllParams(values)))
  {
    var all := AllParams(Values(c, WireRequest(codec, c).value, OpaqueParam(codec, c).value));
    NamesAreApart();
    NonEmptyIsDistinct(all, {});
    forall i | 0 <= i < |NonEmpty(all)| ensures IsName(NonEmpty(all)[i].name) {
      assert NonEmpty(all)[i] in all;
    }
    assert all[0].value != "";
  }

  /** Every challenge that can be printed parses back to the same fields. */
  lemma {:induction false} ChallengeRoundTrip(codec: Codec, c: Challenge)
    requires Lossless(codec) && FormatChallenge(codec, c).Some?
    ensures var r := ParseChallenge(codec, FormatChallenge(codec, c).value); r.Some? && SameFields(codec, c, r.value)
  {
    var values := Values(c, WireRequest(codec, c).value, OpaqueParam(codec, c).value);
    var params := NonEmpty(AllParams(values));
    FormattedText(codec, c);
    ChallengeIsSolid(params);
    SolidIsTrimmed(ChallengeText(params));
    SchemeReads(PrintParams(params));
    ValuesRead(values);
    ParamsGiveChallenge(codec, c, ParseParams(PrintParams(params), map[]).value);
  }

  /** And a merged header of printed challenges splits into exactly those. */
  lemma {:induction false} FormattedChallengesSplit(codec: Codec, challenges: seq<Challenge>, texts: seq<string>,
                                                    separator: string)
    requires challenges != [] && |texts| == |challenges| && IsSeparator(separator)
    requires forall i :: 0 <= i < |challenges| ==> FormatChallenge(codec, challenges[i]) == Some(texts[i])
    ensures Split(JoinTexts(texts, separator)) == texts
  {
    var lists := seq(|challenges|, i requires 0 <= i < |challenges| =>
      NonEmpty(AllParams(Values(challenges[i], WireRequest(codec, challenges[i]).value,
          OpaqueParam(codec, challenges[i]).value))));
    forall i | 0 <= i < |challenges| ensures Named(lists[i]) && ChallengeText(lists[i]) == texts[i] {
      FormattedText(codec, challenges[i]);
    }
    JoinTextsIsJoined(lists, texts, separator);
    SplitUndoesJoin(lists, separator);
  }

  /** strings.Join. */
  function JoinTexts(texts: seq<string>, separator: string): string {
    if texts == [] then ""
    else texts[0] + (if |texts| == 1 then "" else separator + JoinTexts(texts[1..], separator))
  }

  lemma {:induction false} JoinTextsIsJoined(lists: seq<seq<Param>>, texts: seq<string>, separator: string)
    requires |lists| == |texts| && forall i :: 0 <= i < |lists| ==> ChallengeText(lists[i]) == texts[i]
    ensures JoinTexts(texts, separator) == Joined(lists, separator)
    decreases |lists|
  {
    if lists == [] {
    } else {
      JoinTextsIsJoined(lists[1..], texts[1..], separator);
    }
  }

  // ---------- a credential carries its echo back ----------

  lemma {:induction false} TextReads(codec: Codec, dict: Meta, key: string)
    ensures AnyStr(codec, Lookup(TextMap(dict), key)) == Get(dict, key)
    ensures Lookup(TextMap(dict), key) == if key in dict then ChargeRequest.Text(dict[key]) else ChargeRequest.Null
  {
  }

  lemma {:induction false} BaseReads(e: Echo)
    ensures var m := EchoBase(e);
      && Get(m, "id") == e.id && Get(m, "realm") == e.realm && Get(m, "method") == e.methodName
      && Get(m, "intent") == e.intent
      && Get(m, "request") == e.request && Get(m, "expires") == e.expires && Get(m, "digest") == e.digest
      && Get(m, "header") == Advertised(e.header) && "opaque" !in m
  {
    var m0: Meta := map[
      "id" := e.id, "realm" := e.realm, "method" := e.methodName, "intent" := e.intent, "request" := e.request];
    var m1 := With(m0, "expires", e.expires);
    var m2 := With(m1, "digest", e.digest);
    assert m0.Keys == {"id", "realm", "method", "intent", "request"};
    assert "expires" !in m0 && "digest" !in m1 && "header" !in m2;
  }

  /**
   The echo's metadata goes out in an encoding that decodes to it: the issuer's, as when the echo was
   parsed from a challenge, or for metadata with a "_raw" entry that text.
   */
  predicate Faithful(codec: Codec, e: Echo) {
    e.meta.Some? && "_raw" in e.meta.value ==>
      || (e.metaB64 != "" && OpaqueEncodes(codec, e.meta.value, e.metaB64))
      || OpaqueEncodes(codec, e.meta.value, e.meta.value["_raw"])
  }

  predicate SameEcho(e: Echo, r: Echo) {
    && r.id == e.id && r.realm == e.realm && r.methodName == e.methodName && r.intent == e.intent
    && r.request == e.request
    && r.expires == e.expires && r.digest == e.digest && r.meta == e.meta && r.header == Advertised(e.header)
  }

  lemma {:induction false} FaithfulOpaque(codec: Codec, e: Echo)
    requires Lossless(codec) && e.meta.Some? && EchoedOpaque(codec, e).Some?
    ensures Faithful(codec, e) <==> OpaqueEncodes(codec, e.meta.value, EchoedOpaque(codec, e).value)
  {
    OpaqueReads(codec, e.meta.value, e.metaB64);
  }

  lemma {:induction false} EchoReads(codec: Codec, e: Echo)
    requires Lossless(codec) && EchoDict(codec, e).Some?
    requires e.id != "" && IsMethodName(e.methodName) && e.intent != "" && e.request != ""
    requires ParseAdvertised(e.header).Some?
    ensures var r := EchoOf(codec, TextMap(EchoDict(codec, e).value));
      r.Some? && SameEcho(e, r.value) <==> Faithful(codec, e)
  {
    var dict := EchoDict(codec, e).value;
    BaseReads(e);
    EchoTexts(codec, e, dict);
    assert Advertised(Advertised(e.header)) == Advertised(e.header);
    if e.meta == None {
      assert dict == EchoBase(e);
      assert EchoOf(codec, TextMap(dict)).value.meta == None;
    } else {
      FaithfulOpaque(codec, e);
      assert dict == EchoBase(e)["opaque" := EchoedOpaque(codec, e).value];
      assert Lookup(TextMap(dict), "opaque") == ChargeRequest.Text(EchoedOpaque(codec, e).value);
    }
  }

  lemma {:induction false} EchoTexts(codec: Codec, e: Echo, dict: Meta)
    requires dict == EchoBase(e) || ("opaque" in dict && dict == EchoBase(e)["opaque" := dict["opaque"]])
    ensures var text := (key: string) => AnyStr(codec, Lookup(TextMap(dict), key));
      && text("id") == e.id && text("realm") == e.realm && text("method") == e.methodName && text("intent") == e.intent
      && text("request") == e.request && text("expires") == e.expires && text("digest") == e.digest
      && text("header") == Advertised(e.header)
  {
    BaseReads(e);
    TextReads(codec, dict, "id");
    TextReads(codec, dict, "realm");
    TextReads(codec, dict, "method");
    TextReads(codec, dict, "intent");
    TextReads(codec, dict, "request");
    TextReads(codec, dict, "expires");
    TextReads(codec, dict, "digest");
    TextReads(codec, dict, "header");
  }

  /** A header without commas and quotes is one part. */
  lemma {:induction false} PlainHeaderIsOnePart(h: string)
    requires ',' !in h && '"' !in h && h != "" && Trim(h) == h
    ensures Split(h) == [h]
  {
    assert h + "" == h && "" + h == h;
    PlainScans("", h, "");
  }

  lemma {:induction false} TokenHeader(b64: string)
    requires IsBase64Url(b64)
    ensures var h := SCHEME_PAYMENT + (" " + b64);
      Trim(h) == h && Trim(b64) == b64 && Split(h) == [h] && AfterScheme(h) == Some(b64)
  {
    var h := SCHEME_PAYMENT + (" " + b64);
    SchemeReads(b64);
    assert IsKeyChar(b64[0]) && IsKeyChar(b64[|b64| - 1]) && h[|h| - 1] == b64[|b64| - 1];
    assert ',' !in h && '"' !in h by {
      assert forall i :: 0 <= i < |b64| ==> IsKeyChar(b64[i]);
    }
    PlainHeaderIsOnePart(h);
  }

  lemma {:induction false} FoundInTokenHeader(b64: string)
    requires IsBase64Url(b64) && |SCHEME_PAYMENT + (" " + b64)| <= MAX_AUTHORIZATION
    ensures FindPayment(SCHEME_PAYMENT + (" " + b64)) == Some(SCHEME_PAYMENT + (" " + b64))
  {
    var h := SCHEME_PAYMENT + (" " + b64);
    TokenHeader(b64);
    assert [h][1..] == [] && PaymentParts([h]) == [h];
  }

  lemma {:induction false} CredentialMapReads(codec: Codec, dict: Meta, payload: Json, source: string)
    ensures CredentialOf(codec, CredentialMap(dict, payload, source)) ==
      match EchoOf(codec, TextMap(dict)) case None => None case Some(echo) => Some(Credential(echo, payload, source))
  {
    var m := CredentialMap(dict, payload, source);
    assert Lookup(m, "challenge") == ChargeRequest.Object(TextMap(dict));
    assert Lookup(m, "payload") == ChargeRequest.Object(payload);
    assert AnyStr(codec, Lookup(m, "source")) == source;
  }

  lemma {:induction false} TokenParses(codec: Codec, b64: string)
    requires IsBase64Url(b64) && |SCHEME_PAYMENT + (" " + b64)| <= MAX_AUTHORIZATION && codec.decode(b64).Some?
    ensures ParseCredential(codec, SCHEME_PAYMENT + (" " + b64)) == CredentialOf(codec, codec.decode(b64).value)
  {
    TokenHeader(b64);
    FoundInTokenHeader(b64);
  }

  /**
   Every credential that can be printed is found in its header, and parses back to the same one, its
   payload as JSON has it, exactly if its metadata is echoed in an encoding that decodes to it.
   */
  lemma {:induction false} CredentialRoundTrip(codec: Codec, cred: Credential)
    requires Lossless(codec) && FormatCredential(codec, cred).Some?
    ensures var h := FormatCredential(codec, cred).value;
      && FindPayment(h) == Some(h)
      && var r := ParseCredential(codec, h);
      && (r.Some? && SameEcho(cred.challenge, r.value.challenge) <==> Faithful(codec, cred.challenge))
      && (r.Some? ==> r.value.payload == codec.plain(cred.payload) && r.value.source == cred.source)
  {
    var dict := EchoDict(codec, cred.challenge).value;
    var m := CredentialMap(dict, codec.plain(cred.payload), cred.source);
    var b64 := codec.stable(CredentialMap(dict, cred.payload, cred.source)).value;
    assert IsBase64Url(b64) && codec.decode(b64) == Some(m);
    FoundInTokenHeader(b64);
    TokenParses(codec, b64);
    EchoReads(codec, cred.challenge);
    CredentialMapReads(codec, dict, codec.plain(cred.payload), cred.source);
  }
}
