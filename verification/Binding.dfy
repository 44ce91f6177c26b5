/**
 Challenge IDs: an HMAC over the challenge's fields joined by pipes. The join is injective, so an ID
 speaks for exactly one set of fields.
 */
module Binding {
  import opened Text
  import opened AuthParams
  import opened Challenges

  /** HMAC-SHA256 of a message under a secret key, as base64url text; not interpreted. */
  type Mac = (string, string) -> string

  /** What an ID binds: the request and the metadata in their encoded form, the header as advertised. */
  datatype Bound = Bound(
    realm: string, methodName: string, intent: string, request: string, expires: string, digest: string,
    header: string, metadata: string)

  predicate NoPipe(s: string) {
    '|' !in s
  }

  /** The parts that are joined; the header only when one is advertised. */
  function Parts(b: Bound): seq<string> {
    [b.realm, b.methodName, b.intent, b.request, b.expires, b.digest]
    + (if b.header != "" then [b.header] else []) + [b.metadata]
  }

  function JoinPipes(parts: seq<string>): string {
    if parts == [] then ""
    else if |parts| == 1 then parts[0]
    else parts[0] + ("|" + JoinPipes(parts[1..]))
  }

  function Message(b: Bound): string {
    JoinPipes(Parts(b))
  }

  predicate PipeFree(parts: seq<string>) {
    forall i :: 0 <= i < |parts| ==> NoPipe(parts[i])
  }

  function PipeIndex(s: string): (n: nat)
    ensures n <= |s|
  {
    if s != "" && s[0] != '|' then 1 + PipeIndex(s[1..]) else 0
  }

  lemma {:induction false} PipeReads(part: string, rest: string)
    requires NoPipe(part) && (rest == "" || rest[0] == '|')
    ensures PipeIndex(part + rest) == |part|
    decreases |part|
  {
    if part != "" {
      assert (part + rest)[1..] == part[1..] + rest;
      PipeReads(part[1..], rest);
    } else {
      assert part + rest == rest;
    }
  }

  lemma {:induction false} FirstPart(parts: seq<string>)
    requires parts != [] && PipeFree(parts)
    ensures var s := JoinPipes(parts);
      && s[..PipeIndex(s)] == parts[0]
      && (PipeIndex(s) < |s| <==> |parts| > 1)
      && (|parts| > 1 ==> s[PipeIndex(s) + 1..] == JoinPipes(parts[1..]))
  {
    if |parts| == 1 {
      PipeReads(parts[0], "");
      assert parts[0] + "" == parts[0];
    } else {
      PipeReads(parts[0], "|" + JoinPipes(parts[1..]));
    }
  }

  lemma {:induction false} JoinIsInjective(a: seq<string>, b: seq<string>)
    requires a != [] && b != [] && PipeFree(a) && PipeFree(b) && JoinPipes(a) == JoinPipes(b)
    ensures a == b
    decreases |a|
  {
    FirstPart(a);
    FirstPart(b);
    if |a| == 1 {
    } else {
      JoinIsInjective(a[1..], b[1..]);
    }
    assert a == [a[0]] + a[1..] && b == [b[0]] + b[1..];
  }

  predicate Bindable(b: Bound) {
    && NoPipe(b.realm) && NoPipe(b.methodName) && NoPipe(b.intent) && NoPipe(b.request)
    && NoPipe(b.expires) && NoPipe(b.digest)
    && NoPipe(b.header) && NoPipe(b.metadata)
  }

  /** Two accepted inputs with the same message are the same input. */
  lemma {:induction false} MessageIsInjective(a: Bound, b: Bound)
    requires Bindable(a) && Bindable(b) && Message(a) == Message(b)
    ensures a == b
  {
    JoinIsInjective(Parts(a), Parts(b));
    assert Parts(a)[0] == a.realm && Parts(a)[1] == a.methodName && Parts(a)[2] == a.intent && Parts(a)[3] == a.request
        && Parts(a)[4] == a.expires && Parts(a)[5] == a.digest && Parts(a)[|Parts(a)| - 1] == a.metadata;
    assert |Parts(a)| == if a.header != "" then 8 else 7;
    assert a.header != "" ==> Parts(a)[6] == a.header;
  }

  // ---------- IDs ----------

  /** What a new challenge is made of. */
  datatype Spec = Spec(
    realm: string, methodName: string, intent: string, request: Option<Json>, expires: string, digest: string,
    description: string, meta: Option<Meta>, header: string)

  /** The checked inputs of generateChallengeID; refused when a field holds the delimiter. */
  function BoundOf(codec: Codec, s: Spec): Option<Bound> {
    var header, request := ParseAdvertised(s.header), EncodeRequest(codec, s.request);
    var metadata := if s.meta.Some? then codec.canonical(TextMap(s.meta.value)) else Some("");
    if header == None then None
    else if !PipeFree([s.realm, s.methodName, s.intent, s.expires, s.digest, header.value]) then None
    else if request == None || metadata == None then None
    else Some(Bound(s.realm, s.methodName, s.intent, request.value, s.expires, s.digest, header.value, metadata.value))
  }

  lemma {:induction false} BoundIsBindable(codec: Codec, s: Spec)
    requires Lossless(codec) && BoundOf(codec, s).Some?
    ensures Bindable(BoundOf(codec, s).value)
  {
    var b := BoundOf(codec, s).value;
    var fields := [s.realm, s.methodName, s.intent, s.expires, s.digest, b.header];
    assert PipeFree(fields);
    assert NoPipe(fields[0]) && NoPipe(fields[1]) && NoPipe(fields[2]) && NoPipe(fields[3]) && NoPipe(fields[4])
        && NoPipe(fields[5]);
    assert IsBase64Url(b.request);
    assert NoPipe(b.request) by {
      assert !IsKeyChar('|');
    }
    if s.meta.Some? {
      assert IsBase64Url(b.metadata);
      assert NoPipe(b.metadata) by {
        assert !IsKeyChar('|');
      }
    }
  }

  /** NewChallengeWithError. */
  function NewChallenge(codec: Codec, mac: Mac, secret: string, s: Spec): Option<Challenge> {
    var b := BoundOf(codec, s);
    if b == None then None
    else Some(Challenge(
      mac(secret, Message(b.value)), s.methodName, s.intent, s.request, s.realm, b.value.request, s.digest, s.expires,
      s.description, s.meta, "", Advertised(s.header)))
  }
}
