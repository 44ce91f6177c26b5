/** The 32-byte attribution memo that binds a transfer to a challenge. */
module Attribution {
  import opened Text
  import opened Hex

  const TAG_SIZE := 4
  const VERSION_OFFSET := 4
  const SERVER_OFFSET := 5
  const CLIENT_OFFSET := 15
  const CHALLENGE_OFFSET := 25
  const MEMO_SIZE := 32
  const VERSION: Byte := 1

  /** Keccak-256 is not interpreted: every statement holds for any such function. */
  type Keccak = string -> Digest

  function Tag(keccak: Keccak): (t: seq<Byte>)
    ensures |t| == TAG_SIZE
  {
    keccak("mpp")[..4]
  }

  function Fingerprint(keccak: Keccak, value: string): (f: seq<Byte>)
    ensures |f| == 10
  {
    if value == "" then seq(10, _ => 0) else keccak(value)[..10]
  }

  function ChallengeNonce(keccak: Keccak, challengeID: string): (n: seq<Byte>)
    ensures |n| == 7
  {
    if challengeID == "" then seq(7, _ => 0) else keccak(challengeID)[..7]
  }

  /** The memo's bytes, with any client field. */
  function Layout(keccak: Keccak, serverID: string, client: seq<Byte>, challengeID: string): (m: seq<Byte>)
    requires |client| == 10
    ensures |m| == MEMO_SIZE
  {
    Tag(keccak) + [VERSION] + Fingerprint(keccak, serverID) + client + ChallengeNonce(keccak, challengeID)
  }

  function MemoText(bytes: seq<Byte>): string {
    "0x" + Encode(bytes)
  }

  method EncodeAttribution(keccak: Keccak, serverID: string, clientID: string, challengeID: string)
    returns (memo: string)
    ensures memo == MemoText(Layout(keccak, serverID, Fingerprint(keccak, clientID), challengeID))
  {
    var buf := new Byte[MEMO_SIZE](_ => 0);
    var tag, server := Tag(keccak), Fingerprint(keccak, serverID);
    forall i | 0 <= i < TAG_SIZE { buf[i] := tag[i]; }
    buf[VERSION_OFFSET] := VERSION;
    forall i | 0 <= i < 10 { buf[SERVER_OFFSET + i] := server[i]; }
    if clientID != "" {
      var client := Fingerprint(keccak, clientID);
      forall i | 0 <= i < 10 { buf[CLIENT_OFFSET + i] := client[i]; }
    }
    var nonce := ChallengeNonce(keccak, challengeID);
    forall i | 0 <= i < 7 { buf[CHALLENGE_OFFSET + i] := nonce[i]; }
    assert buf[..] == Layout(keccak, serverID, Fingerprint(keccak, clientID), challengeID);
    memo := MemoText(buf[..]);
  }

  predicate IsAttributionMemo(keccak: Keccak, memo: string) {
    var m := Bare(memo);
    |m| == 2 * MEMO_SIZE && IsHex(m)
    && var raw := Decode(m).value;
    raw[..TAG_SIZE] == Tag(keccak) && raw[VERSION_OFFSET] == VERSION
  }

  predicate VerifyAttributionServer(keccak: Keccak, memo: string, serverID: string) {
    var m := Bare(memo);
    IsAttributionMemo(keccak, m) && Decode(m).Some?
    && |Decode(m).value| >= CLIENT_OFFSET
    && Decode(m).value[SERVER_OFFSET..CLIENT_OFFSET] == Fingerprint(keccak, serverID)
  }

  predicate VerifyAttributionChallenge(keccak: Keccak, memo: string, challengeID: string) {
    var m := Bare(memo);
    IsAttributionMemo(keccak, m) && challengeID != "" && Decode(m).Some?
    && |Decode(m).value| >= MEMO_SIZE
    && Decode(m).value[CHALLENGE_OFFSET..MEMO_SIZE] == ChallengeNonce(keccak, challengeID)
  }

  /** Only the folded spelling of a memo matters. */
  lemma {:induction false} FoldedMemo(keccak: Keccak, a: string, b: string, realm: string, id: string)
    requires EqualFold(a, b)
    ensures IsAttributionMemo(keccak, a) == IsAttributionMemo(keccak, b)
    ensures VerifyAttributionServer(keccak, a, realm) == VerifyAttributionServer(keccak, b, realm)
    ensures VerifyAttributionChallenge(keccak, a, id) == VerifyAttributionChallenge(keccak, b, id)
  {
  }

  lemma {:induction false} BareMemoText(bytes: seq<Byte>)
    requires |bytes| == MEMO_SIZE
    ensures Bare(MemoText(bytes)) == Encode(bytes) && Bare(Encode(bytes)) == Encode(bytes)
    ensures Decode(Encode(bytes)) == Some(bytes) && |Encode(bytes)| == 64 && IsHex(Encode(bytes))
  {
    var e := Encode(bytes);
    DecodeEncode(bytes);
    EncodeIsLower(bytes);
    LowerConcat("0x", e);
    LowerPointwise("0x");
    assert Lower("0x") == "0x";
    assert Lower(MemoText(bytes))[2..] == e;
    assert IsHexDigit(e[1]) && e[1] != 'x';
  }

  lemma {:induction false} LayoutFields(keccak: Keccak, realm: string, client: seq<Byte>, id: string)
    requires |client| == 10
    ensures var raw := Layout(keccak, realm, client, id);
      && raw[..4] == Tag(keccak) && raw[4] == VERSION
      && raw[5..15] == Fingerprint(keccak, realm)
      && raw[15..25] == client
      && raw[25..32] == ChallengeNonce(keccak, id)
  {
  }

  /** The checks on a memo text that spells out `raw`. */
  lemma {:induction false} MemoTextChecks(keccak: Keccak, raw: seq<Byte>, realm: string, id: string)
    requires |raw| == MEMO_SIZE
    ensures var memo := MemoText(raw);
      && (IsAttributionMemo(keccak, memo) <==> raw[..4] == Tag(keccak) && raw[4] == VERSION)
      && (VerifyAttributionServer(keccak, memo, realm) <==>
            IsAttributionMemo(keccak, memo) && raw[5..15] == Fingerprint(keccak, realm))
      && (VerifyAttributionChallenge(keccak, memo, id) <==>
            IsAttributionMemo(keccak, memo) && id != "" && raw[25..32] == ChallengeNonce(keccak, id))
  {
    BareMemoText(raw);
    assert IsAttributionMemo(keccak, Encode(raw)) == IsAttributionMemo(keccak, MemoText(raw));
  }

  /** What a memo verifies for is what it was laid out for, whoever the client is. */
  lemma {:induction false} LayoutVerifies(keccak: Keccak, realm: string, client: seq<Byte>, id: string,
                                          realm': string, id': string)
    requires |client| == 10
    ensures var memo := MemoText(Layout(keccak, realm, client, id));
      && IsAttributionMemo(keccak, memo)
      && (VerifyAttributionServer(keccak, memo, realm') <==> Fingerprint(keccak, realm) == Fingerprint(keccak, realm'))
      && (VerifyAttributionChallenge(keccak, memo, id') <==>
            id' != "" && ChallengeNonce(keccak, id) == ChallengeNonce(keccak, id'))
  {
    LayoutFields(keccak, realm, client, id);
    MemoTextChecks(keccak, Layout(keccak, realm, client, id), realm', id');
  }

  /** One memo never verifies for two realms or two challenges, up to fingerprint and nonce. */
  lemma {:induction false} MemoBindsOneChallenge(keccak: Keccak, memo: string, realm: string, id: string,
                                                 realm': string, id': string)
    requires VerifyAttributionServer(keccak, memo, realm) && VerifyAttributionChallenge(keccak, memo, id)
    requires VerifyAttributionServer(keccak, memo, realm') && VerifyAttributionChallenge(keccak, memo, id')
    ensures Fingerprint(keccak, realm) == Fingerprint(keccak, realm')
    ensures ChallengeNonce(keccak, id) == ChallengeNonce(keccak, id')
  {
  }

  /** The two server checks accept attribution memos only. */
  lemma {:induction false} VerifiedIsAttribution(keccak: Keccak, memo: string, realm: string)
    requires VerifyAttributionServer(keccak, memo, realm)
    ensures IsAttributionMemo(keccak, memo)
  {
    var m := Bare(memo);
    BareIsLower(memo);
    assert IsHex(m) && !("0x" <= m) by {
      assert |m| >= 2 ==> IsHexDigit(m[1]) && m[1] != 'x';
    }
    assert Bare(m) == m;
  }
}
