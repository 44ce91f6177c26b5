/**
 What a transaction has done when the server's check accepts it, in bytes and numbers: which token
 was moved, to whom, how much, and under which memo.
 */
module PaidCharge {
  import opened Text
  import opened Hex
  import opened Addresses
  import opened Decimal
  import opened Attribution
  import opened Assignment
  import opened Matching
  import opened MatchingTheorems
  import opened ChargeRequest
  import opened Calldata
  import opened Payment

  // ---------- calldata in bytes ----------

  const TRANSFER_BYTES: seq<Byte> := [0xa9, 0x05, 0x9c, 0xbb]
  const TRANSFER_WITH_MEMO_BYTES: seq<Byte> := [0x95, 0x77, 0x7d, 0x59]

  datatype Movement = Movement(recipient: Address, amount: nat, memo: Option<seq<Byte>>)

  /** What the token contract makes of the calldata: two words, and a third for the memo. */
  function MovementOf(data: seq<Byte>): Option<Movement> {
    if |data| == 68 && data[..4] == TRANSFER_BYTES then
      Some(Movement(data[16..36], BytesValue(data[36..68]), None))
    else if |data| == 100 && data[..4] == TRANSFER_WITH_MEMO_BYTES then
      Some(Movement(data[16..36], BytesValue(data[36..68]), Some(data[68..100])))
    else None
  }

  function MemoOf(m: Movement): string {
    if m.memo.Some? then "0x" + Encode(m.memo.value) else ""
  }

  function TransferOf(hexer: Checksum, m: Movement): Transfer {
    Transfer(ToDecimal(m.amount), m.memo.Some?, MemoOf(m), hexer(m.recipient))
  }

  lemma {:induction false} EncodedSlice(b: seq<Byte>, i: nat, j: nat)
    requires i <= j <= |b|
    ensures |Encode(b)| == 2 * |b| && Encode(b)[2 * i..2 * j] == Encode(b[i..j])
  {
    forall k | 0 <= k < 2 * (j - i) ensures Encode(b)[2 * i..2 * j][k] == Encode(b[i..j])[k] {
      assert b[i..j][k / 2] == b[i + k / 2] && (2 * i + k) / 2 == i + k / 2 && (2 * i + k) % 2 == k % 2;
    }
  }

  lemma {:induction false} SelectorBytes()
    ensures Encode(TRANSFER_BYTES) == TRANSFER_SELECTOR
    ensures Encode(TRANSFER_WITH_MEMO_BYTES) == TRANSFER_WITH_MEMO_SELECTOR
  {
    EncodeAt(TRANSFER_BYTES, 0);
    EncodeAt(TRANSFER_BYTES, 1);
    EncodeAt(TRANSFER_BYTES, 2);
    EncodeAt(TRANSFER_BYTES, 3);
    assert Encode(TRANSFER_BYTES) == TRANSFER_SELECTOR;
    EncodeAt(TRANSFER_WITH_MEMO_BYTES, 0);
    EncodeAt(TRANSFER_WITH_MEMO_BYTES, 1);
    EncodeAt(TRANSFER_WITH_MEMO_BYTES, 2);
    EncodeAt(TRANSFER_WITH_MEMO_BYTES, 3);
    assert Encode(TRANSFER_WITH_MEMO_BYTES) == TRANSFER_WITH_MEMO_SELECTOR;
  }

  lemma {:induction false} SelectorReads(data: seq<Byte>)
    requires |data| >= 4
    ensures Encode(data)[..8] == TRANSFER_SELECTOR <==> data[..4] == TRANSFER_BYTES
    ensures Encode(data)[..8] == TRANSFER_WITH_MEMO_SELECTOR <==> data[..4] == TRANSFER_WITH_MEMO_BYTES
  {
    SelectorBytes();
    EncodedSlice(data, 0, 4);
    EncodeInjective(data[..4], TRANSFER_BYTES);
    EncodeInjective(data[..4], TRANSFER_WITH_MEMO_BYTES);
  }

  lemma {:induction false} WordBytes(b: seq<Byte>)
    ensures FromHex("0x" + Encode(b)) == b
  {
    EncodedIsLowerHex(b);
    FromHexText(Encode(b));
    DecodeEncode(b);
  }

  lemma {:induction false} WordsMean(hexer: Checksum, data: seq<Byte>)
    requires |data| == 68 || |data| == 100
    ensures LowerHex(Encode(data)) && |Encode(data)| == 2 * |data|
    ensures RecipientWord(hexer, Encode(data)) == hexer(data[16..36])
    ensures AmountWord(Encode(data)) == ToDecimal(BytesValue(data[36..68]))
    ensures |data| == 100 ==> Encode(data)[136..200] == Encode(data[68..100])
  {
    EncodedIsLowerHex(data);
    EncodedSlice(data, 16, 36);
    EncodedSlice(data, 36, 68);
    EncodedIsLowerHex(data[16..36]);
    AddressWord(Encode(data[16..36]));
    DecodeEncode(data[16..36]);
    WordBytes(data[36..68]);
    if |data| == 100 {
      EncodedSlice(data, 68, 100);
    }
  }

  /** The server reads from a call exactly what the token makes of it, and refuses every other call. */
  lemma {:induction false} DecodedIsMovement(hexer: Checksum, data: seq<Byte>)
    ensures DecodeCall(hexer, data) ==
      match MovementOf(data) case None => None case Some(m) => Some(TransferOf(hexer, m))
  {
    EncodedIsLowerHex(data);
    EncodedSlice(data, 0, |data|);
    SelectorsAreHex();
    if |data| >= 4 {
      SelectorReads(data);
    }
    if |data| == 68 || |data| == 100 {
      WordsMean(hexer, data);
    }
  }

  // ---------- the check in plain terms ----------

  /** A call of the token that moves no native value. */
  predicate OnToken(hexer: Checksum, currency: string, call: Call) {
    call.to.Some? && EqualFold(hexer(call.to.value), currency) && (call.value == None || call.value == Some(0))
  }

  /** Every call is one movement of the charge's token. */
  predicate Moves(hexer: Checksum, r: Request, calls: seq<Call>, moved: seq<Movement>) {
    && |moved| == |calls|
    && forall i :: 0 <= i < |calls| ==>
        OnToken(hexer, r.currency, calls[i]) && MovementOf(calls[i].data) == Some(moved[i])
  }

  function TransfersOf(hexer: Checksum, moved: seq<Movement>): seq<Transfer> {
    seq(|moved|, i requires 0 <= i < |moved| => TransferOf(hexer, moved[i]))
  }

  /**
   The check says yes exactly when the transaction has no access list and one call per expected
   transfer, each moving the charge's token and nothing else, and these movements match the charge.
   */
  lemma {:induction false} AcceptedIff(hexer: Checksum, c: Binding, calls: seq<Call>, accessList: nat, r: Request)
    requires ParseBig(r.amount).Some?
    ensures TransactionMatchesSpec(hexer, c, calls, accessList, r) <==>
      && accessList == 0 && |calls| == |ExpectedTransfers(r)|
      && exists moved ::
           Moves(hexer, r, calls, moved) && MatchTransfersSpec(c, TransfersOf(hexer, moved), ExpectedTransfers(r))
  {
    var read := (call: Call) => ReadTransfer(hexer, r, call);
    forall i | 0 <= i < |calls|
      ensures read(calls[i]).Some? <==> OnToken(hexer, r.currency, calls[i]) && MovementOf(calls[i].data).Some?
      ensures read(calls[i]).Some? ==> read(calls[i]) == Some(TransferOf(hexer, MovementOf(calls[i].data).value))
    {
      DecodedIsMovement(hexer, calls[i].data);
    }
    var actual := MapAll(read, calls);
    if actual.Some? {
      var moved := seq(|calls|, i requires 0 <= i < |calls| => MovementOf(calls[i].data).value);
      assert Moves(hexer, r, calls, moved) && TransfersOf(hexer, moved) == actual.value;
    }
    if moved :| Moves(hexer, r, calls, moved)
                && MatchTransfersSpec(c, TransfersOf(hexer, moved), ExpectedTransfers(r)) {
      assert actual.value == TransfersOf(hexer, moved);
    }
  }

  // ---------- what was asked for ----------

  /** What the i-th transfer of a charge asks for: the rest of the amount first, then the splits. */
  predicate AsAsked(c: Binding, r: Request, m: Movement, i: nat)
    requires i <= |r.splits| && IsHexAddress(r.recipient)
    requires i > 0 ==> IsHexAddress(r.splits[i - 1].recipient)
  {
    if i == 0 then
      && m.recipient == HexToAddress(r.recipient)
      && m.amount == AmountOf(r.amount) - SplitSum(r.splits, |r.splits|)
      && m.memo.Some? && c.Verifies(MemoOf(m))
    else
      var s := r.splits[i - 1];
      && m.recipient == HexToAddress(s.recipient) && m.amount == AmountOf(s.amount)
      && if s.memo != "" then m.memo.Some? && MemoOf(m) == s.memo
         else m.memo.Some? && IsAttributionMemo(c.keccak, MemoOf(m)) ==> c.Verifies(MemoOf(m))
  }

  predicate Distinct(p: seq<nat>) {
    forall k, l :: 0 <= k < l < |p| ==> p[k] != p[l]
  }

  /** Call p[i] pays the i-th transfer, each call another one. */
  predicate PaysAsAsked(cx: Context, c: Binding, r: Request, moved: seq<Movement>, p: seq<nat>)
    requires CanonicalRequest(cx, r)
  {
    && |p| == |moved| == |r.splits| + 1 && Distinct(p)
    && forall i :: 0 <= i < |p| ==> p[i] < |moved| && AskedAt(cx, c, r, moved[p[i]], i)
  }

  predicate AskedAt(cx: Context, c: Binding, r: Request, m: Movement, i: nat)
    requires CanonicalRequest(cx, r) && i <= |r.splits|
  {
    assert i > 0 ==> CanonicalSplit(cx, r.splits[i - 1]);
    AsAsked(c, r, m, i)
  }

  /** Checksummed spellings are equal up to case only for the same address. */
  lemma {:induction false} SameAddress(hexer: Checksum, a: Address, text: string)
    requires Spells(hexer) && CanonicalAddress(hexer, text)
    ensures EqualFold(hexer(a), text) <==> a == HexToAddress(text)
  {
    var b := HexToAddress(text);
    assert text == hexer(b);
    EncodeInjective(a, b);
    assert Lower(hexer(a)) == "0x" + Encode(a) && Lower(text) == "0x" + Encode(b);
    if EqualFold(hexer(a), text) {
      assert ("0x" + Encode(a))[2..] == Encode(a) && ("0x" + Encode(b))[2..] == Encode(b);
    }
  }

  lemma {:induction false} SameAmount(n: nat, text: string)
    requires Canonical(text)
    ensures ToDecimal(n) == text <==> n == AmountOf(text)
  {
    CanonicalAmount(text);
    ToDecimalSpells(n);
  }

  lemma {:induction false} SameMemo(m: Movement, memo: string)
    requires memo != "" && CanonicalMemo(memo) && m.memo.Some?
    ensures EqualFold(MemoOf(m), memo) <==> MemoOf(m) == memo
  {
    EncodedIsLowerHex(m.memo.value);
    EncodeIsLower(m.memo.value);
    LowerConcat("0x", Encode(m.memo.value));
    LowerPointwise("0x");
    assert Lower("0x") == "0x";
    BareIsLower(memo);
    LowerConcat("0x", Bare(memo));
    assert memo == "0x" + Bare(memo);
  }

  lemma {:induction false} SameText(n: nat, k: nat)
    ensures ToDecimal(n) == ToDecimal(k) <==> n == k
  {
    ToDecimalSpells(n);
    ToDecimalSpells(k);
  }

  lemma {:induction false} SplitsLeaveSome(cx: Context, r: Request)
    requires CanonicalRequest(cx, r)
    ensures SplitSum(r.splits, |r.splits|) <= AmountOf(r.amount)
  {
    SplitsFit(r);
  }

  lemma {:induction false} FirstExpected(r: Request, rest: nat)
    requires ParseBig(r.amount).Some? && Remaining(ParseBig(r.amount).value, r.splits, |r.splits|) == rest
    ensures ExpectedTransfers(r)[0] == Expected(ToDecimal(rest), false, "", r.recipient, true)
  {
  }

  /** The primary transfer asks for what the splits leave. */
  lemma {:induction false} PrimaryExpected(cx: Context, r: Request, rest: nat)
    requires CanonicalRequest(cx, r) && rest == AmountOf(r.amount) - SplitSum(r.splits, |r.splits|)
    ensures ParseBig(r.amount).Some?
    ensures ExpectedTransfers(r)[0] == Expected(ToDecimal(rest), false, "", r.recipient, true)
  {
    CanonicalIsReadable(cx, r);
    FirstExpected(r, rest);
  }

  lemma {:induction false} PrimaryAsked(cx: Context, c: Binding, r: Request, m: Movement)
    requires Spells(cx.hexer) && CanonicalRequest(cx, r)
    ensures ParseBig(r.amount).Some?
    ensures AcceptsTransfer(c, ExpectedTransfers(r)[0], TransferOf(cx.hexer, m)) <==> AskedAt(cx, c, r, m, 0)
  {
    SplitsLeaveSome(cx, r);
    var rest := AmountOf(r.amount) - SplitSum(r.splits, |r.splits|);
    PrimaryExpected(cx, r, rest);
    SameAddress(cx.hexer, m.recipient, r.recipient);
    SameText(m.amount, rest);
  }

  lemma {:induction false} SplitAsked(cx: Context, c: Binding, r: Request, m: Movement, i: nat)
    requires Spells(cx.hexer) && CanonicalRequest(cx, r) && 1 <= i <= |r.splits|
    ensures ParseBig(r.amount).Some?
    ensures AcceptsTransfer(c, ExpectedTransfers(r)[i], TransferOf(cx.hexer, m)) <==> AskedAt(cx, c, r, m, i)
  {
    var s := r.splits[i - 1];
    CanonicalIsReadable(cx, r);
    ExpectedAt(r, i);
    assert CanonicalSplit(cx, s);
    SameAddress(cx.hexer, m.recipient, s.recipient);
    SameAmount(m.amount, s.amount);
    if s.memo != "" && m.memo.Some? {
      SameMemo(m, s.memo);
    }
  }

  lemma {:induction false} AcceptedIsAsked(cx: Context, c: Binding, r: Request, m: Movement, i: nat)
    requires Spells(cx.hexer) && CanonicalRequest(cx, r) && i <= |r.splits|
    ensures ParseBig(r.amount).Some?
    ensures AcceptsTransfer(c, ExpectedTransfers(r)[i], TransferOf(cx.hexer, m)) <==> AskedAt(cx, c, r, m, i)
  {
    if i == 0 {
      PrimaryAsked(cx, c, r, m);
    } else {
      SplitAsked(cx, c, r, m, i);
    }
  }

  lemma {:induction false} AssignedIsAsked(cx: Context, c: Binding, r: Request, moved: seq<Movement>, p: seq<nat>)
    requires Spells(cx.hexer) && CanonicalRequest(cx, r) && |moved| == |r.splits| + 1
    ensures ParseBig(r.amount).Some?
    ensures Assigns(Rule(c), ExpectedTransfers(r), TransfersOf(cx.hexer, moved), {}, p) <==>
      PaysAsAsked(cx, c, r, moved, p)
  {
    CanonicalIsReadable(cx, r);
    var actual := TransfersOf(cx.hexer, moved);
    forall i | 0 <= i <= |r.splits| && i < |p| && p[i] < |moved|
      ensures Rule(c)(ExpectedTransfers(r)[i], actual[p[i]]) <==> AskedAt(cx, c, r, moved[p[i]], i)
    {
      AcceptedIsAsked(cx, c, r, moved[p[i]], i);
    }
  }

  /**
   A yes means that the transaction pays what the request asks for: each call moves the requested token
   and nothing else, one of them the rest of the amount to the recipient under a memo that names the
   challenge, the others each split's amount to its recipient under its memo. If no split's memo
   competes with the primary transfer, every such transaction gets a yes.
   */
  lemma {:induction false} AcceptedPaysAsAsked(cx: Context, c: Binding, calls: seq<Call>, accessList: nat, r: Request)
    requires Spells(cx.hexer) && CanonicalRequest(cx, r)
    ensures ParseBig(r.amount).Some?
    ensures TransactionMatchesSpec(cx.hexer, c, calls, accessList, r) ==>
      accessList == 0 && exists moved, p ::
        Moves(cx.hexer, r, calls, moved) && PaysAsAsked(cx, c, r, moved, p)
    ensures forall moved, p ::
      accessList == 0 && Moves(cx.hexer, r, calls, moved) && PaysAsAsked(cx, c, r, moved, p)
      && Unambiguous(c, ExpectedTransfers(r)) ==>
        TransactionMatchesSpec(cx.hexer, c, calls, accessList, r)
  {
    CanonicalIsReadable(cx, r);
    AcceptedIff(cx.hexer, c, calls, accessList, r);
    var expected := ExpectedTransfers(r);
    ExpectedIsChargeShape(r);
    if TransactionMatchesSpec(cx.hexer, c, calls, accessList, r) {
      var moved :| Moves(cx.hexer, r, calls, moved) && MatchTransfersSpec(c, TransfersOf(cx.hexer, moved), expected);
      GreedySpecIsSound(c, TransfersOf(cx.hexer, moved), expected);
      var p :| Assigns(Rule(c), expected, TransfersOf(cx.hexer, moved), {}, p);
      AssignedIsAsked(cx, c, r, moved, p);
    }
    forall moved, p |
      accessList == 0 && Moves(cx.hexer, r, calls, moved) && PaysAsAsked(cx, c, r, moved, p) && Unambiguous(c, expected)
      ensures TransactionMatchesSpec(cx.hexer, c, calls, accessList, r)
    {
      AssignedIsAsked(cx, c, r, moved, p);
      MatchIsExact(c, TransfersOf(cx.hexer, moved), expected);
    }
  }

  /** The token whose calls are accepted is the requested one, whatever its spelling. */
  lemma {:induction false} OnRequestedToken(cx: Context, r: Request, call: Call)
    requires Spells(cx.hexer) && CanonicalRequest(cx, r)
    ensures OnToken(cx.hexer, r.currency, call) <==>
      call.to == Some(HexToAddress(r.currency)) && (call.value == None || call.value == Some(0))
  {
    if call.to.Some? {
      SameAddress(cx.hexer, call.to.value, r.currency);
    }
  }

  // ---------- the amounts add up ----------

  function MovedSum(moved: seq<Movement>, p: seq<nat>, n: nat): nat
    requires n <= |p| && forall i :: 0 <= i < n ==> p[i] < |moved|
  {
    if n == 0 then 0 else MovedSum(moved, p, n - 1) + moved[p[n - 1]].amount
  }

  /** The amount the i-th transfer of a charge asks for. */
  function Due(r: Request, i: nat): int
    requires i <= |r.splits|
  {
    if i == 0 then AmountOf(r.amount) - SplitSum(r.splits, |r.splits|) else AmountOf(r.splits[i - 1].amount)
  }

  lemma {:induction false} AskedAmount(cx: Context, c: Binding, r: Request, m: Movement, i: nat)
    requires CanonicalRequest(cx, r) && i <= |r.splits| && AskedAt(cx, c, r, m, i)
    ensures m.amount == Due(r, i)
  {
  }

  lemma {:induction false} AmountsAddUp(r: Request, moved: seq<Movement>, p: seq<nat>, n: nat)
    requires |p| == |r.splits| + 1 && n <= |r.splits| && forall i :: 0 <= i < |p| ==> p[i] < |moved|
    requires forall i :: 0 <= i < |p| ==> moved[p[i]].amount == Due(r, i)
    ensures MovedSum(moved, p, n + 1) == AmountOf(r.amount) - SplitSum(r.splits, |r.splits|) + SplitSum(r.splits, n)
  {
    if n == 0 {
      assert MovedSum(moved, p, 0) == 0;
    } else {
      AmountsAddUp(r, moved, p, n - 1);
    }
  }

  /** What an accepted transaction moves in all is the requested amount, and nothing twice. */
  lemma {:induction false} AcceptedMovesTheAmount(cx: Context, c: Binding, r: Request, moved: seq<Movement>,
                                                  p: seq<nat>)
    requires CanonicalRequest(cx, r) && PaysAsAsked(cx, c, r, moved, p)
    ensures |p| == |moved| && Distinct(p) && MovedSum(moved, p, |p|) == AmountOf(r.amount)
  {
    forall i | 0 <= i < |p| ensures moved[p[i]].amount == Due(r, i) {
      AskedAmount(cx, c, r, moved[p[i]], i);
    }
    AmountsAddUp(r, moved, p, |r.splits|);
  }
}
