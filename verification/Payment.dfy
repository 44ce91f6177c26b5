/**
 The two ends of a payment: the transfers a client builds for a charge request, and the check the
 server makes of the transaction that carries them.
 */
module Payment {
  import opened Text
  import opened Hex
  import opened Addresses
  import opened Decimal
  import opened Attribution
  import opened Matching
  import opened MatchingTheorems
  import opened ChargeRequest
  import opened Calldata

  /** big.Int.SetString in base ten: digits with an optional sign. */
  function ParseBig(s: string): Option<int> {
    var signed := s != "" && (s[0] == '-' || s[0] == '+');
    var digits := if signed then s[1..] else s;
    if digits == "" || !AllDigits(digits) then None
    else Some(if s[0] == '-' then 0 - Digits(digits) else Digits(digits))
  }

  function BigText(n: int): string {
    if n < 0 then "-" + ToDecimal(-n) else ToDecimal(n)
  }

  predicate Readable(s: Split) {
    ParseBig(s.amount).Some?
  }

  /** A split's amount; an unreadable one counts nothing. */
  function Share(s: Split): int {
    if Readable(s) then ParseBig(s.amount).value else 0
  }

  /** What the first n splits leave of the total. */
  function Remaining(total: int, splits: seq<Split>, n: nat): int
    requires n <= |splits|
  {
    if n == 0 then total else Remaining(total, splits, n - 1) - Share(splits[n - 1])
  }

  // ---------- the client ----------

  datatype Outgoing = Outgoing(amount: int, memo: string, recipient: string)

  predicate ReadableAmounts(r: Request) {
    ParseBig(r.amount).Some? && AllReadable(r.splits)
  }

  predicate AllReadable(splits: seq<Split>) {
    forall i :: 0 <= i < |splits| ==> Readable(splits[i])
  }

  function OutgoingSplits(splits: seq<Split>): seq<Outgoing> {
    seq(|splits|, i requires 0 <= i < |splits| => Outgoing(Share(splits[i]), splits[i].memo, splits[i].recipient))
  }

  function Transfers(r: Request, memo: string): seq<Outgoing>
    requires ReadableAmounts(r)
  {
    [Outgoing(Remaining(ParseBig(r.amount).value, r.splits, |r.splits|), memo, r.recipient)] + OutgoingSplits(r.splits)
  }

  lemma {:induction false} TransferAt(r: Request, memo: string, i: nat)
    requires ReadableAmounts(r) && 1 <= i <= |r.splits|
    ensures var s := r.splits[i - 1]; Transfers(r, memo)[i] == Outgoing(Share(s), s.memo, s.recipient)
  {
    assert Transfers(r, memo)[i] == OutgoingSplits(r.splits)[i - 1];
  }

  method ReadShare(split: Split) returns (amount: Option<int>)
    ensures amount.Some? <==> Readable(split)
    ensures amount.Some? ==> amount.value == Share(split)
  {
    amount := ParseBig(split.amount);
  }

  lemma {:induction false} PrefixGrows<T>(s: seq<T>, i: nat)
    requires i < |s|
    ensures s[..i + 1] == s[..i] + [s[i]]
  {
  }

  lemma {:induction false} OutgoingAt(splits: seq<Split>, i: nat)
    requires i < |splits|
    ensures OutgoingSplits(splits)[..i + 1]
         == OutgoingSplits(splits)[..i] + [Outgoing(Share(splits[i]), splits[i].memo, splits[i].recipient)]
  {
    PrefixGrows(OutgoingSplits(splits), i);
  }

  lemma {:induction false} ReadableGrows(splits: seq<Split>, i: nat)
    requires i < |splits| && AllReadable(splits[..i])
    ensures AllReadable(splits[..i + 1]) <==> Readable(splits[i])
    ensures !Readable(splits[i]) ==> !AllReadable(splits)
  {
    assert splits[..i + 1][i] == splits[i];
    assert forall k :: 0 <= k < i ==> splits[..i + 1][k] == splits[..i][k];
  }

  /** The loop over the splits: their transfers, and what they leave. */
  method SubtractSplits(total: int, splits: seq<Split>) returns (primaryAmount: int, transfers: Option<seq<Outgoing>>)
    ensures transfers.Some? <==> AllReadable(splits)
    ensures transfers.Some? ==>
        transfers.value == OutgoingSplits(splits) && primaryAmount == Remaining(total, splits, |splits|)
  {
    primaryAmount := total;
    var out: seq<Outgoing> := [];
    for i := 0 to |splits|
      invariant primaryAmount == Remaining(total, splits, i)
      invariant AllReadable(splits[..i]) && out == OutgoingSplits(splits)[..i]
    {
      ReadableGrows(splits, i);
      OutgoingAt(splits, i);
      var splitAmount := ReadShare(splits[i]);
      if splitAmount == None {
        return primaryAmount, None;
      }
      primaryAmount := primaryAmount - splitAmount.value;
      out := out + [Outgoing(splitAmount.value, splits[i].memo, splits[i].recipient)];
    }
    assert splits[..|splits|] == splits;
    return primaryAmount, Some(out);
  }

  method BuildTransfers(r: Request, memo: string) returns (transfers: Option<seq<Outgoing>>)
    ensures transfers == if ReadableAmounts(r) then Some(Transfers(r, memo)) else None
  {
    var totalAmount := ParseBig(r.amount);
    if totalAmount == None {
      return None;
    }
    var primaryAmount, splits := SubtractSplits(totalAmount.value, r.splits);
    if splits == None {
      return None;
    }
    return Some([Outgoing(primaryAmount, memo, r.recipient)] + splits.value);
  }

  function TransferDataHex(t: Outgoing): string {
    if t.memo != "" then
      (match EncodeTransferWithMemo(t.recipient, t.amount, t.memo) case Some(data) => data case None => "")
    else EncodeTransfer(t.recipient, t.amount)
  }

  function Sum(transfers: seq<Outgoing>, n: nat): int
    requires n <= |transfers|
  {
    if n == 0 then 0 else Sum(transfers, n - 1) + transfers[n - 1].amount
  }

  /** Splitting a payment neither creates nor loses value, whatever the amounts. */
  lemma {:induction false} TransfersConserve(r: Request, memo: string, n: nat)
    requires ReadableAmounts(r) && n <= |r.splits|
    ensures Sum(Transfers(r, memo), n + 1) + Remaining(ParseBig(r.amount).value, r.splits, n)
         == ParseBig(r.amount).value + Transfers(r, memo)[0].amount
  {
    if n > 0 {
      TransfersConserve(r, memo, n - 1);
      assert Transfers(r, memo)[n] == OutgoingSplits(r.splits)[n - 1];
    } else {
      assert Sum(Transfers(r, memo), 0) == 0;
    }
  }

  lemma {:induction false} CanonicalBig(s: string)
    requires Canonical(s)
    ensures ParseBig(s) == Some(Digits(s)) && AmountOf(s) == Digits(s) && BigText(Digits(s)) == s
  {
    CanonicalAmount(s);
    assert IsDigit(s[0]);
  }

  lemma {:induction false} RemainingIsTotalLess(total: int, splits: seq<Split>, n: nat)
    requires n <= |splits|
    requires forall k {:trigger Share(splits[k])} :: 0 <= k < |splits| ==>
        Share(splits[k]) == AmountOf(splits[k].amount)
    ensures Remaining(total, splits, n) == total - SplitSum(splits, n)
  {
    if n == 0 {
    } else {
      RemainingIsTotalLess(total, splits, n - 1);
      assert Share(splits[n - 1]) == AmountOf(splits[n - 1].amount);
    }
  }

  lemma {:induction false} SplitSumBounds(splits: seq<Split>, i: nat, n: nat)
    requires i < n <= |splits|
    ensures AmountOf(splits[i].amount) <= SplitSum(splits, n)
    decreases n
  {
    if i == n - 1 {
    } else {
      SplitSumBounds(splits, i, n - 1);
    }
  }

  lemma {:induction false} CanonicalIsReadable(cx: Context, r: Request)
    requires CanonicalRequest(cx, r)
    ensures ReadableAmounts(r)
    ensures ParseBig(r.amount) == Some(AmountOf(r.amount))
    ensures Remaining(ParseBig(r.amount).value, r.splits, |r.splits|)
        == AmountOf(r.amount) - SplitSum(r.splits, |r.splits|)
  {
    CanonicalBig(r.amount);
    forall i | 0 <= i < |r.splits| ensures Readable(r.splits[i]) && Share(r.splits[i]) == AmountOf(r.splits[i].amount) {
      assert CanonicalSplit(cx, r.splits[i]);
      CanonicalBig(r.splits[i].amount);
    }
    RemainingIsTotalLess(ParseBig(r.amount).value, r.splits, |r.splits|);
  }

  lemma {:induction false} SplitTransfer(cx: Context, r: Request, memo: string, i: nat)
    requires CanonicalRequest(cx, r) && ReadableAmounts(r) && 1 <= i <= |r.splits|
    ensures 0 < Transfers(r, memo)[i].amount <= SplitSum(r.splits, |r.splits|)
  {
    var s := r.splits[i - 1];
    TransferAt(r, memo, i);
    assert Positive(s) && CanonicalSplit(cx, s);
    CanonicalBig(s.amount);
    SplitSumBounds(r.splits, i - 1, |r.splits|);
  }

  /** Transfer i is within the total, and positive when the payment is split. */
  predicate Bounded(r: Request, memo: string, i: nat)
    requires ReadableAmounts(r) && i <= |r.splits|
  {
    && 0 <= Transfers(r, memo)[i].amount <= AmountOf(r.amount)
    && (r.splits != [] ==> Transfers(r, memo)[i].amount > 0)
  }

  /**
   The transfers a client builds for a parsed request add up to the requested amount; with splits,
   every split and what is left for the primary recipient are positive.
   */
  lemma {:induction false} TransfersAddUp(cx: Context, r: Request, memo: string)
    requires CanonicalRequest(cx, r)
    ensures ReadableAmounts(r)
    ensures Sum(Transfers(r, memo), |r.splits| + 1) == AmountOf(r.amount)
    ensures forall i :: 0 <= i <= |r.splits| ==> Bounded(r, memo, i)
  {
    CanonicalIsReadable(cx, r);
    TransfersSum(r, memo);
    forall i | 0 <= i <= |r.splits| ensures Bounded(r, memo, i) {
      TransferBounds(cx, r, memo, i);
    }
  }

  lemma {:induction false} TransfersSum(r: Request, memo: string)
    requires ReadableAmounts(r)
    ensures Sum(Transfers(r, memo), |r.splits| + 1) == ParseBig(r.amount).value
  {
    TransfersConserve(r, memo, |r.splits|);
  }

  lemma {:induction false} TransferBounds(cx: Context, r: Request, memo: string, i: nat)
    requires CanonicalRequest(cx, r) && ReadableAmounts(r) && i <= |r.splits|
    ensures Bounded(r, memo, i)
  {
    SplitsFit(r);
    if i == 0 {
      CanonicalIsReadable(cx, r);
    } else {
      SplitTransfer(cx, r, memo, i);
    }
  }

  lemma {:induction false} SplitsFit(r: Request)
    requires ValidSplits(r.amount, r.splits)
    ensures SplitSum(r.splits, |r.splits|) <= AmountOf(r.amount)
    ensures r.splits != [] ==> SplitSum(r.splits, |r.splits|) < AmountOf(r.amount)
  {
    assert SplitSum([], 0) == 0;
  }

  // ---------- the server ----------

  function ExpectedSplit(s: Split): Expected {
    Expected(s.amount, s.memo == "", s.memo, s.recipient, false)
  }

  /** expectedTransfers, which panics on an unreadable total: requests with one are refused before. */
  function ExpectedTransfers(r: Request): seq<Expected>
    requires ParseBig(r.amount).Some?
  {
    [Expected(BigText(Remaining(ParseBig(r.amount).value, r.splits, |r.splits|)), false, "", r.recipient, true)]
    + seq(|r.splits|, i requires 0 <= i < |r.splits| => ExpectedSplit(r.splits[i]))
  }

  method TakeShare(primaryAmount: int, split: Split) returns (left: int)
    ensures left == primaryAmount - Share(split)
  {
    left := primaryAmount;
    var splitAmount := ParseBig(split.amount);
    if splitAmount.Some? {
      left := left - splitAmount.value;
    }
  }

  method BuildExpectedTransfers(r: Request) returns (transfers: seq<Expected>)
    requires ParseBig(r.amount).Some?
    ensures transfers == ExpectedTransfers(r)
  {
    var total := ParseBig(r.amount).value;
    var primaryAmount := total;
    transfers := [];
    for i := 0 to |r.splits|
      invariant |transfers| == i && primaryAmount == Remaining(total, r.splits, i)
      invariant forall k :: 0 <= k < i ==> transfers[k] == ExpectedSplit(r.splits[k])
    {
      primaryAmount := TakeShare(primaryAmount, r.splits[i]);
      transfers := transfers + [ExpectedSplit(r.splits[i])];
    }
    transfers := [Expected(BigText(primaryAmount), false, "", r.recipient, true)] + transfers;
  }

  datatype Call = Call(to: Option<Address>, value: Option<int>, data: seq<Byte>)

  /** A call to the charge's token that moves no native value and decodes as a transfer. */
  predicate TransferCall(hexer: Checksum, r: Request, call: Call) {
    && call.to.Some? && EqualFold(hexer(call.to.value), r.currency)
    && (call.value.Some? ==> call.value.value == 0)
    && DecodeCall(hexer, call.data).Some?
  }

  /** What the server reads from one call, if it accepts the call at all. */
  function ReadTransfer(hexer: Checksum, r: Request, call: Call): Option<Transfer> {
    if TransferCall(hexer, r, call) then DecodeCall(hexer, call.data) else None
  }

  predicate TransactionMatchesSpec(hexer: Checksum, c: Binding, calls: seq<Call>, accessList: nat, r: Request)
    requires ParseBig(r.amount).Some?
  {
    var expected := ExpectedTransfers(r);
    var actual := MapAll((call: Call) => ReadTransfer(hexer, r, call), calls);
    |calls| == |expected| && accessList == 0 && actual.Some? && MatchTransfersSpec(c, actual.value, expected)
  }

  method TransactionMatches(hexer: Checksum, c: Binding, calls: seq<Call>, accessList: nat,
                            r: Request) returns (ok: bool)
    requires ParseBig(r.amount).Some?
    ensures ok == TransactionMatchesSpec(hexer, c, calls, accessList, r)
  {
    var expected := BuildExpectedTransfers(r);
    if |calls| != |expected| || accessList != 0 {
      return false;
    }
    var actual := CollectAll((call: Call) => ReadTransfer(hexer, r, call), calls);
    if actual == None {
      return false;
    }
    ok := MatchTransfers(c, actual.value, expected);
  }

  // ---------- both ends ----------

  /** The calls of the client's transaction: one transfer each, on the charge's token. */
  function BuildCalls(r: Request, memo: string): seq<Call>
    requires ReadableAmounts(r) && IsHexAddress(r.currency)
  {
    var ts := Transfers(r, memo);
    seq(|ts|, i requires 0 <= i < |ts| =>
      Call(Some(HexToAddress(r.currency)), Some(0), FromHex(TransferDataHex(ts[i]))))
  }

  lemma {:induction false} CallRoundTrip(hexer: Checksum, t: Outgoing)
    requires Spells(hexer) && CanonicalAddress(hexer, t.recipient) && CanonicalMemo(t.memo)
    requires 0 <= t.amount < UINT256_SIZE
    ensures DecodeCall(hexer, FromHex(TransferDataHex(t)))
        == Some(Transfer(ToDecimal(t.amount), t.memo != "", t.memo, t.recipient))
  {
    SmallNumbersFit(t.amount);
    if t.memo == "" {
      TransferRoundTrip(hexer, t.recipient, t.amount);
    } else {
      MemoTransferRoundTrip(hexer, t.recipient, t.amount, t.memo);
    }
  }

  lemma {:induction false} ExpectedIsChargeShape(r: Request)
    requires ParseBig(r.amount).Some?
    ensures ChargeShape(ExpectedTransfers(r))
  {
  }

  /** The attribution memo the client puts on the primary transfer, with any client name. */
  function ClientMemo(c: Binding, clientID: string): string {
    MemoText(Layout(c.keccak, c.realm, Fingerprint(c.keccak, clientID), c.challengeID))
  }

  lemma {:induction false} ClientMemoVerifies(c: Binding, clientID: string)
    requires c.challengeID != ""
    ensures c.Verifies(ClientMemo(c, clientID)) && CanonicalMemo(ClientMemo(c, clientID))
        && ClientMemo(c, clientID) != ""
  {
    var raw := Layout(c.keccak, c.realm, Fingerprint(c.keccak, clientID), c.challengeID);
    LayoutVerifies(c.keccak, c.realm, Fingerprint(c.keccak, clientID), c.challengeID, c.realm, c.challengeID);
    BareMemoText(raw);
  }

  /** The transfer the server decodes from the call that carries `t`. */
  function DecodedOf(t: Outgoing): Transfer
    requires t.amount >= 0
  {
    Transfer(ToDecimal(t.amount), t.memo != "", t.memo, t.recipient)
  }

  lemma {:induction false} TransferIsCanonical(cx: Context, r: Request, memo: string, i: nat)
    requires CanonicalRequest(cx, r) && CanonicalMemo(memo) && i <= |r.splits|
    ensures ReadableAmounts(r)
    ensures var t := Transfers(r, memo)[i];
      0 <= t.amount <= AmountOf(r.amount) && CanonicalAddress(cx.hexer, t.recipient) && CanonicalMemo(t.memo)
  {
    CanonicalIsReadable(cx, r);
    TransferBounds(cx, r, memo, i);
    if i > 0 {
      assert CanonicalSplit(cx, r.splits[i - 1]) && Transfers(r, memo)[i] == OutgoingSplits(r.splits)[i - 1];
    }
  }

  lemma {:induction false} BuiltCallReads(cx: Context, r: Request, memo: string, i: nat)
    requires Spells(cx.hexer) && CanonicalRequest(cx, r) && AmountOf(r.amount) < UINT256_SIZE && CanonicalMemo(memo)
    requires i <= |r.splits| && ReadableAmounts(r) && Transfers(r, memo)[i].amount >= 0 && IsHexAddress(r.currency)
    ensures ReadTransfer(cx.hexer, r, BuildCalls(r, memo)[i]) == Some(DecodedOf(Transfers(r, memo)[i]))
  {
    var t := Transfers(r, memo)[i];
    TransferIsCanonical(cx, r, memo, i);
    CallRoundTrip(cx.hexer, t);
    assert BuildCalls(r, memo)[i] == Call(Some(HexToAddress(r.currency)), Some(0), FromHex(TransferDataHex(t)));
    assert r.currency == cx.hexer(HexToAddress(r.currency));
  }

  lemma {:induction false} PrimaryAccepted(c: Binding, n: nat, memo: string, recipient: string)
    requires c.Verifies(memo)
    ensures AcceptsTransfer(c, Expected(BigText(n), false, "", recipient, true),
        Transfer(ToDecimal(n), true, memo, recipient))
  {
  }

  lemma {:induction false} SplitAccepted(c: Binding, amount: string, memo: string, recipient: string)
    ensures AcceptsTransfer(c, Expected(amount, memo == "", memo, recipient, false),
        Transfer(amount, memo != "", memo, recipient))
  {
  }

  lemma {:induction false} ShareSpells(cx: Context, s: Split)
    requires CanonicalSplit(cx, s)
    ensures Share(s) >= 0 && ToDecimal(Share(s)) == s.amount
  {
    CanonicalBig(s.amount);
  }

  lemma {:induction false} ExpectedAt(r: Request, i: nat)
    requires 1 <= i <= |r.splits| && ParseBig(r.amount).Some?
    ensures ExpectedTransfers(r)[i] == ExpectedSplit(r.splits[i - 1])
  {
  }

  lemma {:induction false} DecodedIsAccepted(cx: Context, c: Binding, r: Request, memo: string, i: nat)
    requires CanonicalRequest(cx, r) && c.Verifies(memo) && memo != "" && i <= |r.splits| && ReadableAmounts(r)
    requires Transfers(r, memo)[i].amount >= 0
    ensures AcceptsTransfer(c, ExpectedTransfers(r)[i], DecodedOf(Transfers(r, memo)[i]))
  {
    if i == 0 {
      PrimaryAccepted(c, Transfers(r, memo)[0].amount, memo, r.recipient);
    } else {
      TransferAt(r, memo, i);
      ExpectedAt(r, i);
      SplitIsAccepted(cx, c, r.splits[i - 1]);
    }
  }

  lemma {:induction false} SplitIsAccepted(cx: Context, c: Binding, s: Split)
    requires CanonicalSplit(cx, s)
    ensures Share(s) >= 0 && AcceptsTransfer(c, ExpectedSplit(s), DecodedOf(Outgoing(Share(s), s.memo, s.recipient)))
  {
    ShareSpells(cx, s);
    SplitAccepted(c, s.amount, s.memo, s.recipient);
  }

  /** The i-th call pays the i-th expected transfer. */
  predicate CallPays(hexer: Checksum, c: Binding, r: Request, call: Call, i: nat)
    requires ParseBig(r.amount).Some? && i <= |r.splits|
  {
    ReadTransfer(hexer, r, call).Some?
        && AcceptsTransfer(c, ExpectedTransfers(r)[i], ReadTransfer(hexer, r, call).value)
  }

  lemma {:induction false} CallsPay(hexer: Checksum, c: Binding, r: Request, calls: seq<Call>)
    requires ParseBig(r.amount).Some? && |calls| == |r.splits| + 1
    requires forall i :: 0 <= i < |calls| ==> CallPays(hexer, c, r, calls[i], i)
    ensures TransactionMatchesSpec(hexer, c, calls, 0, r)
  {
    var read := (call: Call) => ReadTransfer(hexer, r, call);
    var expected := ExpectedTransfers(r);
    forall i | 0 <= i < |calls| ensures read(calls[i]).Some? {
      assert CallPays(hexer, c, r, calls[i], i);
    }
    var actual := MapAll(read, calls).value;
    forall i | 0 <= i < |expected| ensures AcceptsTransfer(c, expected[i], actual[i]) {
      assert CallPays(hexer, c, r, calls[i], i) && read(calls[i]) == Some(actual[i]);
    }
    ExpectedIsChargeShape(r);
    InOrderMatches(c, actual, expected);
  }

  /**
   Encoding the client's transfers to calldata and decoding them on the server always satisfies the
   server's check for that challenge.
   */
  lemma {:induction false} ClientPaymentMatches(cx: Context, c: Binding, r: Request, clientID: string)
    requires Spells(cx.hexer) && CanonicalRequest(cx, r) && AmountOf(r.amount) < UINT256_SIZE && c.challengeID != ""
    ensures ReadableAmounts(r) && IsHexAddress(r.currency)
    ensures TransactionMatchesSpec(cx.hexer, c, BuildCalls(r, ClientMemo(c, clientID)), 0, r)
  {
    var memo := ClientMemo(c, clientID);
    ClientMemoVerifies(c, clientID);
    CanonicalIsReadable(cx, r);
    var calls := BuildCalls(r, memo);
    forall i | 0 <= i < |calls| ensures CallPays(cx.hexer, c, r, calls[i], i) {
      TransferIsCanonical(cx, r, memo, i);
      BuiltCallReads(cx, r, memo, i);
      DecodedIsAccepted(cx, c, r, memo, i);
    }
    CallsPay(cx.hexer, c, r, calls);
  }

  lemma {:induction false} CanonicalPaymentMatches(cx: Context, c: Binding, r: Request, clientID: string)
    requires Spells(cx.hexer) && CanonicalRequest(cx, r) && AmountOf(r.amount) < UINT256_SIZE && c.challengeID != ""
    ensures ReadableAmounts(r) && IsHexAddress(r.currency)
    ensures TransactionMatchesSpec(cx.hexer, c, BuildCalls(r, ClientMemo(c, clientID)), 0, r)
    ensures Sum(Transfers(r, ClientMemo(c, clientID)), |r.splits| + 1) == AmountOf(r.amount)
  {
    ClientPaymentMatches(cx, c, r, clientID);
    TransfersAddUp(cx, r, ClientMemo(c, clientID));
  }

  /** The same for whatever request the server parsed out of a challenge. */
  lemma {:induction false} ParsedPaymentMatches(cx: Context, c: Binding, input: map<string, Value>, r: Request,
                                                clientID: string)
    requires Spells(cx.hexer) && Parse(cx, input) == Some(r) && AmountOf(r.amount) < UINT256_SIZE && c.challengeID != ""
    ensures ReadableAmounts(r) && IsHexAddress(r.currency)
    ensures TransactionMatchesSpec(cx.hexer, c, BuildCalls(r, ClientMemo(c, clientID)), 0, r)
    ensures Sum(Transfers(r, ClientMemo(c, clientID)), |r.splits| + 1) == AmountOf(r.amount)
  {
    ParsedIsCanonical(cx, input);
    CanonicalPaymentMatches(cx, c, r, clientID);
  }
}
