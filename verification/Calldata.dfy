/** TIP-20 transfer calldata: 256-bit words in hex, encoded by the client and decoded by the server. */
module Calldata {
  import opened Text
  import opened Hex
  import opened Addresses
  import opened Decimal
  import opened Matching

  const TRANSFER_SELECTOR := "a9059cbb"
  const TRANSFER_WITH_MEMO_SELECTOR := "95777d59"
  const TRANSFER_CALLDATA_LENGTH := 4 + 32 + 32
  const TRANSFER_WITH_MEMO_CALLDATA_LENGTH := 4 + 32 + 32 + 32

  function Pow16(n: nat): nat {
    if n == 0 then 1 else 16 * Pow16(n - 1)
  }

  // ---------- numbers in hex ----------

  /** big.Int's hex text, for numbers that are not negative. */
  function ToHex(n: nat): string {
    if n < 16 then [Digit(n)] else ToHex(n / 16) + [Digit(n % 16)]
  }

  function HexText(n: int): string {
    if n < 0 then "-" + ToHex(-n) else ToHex(n)
  }

  function HexDigitValue(c: char): (n: nat)
    ensures n < 16
  {
    if IsHexDigit(c) then Value(c) else 0
  }

  function HexValue(s: string): nat
    decreases |s|
  {
    if s == "" then 0 else 16 * HexValue(s[..|s| - 1]) + HexDigitValue(s[|s| - 1])
  }

  /** big.Int.SetBytes. */
  function BytesValue(b: seq<Byte>): nat
    decreases |b|
  {
    if b == [] then 0 else 256 * BytesValue(b[..|b| - 1]) + b[|b| - 1]
  }

  /** fmt's %064s: zeros on the left. */
  function Pad64(s: string): string {
    if |s| < 64 then Zeros(64 - |s|) + s else s
  }

  predicate LowerHex(s: string) {
    forall i :: 0 <= i < |s| ==> IsHexDigit(s[i]) && LowerChar(s[i]) == s[i]
  }

  lemma {:induction false} ToHexSpells(n: nat)
    ensures LowerHex(ToHex(n)) && HexValue(ToHex(n)) == n
  {
    var s := ToHex(n);
    DigitRoundTrip(n % 16);
    if n >= 16 {
      ToHexSpells(n / 16);
      assert s[..|s| - 1] == ToHex(n / 16);
    } else {
      assert s[..|s| - 1] == "";
    }
  }

  lemma {:induction false} ToHexLength(n: nat, k: nat)
    requires k >= 1 && n < Pow16(k)
    ensures 1 <= |ToHex(n)| <= k
    decreases k
  {
    if n < 16 {
    } else {
      assert Pow16(k) == 16 * Pow16(k - 1);
      assert n / 16 < Pow16(k - 1);
      assert k - 1 >= 1;
      ToHexLength(n / 16, k - 1);
    }
  }

  const UINT256_SIZE: nat := 0x1_0000_0000_0000_0000_0000_0000_0000_0000_0000_0000_0000_0000_0000_0000_0000_0000

  /** The hex text of n fits a 32-byte word. */
  predicate FitsWord(n: nat) {
    |ToHex(n)| <= 64
  }

  lemma {:induction false} Pow16Adds(m: nat, n: nat)
    ensures Pow16(m + n) == Pow16(m) * Pow16(n)
  {
    if n == 0 {
    } else {
      Pow16Adds(m, n - 1);
      assert Pow16(m + n) == 16 * Pow16(m + n - 1);
    }
  }

  lemma {:induction false} SmallNumbersFit(n: nat)
    requires n < UINT256_SIZE
    ensures FitsWord(n)
  {
    assert Pow16(8) == 0x1_0000_0000;
    Pow16Adds(8, 8);
    Pow16Adds(16, 16);
    Pow16Adds(32, 32);
    ToHexLength(n, 64);
  }

  lemma {:induction false} ZerosDoNotCount(k: nat, s: string)
    ensures HexValue(Zeros(k) + s) == HexValue(s)
    decreases k + |s|
  {
    var t := Zeros(k) + s;
    if s != "" {
      ZerosDoNotCount(k, s[..|s| - 1]);
      assert t[..|t| - 1] == Zeros(k) + s[..|s| - 1];
    } else if k > 0 {
      ZerosDoNotCount(k - 1, "");
      assert t[..|t| - 1] == Zeros(k - 1) + "";
    }
  }

  lemma {:induction false} HexValueOfPair(s: string, c: char, d: char)
    requires IsHexDigit(c) && IsHexDigit(d)
    ensures HexValue(s + [c, d]) == 256 * HexValue(s) + 16 * Value(c) + Value(d)
  {
    var t := s + [c];
    assert (s + [c, d])[..|s| + 1] == t;
    assert t[..|s|] == s;
    assert HexValue(t) == 16 * HexValue(s) + Value(c);
  }

  lemma {:induction false} DecodeOfPair(s: string, c: char, d: char)
    requires IsHex(s) && IsHexDigit(c) && IsHexDigit(d)
    ensures IsHex(s + [c, d]) && Decode(s + [c, d]).value == Decode(s).value + [16 * Value(c) + Value(d)]
  {
    var t := s + [c, d];
    assert |t| == |s| + 2;
    var whole := Decode(t).value;
    forall i | 0 <= i < |whole| ensures whole[i] == (Decode(s).value + [16 * Value(c) + Value(d)])[i] {
      assert whole[i] == 16 * Value(t[2 * i]) + Value(t[2 * i + 1]);
    }
  }

  lemma {:induction false} BytesValueAppend(b: seq<Byte>, last: Byte)
    ensures BytesValue(b + [last]) == 256 * BytesValue(b) + last
  {
    assert (b + [last])[..|b|] == b;
  }

  lemma {:induction false} DecodedValue(s: string)
    requires IsHex(s)
    ensures BytesValue(Decode(s).value) == HexValue(s)
    decreases |s|
  {
    if s == "" {
    } else {
      var n := |s|;
      var t, c, d := s[..n - 2], s[n - 2], s[n - 1];
      assert s == t + [c, d];
      DecodedValue(t);
      HexValueOfPair(t, c, d);
      DecodeOfPair(t, c, d);
      BytesValueAppend(Decode(t).value, 16 * Value(c) + Value(d));
    }
  }

  // ---------- encoding ----------

  function Words(selector: string, to: string, amount: string, memo: string): string {
    selector + to + amount + memo
  }

  function EncodeTransfer(recipient: string, amount: int): string {
    "0x" + Words(TRANSFER_SELECTOR, Pad64(Bare(recipient)), Pad64(HexText(amount)), "")
  }

  function EncodeTransferWithMemo(recipient: string, amount: int, memo: string): Option<string> {
    var m := Bare(memo);
    if |m| != 64 || !IsHex(m) then None
    else Some("0x" + Words(TRANSFER_WITH_MEMO_SELECTOR, Pad64(Bare(recipient)), Pad64(HexText(amount)), m))
  }

  /** How many leading pairs of characters are hex digits. */
  function HexPairs(s: string, k: nat): (n: nat)
    requires 2 * k <= |s| && forall i :: 0 <= i < 2 * k ==> IsHexDigit(s[i])
    ensures k <= n && 2 * n <= |s| && forall i :: 0 <= i < 2 * n ==> IsHexDigit(s[i])
    ensures 2 * n + 1 < |s| ==> !IsHexDigit(s[2 * n]) || !IsHexDigit(s[2 * n + 1])
    decreases |s| - k
  {
    if 2 * k + 1 < |s| && IsHexDigit(s[2 * k]) && IsHexDigit(s[2 * k + 1]) then HexPairs(s, k + 1) else k
  }

  /** common.FromHex: decoding stops at the first character that is not a hex digit. */
  function FromHex(s: string): seq<Byte> {
    var t := StripHexPrefix(s);
    var even := if |t| % 2 == 1 then "0" + t else t;
    Decode(even[..2 * HexPairs(even, 0)]).value
  }

  lemma {:induction false} FromHexText(s: string)
    requires LowerHex(s) && |s| % 2 == 0
    ensures IsHex(s) && FromHex("0x" + s) == Decode(s).value && Encode(FromHex("0x" + s)) == s
  {
    assert StripHexPrefix("0x" + s) == s;
    assert s[..2 * HexPairs(s, 0)] == s;
    EncodeDecode(s);
    LowerPointwise(s);
    assert Lower(s) == s;
  }

  // ---------- decoding ----------

  lemma {:induction false} EncodedIsLowerHex(data: seq<Byte>)
    ensures LowerHex(Encode(data)) && Bare(Encode(data)) == Encode(data)
  {
    var e := Encode(data);
    EncodeIsHex(data);
    EncodeIsLower(data);
    LowerPointwise(e);
    assert forall i :: 0 <= i < |e| ==> Lower(e)[i] == e[i];
    assert |e| >= 2 ==> IsHexDigit(e[1]) && e[1] != 'x';
  }

  lemma {:induction false} AddressWord(s: string)
    requires LowerHex(s) && |s| == 40
    ensures IsHexAddress("0x" + s) && StripHexPrefix("0x" + s) == s
  {
  }

  /** decodeCallTransfer, on the hex text of the call's data. */
  function DecodeWords(hexer: Checksum, d: string): Option<Transfer>
    requires LowerHex(d)
  {
    if |d| < 8 then None
    else if d[..8] == TRANSFER_SELECTOR && |d| == 2 * TRANSFER_CALLDATA_LENGTH then
      Some(Transfer(AmountWord(d), false, "", RecipientWord(hexer, d)))
    else if d[..8] == TRANSFER_WITH_MEMO_SELECTOR && |d| == 2 * TRANSFER_WITH_MEMO_CALLDATA_LENGTH then
      Some(Transfer(AmountWord(d), true, "0x" + d[136..200], RecipientWord(hexer, d)))
    else None
  }

  function RecipientWord(hexer: Checksum, d: string): string
    requires LowerHex(d) && |d| >= 72
  {
    AddressWord(d[32..72]);
    hexer(HexToAddress("0x" + d[32..72]))
  }

  function AmountWord(d: string): string
    requires |d| >= 136
  {
    ToDecimal(BytesValue(FromHex("0x" + d[72..136])))
  }

  function DecodeCall(hexer: Checksum, data: seq<Byte>): Option<Transfer> {
    EncodedIsLowerHex(data);
    DecodeWords(hexer, Bare(Encode(data)))
  }

  // ---------- round trip ----------

  lemma {:induction false} PadsToWord(s: string)
    requires LowerHex(s) && |s| <= 64
    ensures |Pad64(s)| == 64 && LowerHex(Pad64(s)) && HexValue(Pad64(s)) == HexValue(s)
    ensures Pad64(s)[64 - |s|..] == s
  {
    ZerosDoNotCount(64 - |s|, s);
    if |s| == 64 {
      assert Zeros(0) + s == s;
    }
  }

  lemma {:induction false} AmountRoundTrip(n: nat)
    requires FitsWord(n)
    ensures |Pad64(HexText(n))| == 64 && LowerHex(Pad64(HexText(n)))
    ensures BytesValue(FromHex("0x" + Pad64(HexText(n)))) == n
  {
    ToHexSpells(n);
    PadsToWord(ToHex(n));
    var w := Pad64(HexText(n));
    FromHexText(w);
    DecodedValue(w);
  }

  lemma {:induction false} RecipientRoundTrip(hexer: Checksum, recipient: string)
    requires Spells(hexer) && CanonicalAddress(hexer, recipient)
    ensures var w := Pad64(Bare(recipient));
      |w| == 64 && LowerHex(w) && w[24..] == Bare(recipient) && |Bare(recipient)| == 40
    ensures IsHexAddress("0x" + Bare(recipient)) && hexer(HexToAddress("0x" + Bare(recipient))) == recipient
  {
    var a := HexToAddress(recipient);
    assert recipient == hexer(a);
    EncodedIsLowerHex(a);
    EncodeIsHex(a);
    assert Bare(recipient) == Encode(a) by {
      assert Lower(recipient) == "0x" + Encode(a);
    }
    PadsToWord(Encode(a));
    AddressWord(Encode(a));
    DecodeEncode(a);
  }

  lemma {:induction false} SelectorsAreHex()
    ensures LowerHex(TRANSFER_SELECTOR) && LowerHex(TRANSFER_WITH_MEMO_SELECTOR)
    ensures |TRANSFER_SELECTOR| == |TRANSFER_WITH_MEMO_SELECTOR| == 8
        && TRANSFER_SELECTOR != TRANSFER_WITH_MEMO_SELECTOR
  {
    assert TRANSFER_SELECTOR[0] != TRANSFER_WITH_MEMO_SELECTOR[0];
  }

  /** Where the words of the calldata text are. */
  lemma {:induction false} WordSlices(selector: string, to: string, w: string, m: string)
    requires |selector| == 8 && |to| == |w| == 64 && LowerHex(selector) && LowerHex(to) && LowerHex(w) && LowerHex(m)
    ensures var d := Words(selector, to, w, m);
      |d| == 136 + |m| && d[..8] == selector && d[32..72] == to[24..] && d[72..136] == w && d[136..] == m && LowerHex(d)
  {
  }

  lemma {:induction false} CallText(d: string)
    requires LowerHex(d) && |d| % 2 == 0
    ensures Bare(Encode(FromHex("0x" + d))) == d
  {
    FromHexText(d);
    EncodedIsLowerHex(FromHex("0x" + d));
  }

  lemma {:induction false} ReadWords(hexer: Checksum, d: string, m: string)
    requires LowerHex(d) && |d| == 136 + |m| && d[136..] == m
    requires (d[..8] == TRANSFER_SELECTOR && m == "") || (d[..8] == TRANSFER_WITH_MEMO_SELECTOR && |m| == 64)
    ensures DecodeWords(hexer, d)
         == Some(Transfer(AmountWord(d), m != "", if m != "" then "0x" + m else "", RecipientWord(hexer, d)))
  {
    SelectorsAreHex();
    assert |m| == 64 ==> d[136..200] == m;
  }

  lemma {:induction false} ReadCall(hexer: Checksum, d: string)
    requires LowerHex(d) && |d| % 2 == 0
    ensures DecodeCall(hexer, FromHex("0x" + d)) == DecodeWords(hexer, d)
  {
    CallText(d);
  }

  /** The words of a call that was laid out for `recipient` and `n`. */
  lemma {:induction false} ReadFields(hexer: Checksum, d: string, recipient: string, n: nat)
    requires Spells(hexer) && CanonicalAddress(hexer, recipient) && FitsWord(n)
    requires LowerHex(d) && |d| >= 136 && d[32..72] == Pad64(Bare(recipient))[24..] && d[72..136] == Pad64(HexText(n))
    ensures AmountWord(d) == ToDecimal(n) && RecipientWord(hexer, d) == recipient
  {
    RecipientRoundTrip(hexer, recipient);
    AmountRoundTrip(n);
  }

  predicate Selects(selector: string, m: string) {
    (selector == TRANSFER_SELECTOR && m == "") || (selector == TRANSFER_WITH_MEMO_SELECTOR && |m| == 64)
  }

  lemma {:induction false} WordsRead(hexer: Checksum, selector: string, to: string, w: string, m: string)
    requires |to| == |w| == 64 && LowerHex(to) && LowerHex(w) && LowerHex(m) && Selects(selector, m)
    ensures var d := Words(selector, to, w, m);
      && LowerHex(d) && |d| >= 136 && d[32..72] == to[24..] && d[72..136] == w
      && DecodeCall(hexer, FromHex("0x" + d))
         == Some(Transfer(AmountWord(d), m != "", if m != "" then "0x" + m else "", RecipientWord(hexer, d)))
  {
    SelectorsAreHex();
    WordSlices(selector, to, w, m);
    var d := Words(selector, to, w, m);
    ReadCall(hexer, d);
    ReadWords(hexer, d, m);
  }

  lemma {:induction false} FieldWords(hexer: Checksum, selector: string, recipient: string, n: nat, m: string)
    requires Spells(hexer) && CanonicalAddress(hexer, recipient) && FitsWord(n) && LowerHex(m) && Selects(selector, m)
    ensures DecodeCall(hexer, FromHex("0x" + Words(selector, Pad64(Bare(recipient)), Pad64(HexText(n)), m)))
         == Some(Transfer(ToDecimal(n), m != "", if m != "" then "0x" + m else "", recipient))
  {
    var to, w := Pad64(Bare(recipient)), Pad64(HexText(n));
    RecipientRoundTrip(hexer, recipient);
    AmountRoundTrip(n);
    WordsRead(hexer, selector, to, w, m);
    ReadFields(hexer, Words(selector, to, w, m), recipient, n);
  }

  /** The server reads from the calldata exactly the transfer the client encoded. */
  lemma {:induction false} TransferRoundTrip(hexer: Checksum, recipient: string, n: nat)
    requires Spells(hexer) && CanonicalAddress(hexer, recipient) && FitsWord(n)
    ensures DecodeCall(hexer, FromHex(EncodeTransfer(recipient, n)))
        == Some(Transfer(ToDecimal(n), false, "", recipient))
  {
    FieldWords(hexer, TRANSFER_SELECTOR, recipient, n, "");
  }

  lemma {:induction false} MemoTransferRoundTrip(hexer: Checksum, recipient: string, n: nat, memo: string)
    requires Spells(hexer) && CanonicalAddress(hexer, recipient) && FitsWord(n)
    requires |Bare(memo)| == 64 && IsHex(Bare(memo))
    ensures EncodeTransferWithMemo(recipient, n, memo).Some?
    ensures DecodeCall(hexer, FromHex(EncodeTransferWithMemo(recipient, n, memo).value))
         == Some(Transfer(ToDecimal(n), true, "0x" + Bare(memo), recipient))
  {
    BareIsLowerHex(memo);
    FieldWords(hexer, TRANSFER_WITH_MEMO_SELECTOR, recipient, n, Bare(memo));
  }

  lemma {:induction false} BareIsLowerHex(text: string)
    requires IsHex(Bare(text))
    ensures LowerHex(Bare(text))
  {
    BareIsLower(text);
    LowerPointwise(Bare(text));
    assert forall i :: 0 <= i < |Bare(text)| ==> Lower(Bare(text))[i] == Bare(text)[i];
  }
}
