/** Hexadecimal text of byte strings. */
module Hex {
  import opened Text

  type Byte = b: int | 0 <= b < 256

  /** A 32-byte digest, such as Keccak-256 produces. */
  type Digest = d: seq<Byte> | |d| == 32 witness seq(32, _ => 0)

  const DIGITS := "0123456789abcdef"

  function Digit(n: int): char
    requires 0 <= n < 16
  {
    DIGITS[n]
  }

  predicate IsHexDigit(c: char) {
    '0' <= c <= '9' || 'a' <= c <= 'f' || 'A' <= c <= 'F'
  }

  function Value(c: char): (n: int)
    requires IsHexDigit(c)
    ensures 0 <= n < 16
  {
    if '0' <= c <= '9' then c as int - '0' as int
    else if 'a' <= c <= 'f' then c as int - 'a' as int + 10
    else c as int - 'A' as int + 10
  }

  lemma {:induction false} DigitRoundTrip(n: int)
    requires 0 <= n < 16
    ensures IsHexDigit(Digit(n)) && Value(Digit(n)) == n && LowerChar(Digit(n)) == Digit(n)
  {
  }

  predicate IsHex(s: string) {
    |s| % 2 == 0 && forall i :: 0 <= i < |s| ==> IsHexDigit(s[i])
  }

  /** hex.EncodeToString. */
  function Encode(b: seq<Byte>): string {
    seq(2 * |b|, i requires 0 <= i < 2 * |b| => Digit(if i % 2 == 0 then b[i / 2] / 16 else b[i / 2] % 16))
  }

  /** hex.DecodeString; either case is accepted. */
  function Decode(s: string): Option<seq<Byte>> {
    if !IsHex(s) then None
    else Some(seq(|s| / 2, i requires 0 <= i < |s| / 2 => 16 * Value(s[2 * i]) + Value(s[2 * i + 1])))
  }

  lemma {:induction false} EncodeIsHex(b: seq<Byte>)
    ensures |Encode(b)| == 2 * |b| && IsHex(Encode(b))
  {
    forall i | 0 <= i < 2 * |b| ensures IsHexDigit(Encode(b)[i]) {
      DigitRoundTrip(if i % 2 == 0 then b[i / 2] / 16 else b[i / 2] % 16);
    }
  }

  lemma {:induction false} EncodeAt(b: seq<Byte>, i: nat)
    requires i < |b|
    ensures Encode(b)[2 * i] == Digit(b[i] / 16) && Encode(b)[2 * i + 1] == Digit(b[i] % 16)
  {
    assert (2 * i) % 2 == 0 && (2 * i) / 2 == i && (2 * i + 1) % 2 == 1 && (2 * i + 1) / 2 == i;
  }

  lemma {:induction false} DecodeEncode(b: seq<Byte>)
    ensures |Encode(b)| == 2 * |b| && IsHex(Encode(b)) && Decode(Encode(b)) == Some(b)
  {
    EncodeIsHex(b);
    var s := Encode(b);
    var d := Decode(s).value;
    forall i | 0 <= i < |b| ensures d[i] == b[i] {
      EncodeAt(b, i);
      DigitRoundTrip(b[i] / 16);
      DigitRoundTrip(b[i] % 16);
      assert d[i] == 16 * Value(s[2 * i]) + Value(s[2 * i + 1]);
    }
    assert d == b;
  }

  lemma {:induction false} EncodeIsLower(b: seq<Byte>)
    ensures Lower(Encode(b)) == Encode(b)
  {
    forall i | 0 <= i < 2 * |b| ensures Lower(Encode(b))[i] == Encode(b)[i] {
      DigitRoundTrip(if i % 2 == 0 then b[i / 2] / 16 else b[i / 2] % 16);
    }
  }

  lemma {:induction false} EncodeInjective(a: seq<Byte>, b: seq<Byte>)
    ensures Encode(a) == Encode(b) ==> a == b
  {
    DecodeEncode(a);
    DecodeEncode(b);
  }

  lemma {:induction false} ValueFolds(c: char)
    requires IsHexDigit(c)
    ensures IsHexDigit(LowerChar(c)) && Value(LowerChar(c)) == Value(c) && Digit(Value(c)) == LowerChar(c)
  {
  }

  lemma {:induction false} LowerIsHex(s: string)
    ensures IsHex(Lower(s)) <==> IsHex(s)
  {
    LowerPointwise(s);
    assert forall c: char :: IsHexDigit(LowerChar(c)) <==> IsHexDigit(c);
    assert forall i :: 0 <= i < |s| ==> (IsHexDigit(Lower(s)[i]) <==> IsHexDigit(s[i]));
  }

  lemma {:induction false} DecodeFoldsCase(s: string)
    ensures Decode(Lower(s)) == Decode(s)
  {
    LowerPointwise(s);
    LowerIsHex(s);
    if IsHex(s) {
      forall i | 0 <= i < |s| ensures Value(Lower(s)[i]) == Value(s[i]) {
        ValueFolds(s[i]);
      }
      assert Decode(Lower(s)).value == Decode(s).value;
    }
  }

  lemma {:induction false} EncodeDecode(s: string)
    requires IsHex(s)
    ensures |Decode(s).value| == |s| / 2 && Encode(Decode(s).value) == Lower(s)
  {
    var b := Decode(s).value;
    LowerPointwise(s);
    forall i | 0 <= i < |s| ensures Encode(b)[i] == Lower(s)[i] {
      var k := i / 2;
      assert i == 2 * k || i == 2 * k + 1;
      ValueFolds(s[2 * k]);
      ValueFolds(s[2 * k + 1]);
      assert b[k] / 16 == Value(s[2 * k]) && b[k] % 16 == Value(s[2 * k + 1]);
      EncodeAt(b, k);
    }
  }
}
