/** 20-byte account addresses and their text forms. */
module Addresses {
  import opened Text
  import opened Hex

  type Address = d: seq<Byte> | |d| == 20 witness seq(20, _ => 0)

  /** Prints an address with a mixed-case checksum. */
  type Checksum = Address -> string

  /** The checksum only chooses the case of the hex digits. */
  ghost predicate Spells(hexer: Checksum) {
    forall a: Address :: Lower(hexer(a)) == "0x" + Encode(a)
  }

  predicate HasHexPrefix(s: string) {
    |s| >= 2 && s[0] == '0' && (s[1] == 'x' || s[1] == 'X')
  }

  function StripHexPrefix(s: string): string {
    if HasHexPrefix(s) then s[2..] else s
  }

  /** common.IsHexAddress. */
  predicate IsHexAddress(s: string) {
    |StripHexPrefix(s)| == 40 && IsHex(StripHexPrefix(s))
  }

  /** common.HexToAddress, on the texts IsHexAddress accepts. */
  function HexToAddress(s: string): Address
    requires IsHexAddress(s)
  {
    Decode(StripHexPrefix(s)).value
  }

  /** normalizeAddress: any accepted spelling becomes the checksummed one. */
  function NormalizeAddress(hexer: Checksum, value: string): Option<string> {
    if IsHexAddress(value) then Some(hexer(HexToAddress(value))) else None
  }

  predicate CanonicalAddress(hexer: Checksum, value: string) {
    NormalizeAddress(hexer, value) == Some(value)
  }

  lemma {:induction false} SpelledAddress(hexer: Checksum, a: Address)
    requires Spells(hexer)
    ensures IsHexAddress(hexer(a)) && HexToAddress(hexer(a)) == a && |hexer(a)| == 42
  {
    var s := hexer(a);
    LowerPointwise(s);
    EncodeIsHex(a);
    assert Lower(s)[0] == '0' && Lower(s)[1] == 'x' && LowerChar(s[0]) == '0' && LowerChar(s[1]) == 'x';
    var t := s[2..];
    LowerPointwise(t);
    assert Lower(t) == Lower(s)[2..] == Encode(a);
    LowerIsHex(t);
    DecodeFoldsCase(t);
    DecodeEncode(a);
  }

  /** Normalizing twice is normalizing once. */
  lemma {:induction false} NormalizeIsIdempotent(hexer: Checksum, value: string)
    requires Spells(hexer) && NormalizeAddress(hexer, value).Some?
    ensures CanonicalAddress(hexer, NormalizeAddress(hexer, value).value)
  {
    SpelledAddress(hexer, HexToAddress(value));
  }
}
