/**
 Decimal amounts. Three parsers turn human-readable decimals into base units; all three compute
 value * 10^decimals exactly, and refuse whatever that does not make a whole number.
 */
module Decimal {
  import opened Text

  // ---------- numerals ----------

  predicate IsDigit(c: char) {
    '0' <= c <= '9'
  }

  predicate AllDigits(s: string) {
    forall i :: 0 <= i < |s| ==> IsDigit(s[i])
  }

  function Pow10(n: nat): nat {
    if n == 0 then 1 else 10 * Pow10(n - 1)
  }

  /** The number a string of digits spells, leading zeros and all; "" spells 0. */
  function Digits(s: string): nat
    decreases |s|
  {
    if s == "" then 0 else 10 * Digits(s[..|s| - 1]) + DigitValue(s[|s| - 1])
  }

  /** The value of a digit; other characters do not matter and count 0. */
  function DigitValue(c: char): (n: nat)
    ensures n < 10
  {
    if IsDigit(c) then c as int - '0' as int else 0
  }

  function DigitChar(n: nat): char
    requires n < 10
  {
    ('0' as int + n) as char
  }

  /** big.Int's decimal text. */
  function ToDecimal(n: nat): string {
    if n < 10 then [DigitChar(n)] else ToDecimal(n / 10) + [DigitChar(n % 10)]
  }

  /** The one spelling of a number: digits, and no leading zero except in "0". */
  predicate Canonical(s: string) {
    s != "" && AllDigits(s) && (s[0] == '0' ==> s == "0")
  }

  function Zeros(n: nat): string {
    seq(n, _ => '0')
  }

  function TrimZeros(s: string): string {
    if s != "" && s[0] == '0' then TrimZeros(s[1..]) else s
  }

  function TrimRightZeros(s: string): string {
    if s != "" && s[|s| - 1] == '0' then TrimRightZeros(s[..|s| - 1]) else s
  }

  lemma {:induction false} Pow10Adds(m: nat, n: nat)
    ensures Pow10(m + n) == Pow10(m) * Pow10(n) && Pow10(n) > 0
  {
    if n > 0 {
      Pow10Adds(m, n - 1);
      assert Pow10(m + n) == 10 * Pow10(m + n - 1);
    } else {
    }
  }

  lemma {:induction false} DigitsConcat(s: string, t: string)
    ensures Digits(s + t) == Digits(s) * Pow10(|t|) + Digits(t)
    decreases |t|
  {
    if t == "" {
      assert s + t == s;
    } else {
      var t0 := t[..|t| - 1];
      DigitsConcat(s, t0);
      assert (s + t)[..|s + t| - 1] == s + t0;
      assert Digits(s) * Pow10(|t|) == 10 * (Digits(s) * Pow10(|t0|));
    }
  }

  lemma {:induction false} DigitsBound(s: string)
    ensures Digits(s) < Pow10(|s|)
    decreases |s|
  {
    if s == "" {
    } else {
      DigitsBound(s[..|s| - 1]);
    }
  }

  lemma {:induction false} DigitsZero(s: string)
    requires AllDigits(s)
    ensures Digits(s) == 0 <==> forall i :: 0 <= i < |s| ==> s[i] == '0'
    decreases |s|
  {
    if s == "" {
    } else {
      var s0 := s[..|s| - 1];
      DigitsZero(s0);
      assert forall i :: 0 <= i < |s0| ==> s0[i] == s[i];
      if forall i :: 0 <= i < |s0| ==> s0[i] == '0' {
        assert forall i :: 0 <= i < |s| - 1 ==> s[i] == '0' by {
          assert forall i :: 0 <= i < |s0| ==> s[i] == s0[i];
        }
      } else {
        assert Digits(s) > 0;
      }
    }
  }

  lemma {:induction false} ToDecimalSpells(n: nat)
    ensures Canonical(ToDecimal(n)) && Digits(ToDecimal(n)) == n
    ensures n > 0 ==> ToDecimal(n)[0] != '0'
  {
    var s := ToDecimal(n);
    if n >= 10 {
      ToDecimalSpells(n / 10);
      assert s[..|s| - 1] == ToDecimal(n / 10);
    } else {
      assert s[..|s| - 1] == "";
    }
  }

  lemma {:induction false} CanonicalIsToDecimal(s: string)
    requires Canonical(s)
    ensures ToDecimal(Digits(s)) == s
    decreases |s|
  {
    var s0, d := s[..|s| - 1], DigitValue(s[|s| - 1]);
    if s0 == "" {
      assert Digits(s) == d;
      assert s == [DigitChar(d)];
    } else {
      assert s0[0] == s[0];
      CanonicalIsToDecimal(s0);
      DigitsZero(s0);
      assert Digits(s) / 10 == Digits(s0) && Digits(s) % 10 == d;
      assert s == s0 + [DigitChar(d)];
    }
  }

  /** A leading zero changes nothing, so "0" may stand in for an empty integer part. */
  lemma {:induction false} LeadingZero(s: string)
    ensures Digits("0" + s) == Digits(s)
  {
    assert "0"[..0] == "" && Digits("0") == 0;
    DigitsConcat("0", s);
  }

  lemma {:induction false} TrimZerosSpells(s: string)
    requires AllDigits(s)
    ensures AllDigits(TrimZeros(s)) && Digits(TrimZeros(s)) == Digits(s)
    ensures TrimZeros(s) != "" ==> TrimZeros(s)[0] != '0'
    decreases |s|
  {
    if s != "" && s[0] == '0' {
      TrimZerosSpells(s[1..]);
      assert s == "0" + s[1..];
      LeadingZero(s[1..]);
    }
  }

  // ---------- what a decimal string means ----------

  /** strings.IndexByte, with |v| for absent. */
  function IndexOf(v: string, c: char): (i: nat)
    ensures i <= |v|
  {
    if v == "" || v[0] == c then 0 else 1 + IndexOf(v[1..], c)
  }

  function IntPart(v: string): string {
    v[..IndexOf(v, '.')]
  }

  function FracPart(v: string): string {
    if IndexOf(v, '.') < |v| then v[IndexOf(v, '.') + 1..] else ""
  }

  /** Digits with at most one dot, and at least one digit. */
  predicate IsDecimal(v: string) {
    (IntPart(v) != "" || FracPart(v) != "") && AllDigits(IntPart(v)) && AllDigits(FracPart(v))
  }

  /** n is v times 10^decimals: n * 10^k = (v without its dot) * 10^decimals, for k fraction digits. */
  predicate Scaled(v: string, decimals: nat, n: nat) {
    n * Pow10(|FracPart(v)|) == Digits(IntPart(v) + FracPart(v)) * Pow10(decimals)
  }

  /** The fraction cut or padded to `decimals` digits. */
  function Fit(frac: string, decimals: nat): string {
    if |frac| >= decimals then frac[..decimals] else frac + Zeros(decimals - |frac|)
  }

  predicate OnlyZeros(s: string) {
    forall i :: 0 <= i < |s| ==> s[i] == '0'
  }

  /** What the three parsers compute. */
  function Units(value: string, decimals: int): Option<nat> {
    var v := TrimSpace(value);
    if decimals < 0 || !IsDecimal(v) then None
    else if |FracPart(v)| > decimals && !OnlyZeros(FracPart(v)[decimals..]) then None
    else Some(Digits(IntPart(v) + Fit(FracPart(v), decimals)))
  }

  lemma {:induction false} Cancel(n: int, x: int, r: int, p: int)
    requires 0 <= r < p
    ensures n * p == x * p + r <==> n == x && r == 0
  {
    assert n * p == x * p + r <==> (n - x) * p == r;
    assert n - x >= 1 ==> (n - x) * p >= p;
    assert n - x <= -1 ==> (n - x) * p <= -p;
  }

  /** n * (q*p) = (x*p + r) * q only when the remainder r is zero. */
  lemma {:induction false} CutArithmetic(n: int, x: int, r: int, p: int, q: int)
    requires 0 <= r < p && q > 0
    ensures n * (q * p) == (x * p + r) * q <==> n == x && r == 0
  {
    assert n * (q * p) == (n * p) * q;
    Cancel(n * p, x * p + r, 0, q);
    Cancel(n, x, r, p);
  }

  lemma {:induction false} CutScales(int0: string, frac: string, d: nat, n: nat)
    requires AllDigits(frac) && d <= |frac|
    ensures n * Pow10(|frac|) == Digits(int0 + frac) * Pow10(d)
      <==> n == Digits(int0 + frac[..d]) && OnlyZeros(frac[d..])
  {
    var a, b := frac[..d], frac[d..];
    assert int0 + frac == (int0 + a) + b;
    DigitsConcat(int0 + a, b);
    DigitsBound(b);
    DigitsZero(b);
    Pow10Adds(d, |b|);
    Pow10Adds(0, d);
    CutArithmetic(n, Digits(int0 + a), Digits(b), Pow10(|b|), Pow10(d));
  }

  lemma {:induction false} PadArithmetic(n: int, x: int, p: int, q: int)
    requires q > 0
    ensures n * q == x * (q * p) <==> n == x * p
  {
    assert x * (q * p) == (x * p) * q;
    Cancel(n, x * p, 0, q);
  }

  lemma {:induction false} PadScales(int0: string, frac: string, d: nat, n: nat)
    requires |frac| < d
    ensures n * Pow10(|frac|) == Digits(int0 + frac) * Pow10(d) <==> n == Digits(int0 + Fit(frac, d))
  {
    var z := Zeros(d - |frac|);
    assert int0 + Fit(frac, d) == (int0 + frac) + z;
    DigitsConcat(int0 + frac, z);
    DigitsZero(z);
    Pow10Adds(|frac|, |z|);
    Pow10Adds(0, |frac|);
    PadArithmetic(n, Digits(int0 + frac), Pow10(|z|), Pow10(|frac|));
  }

  /**
   A parser answers n exactly when the string is a decimal whose value times 10^decimals is n; so it
   refuses a decimal exactly when that product is not whole.
   */
  lemma {:induction false} UnitsAreExact(value: string, decimals: int, n: nat)
    ensures Units(value, decimals) == Some(n) <==>
      decimals >= 0 && IsDecimal(TrimSpace(value)) && Scaled(TrimSpace(value), decimals, n)
  {
    var v := TrimSpace(value);
    if decimals >= 0 && IsDecimal(v) {
      if |FracPart(v)| >= decimals {
        CutScales(IntPart(v), FracPart(v), decimals, n);
      } else {
        PadScales(IntPart(v), FracPart(v), decimals, n);
      }
    }
  }

  // ---------- the parsers ----------

  lemma {:induction false} AllDigitsConcat(s: string, t: string)
    ensures AllDigits(s + t) <==> AllDigits(s) && AllDigits(t)
  {
    assert forall i :: 0 <= i < |s| ==> s[i] == (s + t)[i];
    assert forall i :: 0 <= i < |t| ==> t[i] == (s + t)[|s| + i];
  }

  lemma {:induction false} MinusIsNoDecimal(v: string)
    requires HasPrefix(v, "-")
    ensures !IsDecimal(v)
  {
    assert v[0] == '-';
    assert !IsDigit(v[0]) && v[0] != '.';
    assert IntPart(v) != "" && IntPart(v)[0] == v[0];
  }

  method CheckDigits(s: string) returns (ok: bool)
    ensures ok == AllDigits(s)
  {
    for i := 0 to |s|
      invariant AllDigits(s[..i])
    {
      if !IsDigit(s[i]) {
        return false;
      }
    }
    assert s[..|s|] == s;
    return true;
  }

  method CheckZeros(s: string) returns (ok: bool)
    ensures ok == OnlyZeros(s)
  {
    for i := 0 to |s|
      invariant OnlyZeros(s[..i])
    {
      if s[i] != '0' {
        return false;
      }
    }
    assert s[..|s|] == s;
    return true;
  }

  /** Where the parsers end up, with "0" for an empty integer part. */
  lemma {:induction false} PartsGiveUnits(text: string, decimals: nat, intPart: string, fracPart: string)
    requires var v := TrimSpace(text);
      && IsDecimal(v) && (|FracPart(v)| > decimals ==> OnlyZeros(FracPart(v)[decimals..]))
      && (intPart == IntPart(v) || (intPart == "0" && IntPart(v) == ""))
      && fracPart == Fit(FracPart(v), decimals)
    ensures AllDigits(intPart + fracPart) && Units(text, decimals) == Some(Digits(intPart + fracPart))
  {
    var v := TrimSpace(text);
    AllDigitsConcat(intPart, fracPart);
    LeadingZero(fracPart);
    assert "" + fracPart == fracPart;
  }

  lemma {:induction false} ZeroPartsGiveUnits(text: string, decimals: nat, intPart: string, fracPart: string)
    requires var v := TrimSpace(text);
      && IsDecimal(v) && (|FracPart(v)| > decimals ==> OnlyZeros(FracPart(v)[decimals..]))
      && intPart == IntPart(v) && fracPart == Fit(FracPart(v), decimals)
    ensures Units(text, decimals) == Some(Digits("0" + intPart + fracPart))
  {
    PartsGiveUnits(text, decimals, intPart, fracPart);
    LeadingZero(intPart + fracPart);
    assert "0" + intPart + fracPart == "0" + (intPart + fracPart);
  }

  /** Characters other than digits in either part make the string no decimal. */
  lemma {:induction false} DecimalParts(v: string, intPart: string, fracPart: string)
    requires intPart == IntPart(v) || (intPart == "0" && IntPart(v) == "")
    requires fracPart == FracPart(v) && (IntPart(v) != "" || fracPart != "")
    ensures IsDecimal(v) <==> AllDigits(intPart + fracPart)
  {
    AllDigitsConcat(intPart, fracPart);
  }

  /** mpp.ParseAmount. */
  method ParseAmount(text: string, decimals: int) returns (r: Option<nat>)
    ensures r == Units(text, decimals)
  {
    var value := TrimSpace(text);
    if value == "" {
      return None;
    }
    if decimals < 0 {
      return None;
    }
    if HasPrefix(value, "-") {
      MinusIsNoDecimal(value);
      return None;
    }
    var intPart, fracPart := value, "";
    var dot := IndexOf(value, '.');
    if dot < |value| {
      intPart := value[..dot];
      fracPart := value[dot + 1..];
    }
    assert intPart == IntPart(value);
    if intPart == "" && fracPart == "" {
      return None;
    }
    if intPart == "" {
      intPart := "0";
    }
    DecimalParts(value, intPart, fracPart);
    var ok := CheckDigits(intPart + fracPart);
    if !ok {
      return None;
    }
    if |fracPart| > decimals {
      ok := CheckZeros(fracPart[decimals..]);
      if !ok {
        return None;
      }
      fracPart := fracPart[..decimals];
    }
    fracPart := fracPart + Zeros(decimals - |fracPart|);
    PartsGiveUnits(text, decimals, intPart, fracPart);
    r := Some(Digits(intPart + fracPart));
  }

  lemma {:induction false} CanonicalUnits(s: string)
    requires AllDigits(s)
    ensures ToDecimal(Digits(s)) == if TrimZeros(s) == "" then "0" else TrimZeros(s)
  {
    TrimZerosSpells(s);
    if TrimZeros(s) == "" {
      assert Digits(TrimZeros(s)) == 0;
      assert ToDecimal(0) == "0";
    } else {
      CanonicalIsToDecimal(TrimZeros(s));
    }
  }

  function Numeral(r: Option<nat>): Option<string> {
    match r case None => None case Some(n) => Some(ToDecimal(n))
  }

  /** tempo.parseUnitsString: the same number, in canonical text. */
  method ParseUnitsString(text: string, decimals: int) returns (r: Option<string>)
    ensures r == Numeral(Units(text, decimals))
  {
    var value := TrimSpace(text);
    if value == "" {
      return None;
    }
    if decimals < 0 {
      return None;
    }
    if HasPrefix(value, "-") {
      MinusIsNoDecimal(value);
      return None;
    }
    var intPart, fracPart := value, "";
    var dot := IndexOf(value, '.');
    if dot < |value| {
      intPart := value[..dot];
      fracPart := value[dot + 1..];
    }
    assert intPart == IntPart(value);
    if intPart == "" && fracPart == "" {
      return None;
    }
    if intPart == "" {
      intPart := "0";
    }
    DecimalParts(value, intPart, fracPart);
    var ok := CheckDigits(intPart + fracPart);
    if !ok {
      return None;
    }
    if |fracPart| > decimals {
      ok := CheckZeros(fracPart[decimals..]);
      if !ok {
        return None;
      }
      fracPart := fracPart[..decimals];
    }
    ghost var cut := fracPart;
    while |fracPart| < decimals
      invariant |cut| <= |fracPart| <= decimals && fracPart == cut + Zeros(|fracPart| - |cut|)
    {
      fracPart := fracPart + "0";
    }
    PartsGiveUnits(text, decimals, intPart, fracPart);
    CanonicalUnits(intPart + fracPart);
    var combined := TrimZeros(intPart + fracPart);
    if combined == "" {
      return Some("0");
    }
    r := Some(combined);
  }

  lemma {:induction false} TrimRightZerosCuts(frac: string, decimals: nat)
    ensures |TrimRightZeros(frac)| > decimals <==> |frac| > decimals && !OnlyZeros(frac[decimals..])
    decreases |frac|
  {
    if frac != "" && frac[|frac| - 1] == '0' {
      var init := frac[..|frac| - 1];
      TrimRightZerosCuts(init, decimals);
      if |init| > decimals {
        assert frac[decimals..] == init[decimals..] + "0";
      }
    } else if |frac| > decimals {
      assert frac[decimals..][|frac| - 1 - decimals] != '0';
    }
  }

  /** The client policy's parseUnits. */
  method ParseUnits(text: string, decimals: int) returns (r: Option<nat>)
    ensures r == Units(text, decimals)
  {
    if decimals < 0 {
      return None;
    }
    var value := TrimSpace(text);
    var intPart, fracPart := IntPart(value), FracPart(value);
    if intPart == "" && fracPart == "" {
      return None;
    }
    DecimalParts(value, intPart, fracPart);
    var ok := CheckDigits(intPart + fracPart);
    if !ok {
      return None;
    }
    TrimRightZerosCuts(fracPart, decimals);
    if |TrimRightZeros(fracPart)| > decimals {
      return None;
    }
    if |fracPart| > decimals {
      fracPart := fracPart[..decimals];
    }
    fracPart := fracPart + Zeros(decimals - |fracPart|);
    ZeroPartsGiveUnits(text, decimals, intPart, fracPart);
    r := Some(Digits("0" + intPart + fracPart));
  }
}
