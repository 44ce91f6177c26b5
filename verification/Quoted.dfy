/**
 Quoted strings in authentication headers (RFC 9110, section 5.6.4). Go strings are byte strings: here
 a string whose characters are bytes. Characters past Latin-1 travel as UTF-16 escapes.
 */
module Quoted {
  import opened Text
  import opened Hex

  const RUNE_ERROR: int := 0xFFFD

  predicate Between(c: char, lo: int, hi: int) {
    lo <= c as int <= hi
  }

  predicate IsSurrogate(r: int) {
    0xD800 <= r <= 0xDFFF
  }

  // ---------- UTF-8 ----------

  /** utf8.DecodeRuneInString: the first rune and its length, or RUNE_ERROR and 1 for a stray byte. */
  function DecodeRune(s: string): (d: (int, nat))
    requires s != ""
    ensures 1 <= d.1 <= |s|
  {
    var b := s[0] as int;
    if b < 0x80 then (b, 1)
    else if 0xC2 <= b <= 0xDF && |s| >= 2 && Between(s[1], 0x80, 0xBF) then
      ((b - 0xC0) * 64 + (s[1] as int - 0x80), 2)
    else if 0xE0 <= b <= 0xEF && |s| >= 3 && Between(s[2], 0x80, 0xBF)
            && Between(s[1], if b == 0xE0 then 0xA0 else 0x80, if b == 0xED then 0x9F else 0xBF) then
      ((b - 0xE0) * 4096 + (s[1] as int - 0x80) * 64 + (s[2] as int - 0x80), 3)
    else if 0xF0 <= b <= 0xF4 && |s| >= 4 && Between(s[2], 0x80, 0xBF) && Between(s[3], 0x80, 0xBF)
            && Between(s[1], if b == 0xF0 then 0x90 else 0x80, if b == 0xF4 then 0x8F else 0xBF) then
      ((b - 0xF0) * 262144 + (s[1] as int - 0x80) * 4096 + (s[2] as int - 0x80) * 64 + (s[3] as int - 0x80), 4)
    else (RUNE_ERROR, 1)
  }

  /** strings.Builder.WriteRune. */
  function EncodeRune(r: int): string {
    if 0 <= r < 0x80 then [r as char]
    else if 0x80 <= r < 0x800 then [(0xC0 + r / 64) as char, (0x80 + r % 64) as char]
    else if 0x800 <= r < 0x10000 && !IsSurrogate(r) then
      [(0xE0 + r / 4096) as char, (0x80 + r / 64 % 64) as char, (0x80 + r % 64) as char]
    else if 0x10000 <= r < 0x110000 then
      [(0xF0 + r / 262144) as char, (0x80 + r / 4096 % 64) as char, (0x80 + r / 64 % 64) as char,
          (0x80 + r % 64) as char]
    else [0xEF as char, 0xBF as char, 0xBD as char]
  }

  predicate IsStray(s: string)
    requires s != ""
  {
    DecodeRune(s) == (RUNE_ERROR, 1)
  }

  lemma {:induction false} TwoByteRune(s: string)
    requires s != "" && DecodeRune(s).1 == 2
    ensures EncodeRune(DecodeRune(s).0) == s[..2] && 0x80 <= DecodeRune(s).0 < 0x800 && s[1] as int >= 0x80
  {
    TwoDigits(s[0] as int - 0xC0, s[1] as int - 0x80);
  }

  lemma {:induction false} ThreeByteRune(s: string)
    requires s != "" && DecodeRune(s).1 == 3
    ensures EncodeRune(DecodeRune(s).0) == s[..3] && 0x800 <= DecodeRune(s).0 < 0x10000 && !IsSurrogate(DecodeRune(s).0)
    ensures s[1] as int >= 0x80 && s[2] as int >= 0x80
  {
    var b := s[0] as int;
    TwoDigits(b - 0xE0, s[1] as int - 0x80);
    TwoDigits((b - 0xE0) * 64 + (s[1] as int - 0x80), s[2] as int - 0x80);
    assert DecodeRune(s).0 / 4096 == DecodeRune(s).0 / 64 / 64;
  }

  lemma {:induction false} FourByteRune(s: string)
    requires s != "" && DecodeRune(s).1 == 4
    ensures EncodeRune(DecodeRune(s).0) == s[..4] && 0x10000 <= DecodeRune(s).0 < 0x110000
    ensures s[1] as int >= 0x80 && s[2] as int >= 0x80 && s[3] as int >= 0x80
  {
    var b, r := s[0] as int, DecodeRune(s).0;
    TwoDigits(b - 0xF0, s[1] as int - 0x80);
    TwoDigits((b - 0xF0) * 64 + (s[1] as int - 0x80), s[2] as int - 0x80);
    TwoDigits(((b - 0xF0) * 64 + (s[1] as int - 0x80)) * 64 + (s[2] as int - 0x80), s[3] as int - 0x80);
    assert r / 4096 == r / 64 / 64 && r / 262144 == r / 64 / 64 / 64;
  }

  /** A rune that decodes is a scalar value, and encodes as the bytes it came from. */
  lemma {:induction false} RuneRoundTrip(s: string)
    requires s != "" && !IsStray(s)
    ensures var (r, size) := DecodeRune(s);
      && EncodeRune(r) == s[..size] && 0 <= r < 0x110000 && !IsSurrogate(r)
      && (r < 0x80 <==> size == 1) && (size == 1 ==> r == s[0] as int)
      && (r >= 0x80 ==> forall i :: 0 <= i < size ==> s[i] as int >= 0x80)
  {
    var size := DecodeRune(s).1;
    if size == 2 {
      TwoByteRune(s);
    } else if size == 3 {
      ThreeByteRune(s);
    } else if size == 4 {
      FourByteRune(s);
    }
  }

  lemma {:induction false} TwoDigits(a: int, b: int)
    requires 0 <= b < 64 && a >= 0
    ensures (a * 64 + b) / 64 == a && (a * 64 + b) % 64 == b
  {
  }

  // ---------- UTF-16 escapes ----------

  function Hex4(n: int): string
    requires 0 <= n < 0x10000
  {
    [Digit(n / 4096), Digit(n / 256 % 16), Digit(n / 16 % 16), Digit(n % 16)]
  }

  /** A code unit spelled after a backslash: u and four hex digits. */
  function ReadUnit(s: string): Option<int> {
    if |s| >= 5 && s[0] == 'u' && IsHexDigit(s[1]) && IsHexDigit(s[2]) && IsHexDigit(s[3]) && IsHexDigit(s[4]) then
      Some(Value(s[1]) * 4096 + Value(s[2]) * 256 + Value(s[3]) * 16 + Value(s[4]))
    else None
  }

  /** utf16.DecodeRune. */
  function DecodePair(high: int, low: int): int {
    if 0xD800 <= high < 0xDC00 && 0xDC00 <= low < 0xE000 then (high - 0xD800) * 1024 + (low - 0xDC00) + 0x10000
    else RUNE_ERROR
  }

  /** The rune of a Unicode escape whose backslash has been read, and how many characters it takes. */
  function ReadEscape(s: string): (e: Option<(int, nat)>)
    ensures e.Some? ==> 1 <= e.value.1 <= |s|
  {
    var unit := ReadUnit(s);
    if unit == None then None
    else if !IsSurrogate(unit.value) then Some((unit.value, 5))
    else if |s| > 5 && s[5] == '\\' && ReadUnit(s[6..]).Some?
        && DecodePair(unit.value, ReadUnit(s[6..]).value) != RUNE_ERROR then
      Some((DecodePair(unit.value, ReadUnit(s[6..]).value), 11))
    else Some((RUNE_ERROR, 5))
  }

  /** How a rune past Latin-1 is written, after the first backslash. */
  function EscapeTail(r: int): string
    requires 0 <= r < 0x110000
  {
    if r < 0x10000 then "u" + Hex4(r) else "u" + Hex4(HighHalf(r)) + ("\\u" + Hex4(LowHalf(r)))
  }

  function HighHalf(r: int): (n: int)
    requires 0x10000 <= r < 0x110000
    ensures 0xD800 <= n < 0xDC00
  {
    0xD800 + (r - 0x10000) / 1024
  }

  function LowHalf(r: int): (n: int)
    requires 0x10000 <= r < 0x110000
    ensures 0xDC00 <= n < 0xE000
  {
    0xDC00 + (r - 0x10000) % 1024
  }

  lemma {:induction false} HalvesJoin(r: int)
    requires 0x10000 <= r < 0x110000
    ensures DecodePair(HighHalf(r), LowHalf(r)) == r
  {
  }

  lemma {:induction false} UnitRoundTrip(n: int, rest: string)
    requires 0 <= n < 0x10000
    ensures ReadUnit("u" + Hex4(n) + rest) == Some(n)
  {
    DigitRoundTrip(n / 4096);
    DigitRoundTrip(n / 256 % 16);
    DigitRoundTrip(n / 16 % 16);
    DigitRoundTrip(n % 16);
    assert n / 16 / 16 == n / 256 && n / 256 / 16 == n / 4096;
  }

  lemma {:induction false} PlaneReads(r: int, rest: string)
    requires 0x100 <= r < 0x10000 && !IsSurrogate(r)
    ensures ReadEscape("u" + Hex4(r) + rest) == Some((r, 5))
  {
    UnitRoundTrip(r, rest);
  }

  lemma {:induction false} PairReads(high: int, low: int, rest: string)
    requires 0xD800 <= high < 0xDC00 && 0xDC00 <= low < 0xE000
    ensures ReadEscape("u" + Hex4(high) + ("\\u" + Hex4(low) + rest)) == Some((DecodePair(high, low), 11))
  {
    var tail := "\\u" + Hex4(low) + rest;
    var t := "u" + Hex4(high) + tail;
    UnitRoundTrip(high, tail);
    UnitRoundTrip(low, rest);
    assert t[5] == '\\' && t[6..] == "u" + Hex4(low) + rest;
  }

  lemma {:induction false} Assoc(a: string, b: string, c: string)
    ensures (a + b) + c == a + (b + c)
  {
  }

  lemma {:induction false} EscapeReads(r: int, rest: string)
    requires 0x100 <= r < 0x110000 && !IsSurrogate(r)
    ensures ReadEscape(EscapeTail(r) + rest) == Some((r, |EscapeTail(r)|))
  {
    if r < 0x10000 {
      PlaneReads(r, rest);
    } else {
      HalvesJoin(r);
      PairReads(HighHalf(r), LowHalf(r), rest);
      Assoc("u" + Hex4(HighHalf(r)), "\\u" + Hex4(LowHalf(r)), rest);
    }
  }

  // ---------- escaping ----------

  /** escapeQuoted, one rune at a time: what it writes for the first rune of `s`. */
  function EscapeFirst(s: string): string
    requires s != ""
  {
    var (r, size) := DecodeRune(s);
    if r == RUNE_ERROR && size == 1 then [s[0]]
    else if r == '\r' as int || r == '\n' as int then ""
    else if r == '\\' as int then "\\\\"
    else if r == '"' as int then "\\\""
    else if r <= 0xFF then EncodeRune(r)
    else RuneRoundTrip(s); "\\" + EscapeTail(r)
  }

  function Escape(s: string): string
    decreases |s|
  {
    if s == "" then "" else EscapeFirst(s) + Escape(s[DecodeRune(s).1..])
  }

  method EscapeQuoted(text: string) returns (escaped: string)
    ensures escaped == Escape(text)
  {
    escaped := "";
    var value := text;
    while |value| > 0
      invariant escaped + Escape(value) == Escape(text)
      decreases |value|
    {
      var r, size := DecodeRune(value).0, DecodeRune(value).1;
      var piece: string;
      if r == RUNE_ERROR && size == 1 {
        piece := [value[0]];
      } else if r == '\r' as int || r == '\n' as int {
        piece := "";
      } else if r == '\\' as int {
        piece := "\\\\";
      } else if r == '"' as int {
        piece := "\\\"";
      } else if r <= 0xFF {
        piece := EncodeRune(r);
      } else {
        RuneRoundTrip(value);
        piece := "\\" + EscapeTail(r);
      }
      EscapeUnfolds(escaped, value);
      escaped := escaped + piece;
      value := value[size..];
    }
  }

  lemma {:induction false} EscapeUnfolds(prefix: string, s: string)
    requires s != ""
    ensures prefix + Escape(s) == prefix + EscapeFirst(s) + Escape(s[DecodeRune(s).1..])
  {
  }

  // ---------- reading ----------

  /** The value up to the closing quote, and what follows it. */
  function ReadQuoted(s: string): (r: Option<(string, string)>)
    ensures r.Some? ==> |r.value.1| < |s|
    decreases |s|
  {
    if s == "" then None
    else if s[0] == '"' then Some(("", s[1..]))
    else if s[0] != '\\' then Prepend([s[0]], ReadQuoted(s[1..]))
    else if |s| == 1 then None
    else
      match ReadEscape(s[1..])
      case Some((r, n)) => Prepend(EncodeRune(r), ReadQuoted(s[1 + n..]))
      case None => Prepend([s[1]], ReadQuoted(s[2..]))
  }

  function Prepend(prefix: string, r: Option<(string, string)>): Option<(string, string)> {
    match r case None => None case Some((value, rest)) => Some((prefix + value, rest))
  }

  lemma {:induction false} PrependTwice(a: string, b: string, r: Option<(string, string)>)
    ensures Prepend(a, Prepend(b, r)) == Prepend(a + b, r)
  {
    if r.Some? {
      assert a + (b + r.value.0) == (a + b) + r.value.0;
    }
  }

  lemma {:induction false} ReadsPlain(s: string, i: nat, builder: string)
    requires i < |s| && s[i] != '"' && s[i] != '\\'
    ensures Prepend(builder, ReadQuoted(s[i..])) == Prepend(builder + [s[i]], ReadQuoted(s[i + 1..]))
  {
    assert s[i..][1..] == s[i + 1..];
    PrependTwice(builder, [s[i]], ReadQuoted(s[i + 1..]));
  }

  lemma {:induction false} ReadsEscape(s: string, i: nat, builder: string)
    requires i + 1 < |s| && s[i] == '\\' && ReadEscape(s[i + 1..]).Some?
    ensures var (r, n) := ReadEscape(s[i + 1..]).value;
      Prepend(builder, ReadQuoted(s[i..])) == Prepend(builder + EncodeRune(r), ReadQuoted(s[i + 1 + n..]))
  {
    var (r, n) := ReadEscape(s[i + 1..]).value;
    assert s[i..][1..] == s[i + 1..] && s[i..][1 + n..] == s[i + 1 + n..];
    PrependTwice(builder, EncodeRune(r), ReadQuoted(s[i + 1 + n..]));
  }

  lemma {:induction false} ReadsNext(s: string, i: nat, builder: string)
    requires i + 1 < |s| && s[i] == '\\' && ReadEscape(s[i + 1..]) == None
    ensures Prepend(builder, ReadQuoted(s[i..])) == Prepend(builder + [s[i + 1]], ReadQuoted(s[i + 2..]))
  {
    assert s[i..][1..] == s[i + 1..] && s[i..][2..] == s[i + 2..];
    PrependTwice(builder, [s[i + 1]], ReadQuoted(s[i + 2..]));
  }

  datatype Piece = Unterminated | Closed | Piece(text: string, next: nat)

  /** One round of the loop: what is read at i, with `builder` read before. */
  method ReadPiece(input: string, i: nat, ghost builder: string) returns (p: Piece)
    requires i < |input|
    ensures p.Unterminated? ==> ReadQuoted(input[i..]) == None
    ensures p.Closed? ==> ReadQuoted(input[i..]) == Some(("", input[i + 1..]))
    ensures p.Piece? ==> i < p.next <= |input|
    ensures p.Piece? ==>
        Prepend(builder, ReadQuoted(input[i..])) == Prepend(builder + p.text, ReadQuoted(input[p.next..]))
  {
    var ch := input[i];
    if ch == '\\' {
      if i + 1 >= |input| {
        return Unterminated;
      }
      var escape := ReadEscape(input[i + 1..]);
      if escape.Some? {
        ReadsEscape(input, i, builder);
        return Piece.Piece(EncodeRune(escape.value.0), i + 1 + escape.value.1);
      }
      ReadsNext(input, i, builder);
      return Piece.Piece([input[i + 1]], i + 2);
    } else if ch == '"' {
      assert input[i..][1..] == input[i + 1..];
      return Closed;
    }
    ReadsPlain(input, i, builder);
    return Piece.Piece([ch], i + 1);
  }

  lemma {:induction false} PrependEmpty(r: Option<(string, string)>)
    ensures Prepend("", r) == r
  {
    assert r.Some? ==> "" + r.value.0 == r.value.0;
  }

  /** readQuotedAuthParamValue: the value and the index after the closing quote. */
  method ReadQuotedAuthParamValue(input: string, start: nat) returns (r: Option<(string, nat)>)
    requires start <= |input|
    ensures r.Some? <==> ReadQuoted(input[start..]).Some?
    ensures r.Some? ==> r.value.1 <= |input| && ReadQuoted(input[start..]) == Some((r.value.0, input[r.value.1..]))
  {
    var builder := "";
    var i := start;
    PrependEmpty(ReadQuoted(input[start..]));
    while i < |input|
      invariant start <= i <= |input| && Prepend(builder, ReadQuoted(input[i..])) == ReadQuoted(input[start..])
    {
      var piece := ReadPiece(input, i, builder);
      if piece == Unterminated {
        return None;
      }
      if piece == Closed {
        assert builder + "" == builder;
        return Some((builder, i + 1));
      }
      builder := builder + piece.text;
      i := piece.next;
    }
    return None;
  }

  // ---------- round trip ----------

  /** The value without carriage returns and line feeds. */
  function WithoutBreaks(s: string): string {
    if s == "" then ""
    else (if s[0] == '\r' || s[0] == '\n' then "" else [s[0]]) + WithoutBreaks(s[1..])
  }

  lemma {:induction false} WithoutBreaksConcat(a: string, b: string)
    ensures WithoutBreaks(a + b) == WithoutBreaks(a) + WithoutBreaks(b)
    decreases |a|
  {
    if a == "" {
      assert a + b == b;
    } else {
      assert (a + b)[1..] == a[1..] + b;
      WithoutBreaksConcat(a[1..], b);
    }
  }

  lemma {:induction false} WithoutBreaksIsWhole(s: string)
    ensures WithoutBreaks(s) == s <==> '\r' !in s && '\n' !in s
    ensures |WithoutBreaks(s)| <= |s|
    decreases |s|
  {
    if s == "" {
    } else {
      WithoutBreaksIsWhole(s[1..]);
      assert s == [s[0]] + s[1..];
      if s[0] == '\r' || s[0] == '\n' {
        assert |WithoutBreaks(s)| < |s|;
      } else {
        assert WithoutBreaks(s) == [s[0]] + WithoutBreaks(s[1..]);
        assert WithoutBreaks(s) == s <==> WithoutBreaks(s[1..]) == s[1..];
      }
    }
  }

  lemma {:induction false} HighBytesStay(s: string)
    requires forall i :: 0 <= i < |s| ==> s[i] as int >= 0x80
    ensures WithoutBreaks(s) == s
  {
    WithoutBreaksIsWhole(s);
  }

  lemma {:induction false} PlainReads(p: string, rest: string)
    requires forall i :: 0 <= i < |p| ==> p[i] != '\\' && p[i] != '"'
    ensures ReadQuoted(p + rest) == Prepend(p, ReadQuoted(rest))
    decreases |p|
  {
    if p == "" {
      assert p + rest == rest;
      assert ReadQuoted(rest).Some? ==> "" + ReadQuoted(rest).value.0 == ReadQuoted(rest).value.0;
    } else {
      assert (p + rest)[1..] == p[1..] + rest;
      PlainReads(p[1..], rest);
      PrependTwice([p[0]], p[1..], ReadQuoted(rest));
      assert [p[0]] + p[1..] == p;
    }
  }

  lemma {:induction false} AsciiReads(c: char, rest: string)
    requires c as int < 0x80
    ensures ReadQuoted(EscapeFirst([c]) + rest) == Prepend(WithoutBreaks([c]), ReadQuoted(rest))
  {
    var e := EscapeFirst([c]);
    assert [c][1..] == "" && WithoutBreaks([c]) == if c == '\r' || c == '\n' then "" else [c];
    if c == '\\' || c == '"' {
      assert (e + rest)[2..] == rest && (e + rest)[1] == c && ReadEscape((e + rest)[1..]) == None;
    } else {
      PlainReads(e, rest);
    }
  }

  lemma {:induction false} EscapedRuneReads(r: int, rest: string)
    requires 0x100 <= r < 0x110000 && !IsSurrogate(r)
    ensures ReadQuoted("\\" + EscapeTail(r) + rest) == Prepend(EncodeRune(r), ReadQuoted(rest))
  {
    var e := "\\" + EscapeTail(r);
    EscapeReads(r, rest);
    assert (e + rest)[1..] == EscapeTail(r) + rest;
    assert (e + rest)[1 + |EscapeTail(r)|..] == rest;
  }

  /** Reading undoes the escape of one rune; a line break leaves nothing. */
  lemma {:induction false} FirstReads(s: string, rest: string)
    requires s != ""
    ensures ReadQuoted(EscapeFirst(s) + rest) == Prepend(WithoutBreaks(s[..DecodeRune(s).1]), ReadQuoted(rest))
  {
    var (r, size) := DecodeRune(s);
    var first, e := s[..size], EscapeFirst(s);
    if r == RUNE_ERROR && size == 1 {
      assert e == first;
      HighBytesStay(first);
      PlainReads(e, rest);
    } else {
      RuneRoundTrip(s);
      if r < 0x80 {
        assert first == [s[0]] && e == EscapeFirst([s[0]]);
        AsciiReads(s[0], rest);
      } else {
        HighBytesStay(first);
        if r <= 0xFF {
          PlainReads(e, rest);
        } else {
          EscapedRuneReads(r, rest);
        }
      }
    }
  }

  lemma {:induction false} EscapeSplits(value: string, closed: string)
    requires value != ""
    ensures Escape(value) + closed == EscapeFirst(value) + (Escape(value[DecodeRune(value).1..]) + closed)
  {
    Assoc(EscapeFirst(value), Escape(value[DecodeRune(value).1..]), closed);
  }

  lemma {:induction false} BreaksSplit(value: string, size: nat)
    requires size <= |value|
    ensures WithoutBreaks(value) == WithoutBreaks(value[..size]) + WithoutBreaks(value[size..])
  {
    WithoutBreaksConcat(value[..size], value[size..]);
    assert value[..size] + value[size..] == value;
  }

  lemma {:induction false} EscapedReads(value: string, closed: string)
    requires closed != "" && closed[0] == '"'
    ensures ReadQuoted(Escape(value) + closed) == Some((WithoutBreaks(value), closed[1..]))
    decreases |value|
  {
    if value == "" {
      assert "" + closed == closed;
    } else {
      var size := DecodeRune(value).1;
      EscapedReads(value[size..], closed);
      EscapeSplits(value, closed);
      FirstReads(value, Escape(value[size..]) + closed);
      BreaksSplit(value, size);
    }
  }

  /**
   Unescaping an escaped value gives it back without line breaks: backslashes, quotes, stray bytes and
   every character, in or out of the basic plane.
   */
  lemma {:induction false} EscapeRoundTrip(value: string, rest: string)
    ensures ReadQuoted(Escape(value) + "\"" + rest) == Some((WithoutBreaks(value), rest))
  {
    var closed := "\"" + rest;
    Assoc(Escape(value), "\"", rest);
    EscapedReads(value, closed);
    assert closed[1..] == rest;
  }

  /** So a value comes back whole exactly when it has no line break. */
  lemma {:induction false} EscapeIsLossless(value: string, rest: string)
    ensures ReadQuoted(Escape(value) + "\"" + rest) == Some((value, rest)) <==> '\r' !in value && '\n' !in value
  {
    EscapeRoundTrip(value, rest);
    WithoutBreaksIsWhole(value);
  }
}
