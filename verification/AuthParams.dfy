/**
 Auth-params (RFC 9110, section 11.2) and merged WWW-Authenticate values: the printer, the parser and
 the splitter. Strings are byte strings, as in Quoted.
 */
module AuthParams {
  import opened Text
  import opened Quoted

  predicate IsBlank(c: char) {
    c == ' ' || c == '\t'
  }

  predicate IsAsciiSpace(c: char) {
    c == ' ' || '\t' <= c <= '\r'
  }

  predicate IsAlphaNum(c: char) {
    'a' <= c <= 'z' || 'A' <= c <= 'Z' || '0' <= c <= '9'
  }

  predicate IsKeyChar(c: char) {
    IsAlphaNum(c) || c == '_' || c == '-'
  }

  predicate IsTokenChar(c: char) {
    IsAlphaNum(c) || c in "!#$%&'*+-.^_`|~"
  }

  function TrimFront(s: string): (r: string)
    ensures |r| <= |s|
  {
    if s != "" && IsAsciiSpace(s[0]) then TrimFront(s[1..]) else s
  }

  function TrimBack(s: string): string {
    if s != "" && IsAsciiSpace(s[|s| - 1]) then TrimBack(s[..|s| - 1]) else s
  }

  /** strings.TrimSpace on a header value. */
  function Trim(s: string): string {
    TrimBack(TrimFront(s))
  }

  // ---------- scanning ----------

  function SkipBlanks(s: string): (r: string)
    ensures |r| <= |s|
  {
    if s != "" && IsBlank(s[0]) then SkipBlanks(s[1..]) else s
  }

  function SkipSeparators(s: string): (r: string)
    ensures |r| <= |s|
  {
    if s != "" && (s[0] == ',' || IsBlank(s[0])) then SkipSeparators(s[1..]) else s
  }

  function KeyLength(s: string): (n: nat)
    ensures n <= |s|
  {
    if s != "" && IsKeyChar(s[0]) then 1 + KeyLength(s[1..]) else 0
  }

  /** Where an unquoted value ends. */
  function CommaIndex(s: string): (n: nat)
    ensures n <= |s|
  {
    if s != "" && s[0] != ',' then 1 + CommaIndex(s[1..]) else 0
  }

  function ReadValue(s: string): (r: Option<(string, string)>)
    ensures r.Some? ==> |r.value.1| <= |s|
  {
    if s != "" && s[0] == '"' then ReadQuoted(s[1..])
    else Some((Trim(s[..CommaIndex(s)]), s[CommaIndex(s)..]))
  }

  /** One key=value pair and what follows it. */
  datatype Pair = Pair(name: string, value: string, rest: string)

  function ReadPair(s: string): (r: Option<Pair>)
    ensures r.Some? ==> |r.value.rest| < |s|
  {
    var k := KeyLength(s);
    if k == 0 then None else ReadAssigned(Lower(s[..k]), s[k..])
  }

  function ReadAssigned(name: string, s: string): (r: Option<Pair>)
    ensures r.Some? ==> |r.value.rest| < |s|
  {
    var eq := SkipBlanks(s);
    if eq == "" || eq[0] != '=' then None
    else
      match ReadValue(SkipBlanks(eq[1..]))
      case None => None
      case Some((value, rest)) => Some(Pair(name, value, SkipBlanks(rest)))
  }

  /** parseAuthParams; anything after the value of a description is ignored. */
  function ParseParams(s: string, params: map<string, string>): Option<map<string, string>>
    decreases |s|
  {
    var t := SkipSeparators(s);
    if t == "" then Some(params)
    else
      match ReadPair(t)
      case None => None
      case Some(pair) =>
        if pair.name in params then None
        else
          var params' := params[pair.name := pair.value];
          if pair.rest != "" && pair.rest[0] != ',' then (if pair.name == "description" then Some(params') else None)
          else ParseParams(pair.rest, params')
  }

  // ---------- the parser's loop ----------

  method ParseAuthParams(s: string) returns (r: Option<map<string, string>>)
    ensures r == ParseParams(s, map[])
  {
    var params: map<string, string> := map[];
    var i := 0;
    assert s[0..] == s;
    while i < |s|
      invariant i <= |s| && ParseParams(s[i..], params) == ParseParams(s, map[])
      decreases |s| - i
    {
      var start := AfterSeparators(s, i);
      if start >= |s| {
        return Some(params);
      }
      var pair := ReadAuthParam(s, start);
      if pair == None {
        return None;
      }
      var (name, value, next) := pair.value;
      if name in params {
        return None;
      }
      params := params[name := value];
      if next < |s| && s[next] != ',' {
        if name == "description" {
          return Some(params);
        }
        return None;
      }
      i := next;
    }
    assert s[i..] == "";
    return Some(params);
  }

  method AfterSeparators(s: string, start: nat) returns (i: nat)
    requires start <= |s|
    ensures start <= i <= |s| && s[i..] == SkipSeparators(s[start..])
  {
    i := start;
    while i < |s| && (s[i] == ',' || IsBlank(s[i]))
      invariant start <= i <= |s| && SkipSeparators(s[i..]) == SkipSeparators(s[start..])
    {
      assert s[i..][1..] == s[i + 1..];
      i := i + 1;
    }
  }

  method AfterKey(s: string, start: nat) returns (i: nat)
    requires start <= |s|
    ensures start <= i <= |s| && i - start == KeyLength(s[start..])
  {
    i := start;
    while i < |s| && IsKeyChar(s[i])
      invariant start <= i <= |s| && KeyLength(s[start..]) == i - start + KeyLength(s[i..])
    {
      assert s[i..][1..] == s[i + 1..];
      i := i + 1;
    }
  }

  /** One round of the loop: name, value and the index after the blanks behind them. */
  method ReadAuthParam(s: string, start: nat) returns (r: Option<(string, string, nat)>)
    requires start <= |s|
    ensures r.Some? <==> ReadPair(s[start..]).Some?
    ensures r.Some? ==> start < r.value.2 <= |s|
    ensures r.Some? ==> ReadPair(s[start..]) == Some(Pair(r.value.0, r.value.1, s[r.value.2..]))
  {
    var i := AfterKey(s, start);
    var key := s[start..i];
    assert s[start..][..|key|] == key && s[start..][|key|..] == s[i..];
    if key == "" {
      return None;
    }
    r := ReadAssignment(Lower(key), s, i);
  }

  method ReadAssignment(name: string, s: string, start: nat) returns (r: Option<(string, string, nat)>)
    requires start <= |s|
    ensures r.Some? <==> ReadAssigned(name, s[start..]).Some?
    ensures r.Some? ==> r.value.0 == name && start < r.value.2 <= |s|
    ensures r.Some? ==> ReadAssigned(name, s[start..]) == Some(Pair(name, r.value.1, s[r.value.2..]))
  {
    var i := AfterBlanks(s, start);
    if i >= |s| || s[i] != '=' {
      return None;
    }
    assert s[i..][1..] == s[i + 1..];
    i := AfterBlanks(s, i + 1);
    var read := ReadAuthParamValue(s, i);
    if read == None {
      return None;
    }
    i := AfterBlanks(s, read.value.1);
    return Some((name, read.value.0, i));
  }

  method AfterBlanks(s: string, start: nat) returns (i: nat)
    requires start <= |s|
    ensures start <= i <= |s| && s[i..] == SkipBlanks(s[start..])
    ensures forall k :: start <= k < i ==> IsBlank(s[k])
  {
    i := start;
    while i < |s| && IsBlank(s[i])
      invariant start <= i <= |s| && SkipBlanks(s[i..]) == SkipBlanks(s[start..])
      invariant forall k :: start <= k < i ==> IsBlank(s[k])
    {
      assert s[i..][1..] == s[i + 1..];
      i := i + 1;
    }
  }

  method ReadAuthParamValue(input: string, start: nat) returns (r: Option<(string, nat)>)
    requires start <= |input|
    ensures r.Some? <==> ReadValue(input[start..]).Some?
    ensures r.Some? ==>
        start <= r.value.1 <= |input| && ReadValue(input[start..]) == Some((r.value.0, input[r.value.1..]))
  {
    if start < |input| && input[start] == '"' {
      assert input[start..][1..] == input[start + 1..];
      r := ReadQuotedAuthParamValue(input, start + 1);
      return;
    }
    var end := start;
    while end < |input| && input[end] != ','
      invariant start <= end <= |input| && CommaIndex(input[start..]) == end - start + CommaIndex(input[end..])
    {
      assert input[end..][1..] == input[end + 1..];
      end := end + 1;
    }
    assert input[start..][..end - start] == input[start..end] && input[start..][end - start..] == input[end..];
    return Some((Trim(input[start..end]), end));
  }

  // ---------- printing ----------

  datatype Param = Param(name: string, value: string)

  function PrintParam(p: Param): string {
    p.name + ("=\"" + (Escape(p.value) + "\""))
  }

  /** The params joined with a comma and a space. */
  function PrintParams(params: seq<Param>): string {
    if params == [] then ""
    else PrintParam(params[0]) + (if |params| == 1 then "" else ", " + PrintParams(params[1..]))
  }

  predicate IsName(name: string) {
    name != "" && Lower(name) == name && forall i :: 0 <= i < |name| ==> IsKeyChar(name[i])
  }

  predicate NoBreaks(value: string) {
    '\r' !in value && '\n' !in value
  }

  predicate Printable(p: Param) {
    IsName(p.name) && NoBreaks(p.value)
  }

  /** No name twice, and none of those in `seen`. */
  predicate Distinct(params: seq<Param>, seen: set<string>) {
    params == [] || (params[0].name !in seen && Distinct(params[1..], seen + {params[0].name}))
  }

  function ParamsMap(params: seq<Param>, acc: map<string, string>): map<string, string>
    decreases |params|
  {
    if params == [] then acc else ParamsMap(params[1..], acc[params[0].name := params[0].value])
  }

  lemma {:induction false} KeyReads(key: string, rest: string)
    requires forall i :: 0 <= i < |key| ==> IsKeyChar(key[i])
    requires rest != "" && !IsKeyChar(rest[0])
    ensures KeyLength(key + rest) == |key|
    decreases |key|
  {
    if key != "" {
      assert (key + rest)[1..] == key[1..] + rest;
      KeyReads(key[1..], rest);
    } else {
      assert key + rest == rest;
    }
  }

  lemma {:induction false} QuotedValueReads(value: string, rest: string)
    requires NoBreaks(value)
    ensures ReadValue("\"" + (Escape(value) + "\"" + rest)) == Some((value, rest))
  {
    var q := Escape(value) + "\"" + rest;
    assert ("\"" + q)[1..] == q;
    EscapeIsLossless(value, rest);
  }

  lemma {:induction false} AssignedReads(name: string, value: string, rest: string)
    requires NoBreaks(value) && (rest == "" || rest[0] == ',')
    ensures ReadAssigned(name, Assignment(value, rest)) == Some(Pair(name, value, rest))
  {
    var q := "\"" + (Escape(value) + "\"" + rest);
    QuotedValueReads(value, rest);
    assert ("=" + q)[1..] == q;
  }

  /** The text from the equals sign on. */
  function Assignment(value: string, rest: string): string {
    "=" + ("\"" + (Escape(value) + "\"" + rest))
  }

  lemma {:induction false} ParamText(p: Param, rest: string)
    ensures PrintParam(p) + rest == p.name + Assignment(p.value, rest)
  {
    Assoc(p.name, "=\"" + (Escape(p.value) + "\""), rest);
    Assoc("=\"", Escape(p.value) + "\"", rest);
    Assoc("=", "\"", Escape(p.value) + "\"" + rest);
  }

  lemma {:induction false} KeyedReads(name: string, eq: string)
    requires IsName(name) && eq != "" && eq[0] == '='
    ensures ReadPair(name + eq) == ReadAssigned(name, eq)
  {
    KeyReads(name, eq);
    assert (name + eq)[..|name|] == name && (name + eq)[|name|..] == eq;
  }

  /** The parser reads a printed param and stops at the comma behind it. */
  lemma {:induction false} ParamReads(p: Param, rest: string)
    requires Printable(p) && (rest == "" || rest[0] == ',')
    ensures ReadPair(PrintParam(p) + rest) == Some(Pair(p.name, p.value, rest))
  {
    ParamText(p, rest);
    KeyedReads(p.name, Assignment(p.value, rest));
    AssignedReads(p.name, p.value, rest);
  }

  lemma {:induction false} ParamStarts(p: Param, rest: string)
    requires Printable(p)
    ensures PrintParam(p) + rest != "" && SkipSeparators(PrintParam(p) + rest) == PrintParam(p) + rest
  {
    assert (PrintParam(p) + rest)[0] == p.name[0] && IsKeyChar(p.name[0]);
  }

  lemma {:induction false} CommaSkips(s: string)
    ensures SkipSeparators(", " + s) == SkipSeparators(s)
  {
    var blank, comma := " " + s, ", " + s;
    assert blank[1..] == s && comma[1..] == blank;
    assert SkipSeparators(comma) == SkipSeparators(blank) == SkipSeparators(s);
  }

  /** The parser starts by skipping separators, so only what is behind them matters. */
  lemma {:induction false} SameBehindSeparators(s: string, t: string, acc: map<string, string>)
    requires SkipSeparators(s) == SkipSeparators(t)
    ensures ParseParams(s, acc) == ParseParams(t, acc)
  {
  }

  lemma {:induction false} SeparatorSkips(params: seq<Param>, acc: map<string, string>)
    ensures ParseParams(", " + PrintParams(params), acc) == ParseParams(PrintParams(params), acc)
  {
    CommaSkips(PrintParams(params));
    SameBehindSeparators(", " + PrintParams(params), PrintParams(params), acc);
  }

  /** Parsing a printed list of params gives those params. */
  lemma {:induction false} ParamsRoundTrip(params: seq<Param>, acc: map<string, string>)
    requires (forall i :: 0 <= i < |params| ==> Printable(params[i])) && Distinct(params, acc.Keys)
    ensures ParseParams(PrintParams(params), acc) == Some(ParamsMap(params, acc))
    decreases |params|
  {
    if params == [] {
    } else {
      var p, tail := params[0], params[1..];
      var rest := if tail == [] then "" else ", " + PrintParams(tail);
      var acc' := acc[p.name := p.value];
      assert |tail| == |params| - 1;
      assert PrintParams(params) == PrintParam(p) + rest;
      ParamStarts(p, rest);
      ParamReads(p, rest);
      assert acc'.Keys == acc.Keys + {p.name};
      ParamsRoundTrip(tail, acc');
      if tail != [] {
        assert Printable(tail[0]);
        SeparatorSkips(tail, acc');
      }
    }
  }

  // ---------- unquoted values ----------

  /** Text that may stand without quotes: no comma, no quote in front, nothing to trim. */
  predicate Unquoted(value: string) {
    && (forall i :: 0 <= i < |value| ==> value[i] != ',')
    && (value != "" ==> value[0] != '"' && !IsAsciiSpace(value[0]) && !IsAsciiSpace(value[|value| - 1]))
  }

  lemma {:induction false} CommaEnds(value: string, rest: string)
    requires (forall i :: 0 <= i < |value| ==> value[i] != ',') && (rest == "" || rest[0] == ',')
    ensures CommaIndex(value + rest) == |value|
    decreases |value|
  {
    if value == "" {
      assert value + rest == rest;
    } else {
      assert (value + rest)[1..] == value[1..] + rest;
      CommaEnds(value[1..], rest);
    }
  }

  /** An unquoted value is read as it stands, up to the comma behind it, blanks around it aside. */
  lemma {:induction false} UnquotedValueReads(value: string, rest: string)
    requires Unquoted(value) && (rest == "" || rest[0] == ',')
    ensures SkipBlanks(value + rest) == value + rest && ReadValue(value + rest) == Some((value, rest))
  {
    CommaEnds(value, rest);
    var s := value + rest;
    assert s != "" ==> s[0] == if value == "" then ',' else value[0];
    assert s[..|value|] == value && s[|value|..] == rest;
  }

  lemma {:induction false} UnquotedParamReads(name: string, value: string, rest: string)
    requires IsName(name) && Unquoted(value) && (rest == "" || rest[0] == ',')
    ensures ReadPair(name + ("=" + (value + rest))) == Some(Pair(name, value, rest))
  {
    KeyedReads(name, "=" + (value + rest));
    UnquotedValueReads(value, rest);
    assert ("=" + (value + rest))[1..] == value + rest;
  }

  function PrintUnquoted(params: seq<Param>): string {
    if params == [] then ""
    else
      params[0].name + ("=" + (params[0].value + if |params| == 1 then "" else ", " + PrintUnquoted(params[1..])))
  }

  lemma {:induction false} UnquotedStarts(name: string, value: string, rest: string)
    requires IsName(name)
    ensures SkipSeparators(name + ("=" + (value + rest))) == name + ("=" + (value + rest))
    ensures name + ("=" + (value + rest)) != ""
  {
    assert (name + ("=" + (value + rest)))[0] == name[0] && IsKeyChar(name[0]);
  }

  lemma {:induction false} UnquotedSkips(params: seq<Param>, acc: map<string, string>)
    ensures ParseParams(", " + PrintUnquoted(params), acc) == ParseParams(PrintUnquoted(params), acc)
  {
    CommaSkips(PrintUnquoted(params));
    SameBehindSeparators(", " + PrintUnquoted(params), PrintUnquoted(params), acc);
  }

  lemma {:induction false} FirstUnquotedReads(p: Param, rest: string, acc: map<string, string>)
    requires IsName(p.name) && Unquoted(p.value) && (rest == "" || rest[0] == ',') && p.name !in acc
    ensures ParseParams(p.name + ("=" + (p.value + rest)), acc) == ParseParams(rest, acc[p.name := p.value])
  {
    UnquotedStarts(p.name, p.value, rest);
    UnquotedParamReads(p.name, p.value, rest);
  }

  /** A list of unquoted params parses to the same params as its quoted form. */
  lemma {:induction false} UnquotedRoundTrip(params: seq<Param>, acc: map<string, string>)
    requires forall i :: 0 <= i < |params| ==> IsName(params[i].name) && Unquoted(params[i].value)
    requires Distinct(params, acc.Keys)
    ensures ParseParams(PrintUnquoted(params), acc) == Some(ParamsMap(params, acc))
    decreases |params|
  {
    if params == [] {
    } else {
      var p, tail := params[0], params[1..];
      var rest := if tail == [] then "" else ", " + PrintUnquoted(tail);
      var acc' := acc[p.name := p.value];
      assert |tail| == |params| - 1;
      assert PrintUnquoted(params) == p.name + ("=" + (p.value + rest));
      FirstUnquotedReads(p, rest, acc);
      assert acc'.Keys == acc.Keys + {p.name};
      UnquotedRoundTrip(tail, acc');
      if tail != [] {
        UnquotedSkips(tail, acc');
      }
    }
  }

  // ---------- splitting merged headers ----------

  function TokenLength(s: string): (n: nat)
    ensures n <= |s|
  {
    if s != "" && IsTokenChar(s[0]) then 1 + TokenLength(s[1..]) else 0
  }

  /** nextChallengeStart: a token and a blank start a new challenge; the text from there, if so. */
  function NextChallenge(s: string): (r: Option<string>)
    ensures r.Some? ==> |r.value| <= |s|
  {
    var t := SkipBlanks(s);
    var n := TokenLength(t);
    if n > 0 && n < |t| && IsBlank(t[n]) then Some(t) else None
  }

  /** The non-empty part, trimmed, as a list of at most one. */
  function Part(s: string): seq<string> {
    if Trim(s) == "" then [] else [Trim(s)]
  }

  /** The rest of the split, `cur` being the part read so far. */
  function SplitRest(cur: string, s: string, inQuote: bool, escaped: bool): seq<string>
    decreases |s|
  {
    if s == "" then Part(cur)
    else if escaped then SplitRest(cur + [s[0]], s[1..], inQuote, false)
    else if inQuote && s[0] == '\\' then SplitRest(cur + [s[0]], s[1..], inQuote, true)
    else if s[0] == '"' then SplitRest(cur + [s[0]], s[1..], !inQuote, false)
    else if s[0] == ',' && !inQuote && NextChallenge(s[1..]).Some? then
      Part(cur) + SplitRest("", NextChallenge(s[1..]).value, false, false)
    else SplitRest(cur + [s[0]], s[1..], inQuote, false)
  }

  function Split(header: string): seq<string> {
    SplitRest("", Trim(header), false, false)
  }

  /** Text without commas and quotes goes into the part as it is. */
  lemma {:induction false} PlainScans(cur: string, p: string, s: string)
    requires ',' !in p && '"' !in p
    ensures SplitRest(cur, p + s, false, false) == SplitRest(cur + p, s, false, false)
    decreases |p|
  {
    if p == "" {
      assert p + s == s && cur + p == cur;
    } else {
      assert (p + s)[1..] == p[1..] + s && cur + [p[0]] + p[1..] == cur + p;
      PlainScans(cur + [p[0]], p[1..], s);
    }
  }

  /** Inside quotes, so does text without quotes and backslashes. */
  lemma {:induction false} QuotedTextScans(cur: string, p: string, s: string)
    requires '\\' !in p && '"' !in p
    ensures SplitRest(cur, p + s, true, false) == SplitRest(cur + p, s, true, false)
    decreases |p|
  {
    if p == "" {
      assert p + s == s && cur + p == cur;
    } else {
      assert (p + s)[1..] == p[1..] + s && cur + [p[0]] + p[1..] == cur + p;
      QuotedTextScans(cur + [p[0]], p[1..], s);
    }
  }

  /** And a backslash takes the next character along. */
  lemma {:induction false} BackslashScans(cur: string, c: char, s: string)
    ensures SplitRest(cur, ['\\', c] + s, true, false) == SplitRest(cur + ['\\', c], s, true, false)
  {
    var t := ['\\', c] + s;
    assert t[1..] == [c] + s && ([c] + s)[1..] == s && cur + ['\\'] + [c] == cur + ['\\', c];
  }

  lemma {:induction false} UnitScans(cur: string, h: string, s: string)
    requires '\\' !in h && '"' !in h
    ensures SplitRest(cur, "\\u" + (h + s), true, false) == SplitRest(cur + "\\u" + h, s, true, false)
  {
    assert "\\u" == ['\\', 'u'];
    BackslashScans(cur, 'u', h + s);
    QuotedTextScans(cur + "\\u", h, s);
  }

  lemma {:induction false} HexScans(cur: string, n: int, s: string)
    requires 0 <= n < 0x10000
    ensures SplitRest(cur, ("\\u" + Hex4(n)) + s, true, false) == SplitRest(cur + ("\\u" + Hex4(n)), s, true, false)
  {
    var h := Hex4(n);
    UnitScans(cur, h, s);
    Assoc("\\u", h, s);
    Assoc(cur, "\\u", h);
  }

  lemma {:induction false} EscapeTailScans(cur: string, r: int, s: string)
    requires 0x100 <= r < 0x110000
    ensures SplitRest(cur, ("\\" + EscapeTail(r)) + s, true, false)
        == SplitRest(cur + ("\\" + EscapeTail(r)), s, true, false)
  {
    if r < 0x10000 {
      HexScans(cur, r, s);
      assert "\\" + EscapeTail(r) == "\\u" + Hex4(r);
    } else {
      var a, b := "\\u" + Hex4(HighHalf(r)), "\\u" + Hex4(LowHalf(r));
      assert "\\" + EscapeTail(r) == a + b;
      Assoc(a, b, s);
      HexScans(cur, HighHalf(r), b + s);
      HexScans(cur + a, LowHalf(r), s);
      Assoc(cur, a, b);
    }
  }

  lemma {:induction false} FirstScans(cur: string, v: string, s: string)
    requires v != ""
    ensures SplitRest(cur, EscapeFirst(v) + s, true, false) == SplitRest(cur + EscapeFirst(v), s, true, false)
  {
    var r := DecodeRune(v).0;
    if !IsStray(v) {
      RuneRoundTrip(v);
    }
    if !IsStray(v) && (r == '\\' as int || r == '"' as int) {
      BackslashScans(cur, v[0], s);
      assert EscapeFirst(v) == ['\\', v[0]];
    } else if !IsStray(v) && r > 0xFF {
      EscapeTailScans(cur, r, s);
    } else {
      QuotedTextScans(cur, EscapeFirst(v), s);
    }
  }

  /** An escaped value never ends the quoted string it stands in. */
  lemma {:induction false} EscapedScans(cur: string, v: string, s: string)
    ensures SplitRest(cur, Escape(v) + s, true, false) == SplitRest(cur + Escape(v), s, true, false)
    decreases |v|
  {
    if v == "" {
      assert Escape(v) + s == s && cur + Escape(v) == cur;
    } else {
      var e, tail := EscapeFirst(v), v[DecodeRune(v).1..];
      Assoc(e, Escape(tail), s);
      FirstScans(cur, v, Escape(tail) + s);
      EscapedScans(cur + e, tail, s);
      Assoc(cur, e, Escape(tail));
    }
  }

  lemma {:induction false} NameIsPlain(name: string)
    requires IsName(name)
    ensures ',' !in name && '"' !in name
  {
  }

  lemma {:induction false} ParamScans(cur: string, p: Param, s: string)
    requires IsName(p.name)
    ensures SplitRest(cur, PrintParam(p) + s, false, false) == SplitRest(cur + PrintParam(p), s, false, false)
  {
    var e, name := Escape(p.value), p.name + "=";
    var afterName, afterQuote := cur + name, cur + name + "\"";
    NameIsPlain(p.name);
    assert PrintParam(p) + s == name + ("\"" + (e + ("\"" + s)));
    PlainScans(cur, name, "\"" + (e + ("\"" + s)));
    OpensQuote(afterName, e + ("\"" + s));
    EscapedScans(afterQuote, p.value, "\"" + s);
    ClosesQuote(afterQuote + e, s);
    assert afterQuote + e + "\"" == cur + PrintParam(p);
  }

  lemma {:induction false} OpensQuote(cur: string, s: string)
    ensures SplitRest(cur, "\"" + s, false, false) == SplitRest(cur + "\"", s, true, false)
  {
    assert ("\"" + s)[1..] == s;
  }

  lemma {:induction false} ClosesQuote(cur: string, s: string)
    ensures SplitRest(cur, "\"" + s, true, false) == SplitRest(cur + "\"", s, false, false)
  {
    assert ("\"" + s)[1..] == s;
  }

  lemma {:induction false} TokenReads(token: string, rest: string)
    requires forall i :: 0 <= i < |token| ==> IsTokenChar(token[i])
    requires rest != "" && !IsTokenChar(rest[0])
    ensures TokenLength(token + rest) == |token|
    decreases |token|
  {
    if token != "" {
      assert (token + rest)[1..] == token[1..] + rest;
      TokenReads(token[1..], rest);
    } else {
      assert token + rest == rest;
    }
  }

  lemma {:induction false} NameIsNoChallenge(name: string, eq: string)
    requires IsName(name) && eq != "" && eq[0] == '='
    ensures NextChallenge(" " + (name + eq)) == None
  {
    TokenReads(name, eq);
    BlanksSkip(" ", name + eq);
    assert (name + eq)[|name|] == '=';
  }

  /** A comma before a param is not the start of another challenge. */
  lemma {:induction false} ParamIsNoChallenge(p: Param, s: string)
    requires IsName(p.name)
    ensures NextChallenge(" " + (PrintParam(p) + s)) == None
  {
    ParamText(p, s);
    NameIsNoChallenge(p.name, Assignment(p.value, s));
  }

  lemma {:induction false} InnerCommaScans(cur: string, p: Param, s: string)
    requires IsName(p.name)
    ensures SplitRest(cur, ", " + (PrintParam(p) + s), false, false)
        == SplitRest(cur + ", ", PrintParam(p) + s, false, false)
  {
    var t := PrintParam(p) + s;
    ParamIsNoChallenge(p, s);
    CommaBlank(cur, t);
  }

  lemma {:induction false} CommaBlank(cur: string, t: string)
    requires NextChallenge(" " + t) == None
    ensures SplitRest(cur, ", " + t, false, false) == SplitRest(cur + ", ", t, false, false)
  {
    PlainStep(cur, ',', " " + t);
    PlainStep(cur + [','], ' ', t);
    assert cur + [','] + [' '] == cur + ", " && [','] + (" " + t) == ", " + t;
  }

  lemma {:induction false} PlainStep(cur: string, c: char, s: string)
    requires c != '"' && (c == ',' ==> NextChallenge(s) == None)
    ensures SplitRest(cur, [c] + s, false, false) == SplitRest(cur + [c], s, false, false)
  {
    assert ([c] + s)[1..] == s;
  }

  lemma {:induction false} ParamsScan(cur: string, params: seq<Param>, s: string)
    requires forall i :: 0 <= i < |params| ==> IsName(params[i].name)
    ensures SplitRest(cur, PrintParams(params) + s, false, false)
        == SplitRest(cur + PrintParams(params), s, false, false)
    decreases |params|
  {
    if params == [] {
      assert PrintParams(params) + s == s && cur + PrintParams(params) == cur;
    } else if |params| == 1 {
      assert PrintParams(params) == PrintParam(params[0]);
      ParamScans(cur, params[0], s);
    } else {
      var first, tail := PrintParam(params[0]), params[1..];
      var rest := PrintParams(tail);
      ParamScans(cur, params[0], ", " + (rest + s));
      CommaScans(cur + first, tail, s);
      ParamsScan(cur + first + ", ", tail, s);
      Regroup(first, ", ", rest, s);
      Regroup(cur, first, ", ", rest);
    }
  }

  lemma {:induction false} Regroup(a: string, b: string, c: string, d: string)
    ensures (a + (b + c)) + d == a + (b + (c + d)) && (a + b + c) + d == a + (b + (c + d))
  {
  }

  lemma {:induction false} CommaScans(cur: string, params: seq<Param>, s: string)
    requires params != [] && IsName(params[0].name)
    ensures SplitRest(cur, ", " + (PrintParams(params) + s), false, false)
         == SplitRest(cur + ", ", PrintParams(params) + s, false, false)
  {
    var more := if |params| == 1 then "" else ", " + PrintParams(params[1..]);
    Assoc(PrintParam(params[0]), more, s);
    InnerCommaScans(cur, params[0], more + s);
  }

  const SCHEME_PAYMENT := "Payment"

  function ChallengeText(params: seq<Param>): string {
    SCHEME_PAYMENT + (" " + PrintParams(params))
  }

  /** Challenges as a server or a proxy merges them into one header. */
  function Joined(challenges: seq<seq<Param>>, separator: string): string {
    if challenges == [] then ""
    else
      ChallengeText(challenges[0])
      + (if |challenges| == 1 then "" else separator + Joined(challenges[1..], separator))
  }

  predicate IsSeparator(separator: string) {
    separator != "" && separator[0] == ',' && forall i :: 1 <= i < |separator| ==> IsBlank(separator[i])
  }

  lemma {:induction false} BlanksSkip(blanks: string, s: string)
    requires (forall i :: 0 <= i < |blanks| ==> IsBlank(blanks[i])) && s != "" && !IsBlank(s[0])
    ensures SkipBlanks(blanks + s) == s
    decreases |blanks|
  {
    if blanks != "" {
      assert (blanks + s)[1..] == blanks[1..] + s;
      BlanksSkip(blanks[1..], s);
    } else {
      assert blanks + s == s;
    }
  }

  lemma {:induction false} SchemeIsToken(params: seq<Param>, rest: string)
    ensures var t := ChallengeText(params) + rest;
      TokenLength(t) == 7 < |t| && IsBlank(t[7]) && !IsBlank(t[0])
  {
    var after := " " + PrintParams(params) + rest;
    assert ChallengeText(params) + rest == SCHEME_PAYMENT + after;
    TokenReads(SCHEME_PAYMENT, after);
  }

  lemma {:induction false} ChallengeStarts(params: seq<Param>, rest: string, blanks: string)
    requires forall i :: 0 <= i < |blanks| ==> IsBlank(blanks[i])
    ensures NextChallenge(blanks + (ChallengeText(params) + rest)) == Some(ChallengeText(params) + rest)
  {
    SchemeIsToken(params, rest);
    BlanksSkip(blanks, ChallengeText(params) + rest);
  }

  lemma {:induction false} SchemeScans(body: string, s: string)
    ensures SplitRest("", SCHEME_PAYMENT + (" " + body) + s, false, false)
        == SplitRest("Payment ", body + s, false, false)
  {
    assert SCHEME_PAYMENT + (" " + body) + s == "Payment " + (body + s) && "" + "Payment " == "Payment ";
    PlainScans("", "Payment ", body + s);
  }

  lemma {:induction false} ChallengeScans(params: seq<Param>, s: string)
    requires forall i :: 0 <= i < |params| ==> IsName(params[i].name)
    ensures SplitRest("", ChallengeText(params) + s, false, false) == SplitRest(ChallengeText(params), s, false, false)
  {
    var body := PrintParams(params);
    SchemeScans(body, s);
    ParamsScan("Payment ", params, s);
    assert "Payment " + body == SCHEME_PAYMENT + (" " + body);
  }

  lemma {:induction false} LastIsQuote(params: seq<Param>)
    requires params != []
    ensures PrintParams(params) != "" && PrintParams(params)[|PrintParams(params)| - 1] == '"'
    decreases |params|
  {
    if |params| == 1 {
    } else {
      LastIsQuote(params[1..]);
    }
  }

  /** Starts with the scheme and ends with a quote. */
  predicate Solid(s: string) {
    s != "" && s[0] == 'P' && s[|s| - 1] == '"'
  }

  lemma {:induction false} SolidIsTrimmed(s: string)
    requires Solid(s)
    ensures Trim(s) == s && Part(s) == [s]
  {
  }

  lemma {:induction false} ChallengeIsSolid(params: seq<Param>)
    requires params != []
    ensures Solid(ChallengeText(params))
  {
    LastIsQuote(params);
  }

  predicate Named(params: seq<Param>) {
    params != [] && forall i :: 0 <= i < |params| ==> IsName(params[i].name)
  }

  /** What follows the first challenge of a list. */
  function Behind(challenges: seq<seq<Param>>, separator: string): string
    requires challenges != []
  {
    if |challenges| == 1 then "" else separator + Joined(challenges[1..], separator)
  }

  lemma {:induction false} JoinedIsSolid(challenges: seq<seq<Param>>, separator: string)
    requires challenges != [] && forall i :: 0 <= i < |challenges| ==> Named(challenges[i])
    ensures Solid(Joined(challenges, separator))
    decreases |challenges|
  {
    ChallengeIsSolid(challenges[0]);
    if |challenges| == 1 {
      assert Joined(challenges, separator) == ChallengeText(challenges[0]) + "" == ChallengeText(challenges[0]);
    } else {
      JoinedIsSolid(challenges[1..], separator);
    }
  }

  function Texts(challenges: seq<seq<Param>>): seq<string> {
    seq(|challenges|, i requires 0 <= i < |challenges| => ChallengeText(challenges[i]))
  }

  /** A separator ends the part before it and starts the next. */
  lemma {:induction false} SeparatorSplits(text: string, separator: string, params: seq<Param>, rest: string)
    requires IsSeparator(separator) && Solid(text)
    ensures SplitRest(text, separator + (ChallengeText(params) + rest), false, false)
         == [text] + SplitRest("", ChallengeText(params) + rest, false, false)
  {
    var blanks, t := separator[1..], ChallengeText(params) + rest;
    SolidIsTrimmed(text);
    ChallengeStarts(params, rest, blanks);
    assert separator + t == [','] + (blanks + t);
    assert ([','] + (blanks + t))[1..] == blanks + t;
  }

  /** The first of several challenges is cut off at its separator. */
  lemma {:induction false} FirstChallengeScans(challenges: seq<seq<Param>>, separator: string)
    requires |challenges| > 1 && IsSeparator(separator) && Named(challenges[0])
    ensures SplitRest("", Joined(challenges, separator), false, false)
         == [ChallengeText(challenges[0])] + SplitRest("", Joined(challenges[1..], separator), false, false)
  {
    var text, tail := ChallengeText(challenges[0]), challenges[1..];
    ChallengeIsSolid(challenges[0]);
    ChallengeScans(challenges[0], Behind(challenges, separator));
    var behind := Behind(tail, separator);
    assert Joined(tail, separator) == ChallengeText(tail[0]) + behind;
    SeparatorSplits(text, separator, tail[0], behind);
  }

  lemma {:induction false} LastScans(params: seq<Param>)
    requires Named(params)
    ensures SplitRest("", ChallengeText(params), false, false) == [ChallengeText(params)]
  {
    ChallengeIsSolid(params);
    ChallengeScans(params, "");
    assert ChallengeText(params) + "" == ChallengeText(params);
    SolidIsTrimmed(ChallengeText(params));
  }

  lemma {:induction false} JoinedScans(challenges: seq<seq<Param>>, separator: string)
    requires challenges != [] && IsSeparator(separator)
    requires forall i :: 0 <= i < |challenges| ==> Named(challenges[i])
    ensures SplitRest("", Joined(challenges, separator), false, false) == Texts(challenges)
    decreases |challenges|
  {
    if |challenges| == 1 {
      LastScans(challenges[0]);
      assert Joined(challenges, separator) == ChallengeText(challenges[0]) + "" == ChallengeText(challenges[0]);
    } else {
      FirstChallengeScans(challenges, separator);
      JoinedScans(challenges[1..], separator);
      assert Texts(challenges) == [ChallengeText(challenges[0])] + Texts(challenges[1..]);
    }
  }

  /** SplitAuthenticate of comma-joined challenges gives back exactly that list. */
  lemma {:induction false} SplitUndoesJoin(challenges: seq<seq<Param>>, separator: string)
    requires challenges != [] && IsSeparator(separator)
    requires forall i :: 0 <= i < |challenges| ==> Named(challenges[i])
    ensures Split(Joined(challenges, separator)) == Texts(challenges)
  {
    JoinedIsSolid(challenges, separator);
    SolidIsTrimmed(Joined(challenges, separator));
    JoinedScans(challenges, separator);
  }

  // ---------- the splitter's loop ----------

  method AfterToken(s: string, start: nat) returns (i: nat)
    requires start <= |s|
    ensures start <= i <= |s| && i - start == TokenLength(s[start..])
  {
    i := start;
    while i < |s| && IsTokenChar(s[i])
      invariant start <= i <= |s| && TokenLength(s[start..]) == i - start + TokenLength(s[i..])
    {
      assert s[i..][1..] == s[i + 1..];
      i := i + 1;
    }
  }

  method NextChallengeStart(header: string, from: nat) returns (r: int)
    requires from <= |header|
    ensures r < 0 <==> NextChallenge(header[from..]) == None
    ensures r >= 0 ==> from <= r < |header| && NextChallenge(header[from..]) == Some(header[r..])
    ensures forall i :: from <= i < r ==> IsBlank(header[i])
  {
    var start := AfterBlanks(header, from);
    var end := AfterToken(header, start);
    if end == start || end >= |header| {
      return -1;
    }
    if header[end] == '=' {
      return -1;
    }
    if IsBlank(header[end]) {
      return start;
    }
    return -1;
  }

  /** The states of the loop, before character i: inside a part, or among the blanks before the next. */
  function Loop(header: string, start: nat, i: nat, inQuote: bool, escaped: bool): seq<string>
    requires i <= |header| && start <= |header|
  {
    if i < start then SplitRest("", header[start..], false, false)
    else SplitRest(header[start..i], header[i..], inQuote, escaped)
  }

  lemma {:induction false} LoopGoesOn(header: string, start: nat, i: nat, inQuote: bool, escaped: bool)
    requires start <= i < |header|
    requires header[i] == ',' && !inQuote && !escaped ==> NextChallenge(header[i + 1..]) == None
    ensures Loop(header, start, i, inQuote, escaped) ==
      Loop(header, start, i + 1, if !escaped && header[i] == '"' then !inQuote else inQuote,
           !escaped && inQuote && header[i] == '\\')
  {
    assert header[i..][1..] == header[i + 1..] && header[start..i] + [header[i]] == header[start..i + 1];
  }

  lemma {:induction false} LoopSplits(header: string, start: nat, i: nat, next: nat)
    requires start <= i < next <= |header| && header[i] == ',' && NextChallenge(header[i + 1..]) == Some(header[next..])
    ensures Loop(header, start, i, false, false) == Part(header[start..i]) + Loop(header, next, i + 1, false, false)
  {
    assert header[i..][1..] == header[i + 1..];
    LoopAtStart(header, next);
  }

  lemma {:induction false} LoopBlank(header: string, start: nat, i: nat)
    requires i < start <= |header|
    ensures Loop(header, start, i, false, false) == Loop(header, start, i + 1, false, false)
  {
    assert header[start..start] == "";
  }

  lemma {:induction false} LoopEnd(header: string, start: nat, inQuote: bool, escaped: bool)
    requires start <= |header|
    ensures Loop(header, start, |header|, inQuote, escaped) == Part(header[start..])
  {
    assert header[|header|..] == "" && header[start..|header|] == header[start..];
  }

  lemma {:induction false} LoopAtStart(header: string, start: nat)
    requires start <= |header|
    ensures Loop(header, start, start, false, false) == SplitRest("", header[start..], false, false)
  {
    assert header[start..start] == "";
  }

  method AppendPart(parts: seq<string>, text: string) returns (r: seq<string>)
    ensures r == parts + Part(text)
  {
    var part := Trim(text);
    r := parts;
    if part != "" {
      r := r + [part];
    }
  }

  method SplitAuthenticate(text: string) returns (parts: seq<string>)
    ensures parts == Split(text)
  {
    var header := Trim(text);
    if header == "" {
      return [];
    }
    parts := SplitTrimmed(header);
  }

  /** Where the loop stands: the parts split off, the start of the current one, and the quote state. */
  datatype Scan = Scan(parts: seq<string>, start: nat, inQuote: bool, escaped: bool)
  {
    /** Between two parts only blanks are passed over. */
    ghost predicate At(header: string, i: nat) {
      i <= |header| && start <= |header|
      && (i < start ==> !inQuote && !escaped && forall k :: i <= k < start ==> IsBlank(header[k]))
    }

    /** What the split comes to from here. */
    ghost function Comes(header: string, i: nat): seq<string>
      requires At(header, i)
    {
      parts + Loop(header, start, i, inQuote, escaped)
    }
  }

  /** One round of the loop. */
  method Advance(header: string, s: Scan, i: nat) returns (r: Scan)
    requires i < |header| && s.At(header, i)
    ensures r.At(header, i + 1) && r.Comes(header, i + 1) == s.Comes(header, i)
  {
    if i < s.start {
      LoopBlank(header, s.start, i);
      return s;
    }
    var ch := header[i];
    if !s.escaped && ch == ',' && !s.inQuote {
      var next := NextChallengeStart(header, i + 1);
      if next >= 0 {
        LoopSplits(header, s.start, i, next);
        Reassociate(s.parts, Part(header[s.start..i]), Loop(header, next, i + 1, false, false));
        var parts := AppendPart(s.parts, header[s.start..i]);
        return Scan(parts, next, false, false);
      }
    }
    LoopGoesOn(header, s.start, i, s.inQuote, s.escaped);
    if s.escaped {
      return s.(escaped := false);
    } else if s.inQuote && ch == '\\' {
      return s.(escaped := true);
    } else if ch == '"' {
      return s.(inQuote := !s.inQuote);
    }
    return s;
  }

  method SplitTrimmed(header: string) returns (parts: seq<string>)
    ensures parts == SplitRest("", header, false, false)
  {
    LoopAtStart(header, 0);
    assert header[0..] == header;
    var s := Scan([], 0, false, false);
    var i := 0;
    while i < |header|
      invariant s.At(header, i) && s.Comes(header, i) == SplitRest("", header, false, false)
    {
      s := Advance(header, s, i);
      i := i + 1;
    }
    LoopEnd(header, s.start, s.inQuote, s.escaped);
    parts := AppendPart(s.parts, header[s.start..]);
  }

  lemma {:induction false} Reassociate(a: seq<string>, b: seq<string>, c: seq<string>)
    ensures (a + b) + c == a + (b + c)
  {
  }
}
