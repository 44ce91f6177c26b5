/**
 What splitting a merged authentication header means for challenges of any scheme, printed by whomever:
 a comma outside quotes before a token and a blank parts the header in two, and no other character does.
 */
module SplitLaws {
  import opened Text
  import opened AuthParams

  /** Whether a scan that starts in (inQuote, escaped) is in a quoted string, or behind a backslash, after s. */
  function After(s: string, inQuote: bool, escaped: bool): (bool, bool)
    decreases |s|
  {
    if s == "" then (inQuote, escaped)
    else if escaped then After(s[1..], inQuote, false)
    else if inQuote && s[0] == '\\' then After(s[1..], inQuote, true)
    else After(s[1..], if s[0] == '"' then !inQuote else inQuote, false)
  }

  predicate Balanced(s: string) {
    After(s, false, false) == (false, false)
  }

  /** A comma at i parts s: it is outside quotes, and a challenge starts behind it. */
  predicate Parts(s: string, i: nat)
    requires i < |s|
  {
    s[i] == ',' && Balanced(s[..i]) && NextChallenge(s[i + 1..]).Some?
  }

  // ---------- looking ahead ----------

  lemma {:induction false} BlanksThenComma(s: string, t: string)
    ensures SkipBlanks(s + ("," + t)) == SkipBlanks(s) + ("," + t)
    decreases |s|
  {
    if s == "" {
      assert s + ("," + t) == "," + t;
    } else {
      assert (s + ("," + t))[1..] == s[1..] + ("," + t);
      BlanksThenComma(s[1..], t);
    }
  }

  lemma {:induction false} TokenThenComma(s: string, t: string)
    ensures TokenLength(s + ("," + t)) == TokenLength(s)
    decreases |s|
  {
    if s == "" {
      assert s + ("," + t) == "," + t;
    } else {
      assert (s + ("," + t))[1..] == s[1..] + ("," + t);
      TokenThenComma(s[1..], t);
    }
  }

  /** A comma ends tokens and blanks alike, so looking ahead never looks past one. */
  lemma {:induction false} LooksNoFurther(s: string, t: string)
    ensures NextChallenge(s + ("," + t))
         == if NextChallenge(s).None? then None else Some(NextChallenge(s).value + ("," + t))
  {
    BlanksThenComma(s, t);
    TokenThenComma(SkipBlanks(s), t);
  }

  lemma {:induction false} BlanksAreBalanced(s: string)
    ensures After(SkipBlanks(s), false, false) == After(s, false, false)
    decreases |s|
  {
    if s != "" && IsBlank(s[0]) {
      BlanksAreBalanced(s[1..]);
    }
  }

  lemma {:induction false} NextStaysBalanced(s: string)
    requires NextChallenge(s).Some?
    ensures After(NextChallenge(s).value, false, false) == After(s, false, false)
  {
    BlanksAreBalanced(s);
  }

  // ---------- composition ----------

  predicate Separates(s: string, inQuote: bool, escaped: bool) {
    s != "" && !escaped && !inQuote && s[0] == ',' && NextChallenge(s[1..]).Some?
  }

  lemma {:induction false} ScanStep(cur: string, s: string, inQuote: bool, escaped: bool)
    requires s != ""
    ensures var e := !escaped && inQuote && s[0] == '\\';
      var q := if !escaped && s[0] == '"' then !inQuote else inQuote;
      && After(s, inQuote, escaped) == After(s[1..], q, e)
      && (!Separates(s, inQuote, escaped) ==>
            SplitRest(cur, s, inQuote, escaped) == SplitRest(cur + [s[0]], s[1..], q, e))
  {
  }

  lemma {:induction false} CommaDivides(cur: string, s: string)
    requires NextChallenge(s).Some?
    ensures SplitRest(cur, "," + s, false, false)
         == Part(cur) + SplitRest("", NextChallenge(s).value, false, false)
  {
    assert ("," + s)[1..] == s;
  }

  lemma {:induction false} RestComposes(cur: string, a: string, b: string, inQuote: bool, escaped: bool)
    requires NextChallenge(b).Some? && After(a, inQuote, escaped) == (false, false)
    ensures SplitRest(cur, a + ("," + b), inQuote, escaped)
         == SplitRest(cur, a, inQuote, escaped) + SplitRest("", NextChallenge(b).value, false, false)
    decreases |a|
  {
    var s := a + ("," + b);
    if a == "" {
      assert s == "," + b;
      CommaDivides(cur, b);
    } else {
      assert s[0] == a[0] && s[1..] == a[1..] + ("," + b);
      LooksNoFurther(a[1..], b);
      if Separates(a, inQuote, escaped) {
        var next := NextChallenge(a[1..]).value;
        NextStaysBalanced(a[1..]);
        RestComposes("", next, b, false, false);
        assert Separates(s, inQuote, escaped);
      } else {
        ScanStep(cur, a, inQuote, escaped);
        ScanStep(cur, s, inQuote, escaped);
        var e := !escaped && inQuote && a[0] == '\\';
        var q := if !escaped && a[0] == '"' then !inQuote else inQuote;
        RestComposes(cur + [a[0]], a[1..], b, q, e);
      }
    }
  }

  predicate Trimmed(s: string) {
    s == "" || (!IsAsciiSpace(s[0]) && !IsAsciiSpace(s[|s| - 1]))
  }

  lemma {:induction false} TrimmedStays(s: string)
    requires Trimmed(s)
    ensures Trim(s) == s
  {
  }

  /** A balanced text, a comma and a challenge: the parts of the one, then the parts of the other. */
  lemma {:induction false} SplitComposes(a: string, b: string)
    requires Trimmed(a) && Balanced(a) && NextChallenge(b).Some? && Trimmed(NextChallenge(b).value)
    ensures Split(a + ("," + b)) == Split(a) + Split(NextChallenge(b).value)
  {
    var s, next := a + ("," + b), NextChallenge(b).value;
    LastOfBlanks(b);
    assert Trimmed(s) by {
      assert s[0] == if a == "" then ',' else a[0];
      assert s[|s| - 1] == b[|b| - 1] == next[|next| - 1];
    }
    TrimmedStays(s);
    TrimmedStays(a);
    TrimmedStays(next);
    RestComposes("", a, b, false, false);
  }

  lemma {:induction false} LastOfBlanks(s: string)
    requires SkipBlanks(s) != ""
    ensures s != "" && s[|s| - 1] == SkipBlanks(s)[|SkipBlanks(s)| - 1]
    decreases |s|
  {
    if IsBlank(s[0]) {
      LastOfBlanks(s[1..]);
    }
  }

  // ---------- parts stay whole ----------

  /** No comma parts s, when its scan starts in (inQuote, escaped). */
  predicate WholeFrom(s: string, inQuote: bool, escaped: bool) {
    forall i :: 0 <= i < |s| && s[i] == ',' && After(s[..i], inQuote, escaped) == (false, false) ==>
      NextChallenge(s[i + 1..]).None?
  }

  lemma {:induction false} WholeScans(cur: string, s: string, inQuote: bool, escaped: bool)
    requires WholeFrom(s, inQuote, escaped)
    ensures SplitRest(cur, s, inQuote, escaped) == Part(cur + s)
    decreases |s|
  {
    if s == "" {
      assert cur + s == cur;
    } else {
      var e := !escaped && inQuote && s[0] == '\\';
      var q := if !escaped && s[0] == '"' then !inQuote else inQuote;
      assert s[..0] == "";
      ScanStep(cur, s, inQuote, escaped);
      WholeShrinks(s, inQuote, escaped, q, e);
      WholeScans(cur + [s[0]], s[1..], q, e);
      assert cur + [s[0]] + s[1..] == cur + s;
    }
  }

  lemma {:induction false} WholeShrinks(s: string, inQuote: bool, escaped: bool, q: bool, e: bool)
    requires s != "" && WholeFrom(s, inQuote, escaped)
    requires e == (!escaped && inQuote && s[0] == '\\')
    requires q == if !escaped && s[0] == '"' then !inQuote else inQuote
    ensures WholeFrom(s[1..], q, e)
  {
    var t := s[1..];
    forall i | 0 <= i < |t| && t[i] == ',' && After(t[..i], q, e) == (false, false)
      ensures NextChallenge(t[i + 1..]).None?
    {
      assert s[..i + 1] == [s[0]] + t[..i] && s[..i + 1][1..] == t[..i];
      ScanStep("", s[..i + 1], inQuote, escaped);
      assert s[i + 1] == ',' && s[i + 2..] == t[i + 1..];
    }
  }

  /** A text that no comma parts is one part. */
  lemma {:induction false} WholeIsOnePart(s: string)
    requires Trimmed(s) && s != "" && forall i :: 0 <= i < |s| ==> !Parts(s, i)
    ensures Split(s) == [s]
  {
    TrimmedStays(s);
    forall i | 0 <= i < |s| && s[i] == ',' && After(s[..i], false, false) == (false, false)
      ensures NextChallenge(s[i + 1..]).None?
    {
      assert !Parts(s, i);
    }
    WholeScans("", s, false, false);
    assert "" + s == s;
  }
}
