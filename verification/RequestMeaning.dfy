/**
 What a charge request means: which requests come of parameters, and of any generic map, told by the
 exact values of their amounts, the bytes of their addresses and memos, and the order of their splits.
 */
module RequestMeaning {
  import opened Text
  import opened Hex
  import opened Addresses
  import opened Decimal
  import opened ChargeRequest

  // ---------- what single texts mean ----------

  /** The two texts are the same account, and the first is how that account prints. */
  predicate SameAccount(cx: Context, account: string, given: string) {
    && IsHexAddress(given) && IsHexAddress(account)
    && HexToAddress(account) == HexToAddress(given) && account == cx.hexer(HexToAddress(account))
  }

  /** `amount` is the canonical numeral of exactly `given` times 10^decimals. */
  predicate IsAmount(amount: string, given: string, decimals: int) {
    && decimals >= 0 && IsDecimal(TrimSpace(given))
    && Canonical(amount) && Scaled(TrimSpace(given), decimals, Digits(amount))
  }

  /** The same number, without blanks around it and zeros before it. */
  predicate SameNumber(amount: string, given: string) {
    && TrimSpace(given) != "" && AllDigits(TrimSpace(given))
    && Canonical(amount) && Digits(amount) == Digits(TrimSpace(given))
  }

  /** No memo, or the same 64 hex digits up to case, with one 0x before them. */
  predicate SameMemo(memo: string, given: string) {
    if given == "" then memo == ""
    else |memo| == 66 && memo[..2] == "0x" && IsHex(memo[2..]) && (Lower(given) == memo || Lower(given) == memo[2..])
  }

  lemma {:induction false} AccountMeans(cx: Context, account: string, given: string)
    requires Spells(cx.hexer)
    ensures NormalizeAddress(cx.hexer, given) == Some(account) <==> SameAccount(cx, account, given)
  {
    if IsHexAddress(given) {
      SpelledAddress(cx.hexer, HexToAddress(given));
    }
  }

  lemma {:induction false} AmountMeans(amount: string, given: string, decimals: int)
    ensures (Units(given, decimals).Some? && amount == ToDecimal(Units(given, decimals).value))
      <==> IsAmount(amount, given, decimals)
  {
    UnitsAreExact(given, decimals, Digits(amount));
    if Units(given, decimals).Some? {
      ToDecimalSpells(Units(given, decimals).value);
      UnitsAreExact(given, decimals, Units(given, decimals).value);
    }
    if Canonical(amount) {
      CanonicalIsToDecimal(amount);
    }
  }

  lemma {:induction false} NumberMeans(amount: string, given: string)
    ensures (ParseBaseUnitAmount(given).Some? && amount == ToDecimal(ParseBaseUnitAmount(given).value))
      <==> SameNumber(amount, given)
  {
    if ParseBaseUnitAmount(given).Some? {
      ToDecimalSpells(ParseBaseUnitAmount(given).value);
    }
    if Canonical(amount) {
      CanonicalIsToDecimal(amount);
    }
  }

  lemma {:induction false} MemoMeans(memo: string, given: string)
    ensures NormalizeMemo(given) == Some(memo) <==> SameMemo(memo, given)
  {
    var low := Lower(given);
    if "0x" <= low {
      assert low == "0x" + low[2..];
      assert !IsHexDigit(low[1]);
    }
    if |memo| == 66 && memo[..2] == "0x" {
      assert memo == "0x" + memo[2..];
    }
  }

  // ---------- splits ----------

  function Total(splits: seq<Split>): nat {
    if splits == [] then 0 else Digits(splits[0].amount) + Total(splits[1..])
  }

  /** Every split pays something, and together they leave something of the total. */
  predicate Leaves(total: string, splits: seq<Split>) {
    && (forall i :: 0 <= i < |splits| ==> Digits(splits[i].amount) > 0)
    && (splits != [] ==> Total(splits) < Digits(total))
  }

  predicate IsSplit(cx: Context, s: Split, p: SplitParams, decimals: int) {
    IsAmount(s.amount, p.amount, decimals) && SameMemo(s.memo, p.memo) && SameAccount(cx, s.recipient, p.recipient)
  }

  predicate ReadsSplit(cx: Context, s: Split, m: map<string, Value>) {
    && SameNumber(s.amount, AsString(cx, Lookup(m, "amount")))
    && SameMemo(s.memo, AsString(cx, Lookup(m, "memo")))
    && SameAccount(cx, s.recipient, AsString(cx, Lookup(m, "recipient")))
  }

  lemma {:induction false} SplitMeans(cx: Context, s: Split, p: SplitParams, decimals: int)
    requires Spells(cx.hexer)
    ensures NormalizeSplit(cx, p, decimals) == Some(s) <==> IsSplit(cx, s, p, decimals)
  {
    AmountMeans(s.amount, p.amount, decimals);
    AccountMeans(cx, s.recipient, p.recipient);
    MemoMeans(s.memo, p.memo);
  }

  lemma {:induction false} ReadSplitMeans(cx: Context, s: Split, m: map<string, Value>)
    requires Spells(cx.hexer)
    ensures ParseSplit(cx, m) == Some(s) <==> ReadsSplit(cx, s, m)
  {
    NumberMeans(s.amount, AsString(cx, Lookup(m, "amount")));
    AccountMeans(cx, s.recipient, AsString(cx, Lookup(m, "recipient")));
    MemoMeans(s.memo, AsString(cx, Lookup(m, "memo")));
  }

  predicate CanonicalAmounts(splits: seq<Split>) {
    forall i :: 0 <= i < |splits| ==> Canonical(splits[i].amount)
  }

  lemma {:induction false} TotalGrows(splits: seq<Split>, n: nat)
    requires n < |splits|
    ensures Total(splits[..n + 1]) == Total(splits[..n]) + Digits(splits[n].amount)
    decreases n
  {
    if n == 0 {
      assert splits[..1] == [splits[0]];
    } else {
      TotalGrows(splits[1..], n - 1);
      assert splits[..n + 1][1..] == splits[1..][..n] && splits[..n][1..] == splits[1..][..n - 1];
    }
  }

  lemma {:induction false} SumIsTotal(splits: seq<Split>, n: nat)
    requires n <= |splits| && CanonicalAmounts(splits)
    ensures SplitSum(splits, n) == Total(splits[..n])
  {
    if n == 0 {
    } else {
      SumIsTotal(splits, n - 1);
      TotalGrows(splits, n - 1);
      CanonicalAmount(splits[n - 1].amount);
    }
  }

  lemma {:induction false} ValidMeansLeaves(total: string, splits: seq<Split>)
    requires Canonical(total) && CanonicalAmounts(splits)
    ensures ValidSplits(total, splits) <==> Leaves(total, splits)
  {
    CanonicalAmount(total);
    forall i | 0 <= i < |splits| ensures Positive(splits[i]) <==> Digits(splits[i].amount) > 0 {
      CanonicalAmount(splits[i].amount);
    }
    SumIsTotal(splits, |splits|);
    assert splits[..|splits|] == splits;
  }

  /** The splits are the parameters' own, one for one and in order. */
  predicate AreSplits(cx: Context, splits: seq<Split>, given: seq<SplitParams>, decimals: int) {
    && |splits| == |given| <= MAX_SPLITS
    && forall i :: 0 <= i < |splits| ==> IsSplit(cx, splits[i], given[i], decimals)
  }

  lemma {:induction false} SplitsMean(cx: Context, splits: seq<Split>, given: seq<SplitParams>, decimals: int,
                                      total: string)
    requires Spells(cx.hexer) && Canonical(total)
    ensures NormalizeSplitsSpec(cx, given, decimals, total) == Some(splits)
      <==> AreSplits(cx, splits, given, decimals) && Leaves(total, splits)
  {
    var f := (p: SplitParams) => NormalizeSplit(cx, p, decimals);
    MapAllMeans(f, given, splits);
    if |splits| == |given| {
      forall i | 0 <= i < |splits|
        ensures f(given[i]) == Some(splits[i]) <==> IsSplit(cx, splits[i], given[i], decimals)
      {
        SplitMeans(cx, splits[i], given[i], decimals);
      }
      if AreSplits(cx, splits, given, decimals) || MapAll(f, given) == Some(splits) {
        ValidMeansLeaves(total, splits);
      }
    }
  }

  lemma {:induction false} MapAllMeans<A, B>(f: A -> Option<B>, xs: seq<A>, ys: seq<B>)
    ensures MapAll(f, xs) == Some(ys) <==> |ys| == |xs| && forall i :: 0 <= i < |xs| ==> f(xs[i]) == Some(ys[i])
  {
    if |ys| == |xs| && (forall i :: 0 <= i < |xs| ==> f(xs[i]) == Some(ys[i])) {
      assert MapAll(f, xs).value == ys;
    }
  }

  // ---------- parameters ----------

  predicate Allowed(modes: seq<string>) {
    forall i :: 0 <= i < |modes| ==> modes[i] in ["pull", "push"]
  }

  lemma {:induction false} SupportedIsAllowed(modes: seq<string>)
    ensures SupportedModes(modes) <==> Allowed(modes)
  {
    assert forall i :: 0 <= i < |modes| ==> (IsSupportedMode(modes[i]) <==> modes[i] in ["pull", "push"]);
  }

  /** The request these parameters ask for. */
  predicate Asks(cx: Context, p: Params, r: Request) {
    var decimals := if p.decimals == 0 then 6 else p.decimals;
    && IsAmount(r.amount, p.amount, decimals)
    && SameAccount(cx, r.currency, p.currency) && SameAccount(cx, r.recipient, p.recipient)
    && AreSplits(cx, r.splits, p.splits, decimals) && Leaves(r.amount, r.splits)
    && r.description == p.description && r.externalID == p.externalID
    && r.chainID == (if p.chainID == 0 then None else Some(p.chainID))
    && r.feePayer == p.feePayer && r.feePayerURL == p.feePayerURL
    && r.modes == p.modes && Allowed(p.modes)
  }

  /** Blank amounts are no decimals and blank addresses no accounts, so they need no check of their own. */
  lemma {:induction false} BlankAsksNothing(cx: Context, p: Params, r: Request)
    requires p.amount == "" || p.currency == "" || p.recipient == ""
    ensures !Asks(cx, p, r)
  {
    assert TrimSpace("") == "" && !IsDecimal("");
  }

  /** The request the code assembles from the parameters' parts. */
  predicate Built(cx: Context, p: Params, decimals: int, r: Request) {
    && Units(p.amount, decimals).Some? && r.amount == ToDecimal(Units(p.amount, decimals).value)
    && NormalizeAddress(cx.hexer, p.currency) == Some(r.currency)
    && NormalizeAddress(cx.hexer, p.recipient) == Some(r.recipient)
    && SupportedModes(p.modes) && NormalizeSplitsSpec(cx, p.splits, decimals, r.amount) == Some(r.splits)
    && r.description == p.description && r.externalID == p.externalID
    && r.chainID == (if p.chainID == 0 then None else Some(p.chainID))
    && r.feePayer == p.feePayer && r.feePayerURL == p.feePayerURL && r.modes == p.modes
  }

  lemma {:induction false} NormalizeBuilds(cx: Context, p: Params, r: Request)
    requires p.amount != "" && p.currency != "" && p.recipient != ""
    ensures Normalize(cx, p) == Some(r) <==> Built(cx, p, if p.decimals == 0 then 6 else p.decimals, r)
  {
  }

  lemma {:induction false} BuiltIsAsked(cx: Context, p: Params, r: Request)
    requires Spells(cx.hexer)
    ensures Built(cx, p, if p.decimals == 0 then 6 else p.decimals, r) <==> Asks(cx, p, r)
  {
    var decimals := if p.decimals == 0 then 6 else p.decimals;
    AmountMeans(r.amount, p.amount, decimals);
    AccountMeans(cx, r.currency, p.currency);
    AccountMeans(cx, r.recipient, p.recipient);
    SupportedIsAllowed(p.modes);
    if Canonical(r.amount) {
      SplitsMean(cx, r.splits, p.splits, decimals, r.amount);
    }
  }

  /** Normalizing gives a request exactly when there is one that the parameters ask for, and gives that one. */
  lemma {:induction false} NormalizeMeans(cx: Context, p: Params, r: Request)
    requires Spells(cx.hexer)
    ensures Normalize(cx, p) == Some(r) <==> Asks(cx, p, r)
  {
    if p.amount == "" || p.currency == "" || p.recipient == "" {
      BlankAsksNothing(cx, p, r);
    } else {
      NormalizeBuilds(cx, p, r);
      BuiltIsAsked(cx, p, r);
    }
  }

  // ---------- generic maps ----------

  /** An optional sign and digits. */
  predicate SpellsInt(s: string, n: int) {
    var digits := if s != "" && s[0] in "+-" then s[1..] else s;
    digits != "" && AllDigits(digits) && n == if s[0] == '-' then -(Digits(digits) as int) else Digits(digits)
  }

  /** A number or its text; a fraction, or a number that no 64 bits hold, has no reading. */
  predicate ReadsChainID(v: Value, chainID: Option<Int64>) {
    match v
    case Int(n) => chainID.Some? && chainID.value == n
    case Fraction(_) => false
    case Text(s) => if s == "" then chainID.None? else chainID.Some? && SpellsInt(s, chainID.value)
    case _ => chainID.None?
  }

  predicate ReadsSplits(cx: Context, v: Value, splits: seq<Split>) {
    match v
    case Null => splits == []
    case Objects(objects) =>
      && 1 <= |splits| == |objects| <= 10
      && (forall i :: 0 <= i < |splits| ==> ReadsSplit(cx, splits[i], objects[i]))
    case List(items) =>
      && 1 <= |splits| == |items| <= 10
      && (forall i :: 0 <= i < |splits| ==> items[i].Object? && ReadsSplit(cx, splits[i], items[i].fields))
    case _ => false
  }

  /** The texts of the items that have one, in order. */
  function Spoken(cx: Context, items: seq<Value>): seq<string> {
    if items == [] then []
    else
      var last := AsString(cx, items[|items| - 1]);
      Spoken(cx, items[..|items| - 1]) + if last == "" then [] else [last]
  }

  predicate ReadsModes(cx: Context, v: Value, modes: seq<string>) {
    && Allowed(modes)
    && match v
       case Texts(texts) => modes == texts
       case List(items) => modes == Spoken(cx, items)
       case _ => modes == []
  }

  /** What methodDetails says; anything but an object says nothing. */
  predicate ReadsDetails(cx: Context, v: Value, r: Request) {
    if v.Object? then
      && ReadsChainID(Lookup(v.fields, "chainId"), r.chainID)
      && r.feePayer == (Lookup(v.fields, "feePayer") in [Bool(true), Text("true")])
      && r.feePayerURL == AsString(cx, Lookup(v.fields, "feePayerUrl"))
      && ReadsSplits(cx, Lookup(v.fields, "splits"), r.splits)
      && ReadsModes(cx, Lookup(v.fields, "supportedModes"), r.modes)
    else r.chainID == None && !r.feePayer && r.feePayerURL == "" && r.splits == [] && r.modes == []
  }

  /** The request this map spells, canonical or not. */
  predicate Reads(cx: Context, m: map<string, Value>, r: Request) {
    && SameNumber(r.amount, AsString(cx, Lookup(m, "amount")))
    && SameAccount(cx, r.currency, AsString(cx, Lookup(m, "currency")))
    && SameAccount(cx, r.recipient, AsString(cx, Lookup(m, "recipient")))
    && r.description == AsString(cx, Lookup(m, "description"))
    && r.externalID == AsString(cx, Lookup(m, "externalId"))
    && ReadsDetails(cx, Lookup(m, "methodDetails"), r) && Leaves(r.amount, r.splits)
  }

  lemma {:induction false} ChainIDMeans(v: Value, chainID: Option<Int64>)
    ensures AsInt64(v) == Some(chainID) <==> ReadsChainID(v, chainID)
  {
  }

  lemma {:induction false} ObjectsMean(cx: Context, objects: seq<map<string, Value>>, splits: seq<Split>)
    requires Spells(cx.hexer)
    ensures MapAll((m: map<string, Value>) => ParseSplit(cx, m), objects) == Some(splits)
      <==> |splits| == |objects| && forall i :: 0 <= i < |splits| ==> ReadsSplit(cx, splits[i], objects[i])
  {
    var f := (m: map<string, Value>) => ParseSplit(cx, m);
    MapAllMeans(f, objects, splits);
    if |splits| == |objects| {
      forall i | 0 <= i < |splits| ensures f(objects[i]) == Some(splits[i]) <==> ReadsSplit(cx, splits[i], objects[i]) {
        ReadSplitMeans(cx, splits[i], objects[i]);
      }
    }
  }

  lemma {:induction false} ReadSplitsMean(cx: Context, v: Value, splits: seq<Split>)
    requires Spells(cx.hexer)
    ensures ParseSplitsSpec(cx, v) == Some(splits) <==> ReadsSplits(cx, v, splits)
  {
    if RawSplits(v).Some? {
      ObjectsMean(cx, RawSplits(v).value, splits);
    }
    if v.List? {
      if forall i :: 0 <= i < |v.items| ==> v.items[i].Object? {
        assert forall i :: 0 <= i < |v.items| ==> AsObject(v.items[i]).Some?;
        assert forall i :: 0 <= i < |v.items| ==> RawSplits(v).value[i] == v.items[i].fields;
      } else {
        var i :| 0 <= i < |v.items| && !v.items[i].Object?;
        assert AsObject(v.items[i]).None?;
      }
    }
  }

  lemma {:induction false} SpokenAppends(cx: Context, a: seq<Value>, b: seq<Value>)
    ensures NonEmptyTexts(cx, a + b) == NonEmptyTexts(cx, a) + NonEmptyTexts(cx, b)
    decreases |a|
  {
    if a == [] {
      assert a + b == b;
    } else {
      SpokenAppends(cx, a[1..], b);
      assert (a + b)[1..] == a[1..] + b;
    }
  }

  lemma {:induction false} SpokenIs(cx: Context, items: seq<Value>)
    ensures NonEmptyTexts(cx, items) == Spoken(cx, items)
    decreases |items|
  {
    if items == [] {
    } else {
      var rest, last := items[..|items| - 1], items[|items| - 1];
      assert items == rest + [last];
      SpokenIs(cx, rest);
      SpokenAppends(cx, rest, [last]);
      assert NonEmptyTexts(cx, [last]) == if AsString(cx, last) == "" then [] else [AsString(cx, last)];
    }
  }

  lemma {:induction false} ModesMean(cx: Context, v: Value, modes: seq<string>)
    ensures ParseModes(cx, v) == Some(modes) <==> ReadsModes(cx, v, modes)
  {
    SupportedIsAllowed(modes);
    if v.List? {
      SpokenIs(cx, v.items);
    }
  }

  lemma {:induction false} DetailsMean(cx: Context, v: Value, r: Request)
    requires Spells(cx.hexer)
    ensures ParseDetails(cx, v) == Some(DetailsOf(r)) <==> ReadsDetails(cx, v, r)
  {
    if v.Object? {
      ChainIDMeans(Lookup(v.fields, "chainId"), r.chainID);
      ReadSplitsMean(cx, Lookup(v.fields, "splits"), r.splits);
      ModesMean(cx, Lookup(v.fields, "supportedModes"), r.modes);
    }
  }

  lemma {:induction false} AssembleMeans(cx: Context, f: Fields, d: Option<Details>, r: Request)
    requires Spells(cx.hexer) && (d.Some? ==> CanonicalAmounts(d.value.splits))
    ensures Assemble(cx, f, d) == Some(r) <==>
      && d == Some(DetailsOf(r)) && SameNumber(r.amount, f.amount)
      && SameAccount(cx, r.currency, f.currency) && SameAccount(cx, r.recipient, f.recipient)
      && r.description == f.description && r.externalID == f.externalID && Leaves(r.amount, r.splits)
  {
    NumberMeans(r.amount, f.amount);
    AccountMeans(cx, r.currency, f.currency);
    AccountMeans(cx, r.recipient, f.recipient);
    assert TrimSpace("") == "";
    if SameNumber(r.amount, f.amount) && d.Some? {
      ValidMeansLeaves(r.amount, d.value.splits);
    }
  }

  lemma {:induction false} ParsedDetailsAreCanonical(cx: Context, v: Value)
    requires Spells(cx.hexer) && ParseDetails(cx, v).Some?
    ensures CanonicalAmounts(ParseDetails(cx, v).value.splits)
  {
    if v.Object? {
      ParsedSplitsAreCanonical(cx, Lookup(v.fields, "splits"));
    }
  }

  /** Parsing gives a request exactly when the map spells one, and gives that one. */
  lemma {:induction false} ParseMeans(cx: Context, m: map<string, Value>, r: Request)
    requires Spells(cx.hexer)
    ensures Parse(cx, m) == Some(r) <==> Reads(cx, m, r)
  {
    var v := Lookup(m, "methodDetails");
    if ParseDetails(cx, v).Some? {
      ParsedDetailsAreCanonical(cx, v);
    }
    AssembleMeans(cx, ParseFields(cx, m), ParseDetails(cx, v), r);
    DetailsMean(cx, v, r);
  }
}
