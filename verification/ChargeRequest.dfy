/**
 The canonical charge request: how parameters become one, how it travels as a generic map inside a
 challenge, and how it is read back.
 */
module ChargeRequest {
  import opened Text
  import opened Hex
  import opened Addresses
  import opened Decimal

  const DEFAULT_DECIMALS := 6
  const MAX_SPLITS := 10
  const MODE_PULL := "pull"
  const MODE_PUSH := "push"

  /**
   The values a generic request map holds. Map() builds typed lists (Objects, Texts); decoding JSON
   builds Lists. Int stands for every integral number, Fraction for the others.
   */
  datatype Value =
    | Null
    | Text(text: string)
    | Bool(flag: bool)
    | Int(n: int)
    | Fraction(spelled: string)
    | List(items: seq<Value>)
    | Objects(objects: seq<map<string, Value>>)
    | Texts(texts: seq<string>)
    | Object(fields: map<string, Value>)

  const MAX_INT64: int := 0x7FFF_FFFF_FFFF_FFFF

  type Int64 = n: int | -MAX_INT64 - 1 <= n <= MAX_INT64

  datatype Split = Split(amount: string, memo: string, recipient: string)

  datatype Request = Request(
    amount: string, currency: string, recipient: string, description: string, externalID: string,
    chainID: Option<Int64>, feePayer: bool, feePayerURL: string, splits: seq<Split>, modes: seq<string>)

  datatype SplitParams = SplitParams(amount: string, memo: string, recipient: string)

  datatype Params = Params(
    amount: string, currency: string, recipient: string, decimals: int, description: string,
    externalID: string, chainID: Int64, feePayer: bool, feePayerURL: string, splits: seq<SplitParams>,
    modes: seq<string>)

  /** How addresses print, and how fmt prints a value that is neither text nor number. */
  datatype Context = Context(hexer: Checksum, show: Value -> string)

  // ---------- reading single values ----------

  function AsString(cx: Context, v: Value): string {
    match v
    case Text(s) => s
    case Null => ""
    case Int(n) => if n < 0 then "-" + ToDecimal(-n) else ToDecimal(n)
    case Fraction(s) => s
    case Bool(b) => if b then "true" else "false"
    case _ => cx.show(v)
  }

  function AsBool(v: Value): bool {
    v == Bool(true) || v == Text("true")
  }

  function AsWord(n: int): Option<Int64> {
    if -MAX_INT64 - 1 <= n <= MAX_INT64 then Some(n) else None
  }

  function ParseInt64(s: string): Option<Int64> {
    var signed := s != "" && (s[0] == '-' || s[0] == '+');
    var digits := if signed then s[1..] else s;
    if digits == "" || !AllDigits(digits) then None
    else
      AsWord(if s[0] == '-' then -(Digits(digits) as int) else Digits(digits))
  }

  /** A number was given and must fit. */
  function Present(n: Option<Int64>): Option<Option<Int64>> {
    if n == None then None else Some(n)
  }

  /** The chain ID: None is an error, Some(None) is absent. */
  function AsInt64(v: Value): Option<Option<Int64>> {
    match v
    case Int(n) => Present(AsWord(n))
    case Fraction(_) => None
    case Text(s) => if s == "" then Some(None) else Present(ParseInt64(s))
    case _ => Some(None)
  }

  function Lookup(m: map<string, Value>, key: string): Value {
    if key in m then m[key] else Null
  }

  function ParseBaseUnitAmount(value: string): Option<nat> {
    var v := TrimSpace(value);
    if v == "" || !AllDigits(v) then None else Some(Digits(v))
  }

  function NormalizeMemo(value: string): Option<string> {
    if value == "" then Some("")
    else
      var trimmed := Bare(value);
      if |trimmed| != 64 || !IsHex(trimmed) then None else Some("0x" + trimmed)
  }

  predicate IsSupportedMode(mode: string) {
    mode == MODE_PULL || mode == MODE_PUSH
  }

  predicate SupportedModes(modes: seq<string>) {
    forall i :: 0 <= i < |modes| ==> IsSupportedMode(modes[i])
  }

  // ---------- splits ----------

  /** f of every element, or none if one has no result. */
  function MapAll<A, B>(f: A -> Option<B>, xs: seq<A>): (r: Option<seq<B>>)
    ensures r.Some? <==> forall i :: 0 <= i < |xs| ==> f(xs[i]).Some?
    ensures r.Some? ==> |r.value| == |xs| && forall i :: 0 <= i < |xs| ==> f(xs[i]) == Some(r.value[i])
  {
    if forall i :: 0 <= i < |xs| ==> f(xs[i]).Some? then
      Some(seq(|xs|, i requires 0 <= i < |xs| => f(xs[i]).value))
    else None
  }

  /** The loop the three list readers share: append each result, stop at the first failure. */
  method CollectAll<A, B>(f: A -> Option<B>, xs: seq<A>) returns (r: Option<seq<B>>)
    ensures r == MapAll(f, xs)
  {
    var out: seq<B> := [];
    for i := 0 to |xs|
      invariant |out| == i
      invariant forall k :: 0 <= k < i ==> f(xs[k]) == Some(out[k])
    {
      var next := f(xs[i]);
      if next == None {
        return None;
      }
      out := out + [next.value];
    }
    assert MapAll(f, xs).value == out;
    return Some(out);
  }

  function AmountOf(text: string): nat {
    if ParseBaseUnitAmount(text).Some? then ParseBaseUnitAmount(text).value else 0
  }

  /** The sum of the first n split amounts. */
  function SplitSum(splits: seq<Split>, n: nat): nat
    requires n <= |splits|
  {
    if n == 0 then 0 else SplitSum(splits, n - 1) + AmountOf(splits[n - 1].amount)
  }

  predicate Positive(split: Split) {
    ParseBaseUnitAmount(split.amount).Some? && AmountOf(split.amount) > 0
  }

  predicate PositiveSplits(splits: seq<Split>) {
    forall i :: 0 <= i < |splits| ==> Positive(splits[i])
  }

  /** Splits are positive and leave something for the primary recipient. */
  predicate ValidSplits(totalAmount: string, splits: seq<Split>) {
    splits == [] || (
      && ParseBaseUnitAmount(totalAmount).Some? && PositiveSplits(splits)
      && SplitSum(splits, |splits|) < AmountOf(totalAmount))
  }

  method ValidateCanonicalSplits(totalAmount: string, splits: seq<Split>) returns (ok: bool)
    ensures ok == ValidSplits(totalAmount, splits)
  {
    if |splits| == 0 {
      return true;
    }
    var total := ParseBaseUnitAmount(totalAmount);
    if total == None {
      return false;
    }
    var splitTotal := 0;
    for i := 0 to |splits|
      invariant splitTotal == SplitSum(splits, i)
      invariant forall k :: 0 <= k < i ==> Positive(splits[k])
    {
      var amount := ParseBaseUnitAmount(splits[i].amount);
      if amount == None {
        assert !Positive(splits[i]);
        return false;
      }
      if amount.value <= 0 {
        assert !Positive(splits[i]);
        return false;
      }
      assert Positive(splits[i]) && AmountOf(splits[i].amount) == amount.value;
      splitTotal := splitTotal + amount.value;
    }
    return splitTotal < total.value;
  }

  function NormalizeSplit(cx: Context, p: SplitParams, decimals: int): Option<Split> {
    var amount, recipient, memo :=
      Units(p.amount, decimals), NormalizeAddress(cx.hexer, p.recipient), NormalizeMemo(p.memo);
    if amount == None || recipient == None || memo == None then None
    else Some(Split(ToDecimal(amount.value), memo.value, recipient.value))
  }

  function NormalizeSplitsSpec(cx: Context, splits: seq<SplitParams>, decimals: int,
                               totalAmount: string): Option<seq<Split>> {
    if |splits| > MAX_SPLITS then None
    else
      var canonical := MapAll((p: SplitParams) => NormalizeSplit(cx, p, decimals), splits);
      if canonical.Some? && ValidSplits(totalAmount, canonical.value) then canonical else None
  }

  method NormalizeSplits(cx: Context, splits: seq<SplitParams>, decimals: int,
                         totalAmount: string) returns (r: Option<seq<Split>>)
    ensures r == NormalizeSplitsSpec(cx, splits, decimals, totalAmount)
  {
    if |splits| == 0 {
      return Some([]);
    }
    if |splits| > MAX_SPLITS {
      return None;
    }
    var canonical := CollectAll((p: SplitParams) => NormalizeSplit(cx, p, decimals), splits);
    if canonical == None {
      return None;
    }
    var ok := ValidateCanonicalSplits(totalAmount, canonical.value);
    return if ok then canonical else None;
  }

  function ParseSplit(cx: Context, m: map<string, Value>): Option<Split> {
    var amount, recipient, memo :=
      ParseBaseUnitAmount(AsString(cx, Lookup(m, "amount"))),
      NormalizeAddress(cx.hexer, AsString(cx, Lookup(m, "recipient"))),
      NormalizeMemo(AsString(cx, Lookup(m, "memo")));
    if amount == None || recipient == None || memo == None then None
    else Some(Split(ToDecimal(amount.value), memo.value, recipient.value))
  }

  function AsObject(v: Value): Option<map<string, Value>> {
    if v.Object? then Some(v.fields) else None
  }

  /** The objects of a list, whichever way it is held. */
  function RawSplits(v: Value): Option<seq<map<string, Value>>> {
    match v
    case Objects(objects) => Some(objects)
    case List(items) => MapAll(AsObject, items)
    case _ => None
  }

  function ParseSplitsSpec(cx: Context, v: Value): Option<seq<Split>> {
    if v == Null then Some([])
    else
      var raw := RawSplits(v);
      if raw == None || raw.value == [] || |raw.value| > MAX_SPLITS then None
      else MapAll((m: map<string, Value>) => ParseSplit(cx, m), raw.value)
  }

  method ParseSplits(cx: Context, v: Value) returns (r: Option<seq<Split>>)
    ensures r == ParseSplitsSpec(cx, v)
  {
    if v == Null {
      return Some([]);
    }
    var rawSplits: Option<seq<map<string, Value>>>;
    match v {
      case List(items) => rawSplits := CollectAll(AsObject, items);
      case Objects(objects) => rawSplits := Some(objects);
      case _ => return None;
    }
    if rawSplits == None || |rawSplits.value| == 0 || |rawSplits.value| > MAX_SPLITS {
      return None;
    }
    r := CollectAll((m: map<string, Value>) => ParseSplit(cx, m), rawSplits.value);
  }

  /** A typed list refuses an empty mode; a decoded list skips it. */
  function ParseModes(cx: Context, v: Value): Option<seq<string>> {
    match v
    case Texts(texts) => if SupportedModes(texts) then Some(texts) else None
    case List(items) =>
      var modes := NonEmptyTexts(cx, items);
      if SupportedModes(modes) then Some(modes) else None
    case _ => Some([])
  }

  function NonEmptyTexts(cx: Context, items: seq<Value>): seq<string> {
    if items == [] then []
    else
      var s := AsString(cx, items[0]);
      (if s == "" then [] else [s]) + NonEmptyTexts(cx, items[1..])
  }

  // ---------- the request ----------

  /** NormalizeChargeRequest. */
  function Normalize(cx: Context, p: Params): Option<Request> {
    if p.amount == "" || p.currency == "" || p.recipient == "" then None
    else
      var decimals := if p.decimals == 0 then DEFAULT_DECIMALS else p.decimals;
      var amount := Units(p.amount, decimals);
      var currency, recipient := NormalizeAddress(cx.hexer, p.currency), NormalizeAddress(cx.hexer, p.recipient);
      if amount == None || currency == None || recipient == None || !SupportedModes(p.modes) then None
      else
        var splits := NormalizeSplitsSpec(cx, p.splits, decimals, ToDecimal(amount.value));
        if splits == None then None
        else Some(Request(ToDecimal(amount.value), currency.value, recipient.value, p.description, p.externalID,
                          if p.chainID != 0 then Some(p.chainID) else None,
                          p.feePayer, p.feePayerURL, splits.value, p.modes))
  }

  /** m with a key set, unless the value is absent. */
  function With(m: map<string, Value>, key: string, v: Value): map<string, Value> {
    if v == Null then m else m[key := v]
  }

  function Optional(text: string): Value {
    if text == "" then Null else Text(text)
  }

  function SplitMap(s: Split): map<string, Value> {
    With(map["amount" := Text(s.amount), "recipient" := Text(s.recipient)], "memo", Optional(s.memo))
  }

  function SplitObjects(splits: seq<Split>): seq<map<string, Value>> {
    seq(|splits|, i requires 0 <= i < |splits| => SplitMap(splits[i]))
  }

  function DetailsMap(r: Request): map<string, Value> {
    With(With(With(With(With(map[],
      "chainId", if r.chainID.Some? then Int(r.chainID.value) else Null),
      "feePayer", if r.feePayer then Bool(true) else Null),
      "feePayerUrl", Optional(r.feePayerURL)),
      "splits", if r.splits != [] then Objects(SplitObjects(r.splits)) else Null),
      "supportedModes", if r.modes != [] then Texts(r.modes) else Null)
  }

  /** ChargeRequest.Map. */
  function ToMap(r: Request): map<string, Value> {
    With(With(With(
      map["amount" := Text(r.amount), "currency" := Text(r.currency), "recipient" := Text(r.recipient)],
      "description", Optional(r.description)),
      "externalId", Optional(r.externalID)),
      "methodDetails", if DetailsMap(r) != map[] then Object(DetailsMap(r)) else Null)
  }

  datatype Details = Details(chainID: Option<Int64>, feePayer: bool, feePayerURL: string, splits: seq<Split>,
      modes: seq<string>)

  function ParseDetails(cx: Context, v: Value): Option<Details> {
    if !v.Object? then Some(Details(None, false, "", [], []))
    else
      var chainID := AsInt64(Lookup(v.fields, "chainId"));
      var splits := ParseSplitsSpec(cx, Lookup(v.fields, "splits"));
      var modes := ParseModes(cx, Lookup(v.fields, "supportedModes"));
      if chainID == None || splits == None || modes == None then None
      else Some(Details(chainID.value, AsBool(Lookup(v.fields, "feePayer")),
                        AsString(cx, Lookup(v.fields, "feePayerUrl")), splits.value, modes.value))
  }

  datatype Fields = Fields(amount: string, currency: string, recipient: string, description: string, externalID: string)

  function ParseFields(cx: Context, input: map<string, Value>): Fields {
    Fields(AsString(cx, Lookup(input, "amount")), AsString(cx, Lookup(input, "currency")),
           AsString(cx, Lookup(input, "recipient")), AsString(cx, Lookup(input, "description")),
           AsString(cx, Lookup(input, "externalId")))
  }

  function Assemble(cx: Context, f: Fields, d: Option<Details>): Option<Request> {
    if f.amount == "" || f.currency == "" || f.recipient == "" || d == None then None
    else
      var total, currency, recipient :=
        ParseBaseUnitAmount(f.amount), NormalizeAddress(cx.hexer, f.currency), NormalizeAddress(cx.hexer, f.recipient);
      if total == None || currency == None || recipient == None then None
      else if !ValidSplits(ToDecimal(total.value), d.value.splits) then None
      else Some(Request(ToDecimal(total.value), currency.value, recipient.value, f.description, f.externalID,
                        d.value.chainID, d.value.feePayer, d.value.feePayerURL, d.value.splits, d.value.modes))
  }

  /** ParseChargeRequest. */
  function Parse(cx: Context, input: map<string, Value>): Option<Request> {
    Assemble(cx, ParseFields(cx, input), ParseDetails(cx, Lookup(input, "methodDetails")))
  }

  // ---------- canonical requests ----------

  predicate CanonicalMemo(memo: string) {
    NormalizeMemo(memo) == Some(memo)
  }

  predicate CanonicalSplit(cx: Context, s: Split) {
    Canonical(s.amount) && CanonicalMemo(s.memo) && CanonicalAddress(cx.hexer, s.recipient)
  }

  predicate CanonicalRequest(cx: Context, r: Request) {
    && Canonical(r.amount) && CanonicalAddress(cx.hexer, r.currency) && CanonicalAddress(cx.hexer, r.recipient)
    && |r.splits| <= MAX_SPLITS && (forall i :: 0 <= i < |r.splits| ==> CanonicalSplit(cx, r.splits[i]))
    && ValidSplits(r.amount, r.splits) && SupportedModes(r.modes)
  }

  /** What decoding JSON makes of an encoded value: typed lists come back as plain lists. */
  function WireList(v: Value): Value {
    match v
    case Objects(objects) => List(seq(|objects|, i requires 0 <= i < |objects| => Object(objects[i])))
    case Texts(texts) => List(seq(|texts|, i requires 0 <= i < |texts| => Text(texts[i])))
    case _ => v
  }

  function Wire(m: map<string, Value>): map<string, Value> {
    map key | key in m ::
      if m[key].Object? then Object(WireFields(m[key].fields)) else WireList(m[key])
  }

  lemma {:induction false} DigitsStayTrimmed(s: string)
    requires s != "" && AllDigits(s)
    ensures TrimSpace(s) == s
  {
    assert IsDigit(s[0]) && IsDigit(s[|s| - 1]);
  }

  /** A canonical amount reads as its number and prints back unchanged. */
  lemma {:induction false} CanonicalAmount(s: string)
    requires Canonical(s)
    ensures ParseBaseUnitAmount(s) == Some(Digits(s)) && ToDecimal(Digits(s)) == s
  {
    DigitsStayTrimmed(s);
    CanonicalIsToDecimal(s);
  }

  lemma {:induction false} NormalizedMemo(value: string)
    requires NormalizeMemo(value).Some?
    ensures CanonicalMemo(NormalizeMemo(value).value)
  {
    if value != "" {
      var trimmed := Bare(value);
      BareIsLower(value);
      LowerConcat("0x", trimmed);
      LowerPointwise("0x");
      assert Lower("0x") == "0x";
      assert Bare("0x" + trimmed) == trimmed;
    }
  }

  lemma {:induction false} NormalizedSplitIsCanonical(cx: Context, p: SplitParams, decimals: int)
    requires Spells(cx.hexer) && NormalizeSplit(cx, p, decimals).Some?
    ensures CanonicalSplit(cx, NormalizeSplit(cx, p, decimals).value)
  {
    ToDecimalSpells(Units(p.amount, decimals).value);
    NormalizeIsIdempotent(cx.hexer, p.recipient);
    NormalizedMemo(p.memo);
  }

  lemma {:induction false} NormalizedSplitsAreCanonical(cx: Context, splits: seq<SplitParams>, decimals: int,
                                                        total: string)
    requires Spells(cx.hexer) && NormalizeSplitsSpec(cx, splits, decimals, total).Some?
    ensures var r := NormalizeSplitsSpec(cx, splits, decimals, total).value;
      |r| <= MAX_SPLITS && ValidSplits(total, r) && forall i :: 0 <= i < |r| ==> CanonicalSplit(cx, r[i])
  {
    var r := NormalizeSplitsSpec(cx, splits, decimals, total).value;
    forall i | 0 <= i < |r| ensures CanonicalSplit(cx, r[i]) {
      assert NormalizeSplit(cx, splits[i], decimals) == Some(r[i]);
      NormalizedSplitIsCanonical(cx, splits[i], decimals);
    }
  }

  lemma {:induction false} NormalizedIsCanonical(cx: Context, p: Params)
    requires Spells(cx.hexer) && Normalize(cx, p).Some?
    ensures CanonicalRequest(cx, Normalize(cx, p).value)
  {
    var decimals := if p.decimals == 0 then DEFAULT_DECIMALS else p.decimals;
    var amount := ToDecimal(Units(p.amount, decimals).value);
    ToDecimalSpells(Units(p.amount, decimals).value);
    NormalizeIsIdempotent(cx.hexer, p.currency);
    NormalizeIsIdempotent(cx.hexer, p.recipient);
    NormalizedSplitsAreCanonical(cx, p.splits, decimals, amount);
  }

  lemma {:induction false} AssembledIsCanonical(cx: Context, f: Fields, d: Option<Details>)
    requires Spells(cx.hexer) && Assemble(cx, f, d).Some? && SupportedModes(d.value.modes)
    requires |d.value.splits| <= MAX_SPLITS
    requires forall i :: 0 <= i < |d.value.splits| ==> CanonicalSplit(cx, d.value.splits[i])
    ensures CanonicalRequest(cx, Assemble(cx, f, d).value)
  {
    ToDecimalSpells(ParseBaseUnitAmount(f.amount).value);
    NormalizeIsIdempotent(cx.hexer, f.currency);
    NormalizeIsIdempotent(cx.hexer, f.recipient);
  }

  lemma {:induction false} ParsedIsCanonical(cx: Context, input: map<string, Value>)
    requires Spells(cx.hexer) && Parse(cx, input).Some?
    ensures CanonicalRequest(cx, Parse(cx, input).value)
  {
    var v := Lookup(input, "methodDetails");
    if v.Object? {
      ParsedSplitsAreCanonical(cx, Lookup(v.fields, "splits"));
      ParsedModesAreSupported(cx, Lookup(v.fields, "supportedModes"));
    }
    AssembledIsCanonical(cx, ParseFields(cx, input), ParseDetails(cx, v));
  }

  lemma {:induction false} ParsedModesAreSupported(cx: Context, v: Value)
    requires ParseModes(cx, v).Some?
    ensures SupportedModes(ParseModes(cx, v).value)
  {
  }

  lemma {:induction false} ParsedSplitsAreCanonical(cx: Context, v: Value)
    requires Spells(cx.hexer) && ParseSplitsSpec(cx, v).Some?
    ensures var splits := ParseSplitsSpec(cx, v).value;
      |splits| <= MAX_SPLITS && forall i :: 0 <= i < |splits| ==> CanonicalSplit(cx, splits[i])
  {
    var splits := ParseSplitsSpec(cx, v).value;
    forall i | 0 <= i < |splits| ensures CanonicalSplit(cx, splits[i]) {
      var m := RawSplits(v).value[i];
      assert ParseSplit(cx, m) == Some(splits[i]);
      ToDecimalSpells(ParseBaseUnitAmount(AsString(cx, Lookup(m, "amount"))).value);
      NormalizeIsIdempotent(cx.hexer, AsString(cx, Lookup(m, "recipient")));
      NormalizedMemo(AsString(cx, Lookup(m, "memo")));
    }
  }

  // ---------- round trips ----------

  lemma {:induction false} LookupWith(m: map<string, Value>, key: string, v: Value)
    ensures forall k {:trigger Lookup(With(m, key, v), k)} ::
      Lookup(With(m, key, v), k) == if k == key && v != Null then v else Lookup(m, k)
  {
  }

  lemma {:induction false} SplitRoundTrip(cx: Context, s: Split)
    requires CanonicalSplit(cx, s)
    ensures ParseSplit(cx, SplitMap(s)) == Some(s)
  {
    var m := SplitMap(s);
    assert Lookup(m, "amount") == Text(s.amount) && Lookup(m, "recipient") == Text(s.recipient);
    assert AsString(cx, Lookup(m, "memo")) == s.memo;
    CanonicalAmount(s.amount);
  }

  lemma {:induction false} SplitsRoundTrip(cx: Context, splits: seq<Split>)
    requires splits != [] && |splits| <= MAX_SPLITS && forall i :: 0 <= i < |splits| ==> CanonicalSplit(cx, splits[i])
    ensures ParseSplitsSpec(cx, Objects(SplitObjects(splits))) == Some(splits)
  {
    var objects := SplitObjects(splits);
    var read := (m: map<string, Value>) => ParseSplit(cx, m);
    forall i | 0 <= i < |splits| ensures read(objects[i]) == Some(splits[i]) {
      SplitRoundTrip(cx, splits[i]);
    }
    assert MapAll(read, objects).value == splits;
  }

  lemma {:induction false} WireKeepsObjects(objects: seq<map<string, Value>>)
    ensures RawSplits(WireList(Objects(objects))) == Some(objects)
  {
    var items := WireList(Objects(objects)).items;
    assert forall i :: 0 <= i < |items| ==> AsObject(items[i]) == Some(objects[i]);
    assert MapAll(AsObject, items).value == objects;
  }

  lemma {:induction false} SplitsWireRoundTrip(cx: Context, splits: seq<Split>)
    requires splits != [] && |splits| <= MAX_SPLITS && forall i :: 0 <= i < |splits| ==> CanonicalSplit(cx, splits[i])
    ensures ParseSplitsSpec(cx, WireList(Objects(SplitObjects(splits)))) == Some(splits)
  {
    SplitsRoundTrip(cx, splits);
    WireKeepsObjects(SplitObjects(splits));
  }

  lemma {:induction false} ModesRoundTrip(cx: Context, modes: seq<string>, items: seq<Value>)
    requires SupportedModes(modes) && |items| == |modes| && forall i :: 0 <= i < |items| ==> items[i] == Text(modes[i])
    ensures NonEmptyTexts(cx, items) == modes
    decreases |items|
  {
    if items == [] {
    } else {
      assert IsSupportedMode(modes[0]);
      ModesRoundTrip(cx, modes[1..], items[1..]);
    }
  }

  lemma {:induction false} DetailsLookups(r: Request)
    ensures var m := DetailsMap(r);
      && Lookup(m, "chainId") == (if r.chainID.Some? then Int(r.chainID.value) else Null)
      && Lookup(m, "feePayer") == (if r.feePayer then Bool(true) else Null)
      && Lookup(m, "feePayerUrl") == Optional(r.feePayerURL)
      && Lookup(m, "splits") == (if r.splits != [] then Objects(SplitObjects(r.splits)) else Null)
      && Lookup(m, "supportedModes") == (if r.modes != [] then Texts(r.modes) else Null)
  {
    var chain := if r.chainID.Some? then Int(r.chainID.value) else Null;
    var fee, url := if r.feePayer then Bool(true) else Null, Optional(r.feePayerURL);
    var splits := if r.splits != [] then Objects(SplitObjects(r.splits)) else Null;
    var modes := if r.modes != [] then Texts(r.modes) else Null;
    var m1 := With(map[], "chainId", chain);
    var m2 := With(m1, "feePayer", fee);
    var m3 := With(m2, "feePayerUrl", url);
    var m4 := With(m3, "splits", splits);
    LookupWith(map[], "chainId", chain);
    LookupWith(m1, "feePayer", fee);
    LookupWith(m2, "feePayerUrl", url);
    LookupWith(m3, "splits", splits);
    LookupWith(m4, "supportedModes", modes);
  }

  function WireFields(m: map<string, Value>): map<string, Value> {
    map k | k in m :: WireList(m[k])
  }

  lemma {:induction false} LookupWireFields(m: map<string, Value>, k: string)
    ensures Lookup(WireFields(m), k) == WireList(Lookup(m, k))
  {
  }

  function DetailsOf(r: Request): Details {
    Details(r.chainID, r.feePayer, r.feePayerURL, r.splits, r.modes)
  }

  /** The pieces of the details, as they read from a map of them. */
  predicate PiecesRead(cx: Context, r: Request, m: map<string, Value>) {
    && AsInt64(Lookup(m, "chainId")) == Some(r.chainID) && AsBool(Lookup(m, "feePayer")) == r.feePayer
    && AsString(cx, Lookup(m, "feePayerUrl")) == r.feePayerURL
    && ParseSplitsSpec(cx, Lookup(m, "splits")) == Some(r.splits)
    && ParseModes(cx, Lookup(m, "supportedModes")) == Some(r.modes)
  }

  lemma {:induction false} PiecesMakeDetails(cx: Context, r: Request, m: map<string, Value>)
    requires PiecesRead(cx, r, m)
    ensures ParseDetails(cx, Object(m)) == Some(DetailsOf(r))
  {
  }

  lemma {:induction false} PlainSplits(cx: Context, r: Request)
    requires CanonicalRequest(cx, r)
    ensures ParseSplitsSpec(cx, Lookup(DetailsMap(r), "splits")) == Some(r.splits)
  {
    if r.splits != [] {
      SplitsRoundTrip(cx, r.splits);
    }
    DetailsLookups(r);
  }

  lemma {:induction false} PlainModes(cx: Context, r: Request)
    requires SupportedModes(r.modes)
    ensures ParseModes(cx, Lookup(DetailsMap(r), "supportedModes")) == Some(r.modes)
  {
    DetailsLookups(r);
  }

  lemma {:induction false} PlainChainAndFees(cx: Context, r: Request)
    ensures var m := DetailsMap(r);
      && AsInt64(Lookup(m, "chainId")) == Some(r.chainID) && AsBool(Lookup(m, "feePayer")) == r.feePayer
      && AsString(cx, Lookup(m, "feePayerUrl")) == r.feePayerURL
  {
    DetailsLookups(r);
  }

  lemma {:induction false} DetailsRoundTrip(cx: Context, r: Request)
    requires CanonicalRequest(cx, r)
    ensures ParseDetails(cx, Object(DetailsMap(r))) == Some(DetailsOf(r))
  {
    PlainChainAndFees(cx, r);
    PlainSplits(cx, r);
    PlainModes(cx, r);
    PiecesMakeDetails(cx, r, DetailsMap(r));
  }

  lemma {:induction false} WireSplits(cx: Context, r: Request)
    requires CanonicalRequest(cx, r)
    ensures ParseSplitsSpec(cx, Lookup(WireFields(DetailsMap(r)), "splits")) == Some(r.splits)
  {
    if r.splits != [] {
      SplitsWireRoundTrip(cx, r.splits);
    }
    DetailsLookups(r);
    LookupWireFields(DetailsMap(r), "splits");
  }

  lemma {:induction false} WireModes(cx: Context, r: Request)
    requires CanonicalRequest(cx, r)
    ensures ParseModes(cx, Lookup(WireFields(DetailsMap(r)), "supportedModes")) == Some(r.modes)
  {
    if r.modes != [] {
      ModesRoundTrip(cx, r.modes, WireList(Texts(r.modes)).items);
    }
    DetailsLookups(r);
    LookupWireFields(DetailsMap(r), "supportedModes");
  }

  lemma {:induction false} WireChainAndFees(cx: Context, r: Request)
    ensures var w := WireFields(DetailsMap(r));
      && AsInt64(Lookup(w, "chainId")) == Some(r.chainID) && AsBool(Lookup(w, "feePayer")) == r.feePayer
      && AsString(cx, Lookup(w, "feePayerUrl")) == r.feePayerURL
  {
    DetailsLookups(r);
    LookupWireFields(DetailsMap(r), "chainId");
    LookupWireFields(DetailsMap(r), "feePayer");
    LookupWireFields(DetailsMap(r), "feePayerUrl");
  }

  lemma {:induction false} DetailsWireRoundTrip(cx: Context, r: Request)
    requires CanonicalRequest(cx, r)
    ensures ParseDetails(cx, Object(WireFields(DetailsMap(r)))) == Some(DetailsOf(r))
  {
    WireChainAndFees(cx, r);
    WireSplits(cx, r);
    WireModes(cx, r);
    PiecesMakeDetails(cx, r, WireFields(DetailsMap(r)));
  }

  lemma {:induction false} RequestLookups(r: Request)
    ensures var m := ToMap(r);
      && Lookup(m, "amount") == Text(r.amount) && Lookup(m, "currency") == Text(r.currency)
      && Lookup(m, "recipient") == Text(r.recipient)
      && Lookup(m, "description") == Optional(r.description)
      && Lookup(m, "externalId") == Optional(r.externalID)
      && Lookup(m, "methodDetails") == (if DetailsMap(r) != map[] then Object(DetailsMap(r)) else Null)
  {
    var m0 := map["amount" := Text(r.amount), "currency" := Text(r.currency), "recipient" := Text(r.recipient)];
    var m1 := With(m0, "description", Optional(r.description));
    var m2 := With(m1, "externalId", Optional(r.externalID));
    LookupWith(m0, "description", Optional(r.description));
    LookupWith(m1, "externalId", Optional(r.externalID));
    LookupWith(m2, "methodDetails", if DetailsMap(r) != map[] then Object(DetailsMap(r)) else Null);
  }

  lemma {:induction false} LookupWire(m: map<string, Value>, k: string)
    ensures Lookup(Wire(m), k)
        == if Lookup(m, k).Object? then Object(WireFields(Lookup(m, k).fields)) else WireList(Lookup(m, k))
  {
  }

  lemma {:induction false} AssembleCanonical(cx: Context, r: Request)
    requires CanonicalRequest(cx, r)
    ensures Assemble(cx, Fields(r.amount, r.currency, r.recipient, r.description, r.externalID),
                     Some(DetailsOf(r))) == Some(r)
  {
    CanonicalAmount(r.amount);
    assert IsHexAddress(r.currency) && IsHexAddress(r.recipient);
  }

  /** A canonical request reads back unchanged from its map, before and after a trip through JSON. */
  lemma {:induction false} RequestRoundTrip(cx: Context, r: Request)
    requires CanonicalRequest(cx, r)
    ensures Parse(cx, ToMap(r)) == Some(r)
    ensures Parse(cx, Wire(ToMap(r))) == Some(r)
  {
    var m := ToMap(r);
    RequestLookups(r);
    LookupWire(m, "amount");
    LookupWire(m, "currency");
    LookupWire(m, "recipient");
    LookupWire(m, "description");
    LookupWire(m, "externalId");
    LookupWire(m, "methodDetails");
    DetailsRoundTrip(cx, r);
    DetailsWireRoundTrip(cx, r);
    var f := Fields(r.amount, r.currency, r.recipient, r.description, r.externalID);
    assert ParseFields(cx, m) == f && ParseFields(cx, Wire(m)) == f;
    if DetailsMap(r) == map[] {
      DetailsLookups(r);
    }
    AssembleCanonical(cx, r);
  }

  /** What a server puts in a challenge is what a client, or the server itself, reads from it. */
  lemma {:induction false} NormalizedRoundTrip(cx: Context, p: Params)
    requires Spells(cx.hexer) && Normalize(cx, p).Some?
    ensures var r := Normalize(cx, p).value;
      Parse(cx, ToMap(r)) == Some(r) && Parse(cx, Wire(ToMap(r))) == Some(r)
  {
    NormalizedIsCanonical(cx, p);
    RequestRoundTrip(cx, Normalize(cx, p).value);
  }
}
