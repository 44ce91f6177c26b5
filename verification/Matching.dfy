/**
 Does a list of transfers pay a charge? The verifier sorts the expected transfers by how picky they
 are, then gives each the first unused transfer it accepts.
 */
module Matching {
  import opened Text
  import opened Attribution
  import opened Assignment

  /** A decoded call or log. */
  datatype Transfer = Transfer(amount: string, hasMemo: bool, memo: string, recipient: string)

  datatype Expected = Expected(
    amount: string, allowAnyMemo: bool, memo: string, recipient: string, requireAttribution: bool)

  /** The challenge the payment must name. */
  datatype Binding = Binding(keccak: Keccak, realm: string, challengeID: string)
  {
    predicate Verifies(memo: string) {
      VerifyAttributionServer(keccak, memo, realm) && VerifyAttributionChallenge(keccak, memo, challengeID)
    }
  }

  predicate SameSlot(got: Transfer, want: Expected) {
    EqualFold(got.recipient, want.recipient) && got.amount == want.amount
  }

  /** May `got` pay `want`? A memo the server configured is exempt from the attribution check. */
  predicate AcceptsTransfer(c: Binding, want: Expected, got: Transfer) {
    SameSlot(got, want) &&
    if want.memo != "" then got.hasMemo && EqualFold(got.memo, want.memo)
    else if want.requireAttribution then got.hasMemo && c.Verifies(got.memo)
    else if want.allowAnyMemo && got.hasMemo && IsAttributionMemo(c.keccak, got.memo)
        && !c.Verifies(got.memo) then false
    else want.allowAnyMemo || !got.hasMemo
  }

  function Priority(e: Expected): nat {
    if e.memo != "" || e.requireAttribution then 0 else if e.allowAnyMemo then 1 else 2
  }

  /** AcceptsTransfer as the rule of an assignment. */
  function Rule(c: Binding): Accepts<Expected, Transfer> {
    (want: Expected, got: Transfer) => AcceptsTransfer(c, want, got)
  }

  /** The transfers pay the charge exactly: a bijection between the two lists. */
  ghost predicate Pays(c: Binding, actual: seq<Transfer>, expected: seq<Expected>) {
    |actual| == |expected| && Assignable(Rule(c), expected, actual, {})
  }

  // ---------- sorting by priority ----------

  /** What the two nested swap loops make of the list, from (i, j) on. */
  function SortFrom(s: seq<Expected>, i: nat, j: nat): seq<Expected>
    decreases |s| - i, |s| - j
  {
    if i + 1 >= |s| then s
    else if j >= |s| then SortFrom(s, i + 1, i + 2)
    else if Priority(s[j]) < Priority(s[i]) then SortFrom(s[i := s[j]][j := s[i]], i, j + 1)
    else SortFrom(s, i, j + 1)
  }

  function Sorted(s: seq<Expected>): seq<Expected> {
    SortFrom(s, 0, 1)
  }

  ghost predicate ByPriority(s: seq<Expected>) {
    forall k, l :: 0 <= k < l < |s| ==> Priority(s[k]) <= Priority(s[l])
  }

  lemma {:induction false} SortFromShuffles(s: seq<Expected>, i: nat, j: nat)
    requires i < j
    ensures Shuffled(SortFrom(s, i, j), s)
    decreases |s| - i, |s| - j
  {
    if i + 1 >= |s| {
      ShuffledIsReflexive(s);
    } else if j >= |s| {
      SortFromShuffles(s, i + 1, i + 2);
    } else if Priority(s[j]) < Priority(s[i]) {
      SortFromShuffles(s[i := s[j]][j := s[i]], i, j + 1);
      ShuffledThroughSwap(SortFrom(s, i, j), s, i, j);
    } else {
      SortFromShuffles(s, i, j + 1);
    }
  }

  /** The first `i` places are final, and place i holds the best of those up to j. */
  ghost predicate SortedUpTo(s: seq<Expected>, i: nat, j: nat) {
    && (forall k, l :: 0 <= k < i && k < l < |s| ==> Priority(s[k]) <= Priority(s[l]))
    && (forall l :: i < l < j && l < |s| ==> Priority(s[i]) <= Priority(s[l]))
  }

  lemma {:induction false} SortFromOrders(s: seq<Expected>, i: nat, j: nat)
    requires i < j && SortedUpTo(s, i, j)
    ensures ByPriority(SortFrom(s, i, j))
    decreases |s| - i, |s| - j
  {
    if i + 1 >= |s| {
    } else if j >= |s| {
      SortFromOrders(s, i + 1, i + 2);
    } else if Priority(s[j]) < Priority(s[i]) {
      SortFromOrders(s[i := s[j]][j := s[i]], i, j + 1);
    } else {
      SortFromOrders(s, i, j + 1);
    }
  }

  lemma {:induction false} SortFromKeepsHead(s: seq<Expected>, i: nat, j: nat)
    requires i < j && s != [] && Priority(s[0]) == 0
    ensures |SortFrom(s, i, j)| == |s| && SortFrom(s, i, j)[0] == s[0]
    decreases |s| - i, |s| - j
  {
    if i + 1 >= |s| {
    } else if j >= |s| {
      SortFromKeepsHead(s, i + 1, i + 2);
    } else if Priority(s[j]) < Priority(s[i]) {
      SortFromKeepsHead(s[i := s[j]][j := s[i]], i, j + 1);
    } else {
      SortFromKeepsHead(s, i, j + 1);
    }
  }

  lemma {:induction false} SortedFacts(s: seq<Expected>)
    ensures ByPriority(Sorted(s)) && Shuffled(Sorted(s), s) && |Sorted(s)| == |s|
    ensures s != [] && Priority(s[0]) == 0 ==> Sorted(s)[0] == s[0]
  {
    SortFromShuffles(s, 0, 1);
    SortFromOrders(s, 0, 1);
    if s != [] && Priority(s[0]) == 0 {
      SortFromKeepsHead(s, 0, 1);
    }
  }

  method SortExpectedTransfers(transfers: array<Expected>)
    modifies transfers
    ensures transfers[..] == Sorted(old(transfers[..]))
  {
    var i := 0;
    while i < transfers.Length - 1
      invariant 0 <= i && SortFrom(transfers[..], i, i + 1) == Sorted(old(transfers[..]))
    {
      var j := i + 1;
      while j < transfers.Length
        invariant i < j <= transfers.Length && SortFrom(transfers[..], i, j) == Sorted(old(transfers[..]))
      {
        ghost var before := transfers[..];
        if Priority(transfers[j]) < Priority(transfers[i]) {
          transfers[i], transfers[j] := transfers[j], transfers[i];
          assert transfers[..] == before[i := before[j]][j := before[i]];
        }
        j := j + 1;
      }
      i := i + 1;
    }
  }

  /** matchTransfers as a value. */
  predicate MatchTransfersSpec(c: Binding, actual: seq<Transfer>, expected: seq<Expected>) {
    |actual| == |expected| && Greedy(Rule(c), Sorted(expected), actual, {})
  }

  function UsedSet(used: seq<bool>): set<nat> {
    set k: nat | k < |used| && used[k]
  }

  lemma {:induction false} UsedSetAdds(used: seq<bool>, i: nat)
    requires i < |used|
    ensures UsedSet(used[i := true]) == UsedSet(used) + {i}
  {
  }

  lemma {:induction false} GreedyUnfolds(c: Binding, sorted: seq<Expected>, k: nat, actual: seq<Transfer>,
                                         used: set<nat>)
    requires k < |sorted|
    ensures var i := FirstFree(Rule(c), sorted[k], actual, used, 0);
      Greedy(Rule(c), sorted[k..], actual, used)
      == (i < |actual| && Greedy(Rule(c), sorted[k + 1..], actual, used + {i}))
  {
    assert sorted[k..][0] == sorted[k] && sorted[k..][1..] == sorted[k + 1..];
  }

  /** The inner loop: mark the first unused transfer that pays `want`, if there is one. */
  method TakeFirst(c: Binding, want: Expected, actual: seq<Transfer>, used: array<bool>) returns (index: nat)
    requires used.Length == |actual|
    modifies used
    ensures index == FirstFree(Rule(c), want, actual, UsedSet(old(used[..])), 0)
    ensures index < |actual| ==> UsedSet(used[..]) == UsedSet(old(used[..])) + {index}
  {
    index := 0;
    while index < |actual|
      invariant index <= |actual| && used[..] == old(used[..])
      invariant FirstFree(Rule(c), want, actual, UsedSet(used[..]), index)
             == FirstFree(Rule(c), want, actual, UsedSet(used[..]), 0)
    {
      if !used[index] && AcceptsTransfer(c, want, actual[index]) {
        UsedSetAdds(used[..], index);
        used[index] := true;
        return;
      }
      index := index + 1;
    }
  }

  method MatchTransfers(c: Binding, actual: seq<Transfer>, expected: seq<Expected>) returns (ok: bool)
    ensures ok == MatchTransfersSpec(c, actual, expected)
    ensures ok ==> Pays(c, actual, expected)
  {
    if |actual| != |expected| {
      return false;
    }
    var used := new bool[|actual|](_ => false);
    var ordered := new Expected[|expected|](i requires 0 <= i < |expected| => expected[i]);
    assert ordered[..] == expected;
    SortExpectedTransfers(ordered);
    ghost var sorted := Sorted(expected);
    assert UsedSet(used[..]) == {};
    var k := 0;
    while k < ordered.Length
      invariant 0 <= k <= ordered.Length && ordered[..] == sorted
      invariant Greedy(Rule(c), sorted[k..], actual, UsedSet(used[..])) == Greedy(Rule(c), sorted, actual, {})
    {
      GreedyUnfolds(c, sorted, k, actual, UsedSet(used[..]));
      var index := TakeFirst(c, ordered[k], actual, used);
      if index == |actual| {
        return false;
      }
      k := k + 1;
    }
    GreedySpecIsSound(c, actual, expected);
    return true;
  }

  lemma {:induction false} GreedySpecIsSound(c: Binding, actual: seq<Transfer>, expected: seq<Expected>)
    requires MatchTransfersSpec(c, actual, expected)
    ensures Pays(c, actual, expected)
  {
    GreedyIsSound(Rule(c), Sorted(expected), actual, {});
    SortedFacts(expected);
    ShuffledIsSymmetric(Sorted(expected), expected);
    ShuffledIsReflexive(actual);
    AssignableShuffled(Rule(c), Sorted(expected), expected, actual, actual);
  }
}
