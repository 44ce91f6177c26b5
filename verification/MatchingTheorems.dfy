/** When the greedy matching is exact, and what a matched list says about its challenge. */
module MatchingTheorems {
  import opened Text
  import opened Hex
  import opened Attribution
  import opened Assignment
  import opened Matching

  /** What expectedTransfers produces: the attributed primary, then splits with or without a memo. */
  predicate ChargeShape(expected: seq<Expected>) {
    && expected != []
    && expected[0].requireAttribution && expected[0].memo == "" && !expected[0].allowAnyMemo
    && forall i :: 1 <= i < |expected| ==>
         !expected[i].requireAttribution && (expected[i].allowAnyMemo <==> expected[i].memo == "")
  }

  predicate SameWant(a: Expected, b: Expected) {
    EqualFold(a.recipient, b.recipient) && a.amount == b.amount
  }

  /** `split` competes with `primary` for the same transfers: its own memo would pass as attribution. */
  predicate Conflict(c: Binding, primary: Expected, split: Expected) {
    && primary.memo == "" && primary.requireAttribution
    && split.memo != "" && c.Verifies(split.memo) && SameWant(primary, split)
  }

  /** No split is configured with a memo that pays the primary transfer as well. */
  predicate Unambiguous(c: Binding, expected: seq<Expected>)
    requires expected != []
  {
    forall i :: 1 <= i < |expected| ==> !Conflict(c, expected[0], expected[i])
  }

  // ---------- exactness ----------

  lemma {:induction false} RuleYields(c: Binding, earlier: Expected, later: Expected, g: Transfer, h: Transfer)
    requires Priority(earlier) <= Priority(later) <= 1
    requires !Conflict(c, earlier, later) && !Conflict(c, later, earlier)
    ensures Yields(Rule(c), earlier, later, g, h)
  {
    if Rule(c)(earlier, g) && Rule(c)(earlier, h) && Rule(c)(later, g) {
      if earlier.memo != "" {
        FoldedMemo(c.keccak, g.memo, h.memo, c.realm, c.challengeID);
        FoldedMemo(c.keccak, g.memo, earlier.memo, c.realm, c.challengeID);
      } else if earlier.requireAttribution && later.memo != "" {
        FoldedMemo(c.keccak, g.memo, later.memo, c.realm, c.challengeID);
      }
    }
  }

  lemma {:induction false} SortedYields(c: Binding, expected: seq<Expected>, actual: seq<Transfer>)
    requires ChargeShape(expected) && Unambiguous(c, expected)
    ensures Exchangeable(Rule(c), Sorted(expected), actual)
  {
    SortedFacts(expected);
    var sorted := Sorted(expected);
    var perm: Perm :| perm.Carries(sorted, expected);
    forall k, l, g, h | 0 <= k < l < |sorted| && 0 <= g < |actual| && 0 <= h < |actual|
      ensures Yields(Rule(c), sorted[k], sorted[l], actual[g], actual[h])
    {
      var i, j := perm.fwd[k], perm.fwd[l];
      assert perm.inv[i] == k && perm.inv[j] == l;
      RuleYields(c, sorted[k], sorted[l], actual[g], actual[h]);
    }
  }

  /** The greedy answer is exact: it says yes precisely when the transfers pay the charge. */
  lemma {:induction false} MatchIsExact(c: Binding, actual: seq<Transfer>, expected: seq<Expected>)
    requires ChargeShape(expected) && Unambiguous(c, expected)
    ensures MatchTransfersSpec(c, actual, expected) <==> Pays(c, actual, expected)
  {
    if MatchTransfersSpec(c, actual, expected) {
      GreedySpecIsSound(c, actual, expected);
    }
    if Pays(c, actual, expected) {
      SortedFacts(expected);
      ShuffledIsReflexive(actual);
      AssignableShuffled(Rule(c), expected, Sorted(expected), actual, actual);
      SortedYields(c, expected, actual);
      GreedyIsComplete(Rule(c), Sorted(expected), actual, {});
    }
  }

  /** So neither the order of calls and logs nor that of splits matters. */
  lemma {:induction false} MatchIgnoresOrder(c: Binding, actual: seq<Transfer>, actual': seq<Transfer>,
                                             expected: seq<Expected>, expected': seq<Expected>)
    requires ChargeShape(expected) && ChargeShape(expected') && Unambiguous(c, expected) && Unambiguous(c, expected')
    requires Shuffled(actual, actual') && Shuffled(expected, expected')
    ensures MatchTransfersSpec(c, actual, expected) <==> MatchTransfersSpec(c, actual', expected')
  {
    MatchIsExact(c, actual, expected);
    MatchIsExact(c, actual', expected');
    ShuffledIsSymmetric(actual, actual');
    ShuffledIsSymmetric(expected, expected');
    if Pays(c, actual, expected) {
      AssignableShuffled(Rule(c), expected, expected', actual, actual');
    }
    if Pays(c, actual', expected') {
      AssignableShuffled(Rule(c), expected', expected, actual', actual);
    }
  }

  /** Every want but the attributed primary yields to the others. */
  lemma {:induction false} SplitsYield(c: Binding, expected: seq<Expected>, perm: Perm, actual: seq<Transfer>)
    requires ChargeShape(expected) && perm.Carries(Sorted(expected), expected) && perm.fwd[0] == 0
    ensures Exchangeable(Rule(c), Sorted(expected)[1..], actual)
  {
    var wants := Sorted(expected)[1..];
    SortedFacts(expected);
    forall k, l, g, h | 0 <= k < l < |wants| && 0 <= g < |actual| && 0 <= h < |actual|
      ensures Yields(Rule(c), wants[k], wants[l], actual[g], actual[h])
    {
      var i, j := perm.fwd[k + 1], perm.fwd[l + 1];
      assert perm.inv[i] == k + 1 && perm.inv[j] == l + 1 && perm.inv[0] == 0;
      assert wants[k] == expected[i] && wants[l] == expected[j];
      RuleYields(c, wants[k], wants[l], actual[g], actual[h]);
    }
  }

  lemma {:induction false} SplitsAssigned(c: Binding, actual: seq<Transfer>, expected: seq<Expected>, perm: Perm)
    requires expected != [] && perm.Carries(Sorted(expected), expected) && perm.fwd[0] == 0 && |actual| == |expected|
    requires forall i :: 0 <= i < |expected| ==> AcceptsTransfer(c, expected[i], actual[i])
    ensures Assignable(Rule(c), Sorted(expected)[1..], actual, {0})
  {
    var wants := Sorted(expected)[1..];
    var q := perm.fwd[1..];
    forall k | 0 <= k < |q| ensures q[k] < |actual| && q[k] !in {0} && Rule(c)(wants[k], actual[q[k]]) {
      assert perm.inv[perm.fwd[k + 1]] == k + 1 && perm.inv[0] == 0;
      assert wants[k] == expected[q[k]];
    }
    forall k, l | 0 <= k < l < |q| ensures q[k] != q[l] {
      assert perm.inv[perm.fwd[k + 1]] == k + 1 && perm.inv[perm.fwd[l + 1]] == l + 1;
    }
    assert Assigns(Rule(c), wants, actual, {0}, q);
  }

  /** Transfers listed in the order of the charge always match, unambiguous or not. */
  lemma {:induction false} InOrderMatches(c: Binding, actual: seq<Transfer>, expected: seq<Expected>)
    requires ChargeShape(expected) && |actual| == |expected|
    requires forall i :: 0 <= i < |expected| ==> AcceptsTransfer(c, expected[i], actual[i])
    ensures MatchTransfersSpec(c, actual, expected)
  {
    var sorted := Sorted(expected);
    SortedFacts(expected);
    var perm: Perm :| perm.Carries(sorted, expected);
    assert sorted[0] == expected[perm.fwd[0]] && perm.fwd[0] == 0;
    assert AcceptsTransfer(c, expected[0], actual[0]);
    assert FirstFree(Rule(c), sorted[0], actual, {}, 0) == 0;
    SplitsAssigned(c, actual, expected, perm);
    SplitsYield(c, expected, perm, actual);
    assert {} + {0} == {0};
    GreedyIsComplete(Rule(c), sorted[1..], actual, {0});
  }

  // ---------- why the condition is needed ----------

  predicate Lands(f: nat -> nat, x: nat, into: set<nat>) {
    f(x) in into
  }

  lemma {:induction false} Pigeonhole(domain: set<nat>, f: nat -> nat, into: set<nat>)
    requires forall x {:trigger Lands(f, x, into)} :: x in domain ==> Lands(f, x, into)
    requires forall x, y :: x in domain && y in domain && x != y ==> f(x) != f(y)
    ensures |domain| <= |into|
    decreases |into|
  {
    if domain == {} {
    } else {
      var x :| x in domain;
      assert Lands(f, x, into);
      var rest, into' := domain - {x}, into - {f(x)};
      forall y | y in rest ensures Lands(f, y, into') {
        assert Lands(f, y, into);
      }
      Pigeonhole(rest, f, into');
    }
  }

  /** An attribution memo for `c` other than `memo`: two clients' memos cannot both be it. */
  lemma {:induction false} AnotherMemo(c: Binding, memo: string) returns (other: string)
    requires c.Verifies(memo)
    ensures c.Verifies(other) && !EqualFold(other, memo)
  {
    var client0: seq<Byte>, client1: seq<Byte> := seq(10, _ => 0), seq(10, _ => 1);
    var raw0 := Layout(c.keccak, c.realm, client0, c.challengeID);
    var raw1 := Layout(c.keccak, c.realm, client1, c.challengeID);
    LayoutVerifies(c.keccak, c.realm, client0, c.challengeID, c.realm, c.challengeID);
    LayoutVerifies(c.keccak, c.realm, client1, c.challengeID, c.realm, c.challengeID);
    assert raw0[15] != raw1[15];
    EncodeInjective(raw0, raw1);
    BareMemoText(raw0);
    BareMemoText(raw1);
    assert Bare(MemoText(raw0)) != Bare(MemoText(raw1));
    other := if EqualFold(MemoText(raw0), memo) then MemoText(raw1) else MemoText(raw0);
  }

  /** The transfer that pays a split as configured. */
  function Exactly(want: Expected): Transfer {
    Transfer(want.amount, want.memo != "", want.memo, want.recipient)
  }

  /** Every want is paid exactly, but the ambiguous split's transfer comes first. */
  function Decoy(expected: seq<Expected>, j: nat, other: string): seq<Transfer>
    requires 1 <= j < |expected|
  {
    seq(|expected|, i requires 0 <= i < |expected| =>
      if i == 0 then Exactly(expected[j])
      else if i == j then Transfer(expected[0].amount, true, other, expected[0].recipient)
      else Exactly(expected[i]))
  }

  predicate Rivals(expected: seq<Expected>, j: nat, want: Expected)
    requires j < |expected|
  {
    want.memo != "" && EqualFold(want.memo, expected[j].memo) && SameWant(want, expected[j])
  }

  /** Where each want finds its transfer in the decoy list. */
  function Detour(j: nat, i: nat): nat {
    if i == 0 then j else if i == j then 0 else i
  }

  lemma {:induction false} DetourPays(c: Binding, expected: seq<Expected>, j: nat, other: string, k: nat)
    requires ChargeShape(expected) && 1 <= j < |expected| && Conflict(c, expected[0], expected[j]) && c.Verifies(other)
    requires k < |expected|
    ensures Rule(c)(expected[k], Decoy(expected, j, other)[Detour(j, k)])
  {
    if k != 0 {
      assert Decoy(expected, j, other)[Detour(j, k)] == Exactly(expected[k]);
    }
  }

  lemma {:induction false} DecoyPays(c: Binding, expected: seq<Expected>, j: nat, other: string)
    requires ChargeShape(expected) && 1 <= j < |expected| && Conflict(c, expected[0], expected[j]) && c.Verifies(other)
    ensures Pays(c, Decoy(expected, j, other), expected)
  {
    var n, actual := |expected|, Decoy(expected, j, other);
    var p: seq<nat> := seq(n, i requires 0 <= i < n => Detour(j, i));
    forall k | 0 <= k < n ensures Rule(c)(expected[k], actual[p[k]]) {
      DetourPays(c, expected, j, other, k);
    }
    assert Assigns(Rule(c), expected, actual, {}, p);
  }

  /** The primary transfer takes the decoy, and then one rival split goes without. */
  lemma {:induction false} DecoyFoolsGreedy(c: Binding, expected: seq<Expected>, j: nat, other: string)
    requires ChargeShape(expected) && 1 <= j < |expected| && Conflict(c, expected[0], expected[j])
    requires c.Verifies(other) && !EqualFold(other, expected[j].memo)
    ensures !MatchTransfersSpec(c, Decoy(expected, j, other), expected)
  {
    var n := |expected|;
    var actual, sorted := Decoy(expected, j, other), Sorted(expected);
    SortedFacts(expected);
    assert Rule(c)(sorted[0], actual[0]);
    assert FirstFree(Rule(c), sorted[0], actual, {}, 0) == 0;
    if Greedy(Rule(c), sorted, actual, {}) {
      GreedyIsSound(Rule(c), sorted[1..], actual, {} + {0});
      var p :| Assigns(Rule(c), sorted[1..], actual, {} + {0}, p);
      var perm: Perm :| perm.Carries(sorted, expected);
      RivalsRunOut(c, expected, j, other, perm, p);
    }
  }

  /** Without the decoy, only another rival's transfer can pay a rival. */
  lemma {:induction false} RivalNeedsRival(c: Binding, expected: seq<Expected>, j: nat, other: string, i: nat, g: nat)
    requires 1 <= j < |expected| && 1 <= i < |expected| && 1 <= g < |expected|
    requires expected[j].memo != "" && !EqualFold(other, expected[j].memo) && Rivals(expected, j, expected[i])
    requires AcceptsTransfer(c, expected[i], Decoy(expected, j, other)[g])
    ensures g != j && Rivals(expected, j, expected[g])
  {
  }

  /** The transfer assigned to want i of the unsorted list. */
  function PaidBy(perm: Perm, p: seq<nat>, i: nat): nat {
    if i < |perm.inv| && 1 <= perm.inv[i] <= |p| then p[perm.inv[i] - 1] else 0
  }

  lemma {:induction false} PaidApart(perm: Perm, p: seq<nat>, x: nat, y: nat)
    requires perm.On(|p| + 1) && x <= |p| && y <= |p| && x != y && 1 <= perm.inv[x] && 1 <= perm.inv[y]
    requires forall k, l :: 0 <= k < l < |p| ==> p[k] != p[l]
    ensures PaidBy(perm, p, x) != PaidBy(perm, p, y)
  {
    assert perm.fwd[perm.inv[x]] == x && perm.fwd[perm.inv[y]] == y;
  }

  ghost predicate DecoyAssignment(c: Binding, expected: seq<Expected>, j: nat, other: string, perm: Perm, p: seq<nat>) {
    && ChargeShape(expected) && 1 <= j < |expected| && expected[j].memo != ""
    && !EqualFold(other, expected[j].memo)
    && |Sorted(expected)| == |expected| && Sorted(expected)[0] == expected[0]
    && perm.Carries(Sorted(expected), expected)
    && Assigns(Rule(c), Sorted(expected)[1..], Decoy(expected, j, other), {0}, p)
  }

  lemma {:induction false} RivalGoesToRival(c: Binding, expected: seq<Expected>, j: nat, other: string, perm: Perm,
                                            p: seq<nat>, i: nat)
    requires DecoyAssignment(c, expected, j, other, perm, p)
    requires 1 <= i < |expected| && Rivals(expected, j, expected[i])
    ensures perm.On(|p| + 1) && |p| + 1 == |expected| && 1 <= perm.inv[i]
    ensures 1 <= PaidBy(perm, p, i) < |expected| && PaidBy(perm, p, i) != j
    ensures Rivals(expected, j, expected[PaidBy(perm, p, i)])
  {
    var sorted, k := Sorted(expected), perm.inv[i];
    assert sorted[k] == expected[i] && k != 0;
    var wants := sorted[1..];
    assert wants[k - 1] == expected[i];
    assert Rule(c)(wants[k - 1], Decoy(expected, j, other)[p[k - 1]]) && p[k - 1] !in {0};
    RivalNeedsRival(c, expected, j, other, i, p[k - 1]);
  }

  function RivalSet(expected: seq<Expected>, j: nat): set<nat>
    requires j < |expected|
  {
    set i: nat | 1 <= i < |expected| && Rivals(expected, j, expected[i])
  }

  lemma {:induction false} RivalsPaidApart(c: Binding, expected: seq<Expected>, j: nat, other: string, perm: Perm,
                                           p: seq<nat>, x: nat, y: nat)
    requires DecoyAssignment(c, expected, j, other, perm, p) && x in RivalSet(expected, j)
        && y in RivalSet(expected, j) && x != y
    ensures PaidBy(perm, p, x) != PaidBy(perm, p, y)
  {
    RivalGoesToRival(c, expected, j, other, perm, p, x);
    RivalGoesToRival(c, expected, j, other, perm, p, y);
    PaidApart(perm, p, x, y);
  }

  lemma {:induction false} RivalsRunOut(c: Binding, expected: seq<Expected>, j: nat, other: string, perm: Perm,
                                        p: seq<nat>)
    ensures !DecoyAssignment(c, expected, j, other, perm, p)
  {
    if DecoyAssignment(c, expected, j, other, perm, p) {
      var rivals, f := RivalSet(expected, j), (i: nat) => PaidBy(perm, p, i);
      var others := rivals - {j};
      assert j in rivals;
      forall i | i in rivals ensures Lands(f, i, others) {
        RivalGoesToRival(c, expected, j, other, perm, p, i);
      }
      forall x, y | x in rivals && y in rivals && x != y ensures f(x) != f(y) {
        RivalsPaidApart(c, expected, j, other, perm, p, x, y);
      }
      Pigeonhole(rivals, f, others);
    }
  }

  /** Exactness on every list of transfers holds precisely for unambiguous charges. */
  lemma {:induction false} MatchIsExactIffUnambiguous(c: Binding, expected: seq<Expected>)
    requires ChargeShape(expected)
    ensures (forall actual :: MatchTransfersSpec(c, actual, expected) <==> Pays(c, actual, expected))
      <==> Unambiguous(c, expected)
  {
    if Unambiguous(c, expected) {
      forall actual
        ensures MatchTransfersSpec(c, actual, expected) <==> Pays(c, actual, expected)
      {
        MatchIsExact(c, actual, expected);
      }
    } else {
      var j :| 1 <= j < |expected| && Conflict(c, expected[0], expected[j]);
      var other := AnotherMemo(c, expected[j].memo);
      DecoyPays(c, expected, j, other);
      DecoyFoolsGreedy(c, expected, j, other);
      var actual := Decoy(expected, j, other);
      assert !(MatchTransfersSpec(c, actual, expected) <==> Pays(c, actual, expected));
    }
  }

  // ---------- one list of transfers, one challenge ----------

  function UpTo(n: nat): (s: set<nat>)
    ensures |s| == n && forall k: nat :: k in s <==> k < n
  {
    if n == 0 then {} else UpTo(n - 1) + {n - 1}
  }

  function Place(p: seq<nat>, k: nat): nat {
    if k < |p| then p[k] else 0
  }

  lemma {:induction false} DistinctFit(p: seq<nat>, into: set<nat>)
    requires forall k :: 0 <= k < |p| ==> Place(p, k) in into
    requires forall k, l :: 0 <= k < l < |p| ==> Place(p, k) != Place(p, l)
    ensures |p| <= |into|
  {
    var f := (k: nat) => Place(p, k);
    forall k | k in UpTo(|p|) ensures Lands(f, k, into) {
    }
    Pigeonhole(UpTo(|p|), f, into);
  }

  lemma {:induction false} DistinctCover(p: seq<nat>, i: nat)
    requires forall k :: 0 <= k < |p| ==> p[k] < |p|
    requires forall k, l :: 0 <= k < l < |p| ==> p[k] != p[l]
    requires i < |p|
    ensures exists k :: 0 <= k < |p| && p[k] == i
  {
    if forall k :: 0 <= k < |p| ==> p[k] != i {
      DistinctFit(p, UpTo(|p|) - {i});
    }
  }

  /** A charge without attribution memos on its splits takes only its own attributed transfers. */
  lemma {:induction false} AttributedTransferVerifies(c: Binding, want: Expected, got: Transfer)
    requires want.memo == "" || !IsAttributionMemo(c.keccak, want.memo)
    requires want.requireAttribution || want.memo != "" || want.allowAnyMemo
    requires AcceptsTransfer(c, want, got) && got.hasMemo && IsAttributionMemo(c.keccak, got.memo)
    ensures c.Verifies(got.memo)
  {
    if want.memo != "" {
      FoldedMemo(c.keccak, got.memo, want.memo, c.realm, c.challengeID);
    }
  }

  /**
   No list of transfers pays two challenges: if it matches both, and the second charge configures no
   attribution memo on a split, the realms' fingerprints and the challenges' nonces are equal.
   */
  lemma {:induction false} TransfersNameOneChallenge(c1: Binding, c2: Binding, actual: seq<Transfer>,
                                                     e1: seq<Expected>, e2: seq<Expected>)
    requires c1.keccak == c2.keccak && ChargeShape(e1) && ChargeShape(e2)
    requires forall i :: 1 <= i < |e2| ==> !IsAttributionMemo(c2.keccak, e2[i].memo)
    requires MatchTransfersSpec(c1, actual, e1) && MatchTransfersSpec(c2, actual, e2)
    ensures Fingerprint(c1.keccak, c1.realm) == Fingerprint(c1.keccak, c2.realm)
    ensures ChallengeNonce(c1.keccak, c1.challengeID) == ChallengeNonce(c1.keccak, c2.challengeID)
  {
    GreedySpecIsSound(c1, actual, e1);
    GreedySpecIsSound(c2, actual, e2);
    var p1 :| Assigns(Rule(c1), e1, actual, {}, p1);
    var p2 :| Assigns(Rule(c2), e2, actual, {}, p2);
    DistinctCover(p2, p1[0]);
    var k :| 0 <= k < |p2| && p2[k] == p1[0];
    var got := actual[p1[0]];
    assert Rule(c1)(e1[0], got) && Rule(c2)(e2[k], got);
    VerifiedIsAttribution(c1.keccak, got.memo, c1.realm);
    AttributedTransferVerifies(c2, e2[k], got);
    MemoBindsOneChallenge(c1.keccak, got.memo, c1.realm, c1.challengeID, c2.realm, c2.challengeID);
  }
}
