/**
 Receipt logs. A memo transfer is logged twice, once plain and once with its memo; the verifier
 drops one plain log for each memo log, so a payment is counted once.
 */
module CanonicalReceipts {
  import opened Text
  import opened Assignment
  import opened Matching

  /** Who is paid how much, whatever the spelling of the address. */
  datatype Slot = Slot(recipient: string, amount: string)

  function SlotOf(t: Transfer): Slot {
    Slot(Lower(t.recipient), t.amount)
  }

  /** How many of the first n events, with or without a memo, are for this payment. */
  function Count(s: seq<Transfer>, n: nat, memo: bool, slot: Slot): nat
    requires n <= |s|
  {
    if n == 0 then 0
    else Count(s, n - 1, memo, slot) + (if s[n - 1].hasMemo == memo && SlotOf(s[n - 1]) == slot then 1 else 0)
  }

  /** How many of the first n transfers are for this payment. */
  function Total(s: seq<Transfer>, n: nat, slot: Slot): nat
    requires n <= |s|
  {
    Count(s, n, true, slot) + Count(s, n, false, slot)
  }

  /** How many of the first n are plain events for this payment, not skipped yet. */
  function Free(s: seq<Transfer>, skipped: seq<bool>, n: nat, slot: Slot): nat
    requires n <= |s| && |skipped| == |s|
  {
    if n == 0 then 0
    else
      Free(s, skipped, n - 1, slot)
      + (if !skipped[n - 1] && !s[n - 1].hasMemo && SlotOf(s[n - 1]) == slot then 1 else 0)
  }

  /** The first n events without the skipped ones, in order. */
  function Kept(s: seq<Transfer>, skipped: seq<bool>, n: nat): seq<Transfer>
    requires n <= |s| && |skipped| == |s|
  {
    if n == 0 then []
    else Kept(s, skipped, n - 1) + (if skipped[n - 1] then [] else [s[n - 1]])
  }

  function MemoEvents(s: seq<Transfer>, n: nat): seq<Transfer>
    requires n <= |s|
  {
    if n == 0 then [] else MemoEvents(s, n - 1) + (if s[n - 1].hasMemo then [s[n - 1]] else [])
  }

  /** Every memo event can be given a plain event of its own for the same payment. */
  ghost predicate Pairable(s: seq<Transfer>) {
    forall slot :: Count(s, |s|, true, slot) <= Count(s, |s|, false, slot)
  }

  // ---------- counting ----------

  lemma {:induction false} NothingSkipped(s: seq<Transfer>, skipped: seq<bool>, n: nat, slot: Slot)
    requires n <= |s| && |skipped| == |s| && forall i :: 0 <= i < |s| ==> !skipped[i]
    ensures Free(s, skipped, n, slot) == Count(s, n, false, slot)
  {
    if n == 0 {
    } else {
      NothingSkipped(s, skipped, n - 1, slot);
    }
  }

  lemma {:induction false} SkipOne(s: seq<Transfer>, skipped: seq<bool>, i: nat, n: nat, slot: Slot)
    requires n <= |s| && |skipped| == |s| && i < |s| && !skipped[i] && !s[i].hasMemo
    ensures Free(s, skipped, n, slot)
         == Free(s, skipped[i := true], n, slot) + (if i < n && SlotOf(s[i]) == slot then 1 else 0)
  {
    if n == 0 {
    } else {
      SkipOne(s, skipped, i, n - 1, slot);
    }
  }

  lemma {:induction false} NoneFree(s: seq<Transfer>, skipped: seq<bool>, n: nat, slot: Slot)
    requires n <= |s| && |skipped| == |s|
    requires forall i :: 0 <= i < |s| ==> skipped[i] || s[i].hasMemo || SlotOf(s[i]) != slot
    ensures Free(s, skipped, n, slot) == 0
  {
    if n == 0 {
    } else {
      NoneFree(s, skipped, n - 1, slot);
    }
  }

  lemma {:induction false} CountGrows(s: seq<Transfer>, m: nat, n: nat, memo: bool, slot: Slot)
    requires m <= n <= |s|
    ensures Count(s, m, memo, slot) <= Count(s, n, memo, slot)
    decreases n
  {
    if m == n {
    } else {
      CountGrows(s, m, n - 1, memo, slot);
    }
  }

  lemma {:induction false} CountPrefix(s: seq<Transfer>, t: seq<Transfer>, n: nat, memo: bool, slot: Slot)
    requires n <= |s| && n <= |t| && forall i :: 0 <= i < n ==> s[i] == t[i]
    ensures Count(s, n, memo, slot) == Count(t, n, memo, slot)
  {
    if n == 0 {
    } else {
      CountPrefix(s, t, n - 1, memo, slot);
    }
  }

  lemma {:induction false} MemoEventsPrefix(s: seq<Transfer>, t: seq<Transfer>, n: nat)
    requires n <= |s| && n <= |t| && forall i :: 0 <= i < n ==> s[i] == t[i]
    ensures MemoEvents(s, n) == MemoEvents(t, n)
  {
    if n == 0 {
    } else {
      MemoEventsPrefix(s, t, n - 1);
    }
  }

  ghost predicate OnlyPlainSkipped(s: seq<Transfer>, skipped: seq<bool>) {
    |skipped| == |s| && forall i :: 0 <= i < |s| && skipped[i] ==> !s[i].hasMemo
  }

  lemma {:induction false} KeptCounts(s: seq<Transfer>, skipped: seq<bool>, n: nat, slot: Slot)
    requires n <= |s| && OnlyPlainSkipped(s, skipped)
    ensures var kept := Kept(s, skipped, n);
      && Count(kept, |kept|, true, slot) == Count(s, n, true, slot)
      && Count(kept, |kept|, false, slot) == Free(s, skipped, n, slot)
  {
    if n == 0 {
    } else {
      KeptCounts(s, skipped, n - 1, slot);
      var init, kept := Kept(s, skipped, n - 1), Kept(s, skipped, n);
      CountPrefix(kept, init, |init|, true, slot);
      CountPrefix(kept, init, |init|, false, slot);
    }
  }

  lemma {:induction false} KeptMemoEvents(s: seq<Transfer>, skipped: seq<bool>, n: nat)
    requires n <= |s| && OnlyPlainSkipped(s, skipped)
    ensures MemoEvents(Kept(s, skipped, n), |Kept(s, skipped, n)|) == MemoEvents(s, n)
  {
    if n == 0 {
    } else {
      KeptMemoEvents(s, skipped, n - 1);
      var init, kept := Kept(s, skipped, n - 1), Kept(s, skipped, n);
      MemoEventsPrefix(kept, init, |init|);
    }
  }

  // ---------- the algorithm ----------

  method PairedTransferIndex(transfers: seq<Transfer>, memoIndex: nat, skipped: array<bool>) returns (paired: int)
    requires skipped.Length == |transfers| && memoIndex < |transfers| && transfers[memoIndex].hasMemo
    ensures -1 <= paired < |transfers|
    ensures paired >= 0 ==>
      !skipped[paired] && !transfers[paired].hasMemo && SlotOf(transfers[paired]) == SlotOf(transfers[memoIndex])
    ensures paired < 0 ==> forall i :: 0 <= i < |transfers| ==>
      skipped[i] || transfers[i].hasMemo || SlotOf(transfers[i]) != SlotOf(transfers[memoIndex])
  {
    var withMemo := transfers[memoIndex];
    for index := 0 to |transfers|
      invariant forall i :: 0 <= i < index ==>
        skipped[i] || transfers[i].hasMemo || SlotOf(transfers[i]) != SlotOf(withMemo)
    {
      var transfer := transfers[index];
      if index == memoIndex || transfer.hasMemo || skipped[index] {
        continue;
      }
      if transfer.amount == withMemo.amount && EqualFold(transfer.recipient, withMemo.recipient) {
        return index;
      }
    }
    return -1;
  }

  /** The plain events not skipped, and the memo events seen, make up the plain events. */
  ghost predicate Balanced(s: seq<Transfer>, skipped: seq<bool>, index: nat) {
    && index <= |s| && OnlyPlainSkipped(s, skipped)
    && forall slot :: Free(s, skipped, |s|, slot) + Count(s, index, true, slot) == Count(s, |s|, false, slot)
  }

  lemma {:induction false} SkipKeepsBalance(s: seq<Transfer>, skipped: seq<bool>, index: nat, paired: nat)
    requires Balanced(s, skipped, index) && index < |s| && s[index].hasMemo
    requires paired < |s| && !skipped[paired] && !s[paired].hasMemo && SlotOf(s[paired]) == SlotOf(s[index])
    ensures Balanced(s, skipped[paired := true], index + 1)
  {
    var after := skipped[paired := true];
    forall slot
      ensures Free(s, after, |s|, slot) + Count(s, index + 1, true, slot) == Count(s, |s|, false, slot)
    {
      SkipOne(s, skipped, paired, |s|, slot);
      assert Free(s, skipped, |s|, slot) + Count(s, index, true, slot) == Count(s, |s|, false, slot);
    }
  }

  lemma {:induction false} UnpairedMemo(s: seq<Transfer>, skipped: seq<bool>, index: nat)
    requires Balanced(s, skipped, index) && index < |s| && s[index].hasMemo
    requires forall i :: 0 <= i < |s| ==> skipped[i] || s[i].hasMemo || SlotOf(s[i]) != SlotOf(s[index])
    ensures !Pairable(s)
  {
    var slot := SlotOf(s[index]);
    NoneFree(s, skipped, |s|, slot);
    CountGrows(s, index + 1, |s|, true, slot);
    assert Count(s, index + 1, true, slot) == Count(s, |s|, false, slot) + 1;
  }

  lemma {:induction false} BalancedEnd(s: seq<Transfer>, skipped: seq<bool>)
    requires Balanced(s, skipped, |s|)
    ensures var kept := Kept(s, skipped, |s|);
      && Pairable(s)
      && MemoEvents(kept, |kept|) == MemoEvents(s, |s|)
      && forall slot :: Total(kept, |kept|, slot) == Count(s, |s|, false, slot)
  {
    var kept := Kept(s, skipped, |s|);
    KeptMemoEvents(s, skipped, |s|);
    forall slot
      ensures Count(s, |s|, true, slot) <= Count(s, |s|, false, slot)
      ensures Total(kept, |kept|, slot) == Count(s, |s|, false, slot)
    {
      KeptCounts(s, skipped, |s|, slot);
      assert Free(s, skipped, |s|, slot) + Count(s, |s|, true, slot) == Count(s, |s|, false, slot);
    }
  }

  /**
   Succeeds exactly when every memo event can be paired; keeps every memo event in order, and what
   is left stands for the payments of the plain events alone.
   */
  method CanonicalReceiptTransfers(transfers: seq<Transfer>) returns (result: seq<Transfer>, ok: bool)
    ensures ok <==> Pairable(transfers)
    ensures ok ==> MemoEvents(result, |result|) == MemoEvents(transfers, |transfers|)
    ensures ok ==> forall slot ::
      Total(result, |result|, slot) == Count(transfers, |transfers|, false, slot)
  {
    var skipped := new bool[|transfers|](_ => false);
    result := [];
    forall slot ensures Free(transfers, skipped[..], |transfers|, slot) == Count(transfers, |transfers|, false, slot) {
      NothingSkipped(transfers, skipped[..], |transfers|, slot);
    }
    var index := 0;
    while index < |transfers|
      invariant index <= |transfers| && result == []
      invariant Balanced(transfers, skipped[..], index)
    {
      if transfers[index].hasMemo {
        var paired := PairedTransferIndex(transfers, index, skipped);
        if paired < 0 {
          UnpairedMemo(transfers, skipped[..], index);
          return [], false;
        }
        SkipKeepsBalance(transfers, skipped[..], index, paired);
        ghost var before := skipped[..];
        skipped[paired] := true;
        assert skipped[..] == before[paired := true];
      }
      index := index + 1;
    }
    BalancedEnd(transfers, skipped[..]);
    index := 0;
    while index < |transfers|
      invariant index <= |transfers| && result == Kept(transfers, skipped[..], index)
    {
      if !skipped[index] {
        result := result + [transfers[index]];
      }
      index := index + 1;
    }
    ok := true;
  }

  // ---------- a paid charge moved exactly the expected amounts ----------

  function WantCount(wants: seq<Expected>, n: nat, slot: Slot): nat
    requires n <= |wants|
  {
    if n == 0 then 0
    else
      var here := Slot(Lower(wants[n - 1].recipient), wants[n - 1].amount);
      WantCount(wants, n - 1, slot) + (if here == slot then 1 else 0)
  }

  lemma {:induction false} TotalWithout(s: seq<Transfer>, i: nat, n: nat, slot: Slot)
    requires i < n <= |s|
    ensures Total(s, n, slot) == Total(s[..i] + s[i + 1..], n - 1, slot) + (if SlotOf(s[i]) == slot then 1 else 0)
  {
    var rest := s[..i] + s[i + 1..];
    if i < n - 1 {
      TotalWithout(s, i, n - 1, slot);
      assert rest[n - 2] == s[n - 1];
    } else {
      CountPrefix(s, rest, i, true, slot);
      CountPrefix(s, rest, i, false, slot);
    }
  }

  lemma {:induction false} WantCountPrefix(wants: seq<Expected>, m: nat, n: nat, slot: Slot)
    requires m <= n <= |wants|
    ensures WantCount(wants[..n], m, slot) == WantCount(wants, m, slot)
  {
    if m == 0 {
    } else {
      WantCountPrefix(wants, m - 1, n, slot);
    }
  }

  /** An assignment without its last want and the transfer assigned to it. */
  lemma {:induction false} AssignsRest(c: Binding, actual: seq<Transfer>, wants: seq<Expected>, p: seq<nat>)
    returns (rest: seq<Transfer>, q: seq<nat>)
    requires wants != [] && Assigns(Rule(c), wants, actual, {}, p)
    ensures var n := |wants| - 1;
      && p[n] < |actual| && rest == actual[..p[n]] + actual[p[n] + 1..]
      && Assigns(Rule(c), wants[..n], rest, {}, q) && Rule(c)(wants[n], actual[p[n]])
  {
    var n := |wants| - 1;
    var g := p[n];
    rest := actual[..g] + actual[g + 1..];
    var init := wants[..n];
    q := seq(n, k requires 0 <= k < n => if p[k] < g then p[k] else p[k] - 1);
    forall k | 0 <= k < n ensures q[k] < |rest| && rest[q[k]] == actual[p[k]] && init[k] == wants[k] {
      assert p[k] != g;
    }
  }

  lemma {:induction false} AssignedSlots(c: Binding, actual: seq<Transfer>, wants: seq<Expected>, p: seq<nat>,
                                         slot: Slot)
    requires |actual| == |wants| && Assigns(Rule(c), wants, actual, {}, p)
    ensures Total(actual, |actual|, slot) == WantCount(wants, |wants|, slot)
    decreases |wants|
  {
    if wants == [] {
    } else {
      var n := |wants| - 1;
      var rest, q := AssignsRest(c, actual, wants, p);
      AssignedSlots(c, rest, wants[..n], q, slot);
      TotalWithout(actual, p[n], |actual|, slot);
      WantCountPrefix(wants, n, n, slot);
    }
  }

  /**
   When the collapsed logs pay a charge, the plain Transfer events, which record every movement of
   value once, move exactly the expected amounts to the expected recipients.
   */
  lemma {:induction false} PaidOnce(c: Binding, events: seq<Transfer>, result: seq<Transfer>, expected: seq<Expected>,
                                    slot: Slot)
    requires Total(result, |result|, slot) == Count(events, |events|, false, slot)
    requires MatchTransfersSpec(c, result, expected)
    ensures Count(events, |events|, false, slot) == WantCount(expected, |expected|, slot)
  {
    GreedySpecIsSound(c, result, expected);
    var p :| Assigns(Rule(c), expected, result, {}, p);
    AssignedSlots(c, result, expected, p, slot);
  }
}
