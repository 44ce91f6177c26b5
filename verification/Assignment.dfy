/**
 Giving every want a transfer of its own: what an assignment is, when the greedy choice finds one,
 and why the order of either list does not matter.
 */
module Assignment {

  /** Which wants accept which gifts. */
  type Accepts<!W, !G> = (W, G) -> bool

  // ---------- the specification: an assignment of distinct transfers ----------

  ghost predicate Assigns<W(!new), G(!new)>(ok: Accepts<W, G>, wants: seq<W>, actual: seq<G>, used: set<nat>,
                            p: seq<nat>) {
    && |p| == |wants|
    && (forall k :: 0 <= k < |p| ==> p[k] < |actual| && p[k] !in used && ok(wants[k], actual[p[k]]))
    && (forall k, l :: 0 <= k < l < |p| ==> p[k] != p[l])
  }

  ghost predicate Assignable<W(!new), G(!new)>(ok: Accepts<W, G>, wants: seq<W>, actual: seq<G>, used: set<nat>) {
    exists p :: Assigns(ok, wants, actual, used, p)
  }

  // ---------- the greedy choice ----------

  function FirstFree<W(!new), G(!new)>(ok: Accepts<W, G>, want: W, actual: seq<G>, used: set<nat>, from: nat): (i: nat)
    requires from <= |actual|
    ensures from <= i <= |actual|
    ensures i < |actual| ==> i !in used && ok(want, actual[i])
    ensures forall k :: from <= k < i ==> k in used || !ok(want, actual[k])
    decreases |actual| - from
  {
    if from == |actual| then from
    else if from !in used && ok(want, actual[from]) then from
    else FirstFree(ok, want, actual, used, from + 1)
  }

  predicate Greedy<W(!new), G(!new)>(ok: Accepts<W, G>, ordered: seq<W>, actual: seq<G>, used: set<nat>) {
    ordered == [] ||
    var i := FirstFree(ok, ordered[0], actual, used, 0);
    i < |actual| && Greedy(ok, ordered[1..], actual, used + {i})
  }

  /** What the greedy choice found is an assignment. */
  lemma {:induction false} GreedyIsSound<W(!new), G(!new)>(ok: Accepts<W, G>, ordered: seq<W>, actual: seq<G>,
                                           used: set<nat>)
    requires Greedy(ok, ordered, actual, used)
    ensures Assignable(ok, ordered, actual, used)
    decreases |ordered|
  {
    if ordered == [] {
      assert Assigns(ok, ordered, actual, used, []);
    } else {
      var i := FirstFree(ok, ordered[0], actual, used, 0);
      GreedyIsSound(ok, ordered[1..], actual, used + {i});
      var p :| Assigns(ok, ordered[1..], actual, used + {i}, p);
      var q := [i] + p;
      forall k | 0 <= k < |q|
        ensures q[k] < |actual| && q[k] !in used && ok(ordered[k], actual[q[k]])
      {
        if k > 0 {
          assert q[k] == p[k - 1] && ordered[1..][k - 1] == ordered[k];
        }
      }
      assert Assigns(ok, ordered, actual, used, q);
    }
  }

  predicate Yields<W(!new), G(!new)>(ok: Accepts<W, G>, earlier: W, later: W, g: G, h: G) {
    ok(earlier, g) && ok(earlier, h) && ok(later, g) ==> ok(later, h)
  }

  /**
   The exchange property: when an earlier want takes a transfer a later want could use, whatever
   else the earlier want accepts suits the later one as well.
   */
  ghost predicate Exchangeable<W(!new), G(!new)>(ok: Accepts<W, G>, wants: seq<W>, actual: seq<G>) {
    forall k, l, g, h :: 0 <= k < l < |wants| && 0 <= g < |actual| && 0 <= h < |actual| ==>
      Yields(ok, wants[k], wants[l], actual[g], actual[h])
  }

  /** If `i` was assigned to a later want, that want gets what the first want had. */
  lemma {:induction false} Exchanged<W(!new), G(!new)>(ok: Accepts<W, G>, wants: seq<W>, actual: seq<G>, used: set<nat>,
                                       p: seq<nat>, l: nat)
    requires wants != [] && Exchangeable(ok, wants, actual) && Assigns(ok, wants, actual, used, p)
    requires 1 <= l < |p| && ok(wants[0], actual[p[l]])
    ensures Assigns(ok, wants[1..], actual, used + {p[l]}, p[l := p[0]][1..])
  {
    var q := p[l := p[0]][1..];
    forall k | 0 <= k < |q|
      ensures q[k] < |actual| && q[k] !in used + {p[l]} && ok(wants[1..][k], actual[q[k]])
    {
      if k + 1 == l {
        assert Yields(ok, wants[0], wants[l], actual[p[l]], actual[p[0]]);
      } else {
        assert q[k] == p[k + 1];
      }
    }
  }

  /** Swap the first want onto the transfer the greedy choice prefers. */
  lemma {:induction false} Exchange<W(!new), G(!new)>(ok: Accepts<W, G>, wants: seq<W>, actual: seq<G>, used: set<nat>,
                                   p: seq<nat>, i: nat)
    requires wants != [] && Exchangeable(ok, wants, actual) && Assigns(ok, wants, actual, used, p)
    requires i < |actual| && i !in used && ok(wants[0], actual[i])
    ensures Assignable(ok, wants[1..], actual, used + {i})
  {
    if l :| 1 <= l < |p| && p[l] == i {
      Exchanged(ok, wants, actual, used, p, l);
    } else {
      var q := p[1..];
      assert forall k :: 0 <= k < |q| ==> q[k] == p[k + 1] && wants[1..][k] == wants[k + 1];
      assert Assigns(ok, wants[1..], actual, used + {i}, q);
    }
  }

  lemma {:induction false} GreedyIsComplete<W(!new), G(!new)>(ok: Accepts<W, G>, ordered: seq<W>, actual: seq<G>,
                                              used: set<nat>)
    requires Exchangeable(ok, ordered, actual) && Assignable(ok, ordered, actual, used)
    ensures Greedy(ok, ordered, actual, used)
    decreases |ordered|
  {
    if ordered != [] {
      var p :| Assigns(ok, ordered, actual, used, p);
      var i := FirstFree(ok, ordered[0], actual, used, 0);
      assert i < |actual| by {
        assert ok(ordered[0], actual[p[0]]) && p[0] !in used;
      }
      Exchange(ok, ordered, actual, used, p, i);
      var rest := ordered[1..];
      assert Exchangeable(ok, rest, actual) by {
        forall k, l, g, h | 0 <= k < l < |rest| && 0 <= g < |actual| && 0 <= h < |actual|
          ensures Yields(ok, rest[k], rest[l], actual[g], actual[h])
        {
          assert Yields(ok, ordered[k + 1], ordered[l + 1], actual[g], actual[h]);
        }
      }
      GreedyIsComplete(ok, rest, actual, used + {i});
    }
  }

  // ---------- permutations ----------

  /** A permutation and its inverse. */
  datatype Perm = Perm(fwd: seq<nat>, inv: seq<nat>)
  {
    ghost predicate On(n: nat) {
      && |fwd| == |inv| == n
      && (forall i :: 0 <= i < n ==> fwd[i] < n && inv[fwd[i]] == i)
      && (forall i :: 0 <= i < n ==> inv[i] < n && fwd[inv[i]] == i)
    }

    ghost predicate Carries<T>(a: seq<T>, b: seq<T>) {
      |a| == |b| && On(|a|) && forall i :: 0 <= i < |a| ==> a[i] == b[fwd[i]]
    }
  }

  ghost predicate Shuffled<T(!new)>(a: seq<T>, b: seq<T>) {
    exists perm: Perm :: perm.Carries(a, b)
  }

  lemma {:induction false} ShuffledIsReflexive<T(!new)>(a: seq<T>)
    ensures Shuffled(a, a)
  {
    var id := seq(|a|, i => i);
    assert Perm(id, id).Carries(a, a);
  }

  lemma {:induction false} ShuffledIsSymmetric<T(!new)>(a: seq<T>, b: seq<T>)
    requires Shuffled(a, b)
    ensures Shuffled(b, a)
  {
    var perm: Perm :| perm.Carries(a, b);
    assert Perm(perm.inv, perm.fwd).Carries(b, a);
  }

  lemma {:induction false} ShuffledIsTransitive<T(!new)>(a: seq<T>, b: seq<T>, d: seq<T>)
    requires Shuffled(a, b) && Shuffled(b, d)
    ensures Shuffled(a, d)
  {
    var p: Perm :| p.Carries(a, b);
    var q: Perm :| q.Carries(b, d);
    var n := |a|;
    var fwd := seq(n, i requires 0 <= i < n => q.fwd[p.fwd[i]]);
    var inv := seq(n, i requires 0 <= i < n => p.inv[q.inv[i]]);
    assert Perm(fwd, inv).Carries(a, d);
  }

  lemma {:induction false} SwapShuffles<T(!new)>(s: seq<T>, i: nat, j: nat)
    requires i < |s| && j < |s|
    ensures Shuffled(s[i := s[j]][j := s[i]], s)
  {
    var id := seq(|s|, k => k);
    var swap := id[i := j][j := i];
    assert Perm(swap, swap).Carries(s[i := s[j]][j := s[i]], s);
  }

  lemma {:induction false} ShuffledThroughSwap<T(!new)>(r: seq<T>, s: seq<T>, i: nat, j: nat)
    requires i < |s| && j < |s| && Shuffled(r, s[i := s[j]][j := s[i]])
    ensures Shuffled(r, s)
  {
    SwapShuffles(s, i, j);
    ShuffledIsTransitive(r, s[i := s[j]][j := s[i]], s);
  }

  /** Reordering either list does not change whether an assignment exists. */
  lemma {:induction false} AssignableShuffled<W(!new), G(!new)>(ok: Accepts<W, G>, wants: seq<W>, wants': seq<W>,
                                                actual: seq<G>, actual': seq<G>)
    requires Assignable(ok, wants, actual, {}) && Shuffled(wants', wants) && Shuffled(actual, actual')
    ensures Assignable(ok, wants', actual', {})
  {
    var p :| Assigns(ok, wants, actual, {}, p);
    var v: Perm :| v.Carries(wants', wants);
    var w: Perm :| w.Carries(actual, actual');
    var n := |wants'|;
    var q := seq(n, k requires 0 <= k < n => w.fwd[p[v.fwd[k]]]);
    forall k, l | 0 <= k < l < n ensures q[k] != q[l] {
      assert v.inv[v.fwd[k]] == k && v.inv[v.fwd[l]] == l;
      assert w.inv[q[k]] == p[v.fwd[k]] && w.inv[q[l]] == p[v.fwd[l]];
    }
    assert Assigns(ok, wants', actual', {}, q);
  }
}
