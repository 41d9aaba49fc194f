/**
 * The selector applied at the end of `fit`: the interaction-only filter and
 * the removal of the bias (all-zero) combination; and Expected, the list of
 * combinations a successful `fit` stores.
 */
module Selection {
  import opened Combos

  /** `[x for x in q if sum(x) == d]` */
  function KeepDegree(q: seq<Combo>, d: int): (r: seq<Combo>)
    ensures forall x :: x in r <==> x in q && Sum(x) == d
    ensures |r| <= |q|
    ensures StrictlyDescending(q) ==> StrictlyDescending(r)
  {
    if q == [] then []
    else
      var rest := KeepDegree(q[1..], d);
      assert forall x :: x in q <==> x == q[0] || x in q[1..] by {
        assert q == [q[0]] + q[1..];
      }
      assert StrictlyDescending(q) ==> StrictlyDescending([q[0]] + rest) by {
        if StrictlyDescending(q) {
          HeadAboveTail(q);
          ConsDescending(q[0], rest);
        }
      }
      if Sum(q[0]) == d then [q[0]] + rest else rest
  }

  /** The position of the first occurrence of `x` in `q`. */
  function FirstIndex(q: seq<Combo>, x: Combo): (i: nat)
    requires x in q
    ensures i < |q| && q[i] == x && x !in q[..i]
  {
    if q[0] == x then 0
    else
      assert q == [q[0]] + q[1..];
      var j := FirstIndex(q[1..], x);
      assert q[..j + 1] == [q[0]] + q[1..][..j];
      j + 1
  }

  /** `q.remove(x)` with its `ValueError` swallowed: drops the first occurrence of `x`, if any. */
  function RemoveFirst(q: seq<Combo>, x: Combo): (r: seq<Combo>)
    ensures x !in q ==> r == q
    ensures x in q ==> r == q[..FirstIndex(q, x)] + q[FirstIndex(q, x) + 1..]
  {
    if q == [] then []
    else if q[0] == x then
      assert q[..0] == [];
      q[1..]
    else
      var t := q[1..];
      var rest := RemoveFirst(t, x);
      assert q == [q[0]] + t;
      RemoveFirstShift(q, x, rest);
      [q[0]] + rest
  }

  /** The elements of `q` with position `i` dropped, by position. */
  lemma DropAt(q: seq<Combo>, i: nat, a: nat)
    requires i < |q| && a < |q| - 1
    ensures |q[..i] + q[i + 1..]| == |q| - 1
    ensures (q[..i] + q[i + 1..])[a] == if a < i then q[a] else q[a + 1]
  {
  }

  lemma DropAtDescending(q: seq<Combo>, i: nat)
    requires i < |q| && StrictlyDescending(q)
    ensures StrictlyDescending(q[..i] + q[i + 1..])
  {
    var r := q[..i] + q[i + 1..];
    forall a, b | 0 <= a < b < |r| ensures LexLess(r[b], r[a]) {
      DropAt(q, i, a);
      DropAt(q, i, b);
    }
  }

  lemma DropAtMembers(q: seq<Combo>, i: nat)
    requires i < |q| && NoDuplicates(q)
    ensures forall y :: y in q[..i] + q[i + 1..] <==> y in q && y != q[i]
  {
    var r := q[..i] + q[i + 1..];
    forall y ensures y in r <==> y in q && y != q[i] {
      if y in r {
        var a :| 0 <= a < |r| && r[a] == y;
        DropAt(q, i, a);
      }
      if y in q && y != q[i] {
        var a :| 0 <= a < |q| && q[a] == y;
        var a' := if a < i then a else a - 1;
        DropAt(q, i, a');
      }
    }
  }

  /** On a strictly descending list, removal keeps the order and removes exactly `x`. */
  lemma RemoveFirstDescending(q: seq<Combo>, x: Combo)
    requires StrictlyDescending(q)
    ensures StrictlyDescending(RemoveFirst(q, x))
    ensures forall y :: y in RemoveFirst(q, x) <==> y in q && y != x
  {
    StrictlyDescendingHasNoDuplicates(q);
    if x in q {
      var i := FirstIndex(q, x);
      DropAtDescending(q, i);
      DropAtMembers(q, i);
    }
  }

  lemma DescendingTail(q: seq<Combo>)
    requires q != [] && StrictlyDescending(q)
    ensures StrictlyDescending(q[1..])
  {
    var t := q[1..];
    forall i, j | 0 <= i < j < |t| ensures LexLess(t[j], t[i]) {
      assert t[i] == q[i + 1] && t[j] == q[j + 1];
    }
  }

  lemma RemoveFirstShift(q: seq<Combo>, x: Combo, rest: seq<Combo>)
    requires q != [] && q[0] != x
    requires x !in q[1..] ==> rest == q[1..]
    requires x in q[1..] ==> rest == q[1..][..FirstIndex(q[1..], x)] + q[1..][FirstIndex(q[1..], x) + 1..]
    ensures x !in q ==> [q[0]] + rest == q
    ensures x in q ==> [q[0]] + rest == q[..FirstIndex(q, x)] + q[FirstIndex(q, x) + 1..]
  {
    var t := q[1..];
    assert q == [q[0]] + t;
    if x in t {
      var i := FirstIndex(t, x);
      assert FirstIndex(q, x) == i + 1;
      assert q[..i + 1] == [q[0]] + t[..i];
      assert q[i + 2..] == t[i + 1..];
    }
  }

  /**
   * `__modify_powers_lists__`: with `onlyDegree` (interaction_only == True)
   * keep the combinations of sum exactly `k`; then with `dropBias`
   * (include_bias == False) remove the all-zero combination of `n` variables.
   */
  function Select(q: seq<Combo>, n: nat, k: int, onlyDegree: bool, dropBias: bool): (r: seq<Combo>)
    ensures |r| <= |q|
    ensures StrictlyDescending(q) ==> StrictlyDescending(r)
    ensures StrictlyDescending(q) ==>
      forall x :: x in r <==> x in q && (onlyDegree ==> Sum(x) == k) && (dropBias ==> x != Zeros(n))
  {
    var kept := if onlyDegree then KeepDegree(q, k) else q;
    if !dropBias then kept
    else if StrictlyDescending(kept) then
      RemoveFirstDescending(kept, Zeros(n));
      RemoveFirst(kept, Zeros(n))
    else RemoveFirst(kept, Zeros(n))
  }

  /** What a successful `fit` stores for `n` variables and order `k`. */
  function Expected(n: nat, k: int, onlyDegree: bool, dropBias: bool): seq<Combo>
  {
    Select(Gen(n, k), n, k, onlyDegree, dropBias)
  }

  /**
   * The stored combinations are exactly the admissible ones, restricted to
   * sum `k` under the interaction-only flag and without the all-zero one
   * when the bias is excluded, listed strictly descending with no duplicates.
   */
  lemma ExpectedMembers(n: nat, k: int, onlyDegree: bool, dropBias: bool)
    ensures forall w :: w in Expected(n, k, onlyDegree, dropBias) <==>
      Admissible(w, n, k) && (onlyDegree ==> Sum(w) == k) && (dropBias ==> w != Zeros(n))
    ensures StrictlyDescending(Expected(n, k, onlyDegree, dropBias))
    ensures NoDuplicates(Expected(n, k, onlyDegree, dropBias))
  {
    GenMembers(n, k);
    GenDescending(n, k);
    var kept := if onlyDegree then KeepDegree(Gen(n, k), k) else Gen(n, k);
    RemoveFirstDescending(kept, Zeros(n));
    StrictlyDescendingHasNoDuplicates(Expected(n, k, onlyDegree, dropBias));
  }

  /** Without either filter, `fit` stores C(order + vars, vars) combinations. */
  lemma ExpectedCount(n: nat, k: nat)
    ensures |Expected(n, k, false, false)| == Binom(k + n, n)
  {
    GenCount(n, k);
  }

  /** Excluding the bias removes only the all-zero combination, and removes it whenever it is present. */
  lemma DropBiasRemovesOnlyZeros(n: nat, k: int, onlyDegree: bool)
    ensures forall w :: w in Expected(n, k, onlyDegree, true) <==> w in Expected(n, k, onlyDegree, false) && w != Zeros(n)
    ensures Zeros(n) in Expected(n, k, onlyDegree, false) ==>
      |Expected(n, k, onlyDegree, true)| + 1 == |Expected(n, k, onlyDegree, false)|
    ensures Zeros(n) !in Expected(n, k, onlyDegree, false) ==>
      Expected(n, k, onlyDegree, true) == Expected(n, k, onlyDegree, false)
  {
    ExpectedMembers(n, k, onlyDegree, true);
    ExpectedMembers(n, k, onlyDegree, false);
  }

  /** Every selected combination has `n` exponents, each within `0..k`, summing to at most `k`. */
  lemma ExpectedBounds(n: nat, k: int, onlyDegree: bool, dropBias: bool)
    ensures forall w :: w in Expected(n, k, onlyDegree, dropBias) ==>
      |w| == n && Sum(w) <= k && forall i :: 0 <= i < n ==> w[i] <= k
  {
    ExpectedMembers(n, k, onlyDegree, dropBias);
    forall w, i | w in Expected(n, k, onlyDegree, dropBias) && 0 <= i < n ensures w[i] <= k {
      ElementAtMostSum(w, i);
    }
  }
}
