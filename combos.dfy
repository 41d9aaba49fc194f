/**
 * Power-combinations: one non-negative exponent per input variable.
 * This module holds what the rest of the model is specified by:
 * the exponent sum, Python's lexicographic list comparison, and Gen,
 * a reference enumeration of every combination of a given length whose
 * exponents sum to at most a given order, in descending lexicographic order.
 */
module Combos {

  type Combo = seq<nat>

  /** Python's `sum(p)`. */
  function Sum(p: Combo): nat
  {
    if p == [] then 0 else p[0] + Sum(p[1..])
  }

  /** `[k] * n` */
  function Repeat(k: nat, n: nat): (r: Combo)
    ensures |r| == n && forall i :: 0 <= i < n ==> r[i] == k
  {
    seq(n, _ => k)
  }

  function Zeros(n: nat): (r: Combo)
    ensures |r| == n && Sum(r) == 0
  {
    var r := Repeat(0, n);
    SumZero(r);
    r
  }

  lemma {:induction false} SumZero(p: Combo)
    requires forall i :: 0 <= i < |p| ==> p[i] == 0
    ensures Sum(p) == 0
  {
    if p != [] {
      SumZero(p[1..]);
    }
  }

  /** Conversely, the only combination of sum 0 is the all-zero one. */
  lemma {:induction false} SumZeroOnlyZeros(p: Combo)
    requires Sum(p) == 0
    ensures p == Zeros(|p|)
  {
    if p != [] {
      SumZeroOnlyZeros(p[1..]);
      assert p == [p[0]] + p[1..];
    }
  }

  /** Every exponent is bounded by the sum, so `Sum(p) <= order` keeps each exponent in 0..order. */
  lemma {:induction false} ElementAtMostSum(p: Combo, i: nat)
    requires i < |p|
    ensures p[i] <= Sum(p)
  {
    if i > 0 {
      ElementAtMostSum(p[1..], i - 1);
    }
  }

  /** The combinations of `n` variables whose exponents sum to at most `k`. */
  predicate Admissible(w: Combo, n: nat, k: int)
  {
    |w| == n && Sum(w) <= k
  }

  // ---------------------------------------------------------------------
  // Python's comparison of lists of integers
  // ---------------------------------------------------------------------

  /** Python's `a < b` on lists: element by element, a proper prefix being smaller. */
  predicate LexLess(a: Combo, b: Combo)
  {
    if a == [] then b != []
    else if b == [] then false
    else a[0] < b[0] || (a[0] == b[0] && LexLess(a[1..], b[1..]))
  }

  lemma {:induction false} LexIrreflexive(a: Combo)
    ensures !LexLess(a, a)
  {
    if a != [] {
      LexIrreflexive(a[1..]);
    }
  }

  lemma {:induction false} LexAsymmetric(a: Combo, b: Combo)
    ensures !(LexLess(a, b) && LexLess(b, a))
  {
    if a != [] && b != [] {
      LexAsymmetric(a[1..], b[1..]);
    }
  }

  lemma {:induction false} LexTransitive(a: Combo, b: Combo, c: Combo)
    requires LexLess(a, b) && LexLess(b, c)
    ensures LexLess(a, c)
  {
    if a != [] && a[0] == b[0] && b[0] == c[0] {
      LexTransitive(a[1..], b[1..], c[1..]);
    }
  }

  lemma {:induction false} LexTotal(a: Combo, b: Combo)
    requires a != b
    ensures LexLess(a, b) || LexLess(b, a)
  {
    if a != [] && b != [] && a[0] == b[0] {
      assert a == [a[0]] + a[1..] && b == [b[0]] + b[1..];
      LexTotal(a[1..], b[1..]);
    }
  }

  /** Strictly descending in Python's list order: the order `sort(reverse=True)` gives a list without duplicates. */
  predicate StrictlyDescending(q: seq<Combo>)
  {
    forall i, j :: 0 <= i < j < |q| ==> LexLess(q[j], q[i])
  }

  predicate NoDuplicates<T(==)>(q: seq<T>)
  {
    forall i, j :: 0 <= i < j < |q| ==> q[i] != q[j]
  }

  lemma StrictlyDescendingHasNoDuplicates(q: seq<Combo>)
    requires StrictlyDescending(q)
    ensures NoDuplicates(q)
  {
    forall i, j | 0 <= i < j < |q| ensures q[i] != q[j] {
      LexIrreflexive(q[i]);
    }
  }

  /** Putting a combination in front of a strictly descending list of smaller ones keeps it strictly descending. */
  lemma ConsDescending(h: Combo, rest: seq<Combo>)
    requires StrictlyDescending(rest)
    requires forall y :: y in rest ==> LexLess(y, h)
    ensures StrictlyDescending([h] + rest)
  {
    var r := [h] + rest;
    forall i, j | 0 <= i < j < |r| ensures LexLess(r[j], r[i]) {
      assert r[j] == rest[j - 1] && r[j] in rest;
      if i > 0 {
        assert r[i] == rest[i - 1];
      }
    }
  }

  /** The head of a strictly descending list is above everything after it. */
  lemma HeadAboveTail(q: seq<Combo>)
    requires StrictlyDescending(q) && q != []
    ensures forall y :: y in q[1..] ==> LexLess(y, q[0])
  {
    forall y | y in q[1..] ensures LexLess(y, q[0]) {
      var j :| 0 <= j < |q[1..]| && q[1..][j] == y;
      assert q[j + 1] == y;
    }
  }

  /**
   * A set has exactly one strictly descending listing: two strictly
   * descending sequences with the same members are equal.
   */
  lemma {:induction false} DescendingListingUnique(a: seq<Combo>, b: seq<Combo>)
    requires StrictlyDescending(a) && StrictlyDescending(b)
    requires forall x :: x in a <==> x in b
    ensures a == b
  {
    if b != [] {
      assert b[0] in b;
    }
    if a != [] {
      assert b != [] by { assert a[0] in b; }
      if a[0] != b[0] {
        assert a[0] in b;
        var j :| 0 <= j < |b| && b[j] == a[0];
        assert b[0] in a;
        var i :| 0 <= i < |a| && a[i] == b[0];
        assert j > 0 && i > 0;
        LexAsymmetric(a[0], b[0]);
        assert false;
      }
      StrictlyDescendingHasNoDuplicates(a);
      StrictlyDescendingHasNoDuplicates(b);
      forall x ensures x in a[1..] <==> x in b[1..] {
        if x in a[1..] {
          var i :| 1 <= i < |a| && a[i] == x;
          assert x in b && x != b[0];
        }
        if x in b[1..] {
          var i :| 1 <= i < |b| && b[i] == x;
          assert x in a && x != a[0];
        }
      }
      DescendingListingUnique(a[1..], b[1..]);
      assert a == [a[0]] + a[1..] && b == [b[0]] + b[1..];
    }
  }

  // ---------------------------------------------------------------------
  // The reference enumeration
  // ---------------------------------------------------------------------

  /** Puts `e` in front of every combination of `s`. */
  function Prepend(e: nat, s: seq<Combo>): (r: seq<Combo>)
    ensures |r| == |s| && forall i :: 0 <= i < |s| ==> r[i] == [e] + s[i]
  {
    seq(|s|, i requires 0 <= i < |s| => [e] + s[i])
  }

  /**
   * Every combination of `n` exponents with sum at most `k`, in descending
   * lexicographic order (none when `k` is negative).
   */
  function Gen(n: nat, k: int): seq<Combo>
    decreases n, 1
  {
    if n == 0 then (if k >= 0 then [[]] else [])
    else if k < 0 then []
    else Blocks(n, k, k + 1)
  }

  /** The combinations of Gen(n, k) whose first exponent is below `c`, largest first exponent first. */
  function Blocks(n: nat, k: int, c: nat): seq<Combo>
    requires n >= 1 && c <= k + 1
    decreases n, 0, c
  {
    if c == 0 then []
    else Prepend(c - 1, Gen(n - 1, k - (c - 1))) + Blocks(n, k, c - 1)
  }

  lemma {:induction false} GenMembers(n: nat, k: int)
    ensures forall w :: w in Gen(n, k) <==> Admissible(w, n, k)
    decreases n, 1
  {
    if n == 0 {
      forall w ensures w in Gen(n, k) <==> Admissible(w, n, k) {
        if |w| == 0 { assert w == []; }
      }
    } else if k < 0 {
    } else {
      BlocksMembers(n, k, k + 1);
      forall w | Admissible(w, n, k) ensures w[0] < k + 1 {
        ElementAtMostSum(w, 0);
      }
    }
  }

  lemma {:induction false} BlocksMembers(n: nat, k: int, c: nat)
    requires n >= 1 && c <= k + 1
    ensures forall w :: w in Blocks(n, k, c) <==> Admissible(w, n, k) && w[0] < c
    decreases n, 0, c
  {
    if c > 0 {
      var e := c - 1;
      GenMembers(n - 1, k - e);
      BlocksMembers(n, k, e);
      var front := Prepend(e, Gen(n - 1, k - e));
      forall w ensures w in front <==> Admissible(w, n, k) && w[0] == e {
        if w in front {
          var i :| 0 <= i < |front| && front[i] == w;
          var g := Gen(n - 1, k - e)[i];
          assert g in Gen(n - 1, k - e);
          assert w[0] == e && w[1..] == g;
          assert Sum(w) == e + Sum(g);
        }
        if Admissible(w, n, k) && w[0] == e {
          assert w == [e] + w[1..];
          assert w[1..] in Gen(n - 1, k - e);
          var i :| 0 <= i < |Gen(n - 1, k - e)| && Gen(n - 1, k - e)[i] == w[1..];
          assert front[i] == w;
        }
      }
    }
  }

  /** Prepending one exponent keeps the order among the prepended combinations. */
  lemma PrependDescending(e: nat, s: seq<Combo>)
    requires StrictlyDescending(s)
    ensures StrictlyDescending(Prepend(e, s))
  {
    var r := Prepend(e, s);
    forall i, j | 0 <= i < j < |r| ensures LexLess(r[j], r[i]) {
      assert r[j][1..] == s[j] && r[i][1..] == s[i];
    }
  }

  lemma {:induction false} GenDescending(n: nat, k: int)
    ensures StrictlyDescending(Gen(n, k))
    decreases n, 1
  {
    if n > 0 && k >= 0 {
      BlocksDescending(n, k, k + 1);
    }
  }

  lemma {:induction false} BlocksDescending(n: nat, k: int, c: nat)
    requires n >= 1 && c <= k + 1
    ensures StrictlyDescending(Blocks(n, k, c))
    decreases n, 0, c
  {
    if c > 0 {
      var e := c - 1;
      var front := Prepend(e, Gen(n - 1, k - e));
      var rest := Blocks(n, k, e);
      GenDescending(n - 1, k - e);
      PrependDescending(e, Gen(n - 1, k - e));
      BlocksDescending(n, k, e);
      BlocksMembers(n, k, e);
      var r := front + rest;
      assert r == Blocks(n, k, c);
      forall i, j | 0 <= i < j < |r| ensures LexLess(r[j], r[i]) {
        if j >= |front| && i < |front| {
          assert r[j] in rest;
          assert r[j][0] < e && r[i][0] == e;
        } else if i >= |front| {
          assert r[i] == rest[i - |front|] && r[j] == rest[j - |front|];
        }
      }
    }
  }

  // ---------------------------------------------------------------------
  // Counting
  // ---------------------------------------------------------------------

  /** The binomial coefficient, by Pascal's rule. */
  function Binom(n: nat, k: nat): nat
  {
    if k == 0 then 1 else if n == 0 then 0 else Binom(n - 1, k - 1) + Binom(n - 1, k)
  }

  lemma {:induction false} BinomBeyond(n: nat, k: nat)
    requires n < k
    ensures Binom(n, k) == 0
  {
    if n > 0 {
      BinomBeyond(n - 1, k - 1);
      BinomBeyond(n - 1, k);
    }
  }

  /** There are C(k + n, n) combinations of `n` exponents with sum at most `k`. */
  lemma {:induction false} GenCount(n: nat, k: nat)
    ensures |Gen(n, k)| == Binom(k + n, n)
    decreases n, 1
  {
    if n > 0 {
      BlocksCount(n, k, k + 1);
      BinomBeyond(n - 1, n);
    }
  }

  lemma {:induction false} BlocksCount(n: nat, k: nat, c: nat)
    requires n >= 1 && c <= k + 1
    ensures |Blocks(n, k, c)| + Binom(k + n - c, n) == Binom(k + n, n)
    decreases n, 0, c
  {
    if c > 0 {
      var e := c - 1;
      GenCount(n - 1, k - e);
      BlocksCount(n, k, e);
      assert Binom(k + n - e, n) == Binom(k + n - e - 1, n - 1) + Binom(k + n - e - 1, n);
    }
  }

  /** A sequence without duplicates has as many distinct members as elements. */
  lemma {:induction false} DistinctMembersCount<T>(q: seq<T>)
    requires NoDuplicates(q)
    ensures |set x | x in q| == |q|
  {
    if q != [] {
      var tail := q[1..];
      assert NoDuplicates(tail) by {
        forall i, j | 0 <= i < j < |tail| ensures tail[i] != tail[j] {
          assert tail[i] == q[i + 1] && tail[j] == q[j + 1];
        }
      }
      DistinctMembersCount(tail);
      assert q[0] !in tail by {
        forall i | 0 <= i < |tail| ensures tail[i] != q[0] {
          assert tail[i] == q[i + 1];
        }
      }
      assert (set x | x in q) == (set x | x in tail) + {q[0]} by {
        assert q == [q[0]] + tail;
      }
    }
  }
}
