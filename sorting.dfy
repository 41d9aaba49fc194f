/**
 * Python's `list.sort(reverse=True)` on a list of exponent lists, as the
 * generator uses it: the result is non-increasing in Python's list order and
 * a permutation of the input. The algorithm of the built-in sort is not
 * modelled; an insertion sort stands for it.
 */
module Sorting {
  import opened Combos

  /** Every element is at least every later one in Python's list order. */
  predicate NonIncreasing(q: seq<Combo>)
  {
    forall i, j :: 0 <= i < j < |q| ==> !LexLess(q[i], q[j])
  }

  lemma NotLessTransitive(a: Combo, b: Combo, c: Combo)
    requires !LexLess(a, b) && !LexLess(b, c)
    ensures !LexLess(a, c)
  {
    if LexLess(a, c) {
      if a != b {
        LexTotal(a, b);
        LexTransitive(b, a, c);
      }
      assert false;
    }
  }

  lemma ConsNonIncreasing(h: Combo, rest: seq<Combo>)
    requires NonIncreasing(rest)
    requires forall y :: y in rest ==> !LexLess(h, y)
    ensures NonIncreasing([h] + rest)
  {
    var r := [h] + rest;
    forall i, j | 0 <= i < j < |r| ensures !LexLess(r[i], r[j]) {
      assert r[j] == rest[j - 1] && r[j] in rest;
      if i > 0 {
        assert r[i] == rest[i - 1];
      }
    }
  }

  /** Inserts `x` into a non-increasing list before the first element not above it. */
  function Insert(x: Combo, q: seq<Combo>): (r: seq<Combo>)
    requires NonIncreasing(q)
    ensures NonIncreasing(r)
    ensures multiset(r) == multiset(q) + multiset{x}
  {
    if q == [] then [x]
    else if !LexLess(x, q[0]) then
      InsertFront(x, q);
      [x] + q
    else
      var rest := Insert(x, q[1..]);
      InsertBehind(x, q, rest);
      [q[0]] + rest
  }

  lemma InsertFront(x: Combo, q: seq<Combo>)
    requires NonIncreasing(q) && q != [] && !LexLess(x, q[0])
    ensures NonIncreasing([x] + q)
  {
    forall y | y in q ensures !LexLess(x, y) {
      var j :| 0 <= j < |q| && q[j] == y;
      if j > 0 {
        NotLessTransitive(x, q[0], y);
      }
    }
    ConsNonIncreasing(x, q);
  }

  lemma InsertBehind(x: Combo, q: seq<Combo>, rest: seq<Combo>)
    requires NonIncreasing(q) && q != [] && LexLess(x, q[0])
    requires NonIncreasing(rest) && multiset(rest) == multiset(q[1..]) + multiset{x}
    ensures NonIncreasing([q[0]] + rest)
    ensures multiset([q[0]] + rest) == multiset(q) + multiset{x}
  {
    forall y | y in rest ensures !LexLess(q[0], y) {
      assert y in multiset(rest);
      if y == x {
        LexAsymmetric(x, q[0]);
      } else {
        assert y in q[1..];
        var j :| 0 <= j < |q[1..]| && q[1..][j] == y;
        assert q[j + 1] == y;
      }
    }
    ConsNonIncreasing(q[0], rest);
    assert q == [q[0]] + q[1..];
  }

  /** The sorted list: non-increasing, and a permutation of `q`. */
  function SortDescending(q: seq<Combo>): (r: seq<Combo>)
    ensures NonIncreasing(r)
    ensures multiset(r) == multiset(q)
  {
    if q == [] then []
    else
      assert q == [q[0]] + q[1..];
      Insert(q[0], SortDescending(q[1..]))
  }

  lemma {:induction false} NoDuplicatesCounts(q: seq<Combo>)
    requires NoDuplicates(q)
    ensures forall x :: multiset(q)[x] <= 1
  {
    if q != [] {
      var t := q[1..];
      assert NoDuplicates(t) by {
        forall i, j | 0 <= i < j < |t| ensures t[i] != t[j] {
          assert t[i] == q[i + 1] && t[j] == q[j + 1];
        }
      }
      NoDuplicatesCounts(t);
      assert q[0] !in t by {
        forall i | 0 <= i < |t| ensures t[i] != q[0] {
          assert t[i] == q[i + 1];
        }
      }
      assert q == [q[0]] + t;
    }
  }

  lemma CountsNoDuplicates(q: seq<Combo>)
    requires forall x :: multiset(q)[x] <= 1
    ensures NoDuplicates(q)
  {
    forall i, j | 0 <= i < j < |q| ensures q[i] != q[j] {
      assert q == q[..j] + q[j..];
      assert q[i] in q[..j] && q[j] in q[j..];
      assert multiset(q)[q[j]] == multiset(q[..j])[q[j]] + multiset(q[j..])[q[j]];
    }
  }

  /**
   * Sorting a list without duplicates yields its unique strictly descending
   * listing: strictly descending, with the same members.
   */
  lemma SortDistinct(q: seq<Combo>)
    requires NoDuplicates(q)
    ensures StrictlyDescending(SortDescending(q))
    ensures forall x :: x in SortDescending(q) <==> x in q
  {
    var r := SortDescending(q);
    NoDuplicatesCounts(q);
    CountsNoDuplicates(r);
    forall i, j | 0 <= i < j < |r| ensures LexLess(r[j], r[i]) {
      LexTotal(r[i], r[j]);
    }
    forall x ensures x in r <==> x in q {
      assert x in r <==> x in multiset(r);
      assert x in q <==> x in multiset(q);
    }
  }
}
