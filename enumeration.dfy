/**
 * The invariant of the recursive exponent enumerator shared by the
 * generator and its prototype: at position `|prefix|` of the buffer, after
 * the exponents below `e` have been tried, the collection holds exactly the
 * vectors that complete `prefix + [e']` for some `e' < e`.
 */
module Enumeration {
  import opened Combos

  /** `w` has `n` exponents, begins with `prefix` and has a sum of at most `order`. */
  ghost predicate Completion(w: Combo, n: nat, prefix: Combo, order: int)
  {
    |w| == n && |prefix| <= n && w[..|prefix|] == prefix && Sum(w) <= order
  }

  /** `w` completes `prefix + [e]` for some exponent `e` below `below`. */
  ghost predicate Branch(w: Combo, n: nat, prefix: Combo, below: int, order: int)
  {
    |w| == n && |prefix| < n && w[..|prefix|] == prefix && w[|prefix|] < below && Sum(w) <= order
  }

  lemma PrefixExtend(w: Combo, prefix: Combo, e: nat)
    requires |prefix| < |w|
    ensures w[..|prefix| + 1] == prefix + [e] <==> w[..|prefix|] == prefix && w[|prefix|] == e
  {
    var m := |prefix|;
    if w[..m] == prefix && w[m] == e {
      assert w[..m + 1] == w[..m] + [w[m]];
    }
    if w[..m + 1] == prefix + [e] {
      assert w[..m] == w[..m + 1][..m];
      assert w[m] == w[..m + 1][m];
    }
  }

  /**
   * One iteration of the enumerator's loop at position `|prefix|` with
   * exponent `e`: a vector completes `prefix + [e']` for some `e' <= e` iff
   * it did so for some `e' < e`, or it is the buffer `b` (which the
   * iteration records when its sum is within `order`), or it completes
   * `prefix + [e]` (which the recursive call records when a position remains).
   */
  lemma BranchStep(w: Combo, n: nat, prefix: Combo, e: nat, order: int, b: Combo)
    requires |prefix| < n == |b| && b[..|prefix|] == prefix && b[|prefix|] == e
    ensures Branch(w, n, prefix, e + 1, order) <==>
      Branch(w, n, prefix, e, order) || (w == b && Sum(b) <= order) ||
      (|prefix| + 1 < n && Completion(w, n, prefix + [e], order))
  {
    var m := |prefix|;
    if |w| == n {
      PrefixExtend(w, prefix, e);
      if m + 1 == n && w[..m] == prefix && w[m] == e {
        assert w == w[..m] + [w[m]];
        assert b == b[..m] + [b[m]];
      }
    }
  }

  /** `BranchStep` for the collection: the set the iteration leaves holds exactly the branches up to `e`. */
  lemma EnumerationStep(found: set<Combo>, before: set<Combo>, after: set<Combo>,
                        n: nat, prefix: Combo, e: nat, order: int, b: Combo)
    requires |prefix| < n == |b| && b[..|prefix|] == prefix && b[|prefix|] == e
    requires forall w :: w in before <==> w in found || Branch(w, n, prefix, e, order)
    requires forall w :: w in after <==>
      w in before || (w == b && Sum(b) <= order) || (|prefix| + 1 < n && Completion(w, n, prefix + [e], order))
    ensures forall w :: w in after <==> w in found || Branch(w, n, prefix, e + 1, order)
  {
    forall w ensures w in after <==> w in found || Branch(w, n, prefix, e + 1, order) {
      BranchStep(w, n, prefix, e, order, b);
    }
  }

  /** Once every exponent up to `order` has been tried, the branches are all completions. */
  lemma BranchesComplete(w: Combo, n: nat, prefix: Combo, order: int)
    requires |prefix| < n && order >= 0
    ensures Branch(w, n, prefix, order + 1, order) <==> Completion(w, n, prefix, order)
  {
    if Completion(w, n, prefix, order) {
      ElementAtMostSum(w, |prefix|);
    }
  }

  /** The completions of the empty prefix are the admissible vectors. */
  lemma CompletionsOfNothing(w: Combo, n: nat, order: int)
    ensures Completion(w, n, [], order) <==> Admissible(w, n, order)
  {
    if |w| == n {
      assert w[..0] == [];
    }
  }
}
