/**
 * The evaluator of `transform`: for each row and each combination, the
 * product of `row[i] ** p[i]` over the row's positions, accumulated left to
 * right from 1. Inputs are integers here; `0 ** 0` is 1 as in Python.
 */
module Evaluation {
  import opened PyValues
  import opened Combos

  /** Python's `b ** e` for an integer base and a non-negative exponent. */
  function Pow(b: int, e: nat): int
  {
    if e == 0 then 1 else b * Pow(b, e - 1)
  }

  lemma {:induction false} PowAdd(b: int, m: nat, n: nat)
    ensures Pow(b, m + n) == Pow(b, m) * Pow(b, n)
  {
    if m > 0 {
      PowAdd(b, m - 1, n);
      assert Pow(b, m + n) == b * Pow(b, m - 1 + n);
    }
  }

  /** The value of combination `p` on `row`: `prod *= row[i] ** p[i]` for each position of the row. */
  function Monomial(row: seq<int>, p: Combo): int
    requires |row| <= |p|
  {
    if |row| == 0 then 1
    else Monomial(row[..|row| - 1], p) * Pow(row[|row| - 1], p[|row| - 1])
  }

  /** Element-wise sum of two combinations: the exponents of a product of two features. */
  function AddCombos(p: Combo, q: Combo): (r: Combo)
    requires |p| == |q|
    ensures |r| == |p| && forall i :: 0 <= i < |p| ==> r[i] == p[i] + q[i]
  {
    seq(|p|, i requires 0 <= i < |p| => p[i] + q[i])
  }

  /** The bias combination evaluates to 1 on every row, zeros included. */
  lemma {:induction false} MonomialOfZeros(row: seq<int>, p: Combo)
    requires |row| <= |p| && forall i :: 0 <= i < |p| ==> p[i] == 0
    ensures Monomial(row, p) == 1
  {
    if |row| > 0 {
      MonomialOfZeros(row[..|row| - 1], p);
    }
  }

  lemma Rearrange(a: int, b: int, c: int, d: int)
    ensures (a * b) * (c * d) == (a * c) * (b * d)
  {
  }

  /** A feature of summed exponents is the product of the two features. */
  lemma {:induction false} MonomialOfSum(row: seq<int>, p: Combo, q: Combo)
    requires |p| == |q| && |row| <= |p|
    ensures Monomial(row, AddCombos(p, q)) == Monomial(row, p) * Monomial(row, q)
  {
    if |row| > 0 {
      var k := |row| - 1;
      var front := row[..k];
      var s := AddCombos(p, q);
      MonomialOfSum(front, p, q);
      PowAdd(row[k], p[k], q[k]);
      var a, b := Monomial(front, p), Monomial(front, q);
      var c, d := Pow(row[k], p[k]), Pow(row[k], q[k]);
      assert Monomial(row, s) == Monomial(front, s) * Pow(row[k], s[k]);
      assert Monomial(front, s) == a * b;
      assert Pow(row[k], s[k]) == c * d;
      Rearrange(a, b, c, d);
    }
  }

  /** The combination with a single exponent 1 at `j` picks out `row[j]`. */
  lemma {:induction false} MonomialOfUnit(row: seq<int>, p: Combo, j: nat)
    requires |row| <= |p| && j < |row|
    requires p[j] == 1 && forall i :: 0 <= i < |p| && i != j ==> p[i] == 0
    ensures Monomial(row, p) == row[j]
  {
    var k := |row| - 1;
    if k == j {
      var zeros := p[j := 0];
      MonomialReadsRowWidth(row[..k], p, zeros);
      MonomialOfZeros(row[..k], zeros);
      assert Pow(row[k], p[k]) == row[k] * Pow(row[k], 0);
    } else {
      MonomialOfUnit(row[..k], p, j);
    }
  }

  /** Only the exponents within the row's width affect a monomial's value. */
  lemma {:induction false} MonomialReadsRowWidth(row: seq<int>, p: Combo, q: Combo)
    requires |row| <= |p| == |q| && forall i :: 0 <= i < |row| ==> p[i] == q[i]
    ensures Monomial(row, p) == Monomial(row, q)
  {
    if |row| > 0 {
      MonomialReadsRowWidth(row[..|row| - 1], p, q);
    }
  }

  /** Every combination has at least as many exponents as every row has values. */
  predicate Fits(X: seq<seq<int>>, ps: seq<Combo>)
  {
    forall r, c :: 0 <= r < |X| && 0 <= c < |ps| ==> |X[r]| <= |ps[c]|
  }

  /**
   * The matrix `transform` returns: one row per input row, one column per
   * combination; an IndexError when some row is longer than some combination.
   */
  function Evaluate(X: seq<seq<int>>, ps: seq<Combo>): (r: Result<seq<seq<int>>>)
    ensures r.Ok? <==> Fits(X, ps)
    ensures r.Ok? ==> |r.value| == |X|
    ensures r.Ok? ==> forall i :: 0 <= i < |X| ==> |r.value[i]| == |ps|
    ensures r.Ok? ==> forall i, c :: 0 <= i < |X| && 0 <= c < |ps| ==>
      |X[i]| <= |ps[c]| && r.value[i][c] == Monomial(X[i], ps[c])
  {
    if Fits(X, ps) then
      Ok(seq(|X|, i requires 0 <= i < |X| => seq(|ps|, c requires 0 <= c < |ps| => Monomial(X[i], ps[c]))))
    else Err(IndexError)
  }

  /** A matrix with the right shape and entries is the one `Evaluate` returns. */
  lemma EvaluateAll(X: seq<seq<int>>, ps: seq<Combo>, out: seq<seq<int>>)
    requires Fits(X, ps) && |out| == |X|
    requires forall i :: 0 <= i < |X| ==> |out[i]| == |ps|
    requires forall i, c :: 0 <= i < |X| && 0 <= c < |ps| ==> out[i][c] == Monomial(X[i], ps[c])
    ensures Evaluate(X, ps) == Ok(out)
  {
    var m := Evaluate(X, ps).value;
    forall i | 0 <= i < |X| ensures m[i] == out[i] {
      assert forall c :: 0 <= c < |ps| ==> m[i][c] == out[i][c];
    }
    assert m == out;
  }
}
