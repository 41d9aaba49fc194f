/**
 * Three Fibonacci implementations, each against the mathematical sequence
 * with F(1) = F(2) = 1: `fib_BU` fills an array bottom up, `fib_RM` memoises
 * into a dictionary that, being a default argument, persists across calls,
 * and `fib_R` handles the two base cases and delegates to `fib_RM`.
 */
module Fibonacci {

  function Fib(n: nat): nat
  {
    if n == 0 then 0 else if n <= 2 then 1 else Fib(n - 1) + Fib(n - 2)
  }

  /** `fib_BU(n)`: F(n), building `BU[1..n]` left to right. */
  method FibBU(n: nat) returns (r: nat)
    requires n >= 1
    ensures r == Fib(n)
  {
    if n == 1 || n == 2 {
      return 1;
    }
    var bu := new nat[n + 1](_ => 0);
    bu[1] := 1;
    bu[2] := 1;
    for i := 3 to n + 1
      invariant forall j :: 1 <= j < i ==> bu[j] == Fib(j)
    {
      assert bu[i - 1] + bu[i - 2] == Fib(i);
      bu[i] := bu[i - 1] + bu[i - 2];
    }
    return bu[n];
  }

  /** Every key is a positive index mapped to its Fibonacci number. */
  predicate Correct(memo: map<int, nat>)
  {
    forall k :: k in memo ==> 1 <= k && memo[k] == Fib(k)
  }

  /** The two predecessors of every key from 3 on are keys too. */
  predicate Closed(memo: map<int, nat>)
  {
    forall k :: k in memo && k >= 3 ==> k - 1 in memo && k - 2 in memo
  }

  /** Storing F(n) once the predecessors of `n` are stored keeps both properties. */
  lemma StoreKeepsValid(memo: map<int, nat>, n: int)
    requires Correct(memo) && Closed(memo) && n >= 1
    requires n >= 3 ==> n - 1 in memo && n - 2 in memo
    ensures Correct(memo[n := Fib(n)]) && Closed(memo[n := Fib(n)])
  {
  }

  /** The default `memo={}` of `fib_RM`, one dictionary shared by every call. */
  class FibMemo {
    var memo: map<int, nat>

    constructor()
      ensures memo == map[]
    {
      memo := map[];
    }

    predicate Valid()
      reads this
    {
      Correct(memo) && Closed(memo)
    }

    /**
     * `fib_RM(n)`: F(n); afterwards `n` is a key, no key is lost, every new
     * key lies in `1..n`, and a stored `n` is answered from the dictionary
     * without changing it.
     */
    method FibRM(n: nat) returns (r: nat)
      requires n >= 1 && Valid()
      modifies this`memo
      ensures Valid()
      ensures r == Fib(n) && n in memo && memo[n] == r
      ensures forall k :: k in old(memo) ==> k in memo && memo[k] == old(memo)[k]
      ensures forall k :: k in memo && k !in old(memo) ==> 1 <= k <= n
      ensures n in old(memo) ==> memo == old(memo) && r == old(memo)[n]
      ensures n !in old(memo) && n <= 2 ==> memo == old(memo)[n := 1]
      decreases n
    {
      if n in memo {
        return memo[n];
      }
      if n == 1 || n == 2 {
        StoreKeepsValid(memo, n);
        memo := memo[n := 1];
      } else {
        var a := FibRM(n - 1);
        var b := FibRM(n - 2);
        StoreKeepsValid(memo, n);
        memo := memo[n := a + b];
      }
      return memo[n];
    }

    /** `fib_R(n)`: 1 for the two base cases, otherwise `fib_RM(n - 1) + fib_RM(n - 2)`. */
    method FibR(n: nat) returns (r: nat)
      requires n >= 1 && Valid()
      modifies this`memo
      ensures Valid()
      ensures r == Fib(n)
      ensures n <= 2 ==> memo == old(memo)
      ensures forall k :: k in old(memo) ==> k in memo && memo[k] == old(memo)[k]
      ensures forall k :: k in memo && k !in old(memo) ==> 1 <= k <= n - 1
      ensures n >= 3 ==> n - 1 in memo && n - 2 in memo
    {
      if n == 1 || n == 2 {
        r := 1;
      } else {
        var a := FibRM(n - 1);
        var b := FibRM(n - 2);
        r := a + b;
      }
    }
  }

  /**
   * A dictionary closed under taking the two predecessors of keys from 3 on
   * holds every index `1..n` once it holds some `n >= 3`.
   */
  lemma {:induction false} ClosedCoversPrefix(memo: map<int, nat>, n: int)
    requires n >= 3 && n in memo
    requires Closed(memo)
    ensures forall k :: 1 <= k <= n ==> k in memo
  {
    if n > 3 {
      ClosedCoversPrefix(memo, n - 1);
    }
  }

  /** After `fib_RM(n)` with `n >= 3` the dictionary holds F(k) for every `k` in `1..n`. */
  method MemoAfterCall(m: FibMemo, n: nat) returns (r: nat)
    requires n >= 3 && m.Valid()
    modifies m
    ensures r == Fib(n)
    ensures forall k :: 1 <= k <= n ==> k in m.memo && m.memo[k] == Fib(k)
  {
    r := m.FibRM(n);
    ClosedCoversPrefix(m.memo, n);
  }

  /**
   * On a fresh dictionary `fib_RM(2)` is a base case and stores only the
   * key 2: the "every index `1..n`" coverage needs `n >= 3` (or `n == 1`).
   */
  method FreshCallForTwo() returns (r: nat, keys: set<int>)
    ensures r == 1 && keys == {2}
  {
    var m := new FibMemo();
    r := m.FibRM(2);
    keys := m.memo.Keys;
  }

  /** The three implementations agree, on a fresh dictionary as in the timing comparison. */
  method AllAgree(n: nat) returns (recursive: nat, memoised: nat, bottomUp: nat)
    requires n >= 1
    ensures recursive == memoised == bottomUp == Fib(n)
  {
    var m := new FibMemo();
    recursive := m.FibR(n);
    memoised := m.FibRM(n);
    bottomUp := FibBU(n);
  }
}
