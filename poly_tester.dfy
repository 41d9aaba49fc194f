/**
 * The prototype enumerator `poly`: the same recursive walk over one shared
 * exponent buffer, recording every buffer whose sum is within the order as a
 * key of a dictionary. Its buffer `powers=[0, 0, 0]` and its dictionary
 * `memo={}` are default arguments, created once and shared by every call;
 * the recursive call passes only `level`, `powers` and `memo`, so every
 * level runs with the defaults `order=2` and `levels=3`.
 */
module PolyTester {
  import opened Combos
  import opened Enumeration

  const Order: nat := 2
  const Levels: nat := 3

  /** Every value of the dictionary is 'done'. */
  predicate AllDone(memo: map<Combo, string>)
  {
    forall w :: w in memo ==> memo[w] == "done"
  }

  /** The default-argument objects of `poly`. */
  class PolyDefaults {
    var powers: array<nat>
    var memo: map<Combo, string>

    constructor()
      ensures fresh(powers) && powers.Length == Levels && powers[..] == [0, 0, 0]
      ensures memo == map[]
    {
      powers := new nat[Levels](_ => 0);
      memo := map[];
    }

    /**
     * `poly(level=level)`: the dictionary gains, with the value 'done', every
     * length-3 vector with the buffer's first `level - 1` exponents and a sum
     * of at most 2, and is returned; the buffer ends with 2 from position
     * `level - 1` on.
     */
    method Poly(level: nat) returns (r: map<Combo, string>)
      requires powers.Length == Levels && 1 <= level <= Levels && AllDone(memo)
      modifies powers, this`memo
      ensures r == memo && AllDone(memo)
      ensures forall w :: w in memo <==> w in old(memo) || Completion(w, Levels, old(powers[..level - 1]), Order)
      ensures powers[..level - 1] == old(powers[..level - 1])
      ensures forall i :: level - 1 <= i < Levels ==> powers[i] == Order
      decreases Levels - level
    {
      ghost var prefix := powers[..level - 1];
      var pow := 0;
      while pow <= Order
        invariant 0 <= pow <= Order + 1
        invariant powers[..level - 1] == prefix
        invariant 0 < pow ==> powers[level - 1] == pow - 1 && forall i :: level <= i < Levels ==> powers[i] == Order
        invariant forall w :: w in memo <==> w in old(memo) || Branch(w, Levels, prefix, pow, Order)
        invariant AllDone(memo)
      {
        powers[level - 1] := pow;
        ghost var b := powers[..];
        ghost var before := memo.Keys;
        assert b[..level - 1] == prefix;
        if Sum(powers[..]) <= Order {
          memo := memo[powers[..] := "done"];
        }
        if level < Levels {
          var _ := Poly(level + 1);
          assert powers[..level - 1] == powers[..level][..level - 1];
          PrefixExtend(b, prefix, pow);
        }
        EnumerationStep(old(memo).Keys, before, memo.Keys, Levels, prefix, pow, Order, b);
        pow := pow + 1;
      }
      forall w ensures Branch(w, Levels, prefix, pow, Order) <==> Completion(w, Levels, prefix, Order) {
        BranchesComplete(w, Levels, prefix, Order);
      }
      r := memo;
    }
  }

  /** The keys a call from level 1 records: the vectors of `Gen(3, 2)`, ten of them. */
  lemma KeysOfFirstLevel(keys: set<Combo>)
    requires forall w :: w in keys <==> Completion(w, Levels, [], Order)
    ensures forall w :: w in keys <==> Admissible(w, 3, 2)
    ensures |keys| == 10
  {
    GenMembers(3, 2);
    forall w ensures w in keys <==> w in Gen(3, 2) {
      CompletionsOfNothing(w, Levels, Order);
    }
    assert keys == set w | w in Gen(3, 2);
    GenDescending(3, 2);
    StrictlyDescendingHasNoDuplicates(Gen(3, 2));
    DistinctMembersCount(Gen(3, 2));
    GenCount(3, 2);
  }

  /**
   * `my_ans = poly()`, and a second `poly()` after it: the first returns
   * ten keys, all the length-3 vectors with a sum of at most 2, each mapped
   * to 'done'; the second finds the buffer left at `[2, 2, 2]` and returns
   * the same dictionary.
   */
  method TwoCalls() returns (first: map<Combo, string>, second: map<Combo, string>, buffer: seq<nat>)
    ensures |first.Keys| == 10
    ensures forall w :: w in first <==> Admissible(w, 3, 2)
    ensures AllDone(first)
    ensures buffer == [2, 2, 2]
    ensures second == first
  {
    var defaults := new PolyDefaults();
    first := defaults.Poly(1);
    KeysOfFirstLevel(first.Keys);
    buffer := defaults.powers[..];
    second := defaults.Poly(1);
    assert forall w :: w in second <==> w in first;
    assert second == first;
  }
}
