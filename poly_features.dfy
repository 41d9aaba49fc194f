/**
 * The polynomial-feature generator `Poly_Features_Pure_Py`: an object that
 * keeps its configuration (`order`, `interaction_only`, `include_bias`), and
 * which `fit` equips with the variable count, the exponent buffer and the
 * sorted, selected list of exponent combinations that `transform` and
 * `get_feature_names` then use.
 */
module PolyFeatures {
  import opened PyValues
  import opened Combos
  import opened Sorting
  import opened Selection
  import opened Config
  import opened Naming
  import opened Evaluation
  import opened Enumeration

  /** A Python list of feature names, updated in place by `append`. */
  class NameList {
    var items: seq<PyValue>

    constructor(items: seq<PyValue>)
      ensures this.items == items
    {
      this.items := items;
    }
  }

  /** The names `x0 .. x(n-1)` as the Python strings `get_feature_names` appends. */
  function DefaultNameValues(n: nat): (r: seq<PyValue>)
    ensures |r| == n && forall i :: 0 <= i < n ==> r[i] == PyStr(DefaultName(i))
  {
    seq(n, i requires 0 <= i < n => PyStr(DefaultName(i)))
  }

  /** `[x for x in items if type(x) == str]`, as the strings themselves. */
  function StrItems(items: seq<PyValue>): (r: seq<string>)
    ensures |r| <= |items|
    ensures |r| == |items| <==> forall i :: 0 <= i < |items| ==> items[i].PyStr?
    ensures |r| == |items| ==> forall i :: 0 <= i < |items| ==> r[i] == items[i].s
  {
    if items == [] then []
    else
      var front := StrItems(items[..|items| - 1]);
      var last := items[|items| - 1];
      assert forall i :: 0 <= i < |items| - 1 ==> items[..|items| - 1][i] == items[i];
      if last.PyStr? then front + [last.s] else front
  }

  lemma DefaultNameStrings(n: nat)
    ensures StrItems(DefaultNameValues(n)) == DefaultNames(n)
  {
  }

  /**
   * The names `get_feature_names` goes on to use for a name list `items`
   * when the object has `vars` variables, or the ValueError it raises.
   */
  function NameCheck(items: seq<PyValue>, vars: nat): (r: Result<seq<string>>)
    ensures r.Ok? <==> items == [] || (|items| == vars && forall i :: 0 <= i < |items| ==> items[i].PyStr?)
    ensures r.Ok? ==> |r.value| == vars
    ensures r.Ok? && items == [] ==> r.value == DefaultNames(vars)
    ensures r.Ok? && items != [] ==> forall i :: 0 <= i < vars ==> r.value[i] == items[i].s
    ensures items != [] && |items| != vars ==> r == Err(ValueError("Provide exactly " + NatToString(vars) + " feature names."))
    ensures items != [] && |items| == vars && r.Err? ==> r == Err(ValueError("All feature names must be type string."))
  {
    if items == [] then Ok(DefaultNames(vars))
    else if |items| != vars then Err(ValueError("Provide exactly " + NatToString(vars) + " feature names."))
    else if |StrItems(items)| != vars then Err(ValueError("All feature names must be type string."))
    else Ok(StrItems(items))
  }

  /** `list(s)` for a set: its members once each, in an order the model leaves open. */
  method ListOfSet(s: set<Combo>) returns (q: seq<Combo>)
    ensures forall w :: w in q <==> w in s
    ensures NoDuplicates(q)
  {
    q := [];
    var rest := s;
    while rest != {}
      invariant rest <= s
      invariant forall w :: w in q <==> w in s && w !in rest
      invariant NoDuplicates(q)
      decreases |rest|
    {
      var w :| w in rest;
      q := q + [w];
      rest := rest - {w};
    }
  }

  /**
   * Sorting any duplicate-free listing of the enumerated set gives the
   * reference enumeration `Gen`: the unique strictly descending listing.
   */
  lemma SortedEnumeration(q: seq<Combo>, n: nat, order: int)
    requires NoDuplicates(q) && forall w :: w in q <==> Completion(w, n, [], order)
    ensures SortDescending(q) == Gen(n, order)
  {
    SortDistinct(q);
    GenMembers(n, order);
    GenDescending(n, order);
    forall w ensures w in SortDescending(q) <==> w in Gen(n, order) {
      CompletionsOfNothing(w, n, order);
    }
    DescendingListingUnique(SortDescending(q), Gen(n, order));
  }

  class PolyFeaturesPurePy {
    var order: PyValue
    var interactionOnly: PyValue
    var includeBias: PyValue
    /** Whether the attribute `vars` exists (it is first assigned by `fit`). */
    var varsSet: bool
    var vars: nat
    /** The exponent buffer `fit` allocates and the enumerator overwrites. */
    var powers: array<nat>
    /** Whether the attribute `powers_lists` exists (it is first assigned by the enumerator). */
    var fitted: bool
    var powersLists: seq<Combo>

    /** The buffer always has one slot per variable. */
    predicate Valid()
      reads this
    {
      powers.Length == vars
    }

    /** The attribute assignments of `__init__`, before its type check. */
    constructor(order: PyValue, interactionOnly: PyValue, includeBias: PyValue)
      ensures Valid()
      ensures this.order == order && this.interactionOnly == interactionOnly && this.includeBias == includeBias
      ensures !varsSet && !fitted
    {
      this.order := order;
      this.interactionOnly := interactionOnly;
      this.includeBias := includeBias;
      varsSet := false;
      vars := 0;
      powers := new nat[0];
      fitted := false;
      powersLists := [];
    }

    /** `Poly_Features_Pure_Py(order, interaction_only, include_bias)`: the object, or the TypeError of its check. */
    static method Create(order: PyValue, interactionOnly: PyValue, includeBias: PyValue)
      returns (r: Result<PolyFeaturesPurePy>)
      ensures r.Ok? <==> CheckParams(order, interactionOnly, includeBias).Pass?
      ensures r.Err? ==> r.error == CheckParams(order, interactionOnly, includeBias).error
      ensures r.Ok? ==> fresh(r.value) && r.value.Valid() && !r.value.varsSet && !r.value.fitted
      ensures r.Ok? ==> r.value.order == order && r.value.interactionOnly == interactionOnly && r.value.includeBias == includeBias
    {
      var p := new PolyFeaturesPurePy(order, interactionOnly, includeBias);
      var check := p.CheckForParamErrors();
      if check.Fail? {
        return Err(check.error);
      }
      return Ok(p);
    }

    /**
     * `Poly_Features_Pure_Py(order=order)`: the flags take their defaults
     * `interaction_only=False` and `include_bias=True`, so the check passes
     * exactly when `order` is an `int`.
     */
    static method CreateDefault(order: PyValue) returns (r: Result<PolyFeaturesPurePy>)
      ensures r.Ok? <==> order.PyInt?
      ensures r.Err? ==> r.error == TypeError("\"order\" needs to be of type int. ")
      ensures r.Ok? ==> fresh(r.value) && r.value.Valid() && !r.value.varsSet && !r.value.fitted
      ensures r.Ok? ==> r.value.order == order && r.value.interactionOnly == PyBool(false) && r.value.includeBias == PyBool(true)
    {
      r := Create(order, PyBool(false), PyBool(true));
      if !order.PyInt? {
        assert BadFields(order, PyBool(false), PyBool(true)) == [Order];
        assert Messages([Order]) == FieldMessage(Order) + Messages([]);
      }
    }

    /** `__check_for_param_errors__`: one TypeError naming every ill-typed setting. */
    method CheckForParamErrors() returns (r: Outcome)
      ensures r == CheckParams(order, interactionOnly, includeBias)
      ensures r.Pass? <==> order.PyInt? && interactionOnly.PyBool? && includeBias.PyBool?
    {
      r := CheckParams(order, interactionOnly, includeBias);
    }

    /** `set_params(**kwargs)`: stores the given settings, then checks all three. */
    method SetParams(kwargs: map<string, PyValue>) returns (r: Outcome)
      modifies this`order, this`interactionOnly, this`includeBias
      ensures order == if "order" in kwargs then kwargs["order"] else old(order)
      ensures interactionOnly == if "interaction_only" in kwargs then kwargs["interaction_only"] else old(interactionOnly)
      ensures includeBias == if "include_bias" in kwargs then kwargs["include_bias"] else old(includeBias)
      ensures r == CheckParams(order, interactionOnly, includeBias)
    {
      if "order" in kwargs {
        order := kwargs["order"];
      }
      if "interaction_only" in kwargs {
        interactionOnly := kwargs["interaction_only"];
      }
      if "include_bias" in kwargs {
        includeBias := kwargs["include_bias"];
      }
      r := CheckForParamErrors();
    }

    /**
     * `__get_powers_lists__(order, var=v, powers, powers_lists=found)`: the
     * set gains every length-`vars` vector with the buffer's first `v - 1`
     * exponents and a sum of at most `order`, and `powers_lists` lists it.
     * The buffer ends with `order` at every position from `v - 1` on.
     */
    method GetPowersLists(order: int, v: nat, found: set<Combo>) returns (result: set<Combo>)
      requires Valid() && 1 <= v <= vars + 1 && (order >= 0 ==> v <= vars)
      modifies powers, this`powersLists, this`fitted
      ensures Valid()
      ensures forall w :: w in result <==> w in found || Completion(w, vars, old(powers[..v - 1]), order)
      ensures powers[..v - 1] == old(powers[..v - 1])
      ensures order >= 0 ==> forall i :: v - 1 <= i < vars ==> powers[i] == order
      ensures order < 0 ==> powers[..] == old(powers[..])
      ensures fitted && (forall w :: w in powersLists <==> w in result) && NoDuplicates(powersLists)
      decreases vars + 1 - v
    {
      ghost var prefix := powers[..v - 1];
      result := found;
      var pow := 0;
      while pow <= order
        invariant 0 <= pow && (pow == 0 || pow <= order + 1)
        invariant powers[..v - 1] == prefix
        invariant pow == 0 ==> powers[..] == old(powers[..])
        invariant 0 < pow ==> powers[v - 1] == pow - 1 && forall i :: v <= i < vars ==> powers[i] == order
        invariant forall w :: w in result <==> w in found || Branch(w, vars, prefix, pow, order)
      {
        powers[v - 1] := pow;
        ghost var before := result;
        ghost var b := powers[..];
        assert b[..v - 1] == prefix;
        if Sum(powers[..]) <= order {
          result := result + {powers[..]};
        }
        if v < vars {
          result := GetPowersLists(order, v + 1, result);
          assert powers[..v - 1] == powers[..v][..v - 1];
          PrefixExtend(b, prefix, pow);
        }
        EnumerationStep(found, before, result, vars, prefix, pow, order, b);
        pow := pow + 1;
      }
      forall w ensures Branch(w, vars, prefix, pow, order) <==> Completion(w, vars, prefix, order) {
        if order >= 0 {
          BranchesComplete(w, vars, prefix, order);
        }
      }
      powersLists := ListOfSet(result);
      fitted := true;
    }

    /** `__modify_powers_lists__`: the interaction-only filter, then removal of the first all-zero combination. */
    method ModifyPowersLists()
      requires AsInt(order).Some?
      modifies this`powersLists
      ensures powersLists ==
        Select(old(powersLists), vars, AsInt(order).value, PyEq(interactionOnly, 1), PyEq(includeBias, 0))
    {
      if PyEq(interactionOnly, 1) {
        powersLists := KeepDegree(powersLists, AsInt(order).value);
      }
      if PyEq(includeBias, 0) {
        powersLists := RemoveFirst(powersLists, Zeros(vars));
      }
    }

    /**
     * `fit(X)`: the variable count is the width of the first row; the
     * combinations are every length-`vars` vector with a sum of at most
     * `order`, in descending order, then selected.
     */
    method Fit(X: seq<seq<int>>) returns (r: Outcome)
      requires Valid()
      modifies this`vars, this`varsSet, this`powers, this`powersLists, this`fitted
      ensures Valid()
      ensures X == [] ==> r == Fail(IndexError) && unchanged(this)
      ensures X != [] ==> varsSet && vars == |X[0]| && fresh(powers)
      ensures r.Pass? <==> X != [] && AsInt(order).Some? && (|X[0]| > 0 || AsInt(order).value < 0)
      ensures X != [] && AsInt(order).None? ==> r == Fail(OperandTypeError)
      ensures X != [] && AsInt(order).Some? && |X[0]| == 0 && AsInt(order).value >= 0 ==> r == Fail(IndexError)
      ensures r.Fail? && X != [] ==>
        powers[..] == Zeros(vars) && powersLists == old(powersLists) && fitted == old(fitted)
      ensures r.Pass? ==> fitted
      ensures r.Pass? ==>
        powersLists == Expected(vars, AsInt(order).value, PyEq(interactionOnly, 1), PyEq(includeBias, 0))
      ensures r.Pass? ==>
        powers[..] == if AsInt(order).value >= 0 then Repeat(AsInt(order).value, vars) else Zeros(vars)
    {
      if X == [] {
        return Fail(IndexError);
      }
      vars := |X[0]|;
      varsSet := true;
      powers := new nat[vars](_ => 0);
      var k := AsInt(order);
      if k.None? {
        // `order + 1` or `range(order + 1)` raises before the buffer is touched
        return Fail(OperandTypeError);
      }
      if vars == 0 && k.value >= 0 {
        // the first iteration writes `powers[0]` of an empty list
        return Fail(IndexError);
      }
      var found := GetPowersLists(k.value, 1, {});
      SortedEnumeration(powersLists, vars, k.value);
      powersLists := SortDescending(powersLists);
      ModifyPowersLists();
      if k.value < 0 {
        assert powers[..] == Zeros(vars);
      } else {
        assert powers[..] == Repeat(k.value, vars);
      }
      return Pass;
    }

    /**
     * `get_feature_names(default_names)`: an empty list is first filled with
     * `x0 .. x(vars-1)`; then one name per combination, in order.
     */
    method GetFeatureNames(names: NameList) returns (r: Result<seq<string>>)
      modifies names
      ensures !varsSet ==> r == Err(AttributeError) && names.items == old(names.items)
      ensures varsSet && old(names.items) == [] ==> names.items == DefaultNameValues(vars)
      ensures varsSet && old(names.items) != [] ==> names.items == old(names.items)
      ensures varsSet && NameCheck(old(names.items), vars).Err? ==> r == NameCheck(old(names.items), vars)
      ensures varsSet && NameCheck(old(names.items), vars).Ok? && !fitted ==> r == Err(AttributeError)
      ensures varsSet && NameCheck(old(names.items), vars).Ok? && fitted ==>
        r == FeatureNames(powersLists, NameCheck(old(names.items), vars).value)
    {
      if !varsSet {
        return Err(AttributeError);
      }
      if |names.items| == 0 {
        var i := 0;
        while i < vars
          invariant 0 <= i <= vars
          invariant names.items == DefaultNameValues(i)
        {
          names.items := names.items + [PyStr(DefaultName(i))];
          i := i + 1;
        }
        DefaultNameStrings(vars);
      } else if |names.items| != vars {
        return Err(ValueError("Provide exactly " + NatToString(vars) + " feature names."));
      } else {
        var check := StrItems(names.items);
        if |check| != vars {
          return Err(ValueError("All feature names must be type string."));
        }
      }
      if !fitted {
        return Err(AttributeError);
      }
      r := NamesFor(StrItems(names.items));
    }

    /** Section 2 of `get_feature_names`: one name per combination, built from the exponents and `names`. */
    method NamesFor(names: seq<string>) returns (r: Result<seq<string>>)
      ensures r == FeatureNames(powersLists, names)
    {
      var featureNames: seq<string> := [];
      var c := 0;
      while c < |powersLists|
        invariant 0 <= c <= |powersLists|
        invariant |featureNames| == c
        invariant forall d :: 0 <= d < c ==>
          |names| <= |powersLists[d]| && featureNames[d] == FeatureName(powersLists[d], names)
      {
        var p := powersLists[c];
        var prod: seq<string> := [];
        var i := 0;
        while i < |names|
          invariant 0 <= i <= |names| && i <= |p|
          invariant prod == Terms(p, names, i)
        {
          if i >= |p| {
            assert |names| > |powersLists[c]|;
            return Err(IndexError);
          }
          if p[i] == 0 {
          } else if p[i] == 1 {
            prod := prod + [names[i]];
          } else {
            prod := prod + [names[i] + "^" + NatToString(p[i])];
          }
          i := i + 1;
        }
        if prod == [] {
          prod := ["1"];
        }
        featureNames := featureNames + [JoinSpaces(prod)];
        c := c + 1;
      }
      FeatureNamesAre(powersLists, names, featureNames);
      return Ok(featureNames);
    }

    /** `transform(X)`: row by row, the value of every combination. */
    method Transform(X: seq<seq<int>>) returns (r: Result<seq<seq<int>>>)
      ensures X == [] ==> r == Err(IndexError)
      ensures X != [] && !fitted ==> r == Err(AttributeError)
      ensures X != [] && fitted ==> r == Evaluate(X, powersLists)
    {
      if X == [] {
        return Err(IndexError);
      }
      if !fitted {
        return Err(AttributeError);
      }
      var xOut: seq<seq<int>> := [];
      var k := 0;
      while k < |X|
        invariant 0 <= k <= |X|
        invariant |xOut| == k
        invariant forall i, c :: 0 <= i < k && 0 <= c < |powersLists| ==> |X[i]| <= |powersLists[c]|
        invariant forall i :: 0 <= i < k ==> |xOut[i]| == |powersLists|
        invariant forall i, c :: 0 <= i < k && 0 <= c < |powersLists| ==>
          |X[i]| <= |powersLists[c]| && xOut[i][c] == Monomial(X[i], powersLists[c])
      {
        var row := X[k];
        var temp: seq<int> := [];
        var c := 0;
        while c < |powersLists|
          invariant 0 <= c <= |powersLists|
          invariant |temp| == c
          invariant forall d :: 0 <= d < c ==> |row| <= |powersLists[d]| && temp[d] == Monomial(row, powersLists[d])
        {
          var p := powersLists[c];
          var prod := 1;
          var i := 0;
          while i < |row|
            invariant 0 <= i <= |row| && i <= |p|
            invariant prod == Monomial(row[..i], p)
          {
            if i >= |p| {
              assert |X[k]| > |powersLists[c]|;
              return Err(IndexError);
            }
            assert row[..i + 1][..i] == row[..i];
            prod := prod * Pow(row[i], p[i]);
            i := i + 1;
          }
          assert row[..|row|] == row;
          temp := temp + [prod];
          c := c + 1;
        }
        xOut := xOut + [temp];
        k := k + 1;
      }
      EvaluateAll(X, powersLists, xOut);
      return Ok(xOut);
    }

    /** `fit_transform(X)`: `fit(X)`, then `transform(X)`. */
    method FitTransform(X: seq<seq<int>>) returns (r: Result<seq<seq<int>>>)
      requires Valid()
      modifies this`vars, this`varsSet, this`powers, this`powersLists, this`fitted
      ensures Valid()
      ensures X == [] ==> r == Err(IndexError)
      ensures X != [] && AsInt(order).None? ==> r == Err(OperandTypeError)
      ensures X != [] && AsInt(order).Some? && |X[0]| == 0 && AsInt(order).value >= 0 ==> r == Err(IndexError)
      ensures X != [] && AsInt(order).Some? && (|X[0]| > 0 || AsInt(order).value < 0) ==>
        r == Evaluate(X, Expected(|X[0]|, AsInt(order).value, PyEq(interactionOnly, 1), PyEq(includeBias, 0)))
    ensures X == [] ==> unchanged(this)
    ensures X != [] ==> varsSet && vars == |X[0]| && fresh(powers)
    ensures X != [] && !(AsInt(order).Some? && (|X[0]| > 0 || AsInt(order).value < 0)) ==>
      powers[..] == Zeros(vars) && powersLists == old(powersLists) && fitted == old(fitted)
    ensures X != [] && AsInt(order).Some? && (|X[0]| > 0 || AsInt(order).value < 0) ==>
      fitted && powersLists == Expected(vars, AsInt(order).value, PyEq(interactionOnly, 1), PyEq(includeBias, 0))
    ensures X != [] && AsInt(order).Some? && (|X[0]| > 0 || AsInt(order).value < 0) ==>
      powers[..] == if AsInt(order).value >= 0 then Repeat(AsInt(order).value, vars) else Zeros(vars)
    {
      if X == [] {
        return Err(IndexError);
      }
      var fit := Fit(X);
      if fit.Fail? {
        return Err(fit.error);
      }
      r := Transform(X);
    }
  }

  /** The pairs with a sum of at most 2, highest first. */
  function PairsUpToTwo(): seq<Combo>
  {
    [[2, 0], [1, 1], [1, 0], [0, 2], [0, 1], [0, 0]]
  }

  lemma PairsUpToTwoDescending()
    ensures StrictlyDescending(PairsUpToTwo())
  {
    var l := PairsUpToTwo();
    forall i, j | 0 <= i < j < |l| ensures LexLess(l[j], l[i]) {
      assert l[j][1..] == [l[j][1]] && l[i][1..] == [l[i][1]];
    }
  }

  lemma PairsUpToTwoMembers(w: Combo)
    ensures w in PairsUpToTwo() <==> Admissible(w, 2, 2)
  {
    if |w| == 2 {
      var a, b := w[0], w[1];
      assert w == [a, b];
      assert w[1..] == [b] && w[1..][1..] == [];
      assert Sum(w[1..][1..]) == 0;
      assert Sum(w[1..]) == b + Sum(w[1..][1..]);
      assert Sum(w) == a + Sum(w[1..]);
      if a + b <= 2 {
        assert a == 0 || a == 1 || a == 2;
      }
    }
  }

  /** For two variables and order 2 the reference enumeration is these six vectors. */
  lemma GenTwoByTwo(n: nat, k: int)
    requires n == 2 && k == 2
    ensures Gen(n, k) == PairsUpToTwo()
  {
    GenMembers(n, k);
    GenDescending(n, k);
    PairsUpToTwoDescending();
    forall w ensures w in Gen(n, k) <==> w in PairsUpToTwo() {
      PairsUpToTwoMembers(w);
    }
    DescendingListingUnique(Gen(n, k), PairsUpToTwo());
  }

  lemma TwoDefaultNames()
    ensures DefaultNames(2) == ["x0", "x1"]
  {
    var d := DefaultNames(2);
    assert NatToString(0) == "0" && NatToString(1) == "1";
    assert d[0] == "x0" && d[1] == "x1";
  }

  /** The name of a pair of exponents: its non-zero terms, joined by a space, or "1". */
  lemma PairName(a: nat, b: nat, names: seq<string>)
    requires |names| == 2
    ensures FeatureName([a, b], names) ==
      if a == 0 && b == 0 then "1"
      else if a == 0 then Term(names[1], b)
      else if b == 0 then Term(names[0], a)
      else Term(names[0], a) + " " + Term(names[1], b)
  {
    var p := [a, b];
    assert Terms(p, names, 0) == [];
    assert Terms(p, names, 1) == if a == 0 then [] else [Term(names[0], a)];
    var ts := Terms(p, names, 2);
    if a != 0 && b != 0 {
      assert ts == [Term(names[0], a), Term(names[1], b)];
      assert ts[..1] == [Term(names[0], a)];
      assert JoinSpaces(ts[..1]) == Term(names[0], a);
    }
  }

  /** The names of the six pairs under the names `x0, x1`. */
  lemma PairNames(ps: seq<Combo>, names: seq<string>)
    requires ps == PairsUpToTwo() && names == ["x0", "x1"]
    ensures FeatureNames(ps, names) == Ok(["x0^2", "x0 x1", "x0", "x1^2", "x1", "1"])
  {
    assert NatToString(2) == "2";
    assert FeatureName(ps[0], names) == "x0^2" by { PairName(2, 0, names); }
    assert FeatureName(ps[1], names) == "x0 x1" by { PairName(1, 1, names); }
    assert FeatureName(ps[2], names) == "x0" by { PairName(1, 0, names); }
    assert FeatureName(ps[3], names) == "x1^2" by { PairName(0, 2, names); }
    assert FeatureName(ps[4], names) == "x1" by { PairName(0, 1, names); }
    assert FeatureName(ps[5], names) == "1" by { PairName(0, 0, names); }
    FeatureNamesAre(ps, names, ["x0^2", "x0 x1", "x0", "x1^2", "x1", "1"]);
  }

  /** With neither flag set, the selection keeps everything. */
  lemma NothingSelectedAway(n: nat, k: int)
    ensures Expected(n, k, PyEq(PyBool(false), 1), PyEq(PyBool(true), 0)) == Gen(n, k)
  {
  }

  /** The configuration of `Poly_Features_Pure_Py(order=2)`: the other two settings at their defaults. */
  predicate DemoSettings(poly: PolyFeaturesPurePy)
    reads poly
  {
    poly.Valid() && poly.order == PyInt(2) && poly.interactionOnly == PyBool(false) && poly.includeBias == PyBool(true)
  }

  /** The demonstration's names and its expected list hold the same names. */
  lemma DemoNamesAgree(a: seq<string>, b: seq<string>)
    requires a == ["x0^2", "x0 x1", "x0", "x1^2", "x1", "1"]
    requires b == ["1", "x0", "x0 x1", "x0^2", "x1", "x1^2"]
    ensures multiset(a) == multiset(b)
  {
    assert a == [b[3], b[2], b[1], b[5], b[4], b[0]];
    assert multiset(a) == multiset{b[3]} + multiset{b[2]} + multiset{b[1]} + multiset{b[5]} + multiset{b[4]} + multiset{b[0]};
  }

  /** The demonstration's names and the wxMaxima list hold the same names. */
  lemma WxMaximaNamesAgree(a: seq<string>, b: seq<string>)
    requires a == ["x0^2", "x0 x1", "x0", "x1^2", "x1", "1"]
    requires b == ["x1^2", "x0 x1", "x1", "x0^2", "x0", "1"]
    ensures multiset(a) == multiset(b)
  {
    assert a == [b[3], b[1], b[4], b[0], b[2], b[5]];
    assert multiset(a) == multiset{b[3]} + multiset{b[1]} + multiset{b[4]} + multiset{b[0]} + multiset{b[2]} + multiset{b[5]};
  }

  /** The demonstration's `fit`: order 2 on two columns stores the six pairs with a sum of at most 2. */
  method DemoFit(poly: PolyFeaturesPurePy, X: seq<seq<int>>)
    requires DemoSettings(poly) && X == [[0, 0], [1, 2]]
    modifies poly
    ensures DemoSettings(poly) && poly.varsSet && poly.vars == 2
    ensures poly.fitted && poly.powersLists == PairsUpToTwo()
  {
    var fit := poly.Fit(X);
    NothingSelectedAway(poly.vars, 2);
    GenTwoByTwo(poly.vars, 2);
  }

  /**
   * The demonstration: order 2 on the two-column data `[[0, 0], [1, 2]]`,
   * named through the (still empty) default name list, yields the six names
   * that also come out of sklearn and wxMaxima; the list keeps `x0, x1`.
   */
  method DemoFeatureNames(poly: PolyFeaturesPurePy, defaults: NameList) returns (names: Result<seq<string>>)
    requires DemoSettings(poly) && defaults.items == []
    modifies poly, defaults
    ensures DemoSettings(poly) && poly.vars == 2
    ensures names == Ok(["x0^2", "x0 x1", "x0", "x1^2", "x1", "1"])
    ensures defaults.items == [PyStr("x0"), PyStr("x1")]
  {
    DemoFit(poly, [[0, 0], [1, 2]]);
    names := poly.GetFeatureNames(defaults);
    TwoDefaultNames();
    PairNames(poly.powersLists, DefaultNames(2));
  }

  /**
   * The demonstration from construction on, compared as the demonstration
   * does: after sorting, the names equal both the sklearn and the wxMaxima list.
   */
  method Demo() returns (names: Result<seq<string>>)
    ensures names == Ok(["x0^2", "x0 x1", "x0", "x1^2", "x1", "1"])
    ensures names.Ok? && multiset(names.value) == multiset(["1", "x0", "x0 x1", "x0^2", "x1", "x1^2"])
    ensures names.Ok? && multiset(names.value) == multiset(["x1^2", "x0 x1", "x1", "x0^2", "x0", "1"])
  {
    var created := PolyFeaturesPurePy.CreateDefault(PyInt(2));
    assert created.Ok?;
    var defaults := new NameList([]);
    names := DemoFeatureNames(created.value, defaults);
    DemoNamesAgree(names.value, ["1", "x0", "x0 x1", "x0^2", "x1", "x1^2"]);
    WxMaximaNamesAgree(names.value, ["x1^2", "x0 x1", "x1", "x0^2", "x0", "1"]);
  }

  lemma ExactlyThreeMessage()
    ensures "Provide exactly " + NatToString(3) + " feature names." == "Provide exactly 3 feature names."
  {
  }

  /**
   * The default name list is one object shared by every call: the first call
   * fills it with `x0, x1`, so after refitting on three variables a second
   * call sees two names and raises a ValueError.
   */
  method SharedDefaultNames(poly: PolyFeaturesPurePy, defaults: NameList)
    returns (first: Result<seq<string>>, second: Result<seq<string>>)
    requires DemoSettings(poly) && defaults.items == []
    modifies poly, defaults
    ensures first == Ok(["x0^2", "x0 x1", "x0", "x1^2", "x1", "1"])
    ensures second == Err(ValueError("Provide exactly 3 feature names."))
  {
    first := DemoFeatureNames(poly, defaults);
    var fit := poly.Fit([[1, 2, 3]]);
    second := poly.GetFeatureNames(defaults);
    ExactlyThreeMessage();
  }

  /** Each fit starts from a fresh buffer and a fresh set, so fitting twice on the same data gives the same combinations. */
  method FitTwice(poly: PolyFeaturesPurePy, X: seq<seq<int>>) returns (first: seq<Combo>, second: seq<Combo>)
    requires poly.Valid()
    modifies poly
    ensures X != [] && AsInt(poly.order).Some? && (|X[0]| > 0 || AsInt(poly.order).value < 0) ==> first == second
  {
    var fit := poly.Fit(X);
    first := poly.powersLists;
    fit := poly.Fit(X);
    second := poly.powersLists;
  }
}
