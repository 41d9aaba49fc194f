/**
 * The namer of `get_feature_names`: how one combination is rendered as
 * text from a list of variable names, and ParseFeatureName, which reads the
 * combination back from a name built with the default names x0, x1, ...
 */
module Naming {
  import opened PyValues
  import opened Combos

  /** One variable's factor: the bare name for exponent 1, `name^e` otherwise. */
  function Term(name: string, e: nat): string
    requires e >= 1
  {
    if e == 1 then name else name + "^" + NatToString(e)
  }

  /** The factors of the first `m` variables, in variable order, skipping exponent 0. */
  function Terms(p: Combo, names: seq<string>, m: nat): seq<string>
    requires m <= |names| && m <= |p|
  {
    if m == 0 then []
    else Terms(p, names, m - 1) + (if p[m - 1] == 0 then [] else [Term(names[m - 1], p[m - 1])])
  }

  /** `' '.join(ts)` */
  function JoinSpaces(ts: seq<string>): string
  {
    if |ts| == 0 then ""
    else if |ts| == 1 then ts[0]
    else JoinSpaces(ts[..|ts| - 1]) + " " + ts[|ts| - 1]
  }

  /** The name of one combination: its factors joined by spaces, or "1" when it has none. */
  function FeatureName(p: Combo, names: seq<string>): string
    requires |names| <= |p|
  {
    var ts := Terms(p, names, |names|);
    if ts == [] then "1" else JoinSpaces(ts)
  }

  /**
   * The names of all combinations, in their order; an IndexError when a
   * combination has fewer exponents than there are names.
   */
  function FeatureNames(ps: seq<Combo>, names: seq<string>): (r: Result<seq<string>>)
    ensures r.Ok? <==> forall c :: 0 <= c < |ps| ==> |names| <= |ps[c]|
    ensures r.Ok? ==> (|r.value| == |ps| &&
      forall c :: 0 <= c < |ps| ==> |names| <= |ps[c]| && r.value[c] == FeatureName(ps[c], names))
  {
    if forall c :: 0 <= c < |ps| ==> |names| <= |ps[c]| then
      Ok(seq(|ps|, c requires 0 <= c < |ps| => FeatureName(ps[c], names)))
    else Err(IndexError)
  }

  /** A list with one entry per combination, each its name, is what `FeatureNames` returns. */
  lemma FeatureNamesAre(ps: seq<Combo>, names: seq<string>, out: seq<string>)
    requires |out| == |ps|
    requires forall c :: 0 <= c < |ps| ==> |names| <= |ps[c]| && out[c] == FeatureName(ps[c], names)
    ensures FeatureNames(ps, names) == Ok(out)
  {
    var r := FeatureNames(ps, names);
    assert r.Ok? && |r.value| == |out|;
    assert forall c :: 0 <= c < |out| ==> r.value[c] == out[c];
    assert r.value == out;
  }

  function DefaultName(i: nat): string
  {
    "x" + NatToString(i)
  }

  /** x0, x1, ..., x(n-1) */
  function DefaultNames(n: nat): (r: seq<string>)
    ensures |r| == n && forall i :: 0 <= i < n ==> r[i] == DefaultName(i)
  {
    seq(n, i requires 0 <= i < n => DefaultName(i))
  }

  /** The bias combination is named "1". */
  lemma BiasName(p: Combo, names: seq<string>)
    requires |names| <= |p| && forall i :: 0 <= i < |p| ==> p[i] == 0
    ensures FeatureName(p, names) == "1"
  {
    NoTermsForZeros(p, names, |names|);
  }

  lemma {:induction false} NoTermsForZeros(p: Combo, names: seq<string>, m: nat)
    requires m <= |names| && m <= |p| && forall i :: 0 <= i < m ==> p[i] == 0
    ensures Terms(p, names, m) == []
  {
    if m > 0 {
      NoTermsForZeros(p, names, m - 1);
    }
  }

  // ---------------------------------------------------------------------
  // Reading a default-named feature back
  // ---------------------------------------------------------------------

  /** The last position of `c` in `s`, or -1. */
  function LastIndexOf(s: string, c: char): (r: int)
    ensures -1 <= r < |s|
    ensures r >= 0 ==> s[r] == c
    ensures forall j :: r < j < |s| ==> s[j] != c
  {
    if s == [] then -1
    else if s[|s| - 1] == c then |s| - 1
    else LastIndexOf(s[..|s| - 1], c)
  }

  lemma {:induction false} LastIndexOfAfter(a: string, c: char, t: string)
    requires c !in t
    ensures LastIndexOf(a + [c] + t, c) == |a|
  {
    var s := a + [c] + t;
    assert s[|a|] == c;
    forall j | |a| < j < |s| ensures s[j] != c {
      assert s[j] == t[j - |a| - 1];
    }
  }

  /** `s.split(' ')` */
  function SplitSpaces(s: string): seq<string>
    decreases |s|
  {
    var k := LastIndexOf(s, ' ');
    if k < 0 then [s] else SplitSpaces(s[..k]) + [s[k + 1..]]
  }

  /** The variable index and exponent of a factor `x<i>` or `x<i>^<e>`. */
  function ParseTerm(t: string): (nat, nat)
  {
    var body := if |t| > 0 then t[1..] else "";
    var k := LastIndexOf(body, '^');
    if k < 0 then (ParseNat(body), 1) else (ParseNat(body[..k]), ParseNat(body[k + 1..]))
  }

  /** Sets the exponent of each parsed factor in a vector of `n` zeros. */
  function Assemble(factors: seq<(nat, nat)>, n: nat): (v: Combo)
    ensures |v| == n
  {
    if factors == [] then Zeros(n)
    else
      var v := Assemble(factors[..|factors| - 1], n);
      var (i, e) := factors[|factors| - 1];
      if i < n then v[i := e] else v
  }

  /** The combination of `n` exponents a default-named feature stands for. */
  function ParseFeatureName(s: string, n: nat): Combo
  {
    if s == "1" then Zeros(n)
    else
      var ts := SplitSpaces(s);
      Assemble(seq(|ts|, j requires 0 <= j < |ts| => ParseTerm(ts[j])), n)
  }

  /** The (index, exponent) pairs of the non-zero exponents among the first `m`. */
  function Factors(p: Combo, m: nat): seq<(nat, nat)>
    requires m <= |p|
  {
    if m == 0 then [] else Factors(p, m - 1) + (if p[m - 1] == 0 then [] else [(m - 1, p[m - 1])])
  }

  lemma NatToStringPlain(n: nat)
    ensures ' ' !in NatToString(n) && '^' !in NatToString(n)
  {
    assert !IsDigit(' ') && !IsDigit('^');
  }

  lemma TermShape(i: nat, e: nat)
    requires e >= 1
    ensures ' ' !in Term(DefaultName(i), e)
    ensures |Term(DefaultName(i), e)| > 0 && Term(DefaultName(i), e)[0] == 'x'
    ensures ParseTerm(Term(DefaultName(i), e)) == (i, e)
  {
    var d := NatToString(i);
    NatToStringPlain(i);
    NatToStringPlain(e);
    ParseNatToString(i);
    var t := Term(DefaultName(i), e);
    assert t[1..] == if e == 1 then d else d + "^" + NatToString(e);
    if e != 1 {
      LastIndexOfAfter(d, '^', NatToString(e));
      assert (d + "^" + NatToString(e))[..|d|] == d;
      assert (d + "^" + NatToString(e))[|d| + 1..] == NatToString(e);
      ParseNatToString(e);
    }
  }

  /** The factor terms of a combination under the default names, unfolded one variable. */
  lemma TermsStep(p: Combo, m: nat)
    requires 0 < m <= |p|
    ensures p[m - 1] == 0 ==> Terms(p, DefaultNames(|p|), m) == Terms(p, DefaultNames(|p|), m - 1)
    ensures p[m - 1] == 0 ==> Factors(p, m) == Factors(p, m - 1)
    ensures p[m - 1] != 0 ==> Terms(p, DefaultNames(|p|), m) == Terms(p, DefaultNames(|p|), m - 1) + [Term(DefaultName(m - 1), p[m - 1])]
    ensures p[m - 1] != 0 ==> Factors(p, m) == Factors(p, m - 1) + [(m - 1, p[m - 1])]
  {
  }

  /** Appending a plain term to plain terms keeps them plain. */
  lemma PlainAppend(prev: seq<string>, t: string)
    requires forall u :: u in prev ==> ' ' !in u && |u| > 0 && u[0] == 'x'
    requires ' ' !in t && |t| > 0 && t[0] == 'x'
    ensures forall u :: u in prev + [t] ==> ' ' !in u && |u| > 0 && u[0] == 'x'
  {
  }

  /** Appending a term that parses to `f` to terms that parse to `fs` keeps them parsing to `fs + [f]`. */
  lemma ParseAppend(prev: seq<string>, fs: seq<(nat, nat)>, t: string, f: (nat, nat))
    requires |prev| == |fs| && forall j :: 0 <= j < |prev| ==> ParseTerm(prev[j]) == fs[j]
    requires ParseTerm(t) == f
    ensures |prev + [t]| == |fs + [f]|
    ensures forall j :: 0 <= j < |prev + [t]| ==> ParseTerm((prev + [t])[j]) == (fs + [f])[j]
  {
  }

  lemma {:induction false} TermsPlain(p: Combo, m: nat)
    requires m <= |p|
    ensures forall t :: t in Terms(p, DefaultNames(|p|), m) ==> ' ' !in t && |t| > 0 && t[0] == 'x'
  {
    if m > 0 {
      TermsPlain(p, m - 1);
      var prev := Terms(p, DefaultNames(|p|), m - 1);
      if p[m - 1] != 0 {
        var t := Term(DefaultName(m - 1), p[m - 1]);
        assert Terms(p, DefaultNames(|p|), m) == prev + [t] by { TermsStep(p, m); }
        assert ' ' !in t && |t| > 0 && t[0] == 'x' by { TermShape(m - 1, p[m - 1]); }
        PlainAppend(prev, t);
      } else {
        assert Terms(p, DefaultNames(|p|), m) == prev by { TermsStep(p, m); }
      }
    }
  }

  lemma {:induction false} TermsParse(p: Combo, m: nat)
    requires m <= |p|
    ensures |Terms(p, DefaultNames(|p|), m)| == |Factors(p, m)|
    ensures forall j :: 0 <= j < |Factors(p, m)| ==>
      ParseTerm(Terms(p, DefaultNames(|p|), m)[j]) == Factors(p, m)[j]
  {
    if m > 0 {
      TermsParse(p, m - 1);
      var prev := Terms(p, DefaultNames(|p|), m - 1);
      if p[m - 1] != 0 {
        var t := Term(DefaultName(m - 1), p[m - 1]);
        assert Terms(p, DefaultNames(|p|), m) == prev + [t] && Factors(p, m) == Factors(p, m - 1) + [(m - 1, p[m - 1])] by {
          TermsStep(p, m);
        }
        assert ParseTerm(t) == (m - 1, p[m - 1]) by { TermShape(m - 1, p[m - 1]); }
        ParseAppend(prev, Factors(p, m - 1), t, (m - 1, p[m - 1]));
      } else {
        assert Terms(p, DefaultNames(|p|), m) == prev && Factors(p, m) == Factors(p, m - 1) by { TermsStep(p, m); }
      }
    }
  }

  lemma {:induction false} AssembleFactors(p: Combo, m: nat)
    requires m <= |p|
    ensures Assemble(Factors(p, m), |p|) == seq(|p|, i requires 0 <= i < |p| => if i < m then p[i] else 0)
  {
    var want := seq(|p|, i requires 0 <= i < |p| => if i < m then p[i] else 0);
    if m == 0 {
      assert Zeros(|p|) == want;
    } else {
      AssembleFactors(p, m - 1);
      var before := Assemble(Factors(p, m - 1), |p|);
      var fs := Factors(p, m);
      if p[m - 1] != 0 {
        assert fs[..|fs| - 1] == Factors(p, m - 1);
        assert Assemble(fs, |p|) == before[m - 1 := p[m - 1]];
      } else {
        assert fs == Factors(p, m - 1);
      }
      assert forall i :: 0 <= i < |p| ==> Assemble(fs, |p|)[i] == want[i];
    }
  }

  lemma {:induction false} SplitJoin(ts: seq<string>)
    requires ts != [] && forall t :: t in ts ==> ' ' !in t
    ensures SplitSpaces(JoinSpaces(ts)) == ts
  {
    if |ts| == 1 {
      assert ts[0] in ts;
    } else {
      var front := ts[..|ts| - 1];
      var last := ts[|ts| - 1];
      assert last in ts;
      assert forall t :: t in front ==> t in ts;
      LastIndexOfAfter(JoinSpaces(front), ' ', last);
      var s := JoinSpaces(ts);
      assert s == JoinSpaces(front) + [' '] + last;
      assert s[..|JoinSpaces(front)|] == JoinSpaces(front);
      assert s[|JoinSpaces(front)| + 1..] == last;
      SplitJoin(front);
      assert ts == front + [last];
    }
  }

  lemma {:induction false} JoinStartsWithFirst(ts: seq<string>)
    requires ts != [] && |ts[0]| > 0
    ensures |JoinSpaces(ts)| > 0 && JoinSpaces(ts)[0] == ts[0][0]
  {
    if |ts| > 1 {
      JoinStartsWithFirst(ts[..|ts| - 1]);
    }
  }

  /** Setting every non-zero exponent of `p` in a vector of zeros gives back `p`. */
  lemma FactorsAssemble(p: Combo)
    ensures Assemble(Factors(p, |p|), |p|) == p
  {
    AssembleFactors(p, |p|);
    var v := Assemble(Factors(p, |p|), |p|);
    assert forall i :: 0 <= i < |p| ==> v[i] == p[i];
  }

  /** A name other than "1" that splits into terms parsing to `fs` stands for `Assemble(fs, n)`. */
  lemma ParseSplit(s: string, ts: seq<string>, fs: seq<(nat, nat)>, n: nat)
    requires s != "1" && SplitSpaces(s) == ts
    requires |ts| == |fs| && forall j :: 0 <= j < |ts| ==> ParseTerm(ts[j]) == fs[j]
    ensures ParseFeatureName(s, n) == Assemble(fs, n)
  {
    var parsed := seq(|ts|, j requires 0 <= j < |ts| => ParseTerm(ts[j]));
    assert parsed == fs;
  }

  /** A name with at least one factor splits back into its factors, which parse to `Factors`. */
  lemma ParseJoinedTerms(p: Combo)
    requires Terms(p, DefaultNames(|p|), |p|) != []
    ensures ParseFeatureName(JoinSpaces(Terms(p, DefaultNames(|p|), |p|)), |p|) == Assemble(Factors(p, |p|), |p|)
  {
    var n := |p|;
    var ts := Terms(p, DefaultNames(n), n);
    TermsPlain(p, n);
    TermsParse(p, n);
    assert ts[0] in ts;
    JoinStartsWithFirst(ts);
    SplitJoin(ts);
    ParseSplit(JoinSpaces(ts), ts, Factors(p, n), n);
  }

  /** With the default names, a feature name determines its combination. */
  lemma ParseFeatureNameInverse(p: Combo)
    ensures ParseFeatureName(FeatureName(p, DefaultNames(|p|)), |p|) == p
  {
    var n := |p|;
    FactorsAssemble(p);
    if Terms(p, DefaultNames(n), n) == [] {
      TermsParse(p, n);
      assert Factors(p, n) == [];
    } else {
      ParseJoinedTerms(p);
    }
  }

  /** Distinct combinations get distinct default names. */
  lemma DefaultNamesDistinguish(p: Combo, q: Combo)
    requires |p| == |q| && p != q
    ensures FeatureName(p, DefaultNames(|p|)) != FeatureName(q, DefaultNames(|q|))
  {
    ParseFeatureNameInverse(p);
    ParseFeatureNameInverse(q);
  }
}
