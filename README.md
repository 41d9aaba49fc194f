# Polynomial features in Dafny

This project models `Poly_Features_Pure_Py`, a pure-Python polynomial-feature generator.
Given data `X`, a list of rows, its `fit` reads the variable count from the width of the first row.
It then enumerates every exponent vector of that length whose sum is at most `order`.
For this it runs a recursive walk that overwrites one shared exponent buffer in place and collects buffers into a set.
`fit` then sorts the combinations in descending lexicographic order.
Finally it drops the non-interaction terms and the bias term when the settings ask for that.
From the fitted combinations:
- `get_feature_names` renders each combination as a name such as `x0 x1^2`;
- `transform` evaluates each combination as a product of powers on each row of the data.

The configuration (`order`, `interaction_only`, `include_bias`) is type-checked by `__init__` and `set_params`.
The two companion files are modelled alongside it:
- the prototype enumerator `poly` in `Extra_Files/poly_tester_4.py`;
- the three Fibonacci implementations in `Extra_Files/Fibonacci_Recursion_Memoization.py`.

Layout, one module per file:

- `PyValues` (`python_values.dfy`) holds the Python values the generator inspects.
  - `int`, `bool`, `float`, `str` and everything else.
  - Python's `bool` counts as an `int` for arithmetic and for `== True`/`== False`.
  - The exceptions the generator raises.
  - `str(n)` for a natural number.
- `Combos` (`combos.dfy`) holds exponent vectors and their sums, and lexicographic order.
  - `Gen`, a reference enumeration in strictly descending order.
  - Its membership (the admissible vectors), its order and its count C(k+n, n).
  - The uniqueness of a strictly descending listing of a set.
- `Enumeration` (`enumeration.dfy`) holds the invariant shared by both recursive enumerators.
  - After exponents `0..e-1` have been tried at position `|prefix|`, the collection holds exactly the completions of `prefix + [e']` for `e' < e`.
- `Sorting` (`sorting.dfy`) models the in-place `sort(reverse=True)` as a sorting function.
- `Selection` (`selection.dfy`) models the interaction-only filter and `list.remove` of the all-zero combination.
- `Config` (`config.dfy`) models the type check that reports every ill-typed setting in one `TypeError`.
- `Naming` (`naming.dfy`) models feature names. It also holds a parser that reads a name back into its combination; the source has no parser, and this one exists only to prove that names determine their combinations.
- `Evaluation` (`evaluation.dfy`) models powers, monomials and the transformed matrix.
- `PolyFeatures` (`poly_features.dfy`) models the class itself, with its fields and in-place buffer.
  - It also holds the shared default name list and the demonstration scenario.
- `PolyTester` (`poly_tester.dfy`) models `poly` with its shared default buffer and dictionary.
- `Fibonacci` (`fibonacci.dfy`) models `fib_BU`, `fib_RM` with its persistent dictionary, and `fib_R`.

Some external effects are inputs or values in the model:
- Errors that Python raises are `Result`/`Outcome` values. Data `X` is a sequence of integer rows.
- An attribute that `fit` has not yet assigned (`vars`, `powers_lists`) is a boolean field. Reading it before `fit` gives `AttributeError`.
- A default argument that persists across calls is an object the caller holds and passes in:
  - `default_names` of `get_feature_names`;
  - `powers` and `memo` of `poly`;
  - `memo` of `fib_RM`.

## Model

| member | source | states |
|---|---|---|
| PolyFeatures.PolyFeaturesPurePy.constructor | poly_features_class.py:2-17 | the three settings are stored as given; `vars` and `powers_lists` do not exist yet |
| PolyFeatures.PolyFeaturesPurePy.Create | poly_features_class.py:2-20 | construction succeeds exactly when `order` is an `int` and both flags are `bool`; otherwise it fails with the TypeError of the check |
| PolyFeatures.PolyFeaturesPurePy.CreateDefault | poly_features_class.py:2-20 | `Poly_Features_Pure_Py(order=order)`: the flags take their defaults False and True; construction succeeds exactly when `order` is an `int`, and otherwise raises the TypeError '"order" needs to be of type int. ' |
| PolyFeatures.PolyFeaturesPurePy.CheckForParamErrors | poly_features_class.py:197-210 | passes exactly when `order` is of type `int` and both flags of type `bool` (a bool `order` or an int flag is rejected) |
| Config.CheckParams | poly_features_class.py:201-210 | passes iff all three settings are well typed; on failure it raises a TypeError whose message is the concatenation of the sentences of exactly the ill-typed settings, in the order order, interaction_only, include_bias, and reads back as those settings |
| Config.BadFields | poly_features_class.py:202-207 | lists a setting iff it is ill-typed, in field order |
| Config.FieldMessage | poly_features_class.py:203-207 | the sentence each ill-typed setting contributes, as in the source (a definition; `ReadOneMessage` shows each sentence is recognised and skipped on its own) |
| Config.Messages | poly_features_class.py:201-207 | the sentences of the listed settings concatenated in order (a definition; `ReportedMessages` reads it back) |
| Config.ParamErrorMessage | poly_features_class.py:201-209 | the message is empty iff every setting is well typed |
| Config.ReportedMessages | poly_features_class.py:203-207 | the concatenated messages can be read back field by field: reading them gives exactly the fields that were reported |
| Config.ParamErrorsReported | poly_features_class.py:201-210 | the fields read back from the error message are exactly the ill-typed settings |
| PolyFeatures.PolyFeaturesPurePy.SetParams | poly_features_class.py:140-154 | each setting changes iff its key is given; the new values are stored before the check, so they remain stored when the TypeError is raised; the outcome is the check of the new settings |
| PolyFeatures.PolyFeaturesPurePy.GetPowersLists | poly_features_class.py:156-177 | the set gains exactly the length-`vars` vectors that extend the buffer's first `var-1` exponents and have a sum of at most `order`; the buffer keeps its prefix and ends with `order` at every later position, or is untouched when `order < 0`; `powers_lists` then lists the set once per member |
| Enumeration.BranchStep | poly_features_class.py:166-174 | one loop iteration at position `var-1` with exponent `pow`: the completions of `prefix+[e]` for `e <= pow` are those for `e < pow`, the full buffer when its sum is within bound, and those the recursive call records |
| Enumeration.EnumerationStep | poly_features_class.py:166-174 | the same step for the whole collection: the collection after the iteration is exactly the old one plus the branches up to `pow` |
| Enumeration.BranchesComplete | poly_features_class.py:166 | once every exponent `0..order` has been tried, the branches are exactly all completions of the prefix |
| Enumeration.CompletionsOfNothing | poly_features_class.py:44-47 | the completions of the empty prefix (`var=1`) are the admissible vectors |
| Enumeration.PrefixExtend | poly_features_class.py:167 | a vector extends `prefix + [pow]` iff it extends `prefix` and has `pow` at the next position |
| PolyFeatures.ListOfSet | poly_features_class.py:177 | the list has exactly the set's members, each once |
| Sorting.SortDescending | poly_features_class.py:50 | the result is in non-increasing lexicographic order and is a permutation of the input |
| Sorting.Insert | poly_features_class.py:50 | inserting into a non-increasing list keeps it non-increasing and adds exactly the one element |
| Sorting.SortDistinct | poly_features_class.py:50 | sorting a duplicate-free list gives a strictly descending list with the same members |
| Sorting.NoDuplicatesCounts | poly_features_class.py:169 | a duplicate-free list has every multiplicity at most one |
| Sorting.CountsNoDuplicates | poly_features_class.py:169 | a list with every multiplicity at most one is duplicate-free |
| PolyFeatures.SortedEnumeration | poly_features_class.py:44-50 | whatever order the set is listed in, the sorted list is the reference enumeration `Gen(vars, order)` |
| Combos.GenMembers | poly_features_class.py:166-169 | the reference enumeration holds exactly the length-`n` vectors with sum at most `k` |
| Combos.GenDescending | poly_features_class.py:50 | the reference enumeration is strictly descending |
| Combos.DescendingListingUnique | poly_features_class.py:50 | two strictly descending lists with the same members are equal |
| Combos.StrictlyDescendingHasNoDuplicates | poly_features_class.py:50 | a strictly descending list has no duplicates |
| Combos.GenCount | poly_features_class.py:166-174 | the reference enumeration has C(k+n, n) entries |
| Combos.DistinctMembersCount | poly_features_class.py:169 | a duplicate-free list has as many entries as distinct members |
| Combos.LexTotal | poly_features_class.py:50 | lexicographic order is total on distinct vectors |
| Combos.LexLess | poly_features_class.py:50 | Python's `<` on lists of integers: the first differing position decides, and a proper prefix is smaller (a definition; its order properties are `LexIrreflexive`, `LexAsymmetric`, `LexTransitive`, `LexTotal`) |
| Combos.LexTransitive | poly_features_class.py:50 | lexicographic order is transitive |
| Combos.LexAsymmetric | poly_features_class.py:50 | lexicographic order is asymmetric |
| Combos.Sum | poly_features_class.py:168-188 | Python's `sum` of the exponents (a definition; see `ElementAtMostSum`, `SumZero`, `SumZeroOnlyZeros`) |
| Combos.Zeros | poly_features_class.py:193 | `[0]*vars`: `vars` exponents, all zero, with sum 0 |
| Combos.Repeat | poly_features_class.py:38 | `[k]*n`: `n` entries, each `k` (with `k = 0` the fresh buffer of line 38) |
| Combos.SumZeroOnlyZeros | poly_features_class.py:193 | the only vector with sum 0 is the all-zero vector `[0]*vars` |
| Combos.ElementAtMostSum | poly_features_class.py:168 | every exponent is at most the vector's sum, so every exponent lies in `0..order` |
| PolyFeatures.PolyFeaturesPurePy.ModifyPowersLists | poly_features_class.py:179-195 | `powers_lists` becomes the interaction-only filter of itself (when `interaction_only == True`) followed by removal of the first all-zero combination (when `include_bias == False`) |
| Selection.KeepDegree | poly_features_class.py:186-188 | keeps exactly the combinations of sum `order`, never more entries than it was given; a strictly descending list stays strictly descending, so the sorted list keeps its order |
| Selection.Select | poly_features_class.py:186-195 | the filter when `interaction_only == True`, then the bias removal when `include_bias == False`; never longer than its input, and on a strictly descending input it stays strictly descending and holds exactly the entries of sum `order` (with the filter) other than the all-zero one (with the removal) |
| Selection.Expected | poly_features_class.py:37-53 | what a successful `fit` stores: the selection applied to the reference enumeration (a definition; `ExpectedMembers`, `ExpectedBounds`, `ExpectedCount` and `DropBiasRemovesOnlyZeros` state its properties) |
| Selection.RemoveFirst | poly_features_class.py:191-195 | an absent value leaves the list unchanged with no error; a present one is removed at its first occurrence only |
| Selection.RemoveFirstDescending | poly_features_class.py:191-195 | removal from a strictly descending list keeps it strictly descending and removes exactly that value |
| Selection.ExpectedMembers | poly_features_class.py:37-53 | after `fit`, the stored combinations are exactly the admissible vectors, restricted to sum `order` with the interaction-only flag and without the all-zero vector when the bias is excluded; they are strictly descending with no duplicates |
| Selection.ExpectedBounds | poly_features_class.py:37-38 | every stored combination has `vars` exponents, each in `0..order`, with sum at most `order` |
| Selection.ExpectedCount | poly_features_class.py:166-174 | without either filter `fit` stores C(order+vars, vars) combinations |
| Selection.DropBiasRemovesOnlyZeros | poly_features_class.py:191-195 | excluding the bias removes only the all-zero vector: one fewer entry when it was present, nothing changed otherwise |
| PolyFeatures.PolyFeaturesPurePy.Fit | poly_features_class.py:22-53 | the failure cases: an empty `X` gives IndexError; an `order` that is neither `int` nor `bool` fails at `range(order+1)`; zero variables with `order >= 0` give IndexError; after any failure past line 38, `vars` and the zero buffer are updated and `powers_lists` is kept. On success `powers_lists` is the selected reference enumeration and the buffer holds `order` everywhere |
| PolyFeatures.FitTwice | poly_features_class.py:38-50 | a fresh buffer and set per `fit`: fitting twice on the same data gives identical `powers_lists` |
| PolyFeatures.NameCheck | poly_features_class.py:63-74 | an empty list yields `x0..x(vars-1)`; a list whose length is not `vars` yields "Provide exactly {vars} feature names."; a list with a non-str entry yields "All feature names must be type string."; otherwise the given strings |
| PolyFeatures.StrItems | poly_features_class.py:71-72 | keeps every `str` entry; the filtered list is as long as the input iff every entry is a `str` |
| PolyFeatures.DefaultNameValues | poly_features_class.py:64-65 | the appended default names: entry `i` is the string `x` + `str(i)` |
| PolyFeatures.NameList.constructor | poly_features_class.py:55 | the shared default name list `default_names=[]`, an object holding the given items that `get_feature_names` fills in place |
| PolyFeatures.PolyFeaturesPurePy.GetFeatureNames | poly_features_class.py:55-93 | with no `vars` it raises AttributeError. An empty shared name list is filled in place with `x0..x(vars-1)`; a non-empty list is left as it is. Validation errors are returned as the name check gives them. Otherwise the names of `powers_lists` under the checked names are returned |
| PolyFeatures.PolyFeaturesPurePy.NamesFor | poly_features_class.py:78-93 | the nested loop returns the name of each combination in `powers_lists` order, or IndexError when a combination is shorter than the name list |
| Naming.FeatureNames | poly_features_class.py:78-93 | one name per combination, in order; IndexError exactly when some combination is shorter than the name list |
| Naming.FeatureName | poly_features_class.py:80-91 | the name of one combination: its terms joined by single spaces, or "1" when there are none (a definition; see `BiasName`, `ParseFeatureNameInverse`) |
| Naming.Terms | poly_features_class.py:81-88 | the terms of the first `m` positions, skipping zero exponents (a definition; see `NoTermsForZeros`, `TermsParse`) |
| Naming.Term | poly_features_class.py:84-87 | the bare name for exponent 1, `name^k` for any other exponent (a definition; see `TermShape`) |
| Naming.JoinSpaces | poly_features_class.py:91 | `' '.join`: the terms separated by single spaces (a definition; see `SplitJoin`) |
| Naming.FeatureNamesAre | poly_features_class.py:78-93 | a list holding the name of every combination, position by position, is the result |
| Naming.DefaultName | poly_features_class.py:65 | `'x' + str(i)` (a definition; see `TermShape`, `DefaultNamesDistinguish`) |
| Naming.DefaultNames | poly_features_class.py:64-65 | `n` names, the `i`-th being `x` followed by the decimal digits of `i` |
| Naming.BiasName | poly_features_class.py:89-90 | the all-zero combination is named "1" |
| Naming.NoTermsForZeros | poly_features_class.py:82-83 | zero exponents contribute no term |
| Naming.ParseFeatureNameInverse | poly_features_class.py:80-91 | a generated name under the default names determines its combination: parsing it gives the combination back |
| Naming.DefaultNamesDistinguish | poly_features_class.py:80-91 | two different combinations of the same length get different default names |
| Naming.SplitJoin | poly_features_class.py:91 | splitting the space-joined terms at spaces gives the terms back |
| Naming.TermShape | poly_features_class.py:84-87 | a term is `name` for exponent 1 and `name^k` otherwise; it has no space and parses back to its index and exponent |
| Naming.TermsParse | poly_features_class.py:81-88 | the terms of a combination parse back to its (index, exponent) factors |
| Naming.TermsPlain | poly_features_class.py:81-88 | every term is space-free, non-empty and starts with `x` |
| Naming.FactorsAssemble | poly_features_class.py:81-88 | the non-zero (index, exponent) factors of a combination rebuild it |
| Naming.AssembleFactors | poly_features_class.py:81-88 | the factors of the first `m` positions rebuild the combination's first `m` exponents, with zeros after |
| Naming.JoinStartsWithFirst | poly_features_class.py:91 | a space-joined name begins with its first term's first character; under the default names every term starts with `x`, so a name with terms is never "1" |
| Naming.LastIndexOfAfter | poly_features_class.py:87 | the last `^` of `name^k` is the one before the exponent digits |
| Naming.NatToStringPlain | poly_features_class.py:87 | `str(k)` contains no space and no `^` |
| PyValues.ParseNatToString | poly_features_class.py:87 | `str(k)` for a natural `k` reads back as `k` |
| PyValues.NatToString | poly_features_class.py:68 | `str(n)` is non-empty and all decimal digits |
| PyValues.AsInt | poly_features_class.py:166 | `range(order+1)` accepts exactly `int` and `bool`, a bool counting as 0 or 1 |
| PyValues.PyEq | poly_features_class.py:186-191 | Python's `v == n` for the stored flag: an int or bool equal to `n` (with `True == 1`, `False == 0`) or a float equal to it; no other value (a definition used by `ModifyPowersLists` and `Fit`) |
| PolyFeatures.PolyFeaturesPurePy.Transform | poly_features_class.py:95-116 | an empty `X` gives IndexError; before `fit` it gives AttributeError; otherwise the three nested loops produce the evaluation of every combination on every row |
| Evaluation.Evaluate | poly_features_class.py:106-116 | `len(X)` rows of `len(powers_lists)` columns; entry [r][c] is the product over i of `X[r][i] ** powers_lists[c][i]`; IndexError exactly when some combination is shorter than a row |
| Evaluation.Monomial | poly_features_class.py:110-112 | the accumulated product over the row's positions of `row[i] ** p[i]`, starting from 1 (a definition; see `MonomialOfZeros`, `MonomialOfUnit`, `MonomialOfSum`, `MonomialReadsRowWidth`) |
| Evaluation.Pow | poly_features_class.py:112 | `b ** e` for a natural exponent, with `0 ** 0 == 1` (a definition; see `PowAdd`) |
| Evaluation.EvaluateAll | poly_features_class.py:106-116 | a matrix of that shape holding every monomial value is the result |
| Evaluation.MonomialOfZeros | poly_features_class.py:110-112 | the all-zero combination evaluates to 1 on every row (with `0 ** 0 == 1`), the bias column |
| Evaluation.MonomialOfUnit | poly_features_class.py:110-112 | a combination with a single exponent 1 at position `j` evaluates to the row's `j`-th value |
| Evaluation.MonomialOfSum | poly_features_class.py:110-112 | the monomial of a sum of combinations is the product of their monomials |
| Evaluation.MonomialReadsRowWidth | poly_features_class.py:111 | exponents beyond the row's width do not affect the value |
| Evaluation.PowAdd | poly_features_class.py:112 | `b ** (m+n) == b ** m * b ** n` |
| PolyFeatures.PolyFeaturesPurePy.FitTransform | poly_features_class.py:118-127 | the error cases of the check and of `fit`, with the state `fit` leaves after each; on a successful `fit` the object is fitted with `vars == len(X[0])`, the stored combinations and buffer are what `fit(X)` leaves, and the result is the evaluation of `X` under them, so `fit_transform(X)` equals `fit(X)` followed by `transform(X)` in result and in state |
| PolyFeatures.GenTwoByTwo | poly_features_class.py:236-237 | for two variables and order 2 the enumeration is `[2,0], [1,1], [1,0], [0,2], [0,1], [0,0]` |
| PolyFeatures.PairName | poly_features_class.py:78-91 | the name of an exponent pair: "1", a single term, or the two terms joined by one space |
| PolyFeatures.PairNames | poly_features_class.py:239 | the six pairs are named `x0^2, x0 x1, x0, x1^2, x1, 1` |
| PolyFeatures.NothingSelectedAway | poly_features_class.py:186-195 | with the default flags the selection keeps every combination |
| PolyFeatures.DemoFit | poly_features_class.py:229-237 | `fit` with order 2 on the two-column data `[[0, 0], [1, 2]]` sets `vars` to 2 and stores the six pairs `[2,0], [1,1], [1,0], [0,2], [0,1], [0,0]` |
| PolyFeatures.DemoFeatureNames | poly_features_class.py:229-239 | fitting order 2 on `[[0, 0], [1, 2]]` and naming with the empty default list returns the six names and leaves `x0, x1` in the default list |
| PolyFeatures.Demo | poly_features_class.py:236-250 | from `Poly_Features_Pure_Py(order=2)` on, the demonstration returns the six names, which agree after sorting with both the sklearn list and the wxMaxima list |
| PolyFeatures.DemoNamesAgree | poly_features_class.py:240-249 | the generated names and the expected list hold the same names |
| PolyFeatures.WxMaximaNamesAgree | poly_features_class.py:244-249 | the generated names and the wxMaxima list hold the same names |
| PolyFeatures.SharedDefaultNames | poly_features_class.py:55-70 | the default list is shared: after a first call fills it with two names, refitting on three variables makes the next call raise ValueError("Provide exactly 3 feature names.") |
| PolyTester.PolyDefaults.constructor | Extra_Files/poly_tester_4.py:1 | the default buffer is `[0, 0, 0]` and the default dictionary is empty |
| PolyTester.PolyDefaults.Poly | Extra_Files/poly_tester_4.py:1-14 | the dictionary gains exactly the length-3 vectors that extend the buffer's first `level-1` exponents and have a sum of at most 2. Every value is 'done'. The same dictionary is returned. The buffer keeps its prefix and ends with 2 at every later position. Inner levels use the defaults order=2, levels=3 |
| PolyTester.KeysOfFirstLevel | Extra_Files/poly_tester_4.py:6-12 | a call from level 1 records exactly the length-3 vectors with sum at most 2, ten of them |
| PolyTester.TwoCalls | Extra_Files/poly_tester_4.py:1-18 | `poly()` returns ten keys, each an admissible vector mapped to 'done'; the buffer is left at `[2, 2, 2]`; a second `poly()` returns the same dictionary |
| Fibonacci.FibBU | Extra_Files/Fibonacci_Recursion_Memoization.py:24-32 | for n >= 1 the array loop returns F(n); its invariant is `BU[j] == F(j)` for every `1 <= j < i` |
| Fibonacci.FibMemo.constructor | Extra_Files/Fibonacci_Recursion_Memoization.py:11 | the default dictionary starts empty |
| Fibonacci.FibMemo.FibRM | Extra_Files/Fibonacci_Recursion_Memoization.py:11-22 | returns F(n) and stores it under `n`. No entry is lost or changed, and every stored key maps to its Fibonacci number. New keys lie in `1..n`. A stored `n` is answered without changing the dictionary. A base case on a missing key stores only that key |
| Fibonacci.StoreKeepsValid | Extra_Files/Fibonacci_Recursion_Memoization.py:15-18 | storing F(n) once both predecessors are stored keeps every entry correct and closed under predecessors |
| Fibonacci.ClosedCoversPrefix | Extra_Files/Fibonacci_Recursion_Memoization.py:17-18 | a dictionary holding some `n >= 3` and closed under predecessors holds every index `1..n` |
| Fibonacci.MemoAfterCall | Extra_Files/Fibonacci_Recursion_Memoization.py:11-22 | after `fib_RM(n)` with `n >= 3`, every `k` in `1..n` is stored with value F(k) |
| Fibonacci.FreshCallForTwo | Extra_Files/Fibonacci_Recursion_Memoization.py:14-15 | on a fresh dictionary `fib_RM(2)` returns 1 and stores only the key 2 |
| Fibonacci.FibMemo.FibR | Extra_Files/Fibonacci_Recursion_Memoization.py:3-9 | returns F(n); the base cases leave the dictionary unchanged; otherwise no stored entry is lost or changed, `n-1` and `n-2` are now stored, and every new key lies in `1..n-1` |
| Fibonacci.AllAgree | Extra_Files/Fibonacci_Recursion_Memoization.py:35-48 | on a fresh dictionary `fib_R`, `fib_RM` and `fib_BU` return the same value, F(n) |

## Left out

- `get_params` (poly_features_class.py:129-138) is left out: it only prints a dictionary and returns `None`.
- Most of the module-level demonstration (poly_features_class.py:223-308) is left out:
  - the `LinearAlgebraPurePython` import, `transpose` and `print_matrix`;
  - the printing;
  - `sys.exit()` and the dead code after it.
  - The transposed data `[[0, 0], [1, 2]]` is written out directly. The sorted comparison at lines 240-249 is kept, in `Demo`.
- `sklearn_poly.py` is not part of this model: it drives third-party libraries whose source is not available.
- Timing and printing in the Fibonacci file, and the prints in `poly_tester_4.py`, are left out.
- `__check_X_is_list_of_lists__` is not modelled as a type test:
  - `X` is an integer matrix, so its type checks cannot fail;
  - what survives is the `IndexError` of `X[0]` on an empty list.
  - The code does not reject ragged rows, and neither does the model.
- Floating-point, complex and non-numeric values in `X` are not modelled; only integers are.
- The bare `except` of `__modify_powers_lists__` is modelled only as "absence of the all-zero combination is not an error".
- PolyFeatures.ListOfSet: Python's set-to-list order is left open.
  - Only the members and their uniqueness are stated.
  - Everything that follows the sort is proved for every such order.
- Sorting.SortDescending: Python's sort algorithm is not modelled; an insertion sort function stands in for it.
  - On a duplicate-free list every correct sort gives the same result (`Combos.DescendingListingUnique`), so nothing depends on the algorithm.
- PolyTester.PolyDefaults.Poly: only calls with the defaults `order=2`, `levels=3` are modelled, since every call in the file uses them.
  - Other values for those defaults are not modelled.
  - Buffers of length other than three are not modelled either.
- Fibonacci.FibMemo.FibRM: `fib_RM(0)`, `fib_R(0)` and `fib_BU(0)` are excluded by `n >= 1`. `fib_RM(0)` recurses without end, `fib_R(0)` does too through `fib_RM(-1)`, and `fib_BU(0)` indexes past a one-element list.
- Fibonacci.FibMemo.FibRM: the dictionary covers every index `1..n` only when `n >= 3`, or `n == 1`, or the keys were already there. A fresh `fib_RM(2)` stores only the key 2 (`FreshCallForTwo`). So coverage is stated in `MemoAfterCall` for `n >= 3`.
- Ragged data: `fit` reads only the first row's width, as the code does. A later row wider than the combinations makes `transform` raise IndexError in the model (`Evaluation.Evaluate`), just as the subscript does in Python.
