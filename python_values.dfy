/**
 * The few Python values and exceptions the feature generator touches:
 * the dynamically typed configuration values, the exceptions it raises,
 * and the decimal rendering `str(n)` of a non-negative integer.
 */
module PyValues {

  /** A Python object as far as the generator inspects it. */
  datatype PyValue =
    | PyInt(i: int)       // an object whose type is exactly `int`
    | PyBool(b: bool)     // `True` or `False` (a subclass of `int` in Python)
    | PyFloat(x: real)    // a `float`
    | PyStr(s: string)    // a `str`
    | PyOther             // anything else: None, a list, a dict, ...

  /** The integer Python's arithmetic sees in `v`, or None when `v + 1` or `range(v + 1)` raises. */
  function AsInt(v: PyValue): (r: Option<int>)
    ensures r.Some? <==> v.PyInt? || v.PyBool?
    ensures v.PyBool? ==> r == Some(if v.b then 1 else 0)
  {
    match v
    case PyInt(i) => Some(i)
    case PyBool(b) => Some(if b then 1 else 0)
    case _ => None
  }

  /** Python's `v == n` for an integer `n` (so `1 == True` and `1.0 == True`). */
  predicate PyEq(v: PyValue, n: int)
  {
    match v
    case PyInt(i) => i == n
    case PyBool(b) => (if b then 1 else 0) == n
    case PyFloat(x) => x == n as real
    case _ => false
  }

  /** The exceptions the generator raises or lets escape. */
  datatype PyError =
    | TypeError(msg: string)   // raised by the generator's own type checks
    | OperandTypeError         // raised by the interpreter when `range(order + 1)` is given a non-integer
    | ValueError(msg: string)  // raised by the feature-name checks
    | IndexError               // an out-of-range subscript
    | AttributeError           // an attribute read before `fit` assigned it

  datatype Option<T> = None | Some(value: T)

  datatype Result<T> = Ok(value: T) | Err(error: PyError)

  datatype Outcome = Pass | Fail(error: PyError)

  predicate IsDigit(c: char)
  {
    '0' <= c <= '9'
  }

  function DigitChar(d: nat): (c: char)
    requires d < 10
    ensures IsDigit(c) && c as int - '0' as int == d
  {
    ['0', '1', '2', '3', '4', '5', '6', '7', '8', '9'][d]
  }

  /** `str(n)` for a non-negative integer: its decimal digits, most significant first. */
  function NatToString(n: nat): (s: string)
    ensures |s| > 0
    ensures forall c :: c in s ==> IsDigit(c)
  {
    if n < 10 then [DigitChar(n)] else NatToString(n / 10) + [DigitChar(n % 10)]
  }

  /** The value of a string of decimal digits (the inverse of NatToString). */
  function ParseNat(s: string): nat
  {
    if s == [] then 0
    else
      var c := s[|s| - 1];
      ParseNat(s[..|s| - 1]) * 10 + (if IsDigit(c) then c as int - '0' as int else 0)
  }

  lemma {:induction false} ParseNatToString(n: nat)
    ensures ParseNat(NatToString(n)) == n
  {
    var s := NatToString(n);
    if n < 10 {
      assert s[..0] == [];
    } else {
      assert s[..|s| - 1] == NatToString(n / 10);
      ParseNatToString(n / 10);
    }
  }
}
