/**
 * The type check `__check_for_param_errors__`: one TypeError message that
 * concatenates a sentence for every ill-typed setting, in the order order,
 * interaction_only, include_bias. ReportedFields reads the settings back out
 * of such a message, so the message names every bad setting and no other.
 */
module Config {
  import opened PyValues

  datatype Field = Order | InteractionOnly | IncludeBias

  function FieldMessage(f: Field): string
  {
    match f
    case Order => "\"order\" needs to be of type int. "
    case InteractionOnly => "\"interaction_only\" needs to be of type bool. "
    case IncludeBias => "\"include_bias\" needs to be of type bool. "
  }

  /** `type(order) == int`, `type(flag) == bool`: exact types, so `True` is not an acceptable order. */
  predicate WellTyped(f: Field, v: PyValue)
  {
    if f == Order then v.PyInt? else v.PyBool?
  }

  function Setting(f: Field, order: PyValue, interactionOnly: PyValue, includeBias: PyValue): PyValue
  {
    match f
    case Order => order
    case InteractionOnly => interactionOnly
    case IncludeBias => includeBias
  }

  function Rank(f: Field): nat
  {
    match f
    case Order => 0
    case InteractionOnly => 1
    case IncludeBias => 2
  }

  /** The ill-typed settings, in the order the check visits them. */
  function BadFields(order: PyValue, interactionOnly: PyValue, includeBias: PyValue): (r: seq<Field>)
    ensures forall f :: f in r <==> !WellTyped(f, Setting(f, order, interactionOnly, includeBias))
    ensures forall i, j :: 0 <= i < j < |r| ==> Rank(r[i]) < Rank(r[j])
  {
    (if order.PyInt? then [] else [Order]) +
    (if interactionOnly.PyBool? then [] else [InteractionOnly]) +
    (if includeBias.PyBool? then [] else [IncludeBias])
  }

  function Messages(fs: seq<Field>): string
  {
    if fs == [] then "" else FieldMessage(fs[0]) + Messages(fs[1..])
  }

  /** The message of the TypeError, or "" when every setting is well typed. */
  function ParamErrorMessage(order: PyValue, interactionOnly: PyValue, includeBias: PyValue): (msg: string)
    ensures msg == "" <==> order.PyInt? && interactionOnly.PyBool? && includeBias.PyBool?
  {
    var fs := BadFields(order, interactionOnly, includeBias);
    assert fs != [] ==> |Messages(fs)| >= |FieldMessage(fs[0])| > 0;
    Messages(fs)
  }

  /** The settings a message reports, read off the fourth character of each sentence. */
  function ReportedFields(msg: string): seq<Field>
    decreases |msg|
  {
    if |msg| < 4 then []
    else
      var f := if msg[3] == 'd' then Order else if msg[3] == 't' then InteractionOnly else IncludeBias;
      var len := |FieldMessage(f)|;
      if |msg| < len then [] else [f] + ReportedFields(msg[len..])
  }

  lemma ReadOneMessage(f: Field, rest: string)
    ensures ReportedFields(FieldMessage(f) + rest) == [f] + ReportedFields(rest)
  {
    var m := FieldMessage(f);
    var msg := m + rest;
    assert msg[3] == m[3];
    assert msg[|m|..] == rest;
    match f
    case Order => assert m[3] == 'd';
    case InteractionOnly => assert m[3] == 't';
    case IncludeBias => assert m[3] == 'c';
  }

  lemma {:induction false} ReportedMessages(fs: seq<Field>)
    ensures ReportedFields(Messages(fs)) == fs
  {
    if fs != [] {
      ReadOneMessage(fs[0], Messages(fs[1..]));
      ReportedMessages(fs[1..]);
      assert fs == [fs[0]] + fs[1..];
    }
  }

  /** All bad settings are reported together: the message determines exactly which ones are ill typed. */
  lemma ParamErrorsReported(order: PyValue, interactionOnly: PyValue, includeBias: PyValue)
    ensures ReportedFields(ParamErrorMessage(order, interactionOnly, includeBias)) == BadFields(order, interactionOnly, includeBias)
  {
    ReportedMessages(BadFields(order, interactionOnly, includeBias));
  }

  /** What the check raises for the current settings. */
  function CheckParams(order: PyValue, interactionOnly: PyValue, includeBias: PyValue): (r: Outcome)
    ensures r.Pass? <==> order.PyInt? && interactionOnly.PyBool? && includeBias.PyBool?
    ensures r.Fail? ==> r.error.TypeError? && ReportedFields(r.error.msg) == BadFields(order, interactionOnly, includeBias)
    ensures r.Fail? ==> r.error.msg == Messages(BadFields(order, interactionOnly, includeBias))
  {
    var msg := ParamErrorMessage(order, interactionOnly, includeBias);
    ParamErrorsReported(order, interactionOnly, includeBias);
    if msg == "" then Pass else Fail(TypeError(msg))
  }
}
