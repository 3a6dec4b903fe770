/** The initializer table `parse_initializations` (test_cpp/cpp2go.py:75-82): each
    scanned `TYPE VAR = { VALUES }` contributes the normalised values under its type
    name; a later initializer of the same type replaces an earlier one. */
module Initializers {
  import opened PyErrors
  import opened PyText
  import opened Literals

  /** One match of `(\w+)\s+\w+\s*=\s*{([^}]*)}`: the declared type name (not the
      variable name) and the text between the braces. */
  datatype InitSource = InitSource(typeName: string, values: string)

  /** `[cpp_value_to_go(v) for v in vs]`: every piece normalised in order; the first
      failure propagates. */
  function NormalizeAll(vs: seq<string>): (r: Result<seq<string>>)
    ensures r.Ok? ==> |r.value| == |vs|
    ensures r.Ok? ==> forall i :: 0 <= i < |vs| ==> CppValueToGo(vs[i]) == Ok(r.value[i])
    ensures r.Err? <==> exists i :: 0 <= i < |vs| && CppValueToGo(vs[i]).Err?
    ensures r.Err? ==> r.error == UnicodeDecodeError
  {
    MapResult(vs, CppValueToGo)
  }

  /** `[cpp_value_to_go(v) for v in values.split(',')]` (line 80). */
  function ValueList(values: string): (r: Result<seq<string>>)
    ensures r.Ok? ==> |r.value| == |SplitOn(values, ',')|
    ensures r.Err? ==> r.error == UnicodeDecodeError
  {
    NormalizeAll(SplitOn(values, ','))
  }

  /** The dictionary after a loop like the one at lines 79-81 has run over `inits`,
      converting each value text with `conv`, or the error of the first failing
      conversion. */
  function Table(inits: seq<InitSource>, conv: string -> Result<seq<string>>): (r: Result<map<string, seq<string>>>)
    ensures r.Err? <==> exists i :: 0 <= i < |inits| && conv(inits[i].values).Err?
    ensures r.Err? ==> exists i :: 0 <= i < |inits| && conv(inits[i].values) == Err(r.error)
    decreases |inits|
  {
    if inits == [] then Ok(map[])
    else
      var n := |inits| - 1;
      var prefix := inits[..n];
      match Table(prefix, conv)
      case Err(e) =>
        var i :| 0 <= i < n && conv(prefix[i].values) == Err(e);
        assert prefix[i] == inits[i];
        Err(e)
      case Ok(m) =>
        match conv(inits[n].values)
        case Err(e) => Err(e)
        case Ok(vs) =>
          assert forall i :: 0 <= i < n ==> prefix[i] == inits[i];
          Ok(m[inits[n].typeName := vs])
  }

  /** `parse_initializations(cpp)` as a value: the table built with `ValueList`. */
  function InitTable(inits: seq<InitSource>): (r: Result<map<string, seq<string>>>)
    ensures r.Err? <==> exists i :: 0 <= i < |inits| && ValueList(inits[i].values).Err?
    ensures r.Err? ==> r.error == UnicodeDecodeError
  {
    Table(inits, ValueList)
  }

  /** The table's keys are exactly the type names of the initializers. */
  lemma {:induction false} TableKeys(inits: seq<InitSource>, conv: string -> Result<seq<string>>)
    requires Table(inits, conv).Ok?
    ensures forall i :: 0 <= i < |inits| ==> inits[i].typeName in Table(inits, conv).value
    ensures forall t :: t in Table(inits, conv).value ==>
      exists i :: 0 <= i < |inits| && inits[i].typeName == t
    decreases |inits|
  {
    if inits != [] {
      var n := |inits| - 1;
      var prefix := inits[..n];
      TableKeys(prefix, conv);
      assert forall i :: 0 <= i < n ==> prefix[i] == inits[i];
    }
  }

  /** The entry of a type name is the converted value list of the LAST initializer of
      that type. */
  lemma {:induction false} LastInitializerWins(inits: seq<InitSource>, conv: string -> Result<seq<string>>, k: nat)
    requires Table(inits, conv).Ok? && k < |inits|
    requires forall j :: k < j < |inits| ==> inits[j].typeName != inits[k].typeName
    ensures conv(inits[k].values).Ok? && inits[k].typeName in Table(inits, conv).value
    ensures Table(inits, conv).value[inits[k].typeName] == conv(inits[k].values).value
    decreases |inits|
  {
    var n := |inits| - 1;
    var prefix := inits[..n];
    if k < n {
      assert prefix[k] == inits[k];
      LastInitializerWins(prefix, conv, k);
    }
  }

  /** `parse_initializations(cpp)` on the scanned initializers. */
  method ParseInitializations(inits: seq<InitSource>) returns (r: Result<map<string, seq<string>>>)
    ensures r == InitTable(inits)
  {
    var result: map<string, seq<string>> := map[];
    for i := 0 to |inits|
      invariant Table(inits[..i], ValueList) == Ok(result)
    {
      assert inits[..i + 1][..i] == inits[..i];
      var vals := ValueList(inits[i].values);
      if vals.Err? {
        assert ValueList(inits[i].values).Err?;
        return Err(vals.error);
      }
      result := result[inits[i].typeName := vals.value];
    }
    assert inits[..|inits|] == inits;
    r := Ok(result);
  }

  /** Empty braces still give one (empty) value, since `''.split(',')` is `['']`. */
  lemma EmptyBracesOneValue(values: string)
    requires |values| == 0
    ensures ValueList(values) == Ok([values])
  {
    OneValue(values);
    EmptyValue(values);
    MapResultSingle(values, CppValueToGo);
  }

  /** Text without a comma is a single value. */
  lemma OneValue(values: string)
    requires ',' !in values
    ensures SplitOn(values, ',') == [values]
  {
    assert IndexOf(values, ',') == |values|;
  }

  lemma EmptyValue(v: string)
    requires |v| == 0
    ensures CppValueToGo(v) == Ok(v)
  {
    assert v == [];
    PlainTrimmed(v);
    assert RemoveAll(v, "LL") == v && RemoveAll(v, "U") == v;
  }
}
