/** The field checks of the test-harness generator (test_cpp/cpp2go.py:124-155): a
    cursor `val_idx` walks the initializer's values while the fields of the struct,
    and one level of embedded struct fields, each add their `!=` conditions. */
module Checks {
  import opened PyErrors
  import opened PyText
  import opened SeqUtil
  import opened Literals
  import opened StructEmitter
  import opened StructColumns
  import opened ArrayTypes

  /** The state the loop at lines 130-154 carries: the `checks` list and `val_idx`. */
  datatype Cursor = Cursor(checks: seq<string>, idx: nat)

  function Min(a: nat, b: nat): nat { if a <= b then a else b }

  /** How many values remain at or after `idx`. */
  function Avail(vals: seq<string>, idx: nat): nat {
    if idx >= |vals| then 0 else |vals| - idx
  }

  /** `vals[lo:lo + n]`: Python clamps the slice to the list. */
  function Slice(vals: seq<string>, lo: nat, n: nat): (r: seq<string>)
    ensures |r| == Min(n, Avail(vals, lo))
    ensures forall i :: 0 <= i < |r| ==> r[i] == vals[lo + i]
  {
    if lo >= |vals| then [] else vals[lo..lo + Min(n, |vals| - lo)]
  }

  /** The check for element `i` of an array field (lines 139 and 149). */
  function ArrayCheck(target: string, i: nat, v: string): string {
    target + "[" + NatToDecimal(i) + "] != " + v
  }

  /** The check for a scalar field (lines 143 and 153). */
  function ScalarCheck(target: string, g: string): string {
    target + " != " + g
  }

  /** The checks `enumerate(arr_vals)` adds, one per value, numbered from 0. */
  function ArrayChecks(target: string, arr: seq<string>): (r: seq<string>)
    ensures |r| == |arr|
    ensures forall i :: 0 <= i < |arr| ==> r[i] == ArrayCheck(target, i, arr[i])
    decreases |arr|
  {
    if arr == [] then []
    else
      var n := |arr| - 1;
      var front := ArrayChecks(target, arr[..n]);
      assert forall i :: 0 <= i < n ==> arr[..n][i] == arr[i];
      front + [ArrayCheck(target, n, arr[n])]
  }

  /** How far one leaf field moves the cursor: its array length, or 1 for a scalar. */
  function Width(typ: string): nat {
    if IsArrayField(typ) then ArrayLength(typ) else 1
  }

  /** One leaf field (lines 135-144 and 145-154): an array type takes the values in its
      slice and advances by its full length whatever was left; a scalar normalises the
      value under the cursor a second time, and raises `IndexError` when the values
      have run out. */
  function LeafStep(target: string, typ: string, vals: seq<string>, c: Cursor): (r: Result<Cursor>)
    ensures r.Ok? ==> r.value.idx == c.idx + Width(typ)
    ensures r.Ok? ==> |r.value.checks| >= |c.checks| && r.value.checks[..|c.checks|] == c.checks
    ensures r.Ok? && IsArrayField(typ) ==>
      |r.value.checks| == |c.checks| + Min(ArrayLength(typ), Avail(vals, c.idx))
      && forall i :: |c.checks| <= i < |r.value.checks| ==>
        r.value.checks[i] == ArrayCheck(target, i - |c.checks|, vals[c.idx + i - |c.checks|])
    ensures r.Ok? && !IsArrayField(typ) ==>
      c.idx < |vals| && CppValueToGo(vals[c.idx]).Ok?
      && r.value.checks == c.checks + [ScalarCheck(target, CppValueToGo(vals[c.idx]).value)]
    ensures r.Err? <==> !IsArrayField(typ) && (c.idx >= |vals| || CppValueToGo(vals[c.idx]).Err?)
    ensures r.Err? && c.idx >= |vals| ==> r.error == IndexError
  {
    if IsArrayField(typ) then
      var n := ArrayLength(typ);
      var arr := Slice(vals, c.idx, n);
      var added := ArrayChecks(target, arr);
      assert (c.checks + added)[..|c.checks|] == c.checks;
      Ok(Cursor(c.checks + added, c.idx + n))
    else if c.idx >= |vals| then Err(IndexError)
    else
      match CppValueToGo(vals[c.idx])
      case Err(e) => Err(e)
      case Ok(g) =>
        assert (c.checks + [ScalarCheck(target, g)])[..|c.checks|] == c.checks;
        Ok(Cursor(c.checks + [ScalarCheck(target, g)], c.idx + 1))
  }

  /** `zip(a, b)`: pairs up to the shorter length. */
  function Zip(a: seq<string>, b: seq<string>): (r: seq<(string, string)>)
    ensures |r| == Min(|a|, |b|)
    ensures forall i :: 0 <= i < |r| ==> r[i] == (a[i], b[i])
  {
    seq(Min(|a|, |b|), i requires 0 <= i < Min(|a|, |b|) => (a[i], b[i]))
  }

  /** The total width of a list of leaf fields. */
  function Widths(pairs: seq<(string, string)>): nat
    decreases |pairs|
  {
    if pairs == [] then 0 else Width(pairs[0].1) + Widths(pairs[1..])
  }

  /** The embedded loop at lines 134-144 over `(subfield, subtype)` pairs, each a leaf
      named `base.subfield`, even when its type is itself a struct. */
  function SubFold(base: string, pairs: seq<(string, string)>, vals: seq<string>, c: Cursor): (r: Result<Cursor>)
    ensures r.Ok? ==> r.value.idx == c.idx + Widths(pairs)
    ensures r.Ok? ==> |r.value.checks| >= |c.checks| && r.value.checks[..|c.checks|] == c.checks
    decreases |pairs|
  {
    if pairs == [] then Ok(c)
    else
      match LeafStep(base + "." + pairs[0].0, pairs[0].1, vals, c)
      case Err(e) => Err(e)
      case Ok(c1) =>
        var r := SubFold(base, pairs[1..], vals, c1);
        assert r.Ok? ==> r.value.checks[..|c.checks|] == r.value.checks[..|c1.checks|][..|c.checks|];
        r
  }

  /** How far one top-level field moves the cursor: an embedded struct the total width of
      its own fields, anything else its leaf width. */
  function FieldWidth(structs: seq<StructSource>, typ: string): nat {
    if typ in StructNames(structs) && StructFields(structs, typ).Ok? && StructTypes(structs, typ).Ok? then
      Widths(Zip(StructFields(structs, typ).value, StructTypes(structs, typ).value))
    else Width(typ)
  }

  /** One top-level field (lines 131-154): a type naming a scanned struct expands to that
      struct's fields, one level deep; anything else is a leaf. */
  function FieldStep(structs: seq<StructSource>, base: string, field: string, typ: string, vals: seq<string>, c: Cursor): (r: Result<Cursor>)
    ensures r.Ok? ==> r.value.idx == c.idx + FieldWidth(structs, typ)
    ensures r.Ok? ==> |r.value.checks| >= |c.checks| && r.value.checks[..|c.checks|] == c.checks
  {
    var target := base + "." + field;
    if typ in StructNames(structs) then
      match StructFields(structs, typ)
      case Err(e) => Err(e)
      case Ok(subfields) =>
        match StructTypes(structs, typ)
        case Err(e) => Err(e)
        case Ok(subtypes) => SubFold(target, Zip(subfields, subtypes), vals, c)
    else LeafStep(target, typ, vals, c)
  }

  /** The total width of a struct's top-level fields. */
  function FieldWidths(structs: seq<StructSource>, pairs: seq<(string, string)>): nat
    decreases |pairs|
  {
    if pairs == [] then 0 else FieldWidth(structs, pairs[0].1) + FieldWidths(structs, pairs[1..])
  }

  /** The loop at lines 130-154 over `zip(fields, types)`. */
  function FieldsFold(structs: seq<StructSource>, base: string, pairs: seq<(string, string)>, vals: seq<string>, c: Cursor): (r: Result<Cursor>)
    ensures r.Ok? ==> r.value.idx == c.idx + FieldWidths(structs, pairs)
    ensures r.Ok? ==> |r.value.checks| >= |c.checks| && r.value.checks[..|c.checks|] == c.checks
    decreases |pairs|
  {
    if pairs == [] then Ok(c)
    else
      match FieldStep(structs, base, pairs[0].0, pairs[0].1, vals, c)
      case Err(e) => Err(e)
      case Ok(c1) =>
        var r := FieldsFold(structs, base, pairs[1..], vals, c1);
        assert r.Ok? ==> r.value.checks[..|c.checks|] == r.value.checks[..|c1.checks|][..|c.checks|];
        r
  }

  /** The cursor after all fields of the variable of type `name`, starting from no
      checks and `val_idx = 0` (lines 126-129). */
  function VariableCursor(structs: seq<StructSource>, name: string, vals: seq<string>): (r: Result<Cursor>)
    ensures r.Ok? ==> StructFields(structs, name).Ok? && StructTypes(structs, name).Ok?
    ensures r.Ok? ==>
      r.value.idx == FieldWidths(structs, Zip(StructFields(structs, name).value, StructTypes(structs, name).value))
  {
    match StructFields(structs, name)
    case Err(e) => Err(e)
    case Ok(fields) =>
      match StructTypes(structs, name)
      case Err(e) => Err(e)
      case Ok(types) => FieldsFold(structs, "s" + name, Zip(fields, types), vals, Cursor([], 0))
  }

  /** The `checks` list for the variable of type `name`. */
  function VariableChecks(structs: seq<StructSource>, name: string, vals: seq<string>): (r: Result<seq<string>>)
    ensures r.Ok? <==> VariableCursor(structs, name, vals).Ok?
  {
    match VariableCursor(structs, name, vals)
    case Err(e) => Err(e)
    case Ok(c) => Ok(c.checks)
  }

  /** One leaf field as the loop body writes it: the checks of an array field are
      appended one per element of its slice, a scalar's single check after the value
      under the cursor is normalised. */
  method AppendLeaf(target: string, typ: string, vals: seq<string>, c: Cursor) returns (r: Result<Cursor>)
    ensures r == LeafStep(target, typ, vals, c)
  {
    if IsArrayField(typ) {
      var length := ArrayLength(typ);
      var out := AppendArrayChecks(c.checks, target, Slice(vals, c.idx, length));
      return Ok(Cursor(out, c.idx + length));
    }
    if c.idx >= |vals| {
      return Err(IndexError);
    }
    var goVal := CppValueToGo(vals[c.idx]);
    if goVal.Err? {
      return Err(goVal.error);
    }
    return Ok(Cursor(c.checks + [ScalarCheck(target, goVal.value)], c.idx + 1));
  }

  /** The loop over `enumerate(arr_vals)`: one check per element, appended in order. */
  method AppendArrayChecks(checks: seq<string>, target: string, arrVals: seq<string>) returns (out: seq<string>)
    ensures out == checks + ArrayChecks(target, arrVals)
  {
    out := checks;
    for i := 0 to |arrVals|
      invariant out == checks + ArrayChecks(target, arrVals[..i])
    {
      ArrayChecksSnoc(target, arrVals, i);
      AppendAssoc(checks, ArrayChecks(target, arrVals[..i]), [ArrayCheck(target, i, arrVals[i])]);
      out := out + [ArrayCheck(target, i, arrVals[i])];
    }
    assert arrVals[..|arrVals|] == arrVals;
  }

  /** The checks of one more array element are the earlier ones and the new one. */
  lemma ArrayChecksSnoc(target: string, arr: seq<string>, i: nat)
    requires i < |arr|
    ensures ArrayChecks(target, arr[..i + 1]) == ArrayChecks(target, arr[..i]) + [ArrayCheck(target, i, arr[i])]
  {
    assert arr[..i + 1][..i] == arr[..i];
  }

  /** One top-level field as the loop body writes it; an embedded struct runs the inner
      loop over its `(subfield, subtype)` pairs. */
  method AppendField(structs: seq<StructSource>, base: string, field: string, typ: string, vals: seq<string>, c: Cursor) returns (r: Result<Cursor>)
    ensures r == FieldStep(structs, base, field, typ, vals, c)
  {
    var target := base + "." + field;
    if typ !in StructNames(structs) {
      r := AppendLeaf(target, typ, vals, c);
      return;
    }
    var subfields := StructFields(structs, typ);
    if subfields.Err? {
      return Err(subfields.error);
    }
    var subtypes := StructTypes(structs, typ);
    if subtypes.Err? {
      return Err(subtypes.error);
    }
    var sub := Zip(subfields.value, subtypes.value);
    var cur := c;
    for j := 0 to |sub|
      invariant SubFold(target, sub, vals, c) == SubFold(target, sub[j..], vals, cur)
    {
      var next := AppendLeaf(target + "." + sub[j].0, sub[j].1, vals, cur);
      SubFoldAt(target, sub, vals, cur, j);
      if next.Err? {
        return Err(next.error);
      }
      cur := next.value;
    }
    assert sub[|sub|..] == [];
    return Ok(cur);
  }

  /** Position `j` of the inner loop: the fold from there is one leaf step and the fold
      from `j + 1`. */
  lemma SubFoldAt(base: string, pairs: seq<(string, string)>, vals: seq<string>, c: Cursor, j: nat)
    requires j < |pairs|
    ensures SubFold(base, pairs[j..], vals, c) ==
      match LeafStep(base + "." + pairs[j].0, pairs[j].1, vals, c)
      case Err(e) => Err(e)
      case Ok(c1) => SubFold(base, pairs[j + 1..], vals, c1)
  {
    assert pairs[j..][0] == pairs[j] && pairs[j..][1..] == pairs[j + 1..];
  }

  /** Position `k` of the outer loop, in the same way. */
  lemma FieldsFoldAt(structs: seq<StructSource>, base: string, pairs: seq<(string, string)>, vals: seq<string>, c: Cursor, k: nat)
    requires k < |pairs|
    ensures FieldsFold(structs, base, pairs[k..], vals, c) ==
      match FieldStep(structs, base, pairs[k].0, pairs[k].1, vals, c)
      case Err(e) => Err(e)
      case Ok(c1) => FieldsFold(structs, base, pairs[k + 1..], vals, c1)
  {
    assert pairs[k..][0] == pairs[k] && pairs[k..][1..] == pairs[k + 1..];
  }

  /** The field checks for the variable of type `name`: the loop at lines 130-154, with
      `val_idx` starting at 0 and the list of checks starting empty. */
  method BuildChecks(structs: seq<StructSource>, name: string, vals: seq<string>) returns (r: Result<seq<string>>)
    ensures r == VariableChecks(structs, name, vals)
  {
    var fields := StructFields(structs, name);
    if fields.Err? {
      return Err(fields.error);
    }
    var types := StructTypes(structs, name);
    if types.Err? {
      return Err(types.error);
    }
    var pairs := Zip(fields.value, types.value);
    var base := "s" + name;
    var cur := Cursor([], 0);
    for k := 0 to |pairs|
      invariant FieldsFold(structs, base, pairs, vals, Cursor([], 0)) == FieldsFold(structs, base, pairs[k..], vals, cur)
    {
      var next := AppendField(structs, base, pairs[k].0, pairs[k].1, vals, cur);
      FieldsFoldAt(structs, base, pairs, vals, cur, k);
      if next.Err? {
        return Err(next.error);
      }
      cur := next.value;
    }
    assert pairs[|pairs|..] == [];
    return Ok(cur.checks);
  }

  /** The checks expected of scalar fields `pairs` compared in order with the values
      from `idx` on. */
  function InOrderChecks(base: string, pairs: seq<(string, string)>, vals: seq<string>, idx: nat): (r: seq<string>)
    requires idx + |pairs| <= |vals|
    ensures |r| == |pairs|
    ensures forall k :: 0 <= k < |pairs| ==> r[k] == ScalarCheck(base + "." + pairs[k].0, vals[idx + k])
    decreases |pairs|
  {
    if pairs == [] then []
    else [ScalarCheck(base + "." + pairs[0].0, vals[idx])] + InOrderChecks(base, pairs[1..], vals, idx + 1)
  }

  lemma InOrderChecksCons(base: string, pairs: seq<(string, string)>, vals: seq<string>, idx: nat)
    requires pairs != [] && idx + |pairs| <= |vals|
    ensures InOrderChecks(base, pairs, vals, idx)
      == [ScalarCheck(base + "." + pairs[0].0, vals[idx])] + InOrderChecks(base, pairs[1..], vals, idx + 1)
  {
  }

  /** Scalar fields check the values in order: with only scalar, non-struct field types
      and a value for each that normalises without error (to `norm[j]` for value `j`),
      field `k` is compared with the normalised value `c.idx + k`, and the cursor ends
      one past the last of them. */
  lemma {:induction false} ScalarFieldsInOrder(structs: seq<StructSource>, base: string, pairs: seq<(string, string)>, vals: seq<string>, norm: seq<string>, c: Cursor)
    requires forall p :: p in pairs ==> p.1 !in StructNames(structs) && !IsArrayField(p.1)
    requires c.idx + |pairs| <= |vals| == |norm|
    requires forall j :: c.idx <= j < c.idx + |pairs| ==> CppValueToGo(vals[j]) == Ok(norm[j])
    ensures FieldsFold(structs, base, pairs, vals, c).Ok?
    ensures FieldsFold(structs, base, pairs, vals, c).value.checks == c.checks + InOrderChecks(base, pairs, norm, c.idx)
    ensures FieldsFold(structs, base, pairs, vals, c).value.idx == c.idx + |pairs|
    decreases |pairs|
  {
    if pairs == [] {
      AppendEmpty(c.checks);
    } else {
      var c1 := Cursor(c.checks + [ScalarCheck(base + "." + pairs[0].0, norm[c.idx])], c.idx + 1);
      assert forall p :: p in pairs[1..] ==> p in pairs;
      ScalarFieldsInOrder(structs, base, pairs[1..], vals, norm, c1);
      ScalarFoldStep(structs, base, pairs, vals, norm, c, c1);
      InOrderChecksStep(base, pairs, norm, c, c1);
    }
  }

  /** The inductive step of `ScalarFieldsInOrder`: the first field takes the first
      value and the fold goes on from the cursor after it. */
  lemma ScalarFoldStep(structs: seq<StructSource>, base: string, pairs: seq<(string, string)>, vals: seq<string>, norm: seq<string>, c: Cursor, c1: Cursor)
    requires pairs != [] && pairs[0].1 !in StructNames(structs) && !IsArrayField(pairs[0].1)
    requires c.idx < |vals| == |norm| && CppValueToGo(vals[c.idx]) == Ok(norm[c.idx])
    requires c1 == Cursor(c.checks + [ScalarCheck(base + "." + pairs[0].0, norm[c.idx])], c.idx + 1)
    ensures FieldsFold(structs, base, pairs, vals, c) == FieldsFold(structs, base, pairs[1..], vals, c1)
  {
    ScalarFieldStep(structs, base, pairs[0].0, pairs[0].1, vals, c);
    FieldsFoldCons(structs, base, pairs, vals, c, c1);
  }

  /** Values that normalisation leaves alone (numerals, say) are checked as written. */
  lemma StableFieldsInOrder(structs: seq<StructSource>, base: string, pairs: seq<(string, string)>, vals: seq<string>, c: Cursor)
    requires forall p :: p in pairs ==> p.1 !in StructNames(structs) && !IsArrayField(p.1)
    requires c.idx + |pairs| <= |vals|
    requires forall j :: c.idx <= j < c.idx + |pairs| ==> Stable(vals[j])
    ensures FieldsFold(structs, base, pairs, vals, c).Ok?
    ensures FieldsFold(structs, base, pairs, vals, c).value.checks == c.checks + InOrderChecks(base, pairs, vals, c.idx)
  {
    forall j | c.idx <= j < c.idx + |pairs|
      ensures CppValueToGo(vals[j]) == Ok(vals[j])
    {
      StableFixed(vals[j]);
    }
    ScalarFieldsInOrder(structs, base, pairs, vals, vals, c);
  }

  /** The checks of the first field followed by those of the rest are those of all. */
  lemma InOrderChecksStep(base: string, pairs: seq<(string, string)>, vals: seq<string>, c: Cursor, c1: Cursor)
    requires pairs != [] && c.idx + |pairs| <= |vals|
    requires c1 == Cursor(c.checks + [ScalarCheck(base + "." + pairs[0].0, vals[c.idx])], c.idx + 1)
    ensures c1.checks + InOrderChecks(base, pairs[1..], vals, c1.idx) == c.checks + InOrderChecks(base, pairs, vals, c.idx)
  {
    InOrderChecksCons(base, pairs, vals, c.idx);
    AppendAssoc(c.checks, [ScalarCheck(base + "." + pairs[0].0, vals[c.idx])], InOrderChecks(base, pairs[1..], vals, c.idx + 1));
  }

  /** A scalar top-level field takes the value under the cursor. */
  lemma ScalarFieldStep(structs: seq<StructSource>, base: string, field: string, typ: string, vals: seq<string>, c: Cursor)
    requires typ !in StructNames(structs) && !IsArrayField(typ)
    requires c.idx < |vals| && CppValueToGo(vals[c.idx]).Ok?
    ensures FieldStep(structs, base, field, typ, vals, c)
      == Ok(Cursor(c.checks + [ScalarCheck(base + "." + field, CppValueToGo(vals[c.idx]).value)], c.idx + 1))
  {
  }

  /** The same for a value that normalisation leaves alone. */
  lemma StableFieldStep(structs: seq<StructSource>, base: string, field: string, typ: string, vals: seq<string>, c: Cursor)
    requires typ !in StructNames(structs) && !IsArrayField(typ)
    requires c.idx < |vals| && Stable(vals[c.idx])
    ensures FieldStep(structs, base, field, typ, vals, c)
      == Ok(Cursor(c.checks + [ScalarCheck(base + "." + field, vals[c.idx])], c.idx + 1))
  {
    StableFixed(vals[c.idx]);
    ScalarFieldStep(structs, base, field, typ, vals, c);
  }

  /** A field step that succeeds hands its cursor to the rest of the fold. */
  lemma FieldsFoldCons(structs: seq<StructSource>, base: string, pairs: seq<(string, string)>, vals: seq<string>, c: Cursor, c1: Cursor)
    requires pairs != [] && FieldStep(structs, base, pairs[0].0, pairs[0].1, vals, c) == Ok(c1)
    ensures FieldsFold(structs, base, pairs, vals, c) == FieldsFold(structs, base, pairs[1..], vals, c1)
  {
  }

  /** Embedding stops after one level: a subfield whose type names a struct is still a
      leaf, so it takes one value and is compared as a whole. */
  lemma NestedStructIsLeaf(base: string, sub: string, st: string, vals: seq<string>, c: Cursor)
    requires !IsArrayField(st)
    ensures SubFold(base, [(sub, st)], vals, c) == LeafStep(base + "." + sub, st, vals, c)
    ensures SubFold(base, [(sub, st)], vals, c).Ok? ==> SubFold(base, [(sub, st)], vals, c).value.idx == c.idx + 1
  {
    assert [(sub, st)][1..] == [];
  }

  /** An array field advances the cursor by its declared length even when fewer values
      remain, so every later scalar field then raises `IndexError`. */
  lemma ShortArrayOverruns(target: string, typ: string, vals: seq<string>, c: Cursor, next: string, ntyp: string)
    requires IsArrayField(typ) && !IsArrayField(ntyp)
    requires Avail(vals, c.idx) < ArrayLength(typ)
    ensures LeafStep(target, typ, vals, c).Ok?
    ensures |LeafStep(target, typ, vals, c).value.checks| == |c.checks| + Avail(vals, c.idx)
    ensures LeafStep(next, ntyp, vals, LeafStep(target, typ, vals, c).value) == Err(IndexError)
  {
  }

  /** Values are normalised twice: an initializer value `LUL` is stored as `LL` and then
      compared as the empty text. */
  lemma SecondNormalisation(target: string, typ: string)
    requires !IsArrayField(typ)
    ensures LeafStep(target, typ, ["LL"], Cursor([], 0)) == Ok(Cursor([ScalarCheck(target, "")], 1))
  {
    NotIdempotent();
    assert ["LL"][0] == "LL";
  }
}
