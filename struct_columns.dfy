/** The field-name and field-type columns the test-harness generator reads from a
    struct body, `get_struct_fields` and `get_struct_types`
    (test_cpp/cpp2go.py:84-94). */
module StructColumns {
  import opened PyErrors
  import opened PyText
  import opened SeqUtil
  import opened StructEmitter

  /** The body line as a one-element list when `line.strip()` is non-empty. */
  function KeepNonBlank(line: string): (r: seq<string>)
    ensures |r| <= 1
    ensures r != [] <==> Strip(line) != []
    ensures r != [] ==> r[0] == line
  {
    if Strip(line) != [] then [line] else []
  }

  /** The lines the comprehensions at lines 87 and 93 keep, in order. */
  function NonBlank(lines: seq<string>): seq<string> {
    ConcatMap(lines, KeepNonBlank)
  }

  /** `parts[col]`, raising `IndexError` past the end. */
  function Pick(parts: seq<string>, col: nat): (r: Result<string>)
    ensures r.Ok? <==> col < |parts|
    ensures r.Ok? ==> r.value == parts[col]
    ensures r.Err? ==> r.error == IndexError
  {
    if col < |parts| then Ok(parts[col]) else Err(IndexError)
  }

  /** The `col`-th token of a body line once stripped of whitespace and trailing `;`. */
  function Cell(line: string, col: nat): Result<string> {
    Pick(Split(CleanLine(line)), col)
  }

  /** `[line.strip().rstrip(';').split()[col] for line in lines if line.strip()]` */
  function ColumnOf(lines: seq<string>, col: nat): (r: Result<seq<string>>)
    ensures r.Ok? ==> |r.value| == |NonBlank(lines)|
    ensures r.Err? ==> r.error == IndexError
  {
    MapResult(NonBlank(lines), (l: string) => Cell(l, col))
  }

  /** The body's column `col` of the first struct named `name`; no such struct gives
      the empty list. */
  function StructColumn(structs: seq<StructSource>, name: string, col: nat): (r: Result<seq<string>>)
    ensures (forall i :: 0 <= i < |structs| ==> structs[i].name != name) ==> r == Ok([])
    ensures r.Err? ==> r.error == IndexError
    decreases |structs|
  {
    if structs == [] then Ok([])
    else if structs[0].name == name then ColumnOf(SplitLines(structs[0].body), col)
    else
      assert forall i :: 1 <= i < |structs| ==> structs[1..][i - 1] == structs[i];
      StructColumn(structs[1..], name, col)
  }

  /** When a struct named `name` exists, the column is that of the FIRST such struct's
      body. */
  lemma {:induction false} StructColumnFirst(structs: seq<StructSource>, name: string, col: nat, i: nat)
    requires i < |structs| && structs[i].name == name
    requires forall j :: 0 <= j < i ==> structs[j].name != name
    ensures StructColumn(structs, name, col) == ColumnOf(SplitLines(structs[i].body), col)
    decreases i
  {
    if i > 0 {
      assert structs[0].name != name;
      assert forall j :: 0 <= j < i - 1 ==> structs[1..][j] == structs[j + 1];
      StructColumnFirst(structs[1..], name, col, i - 1);
    }
  }

  /** `get_struct_fields(structs, name)`: the second token of each line. */
  function StructFields(structs: seq<StructSource>, name: string): (r: Result<seq<string>>)
    ensures (forall i :: 0 <= i < |structs| ==> structs[i].name != name) ==> r == Ok([])
    ensures r.Err? ==> r.error == IndexError
  {
    StructColumn(structs, name, 1)
  }

  /** `get_struct_types(structs, name)`: the first token of each line. */
  function StructTypes(structs: seq<StructSource>, name: string): (r: Result<seq<string>>)
    ensures (forall i :: 0 <= i < |structs| ==> structs[i].name != name) ==> r == Ok([])
    ensures r.Err? ==> r.error == IndexError
  {
    StructColumn(structs, name, 0)
  }

  /** `[n for n, _ in structs]` */
  function StructNames(structs: seq<StructSource>): (r: seq<string>)
    ensures |r| == |structs|
    ensures forall i :: 0 <= i < |structs| ==> r[i] == structs[i].name
  {
    seq(|structs|, i requires 0 <= i < |structs| => structs[i].name)
  }

  /** When a body's field column can be read, so can its type column: both have one
      entry per kept line, and entry `i` of each is the first and the second token of
      the same line. */
  lemma ColumnsAgree(lines: seq<string>)
    requires ColumnOf(lines, 1).Ok?
    ensures ColumnOf(lines, 0).Ok?
    ensures |ColumnOf(lines, 0).value| == |ColumnOf(lines, 1).value|
    ensures forall i :: 0 <= i < |ColumnOf(lines, 1).value| ==>
      var parts := Split(CleanLine(NonBlank(lines)[i]));
      2 <= |parts| && ColumnOf(lines, 0).value[i] == parts[0] && ColumnOf(lines, 1).value[i] == parts[1]
  {
    var kept := NonBlank(lines);
    var fields := ColumnOf(lines, 1);
    forall i | 0 <= i < |kept| ensures Cell(kept[i], 0).Ok? {
      assert ((l: string) => Cell(l, 1))(kept[i]) == Ok(fields.value[i]);
    }
  }

  /** The same for the columns of the first struct of a given name. */
  lemma StructColumnsAgree(structs: seq<StructSource>, name: string)
    requires StructFields(structs, name).Ok?
    ensures StructTypes(structs, name).Ok?
    ensures |StructTypes(structs, name).value| == |StructFields(structs, name).value|
    decreases |structs|
  {
    if structs != [] {
      if structs[0].name == name {
        ColumnsAgree(SplitLines(structs[0].body));
      } else {
        StructColumnsAgree(structs[1..], name);
      }
    }
  }

  /** A line of three tokens such as `unsigned int x` is read as type `unsigned` and
      field `int`, while the struct emitter joins the first two tokens into the type
      and takes the third as the name. */
  lemma ThreeTokenLine(line: string, parts: seq<string>)
    requires Split(CleanLine(line)) == parts && |parts| == 3
    ensures ColumnOf([line], 0) == Ok([parts[0]]) && ColumnOf([line], 1) == Ok([parts[1]])
    ensures SplitField(parts) == (parts[0] + " " + parts[1], parts[2])
  {
    OneLineColumn(line, parts, 0);
    OneLineColumn(line, parts, 1);
  }

  /** The column of a single line is its `col`-th token when it has one. */
  lemma OneLineColumn(line: string, parts: seq<string>, col: nat)
    requires Split(CleanLine(line)) == parts && col < |parts|
    ensures ColumnOf([line], col) == Ok([parts[col]])
  {
    KeptLine(line);
    MapResultSingle(line, (l: string) => Cell(l, col));
  }

  /** A line that strips to text, such as a lone `;`, is kept even when nothing is left
      after the trailing `;` goes: reading either column of it raises `IndexError`,
      while the struct emitter skips the line. */
  lemma BareSemicolonLine(line: string, col: nat)
    requires Strip(line) != [] && CleanLine(line) == []
    ensures ColumnOf([line], col) == Err(IndexError)
    ensures FieldLineOf(line) == []
  {
    ConcatMapSingle(line, KeepNonBlank);
    assert NonBlank([line]) == [line];
    assert Split(CleanLine(line)) == [];
    MapResultSingle(line, (l: string) => Cell(l, col));
  }

  /** A line whose cleaned form has tokens is kept by the filter. */
  lemma KeptLine(line: string)
    requires Split(CleanLine(line)) != []
    ensures NonBlank([line]) == [line]
  {
    ConcatMapSingle(line, KeepNonBlank);
    assert CleanLine(line) != [];
    assert Strip(line) != [];
  }
}
