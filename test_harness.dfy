/** The Go interoperability test that `generate_go_test` writes
    (test_cpp/cpp2go.py:103-158). The file is modelled as the list of the lines the
    generator writes, each without its final newline; the text of a line is exactly
    what the f-string produces, so a value that itself holds a newline stays inside
    one element. */
module TestHarness {
  import opened PyErrors
  import opened PyText
  import opened SeqUtil
  import opened StructEmitter
  import opened Initializers
  import opened Checks

  /** The binary file name the test reads when none is given. */
  const DefaultBinFile: string := "sample_cpp.bin"

  /** The text written so far and the exception that stopped the writing, if any. */
  datatype Emitted = Emitted(lines: seq<string>, raised: Option<PyError>)

  /** What the generator leaves behind: no test file at all when the initializers
      cannot be read (the file is opened afterwards), or the lines written before
      returning or raising. */
  datatype Outcome = NotCreated(error: PyError) | Written(lines: seq<string>, raised: Option<PyError>)

  /** The package clause, the imports and the start of the test function (lines
      111-115). */
  function Header(binFile: string): (r: seq<string>)
    ensures |r| == 14 && r[0] == "package main" && r[13] == "\toffset := 0"
  {
    ["package main", "", "import (", "\t\"os\"", "\t\"testing\"", "\t\"bytes\"", ")", "",
     "func TestInteropWithCpp(t *testing.T) {",
     "\tdata, err := os.ReadFile(\"" + binFile + "\")",
     "\tif err != nil {",
     "\t\tt.Fatalf(\"Failed to read C++ " + "binary: %v\", err)",
     "\t}",
     "\toffset := 0"]
  }

  /** By default the test reads `sample_cpp.bin`. */
  lemma DefaultHeader()
    ensures Header(DefaultBinFile)[9] == "\tdata, err := os.ReadFile(\"sample_cpp.bin\")"
  {
  }

  /** The declaration and decoding of one variable (lines 117-122): the first variable
      declares `n`, every later one assigns it. */
  function VarHead(name: string, first: bool): seq<string> {
    ["\tvar s" + name + " " + name,
     (if first then "\tn := s" else "\tn = s") + name + ".UnmarshalBinary(data[offset:])",
     "\tif n == 0 {",
     "\t\tt.Fatalf(\"UnmarshalBinary " + name + " failed\")",
     "\t}"]
  }

  /** The comparison of a decoded variable with its initializer (lines 155-156). */
  function CheckBlock(name: string, checks: seq<string>): seq<string> {
    ["\tif " + Join(checks, " || ") + " {",
     "\t\tt.Errorf(\"" + name + " mismatch: %+v\", s" + name + ")",
     "\t}"]
  }

  /** The line that moves the read position past the decoded variable (line 157). */
  const Advance: string := "\toffset += n"

  /** The checks for a variable of a given type compared with given values, or the
      exception raised while building them. */
  type CheckFn = (string, seq<string>) -> Result<seq<string>>

  /** The field checks of the scanned structs (lines 124-154). */
  function FieldChecksOf(structs: seq<StructSource>): CheckFn {
    (name: string, vals: seq<string>) => VariableChecks(structs, name, vals)
  }

  /** The lines for one top-level variable of type `name`: a variable whose type has an
      initializer is compared field by field, and a failure while building the checks
      stops the writing right after the decoding lines. */
  function VarBlock(check: CheckFn, table: map<string, seq<string>>, name: string, first: bool): (r: Emitted)
    ensures r.raised.Some? <==> name in table && check(name, table[name]).Err?
    ensures r.raised.Some? ==> r.lines == VarHead(name, first) && r.raised.value == check(name, table[name]).error
    ensures name !in table ==> r.lines == VarHead(name, first) + [Advance]
    ensures r.raised.None? && name in table ==>
      r.lines == VarHead(name, first) + CheckBlock(name, check(name, table[name]).value) + [Advance]
  {
    var head := VarHead(name, first);
    if name in table then
      match check(name, table[name])
      case Err(e) => Emitted(head, Some(e))
      case Ok(checks) => Emitted(head + CheckBlock(name, checks) + [Advance], None)
    else Emitted(head + [Advance], None)
  }

  /** The loop at lines 116-157 over the top-level variables in order, stopping at the
      first exception. */
  function Body(check: CheckFn, table: map<string, seq<string>>, top: seq<string>): (r: Emitted)
    decreases |top|
  {
    if top == [] then Emitted([], None)
    else
      var n := |top| - 1;
      var pre := Body(check, table, top[..n]);
      if pre.raised.Some? then pre
      else
        var b := VarBlock(check, table, top[n], n == 0);
        Emitted(pre.lines + b.lines, b.raised)
  }

  /** Past a prefix that raised nothing, one more variable appends its block. */
  lemma BodyStep(check: CheckFn, table: map<string, seq<string>>, top: seq<string>, k: nat)
    requires k < |top| && Body(check, table, top[..k]).raised.None?
    ensures Body(check, table, top[..k + 1]).lines
      == Body(check, table, top[..k]).lines + VarBlock(check, table, top[k], k == 0).lines
    ensures Body(check, table, top[..k + 1]).raised == VarBlock(check, table, top[k], k == 0).raised
  {
    assert top[..k + 1][..k] == top[..k] && top[..k + 1][k] == top[k];
  }

  /** The file once the variable blocks are written: the header and the blocks, and
      the closing brace when nothing was raised. */
  function Finish(binFile: string, body: Emitted): (r: Outcome)
    ensures r.Written? && r.raised == body.raised
  {
    if body.raised.Some? then Written(Header(binFile) + body.lines, body.raised)
    else Written(Header(binFile) + body.lines + ["}"], None)
  }

  /** `generate_go_test` on the scanned structs, initializers and top-level variable
      types. */
  function TestFile(binFile: string, structs: seq<StructSource>, inits: seq<InitSource>, top: seq<string>): (r: Outcome)
    ensures r.NotCreated? <==> InitTable(inits).Err?
    ensures r.NotCreated? ==> r.error == UnicodeDecodeError
  {
    match InitTable(inits)
    case Err(e) => NotCreated(e)
    case Ok(table) => Finish(binFile, Body(FieldChecksOf(structs), table, top))
  }

  /** `generate_go_test(cpp_file, go_file, bin_file)` once the regular expressions have
      scanned `cpp_file`. */
  method GenerateGoTest(binFile: string, structs: seq<StructSource>, inits: seq<InitSource>, top: seq<string>) returns (out: Outcome)
    ensures out == TestFile(binFile, structs, inits, top)
  {
    var parsed := ParseInitializations(inits);
    if parsed.Err? {
      return NotCreated(parsed.error);
    }
    var lines, raised := WriteVariables(Header(binFile), structs, parsed.value, top);
    if raised.Some? {
      return Written(lines, raised);
    }
    return Written(lines + ["}"], None);
  }

  /** The loop over the top-level variables, appending to the lines already written. */
  method WriteVariables(header: seq<string>, structs: seq<StructSource>, table: map<string, seq<string>>, top: seq<string>)
    returns (lines: seq<string>, raised: Option<PyError>)
    ensures lines == header + Body(FieldChecksOf(structs), table, top).lines
    ensures raised == Body(FieldChecksOf(structs), table, top).raised
  {
    ghost var check := FieldChecksOf(structs);
    lines := header;
    for k := 0 to |top|
      invariant Body(check, table, top[..k]).raised.None?
      invariant lines == header + Body(check, table, top[..k]).lines
    {
      ghost var done := Body(check, table, top[..k]).lines;
      var block := WriteVariable(structs, table, top[k], k == 0);
      BodyStep(check, table, top, k);
      AppendAssoc(header, done, block.lines);
      lines := lines + block.lines;
      if block.raised.Some? {
        FailedChecksTruncate(check, table, top, k);
        return lines, block.raised;
      }
    }
    assert top[..|top|] == top;
    raised := None;
  }

  /** The loop body for one top-level variable of type `name`. */
  method WriteVariable(structs: seq<StructSource>, table: map<string, seq<string>>, name: string, first: bool)
    returns (block: Emitted)
    ensures block == VarBlock(FieldChecksOf(structs), table, name, first)
  {
    var lines := VarHead(name, first);
    if name in table {
      var checks := BuildChecks(structs, name, table[name]);
      if checks.Err? {
        return Emitted(lines, Some(checks.error));
      }
      lines := lines + CheckBlock(name, checks.value);
    }
    return Emitted(lines + [Advance], None);
  }

  /** How many of `lines` satisfy `p`. */
  function CountWhere(lines: seq<string>, p: string -> bool): (n: nat)
    ensures n <= |lines|
    decreases |lines|
  {
    if lines == [] then 0 else (if p(lines[0]) then 1 else 0) + CountWhere(lines[1..], p)
  }

  lemma {:induction false} CountWhereAppend(a: seq<string>, b: seq<string>, p: string -> bool)
    ensures CountWhere(a + b, p) == CountWhere(a, p) + CountWhere(b, p)
    decreases |a|
  {
    if a == [] {
      assert a + b == b;
    } else {
      assert (a + b)[0] == a[0] && (a + b)[1..] == a[1..] + b;
      CountWhereAppend(a[1..], b, p);
    }
  }

  /** A line that declares `n` with `:=`. */
  predicate Declares(line: string) {
    |line| >= 4 && line[0] == '\t' && line[1] == 'n' && line[2] == ' ' && line[3] == ':'
  }

  /** A line that advances the read position. */
  predicate Advances(line: string) {
    line == Advance
  }

  /** No header line declares `n` or advances the offset. */
  lemma HeaderCounts(binFile: string)
    ensures CountWhere(Header(binFile), Declares) == 0
    ensures CountWhere(Header(binFile), Advances) == 0
  {
    var h := Header(binFile);
    forall i | 0 <= i < 14
      ensures !Declares(h[i]) && !Advances(h[i])
    {
      // The second character of each line, or its length when it is shorter.
      if i == 0 { assert h[0][1] == 'a'; }
      else if i == 2 { assert h[2][1] == 'm'; }
      else if i == 3 || i == 4 || i == 5 { assert h[i][1] == '"'; }
      else if i == 6 || i == 1 || i == 7 || i == 12 { assert |h[i]| < 4; }
      else if i == 8 { assert h[8][1] == 'u'; }
      else if i == 9 { assert h[9][1] == 'd'; }
      else if i == 10 { assert h[10][1] == 'i'; }
      else if i == 11 { assert h[11][1] == '\t'; }
      else { assert h[13][1] == 'o' && h[13][8] == ':' && Advance[8] == '+'; }
    }
    NoneCounted(h, Declares);
    NoneCounted(h, Advances);
  }

  lemma {:induction false} NoneCounted(lines: seq<string>, p: string -> bool)
    requires forall i :: 0 <= i < |lines| ==> !p(lines[i])
    ensures CountWhere(lines, p) == 0
    decreases |lines|
  {
    if lines != [] {
      assert forall i :: 0 <= i < |lines| - 1 ==> lines[1..][i] == lines[i + 1];
      NoneCounted(lines[1..], p);
    }
  }

  /** The decoding lines of a variable declare `n` only for the first variable, and
      never advance the offset. */
  lemma VarHeadCounts(name: string, first: bool)
    ensures CountWhere(VarHead(name, first), Declares) == if first then 1 else 0
    ensures CountWhere(VarHead(name, first), Advances) == 0
  {
    var h := VarHead(name, first);
    var l0 := "\tvar s" + name + " " + name;
    assert l0[1] == 'v';
    var l1 := (if first then "\tn := s" else "\tn = s") + name + ".UnmarshalBinary(data[offset:])";
    assert l1[1] == 'n';
    assert l1[0] == '\t' && l1[2] == ' ' && l1[3] == (if first then ':' else '=');
    var l3 := "\t\tt.Fatalf(\"UnmarshalBinary " + name + " failed\")";
    assert l3[1] == '\t';
    assert h == [l0, l1, "\tif n == 0 {", l3, "\t}"];
    assert "\tif n == 0 {" != Advance && "\t}" != Advance && l1 != Advance;
    assert !Declares(l0) && !Advances(l0) && !Declares(l3) && !Advances(l3);
    CountFive(h, Declares);
    CountFive(h, Advances);
  }

  lemma CountFive(h: seq<string>, p: string -> bool)
    requires |h| == 5
    ensures CountWhere(h, p) == (if p(h[0]) then 1 else 0) + (if p(h[1]) then 1 else 0)
      + (if p(h[2]) then 1 else 0) + (if p(h[3]) then 1 else 0) + (if p(h[4]) then 1 else 0)
  {
    assert h[1..][1..][1..][1..][1..] == [];
  }

  /** The comparison lines never declare `n` or advance the offset. */
  lemma CheckBlockCounts(name: string, checks: seq<string>)
    ensures CountWhere(CheckBlock(name, checks), Declares) == 0
    ensures CountWhere(CheckBlock(name, checks), Advances) == 0
  {
    var c := CheckBlock(name, checks);
    var l0 := "\tif " + Join(checks, " || ") + " {";
    var l1 := "\t\tt.Errorf(\"" + name + " mismatch: %+v\", s" + name + ")";
    assert l0[1] == 'i' && Advance[1] == 'o';
    assert l1[1] == '\t';
    assert c == [l0, l1, "\t}"];
    forall i | 0 <= i < 3
      ensures !Declares(c[i]) && !Advances(c[i])
    {
      if i == 0 {
        assert !Declares(l0) && !Advances(l0);
      } else if i == 1 {
        assert !Declares(l1) && !Advances(l1);
      }
    }
    NoneCounted(c, Declares);
    NoneCounted(c, Advances);
  }

  /** One variable's block: `n` declared only by the first, the offset advanced once when
      nothing was raised. */
  lemma VarBlockCounts(check: CheckFn, table: map<string, seq<string>>, name: string, first: bool)
    requires VarBlock(check, table, name, first).raised.None?
    ensures CountWhere(VarBlock(check, table, name, first).lines, Declares) == if first then 1 else 0
    ensures CountWhere(VarBlock(check, table, name, first).lines, Advances) == 1
  {
    var b := VarBlock(check, table, name, first);
    VarHeadCounts(name, first);
    assert CountWhere([Advance], Declares) == 0 && CountWhere([Advance], Advances) == 1 by {
      assert Advance[1] == 'o';
      assert [Advance][1..] == [];
    }
    if name in table {
      var checks := check(name, table[name]).value;
      CheckBlockCounts(name, checks);
      CountWhereAppend(VarHead(name, first), CheckBlock(name, checks), Declares);
      CountWhereAppend(VarHead(name, first), CheckBlock(name, checks), Advances);
      CountWhereAppend(VarHead(name, first) + CheckBlock(name, checks), [Advance], Declares);
      CountWhereAppend(VarHead(name, first) + CheckBlock(name, checks), [Advance], Advances);
    } else {
      CountWhereAppend(VarHead(name, first), [Advance], Declares);
      CountWhereAppend(VarHead(name, first), [Advance], Advances);
    }
  }

  /** With nothing raised, the variable blocks declare `n` once when there is a variable
      at all, and advance the offset once per variable. */
  lemma {:induction false} BodyCounts(check: CheckFn, table: map<string, seq<string>>, top: seq<string>)
    requires Body(check, table, top).raised.None?
    ensures CountWhere(Body(check, table, top).lines, Declares) == if top == [] then 0 else 1
    ensures CountWhere(Body(check, table, top).lines, Advances) == |top|
    decreases |top|
  {
    if top != [] {
      var n := |top| - 1;
      var pre := Body(check, table, top[..n]);
      BodyCounts(check, table, top[..n]);
      VarBlockCounts(check, table, top[n], n == 0);
      var b := VarBlock(check, table, top[n], n == 0);
      CountWhereAppend(pre.lines, b.lines, Declares);
      CountWhereAppend(pre.lines, b.lines, Advances);
    }
  }

  /** A completed test file declares `n` exactly once when there is a variable (so every
      later `n =` assigns a declared variable), advances the offset once per variable
      and ends with the closing brace. */
  lemma CompletedFile(binFile: string, check: CheckFn, table: map<string, seq<string>>, top: seq<string>)
    requires Body(check, table, top).raised.None?
    ensures var lines := Finish(binFile, Body(check, table, top)).lines;
      lines[..14] == Header(binFile) && lines[|lines| - 1] == "}"
      && CountWhere(lines, Declares) == (if top == [] then 0 else 1)
      && CountWhere(lines, Advances) == |top|
  {
    HeaderCounts(binFile);
    BodyCounts(check, table, top);
    ClosedCounts(Header(binFile), Body(check, table, top).lines);
  }

  /** Closing a file with `}` adds no declaration and no advance. */
  lemma ClosedCounts(head: seq<string>, body: seq<string>)
    ensures var lines := head + body + ["}"];
      lines[..|head|] == head && lines[|lines| - 1] == "}"
      && CountWhere(lines, Declares) == CountWhere(head, Declares) + CountWhere(body, Declares)
      && CountWhere(lines, Advances) == CountWhere(head, Advances) + CountWhere(body, Advances)
  {
    assert CountWhere(["}"], Declares) == 0 && CountWhere(["}"], Advances) == 0 by {
      assert ["}"][1..] == [];
    }
    CountWhereAppend(head, body, Declares);
    CountWhereAppend(head, body, Advances);
    CountWhereAppend(head + body, ["}"], Declares);
    CountWhereAppend(head + body, ["}"], Advances);
  }

  /** The blocks are written in order: nothing is raised exactly when no variable's checks
      fail, and the blocks of a longer list extend those of its prefix. */
  lemma {:induction false} BodyRaised(check: CheckFn, table: map<string, seq<string>>, top: seq<string>)
    ensures Body(check, table, top).raised.None? <==>
      forall k :: 0 <= k < |top| ==> VarBlock(check, table, top[k], k == 0).raised.None?
    decreases |top|
  {
    if top != [] {
      var n := |top| - 1;
      BodyRaised(check, table, top[..n]);
      assert forall k :: 0 <= k < n ==> top[..n][k] == top[k];
    }
  }

  /** When the checks of variable `k` fail and those before it do not, the blocks
      written are the complete blocks of the variables before it and the decoding lines
      of variable `k`, and the exception is that of variable `k` (so `Finish` adds no
      closing brace). */
  lemma {:induction false} FailedChecksTruncate(check: CheckFn, table: map<string, seq<string>>, top: seq<string>, k: nat)
    requires k < |top|
    requires Body(check, table, top[..k]).raised.None?
    requires VarBlock(check, table, top[k], k == 0).raised.Some?
    ensures Body(check, table, top)
      == Emitted(Body(check, table, top[..k]).lines + VarHead(top[k], k == 0), VarBlock(check, table, top[k], k == 0).raised)
    decreases |top|
  {
    var n := |top| - 1;
    if k == n {
      assert top[..n] == top[..k];
    } else {
      assert top[..n][..k] == top[..k] && top[..n][k] == top[k];
      FailedChecksTruncate(check, table, top[..n], k);
    }
  }

  /** A variable whose type has no initializer is decoded but never compared. */
  lemma UncheckedVariable(check: CheckFn, table: map<string, seq<string>>, name: string, first: bool)
    requires name !in table
    ensures VarBlock(check, table, name, first) == Emitted(VarHead(name, first) + [Advance], None)
  {
  }

  /** A struct type with no fields gives an empty condition, and the generator writes the
      line `if  {`, which is not valid Go. */
  lemma EmptyCondition(check: CheckFn, table: map<string, seq<string>>, name: string, first: bool)
    requires name in table && check(name, table[name]) == Ok([])
    ensures VarBlock(check, table, name, first).lines[5] == "\tif  {"
  {
    assert Join([], " || ") == "";
  }
}
