/** The struct emitter `cpp_to_go_structs` (test_cpp/cpp2go.py:3-59): each scanned
    `struct NAME { BODY }` becomes a Go struct block tagged with a `struc-gen`
    directive. The emitted file is a sequence of lines; the text written is each
    line followed by a newline. */
module StructEmitter {
  import opened PyErrors
  import opened PyText
  import opened TypeMap
  import opened SeqUtil

  /** One match of `struct\s+(\w+)\s*{([^}]*)}`: the name and the text between the braces. */
  datatype StructSource = StructSource(name: string, body: string)

  /** The `pack` argument's default. */
  const DefaultPack: int := 2

  /** `line.strip().rstrip(';')` */
  function CleanLine(line: string): (r: string)
    ensures r == [] || !IsSpace(r[0])
    ensures r == [] || r[|r| - 1] != ';'
  {
    var t := Strip(line);
    RStripKeepsHead(t, ';');
    RStripChar(t, ';')
  }

  /** Stripping trailing characters keeps the first character of what remains. */
  lemma RStripKeepsHead(t: string, c: char)
    ensures RStripChar(t, c) == [] || RStripChar(t, c)[0] == t[0]
  {
  }

  /** A cleaned body line that declares a field: non-empty, starting with a token. */
  predicate IsFieldLine(l: string) { l != [] && !IsSpace(l[0]) }

  /** The (type, name) split of a field line's tokens (lines 42-49): two tokens are
      type and name, three a two-word type and a name, any other count the first
      and the last token. */
  function SplitField(parts: seq<string>): (r: (string, string))
    requires |parts| >= 1
    ensures r.1 == parts[|parts| - 1]
    ensures |parts| == 3 ==> r.0 == parts[0] + " " + parts[1]
    ensures |parts| != 3 ==> r.0 == parts[0]
  {
    if |parts| == 2 then (parts[0], parts[1])
    else if |parts| == 3 then (parts[0] + " " + parts[1], parts[2])
    else (parts[0], parts[|parts| - 1])
  }

  lemma JoinHasSpace(xs: seq<string>)
    requires |xs| >= 2
    ensures ' ' in Join(xs, " ")
  {
    assert Join(xs, " ")[|xs[0]|] == ' ';
  }

  /** The split keeps every token of the line exactly when the line has two or three
      tokens; with one token or four and more, `type + " " + name` is not the line. */
  lemma SplitFieldLossless(parts: seq<string>)
    requires Tokens(parts) && parts != []
    ensures var (t, v) := SplitField(parts);
            (t + " " + v == Join(parts, " ")) <==> (|parts| == 2 || |parts| == 3)
  {
    var (t, v) := SplitField(parts);
    if |parts| == 1 {
      assert |t + " " + v| != |Join(parts, " ")|;
    } else if |parts| == 2 {
      assert Join(parts[1..], " ") == parts[1];
    } else if |parts| == 3 {
      JoinThreeTail(parts);
    } else {
      LossyMany(parts);
    }
  }

  lemma JoinThreeTail(parts: seq<string>)
    requires |parts| == 3
    ensures Join(parts, " ") == parts[0] + " " + parts[1] + " " + parts[2]
  {
    assert Join(parts[1..][1..], " ") == parts[2];
    assert Join(parts[1..], " ") == parts[1] + " " + parts[2];
    AppendAssoc(parts[0] + " ", parts[1] + " ", parts[2]);
    AppendAssoc(parts[0] + " " + parts[1], " ", parts[2]);
    AppendAssoc(parts[0], " ", parts[1]);
    AppendAssoc(parts[0] + " ", parts[1], " ");
  }

  lemma LossyMany(parts: seq<string>)
    requires Tokens(parts) && |parts| >= 4
    ensures parts[0] + " " + parts[|parts| - 1] != Join(parts, " ")
  {
    var last := parts[|parts| - 1];
    var tail := Join(parts[1..], " ");
    assert Join(parts, " ") == parts[0] + " " + tail;
    JoinHasSpace(parts[1..]);
    assert NoSpace(last);
    assert ' ' !in last by {
      forall i | 0 <= i < |last| ensures last[i] != ' ' {
        assert !IsSpace(last[i]);
      }
    }
    AppendCancel(parts[0] + " ", last, tail);
  }

  /** Python's `\w` on ASCII. */
  predicate IsWordChar(c: char) {
    'a' <= c <= 'z' || 'A' <= c <= 'Z' || '0' <= c <= '9' || c == '_'
  }

  /** The longest prefix of `s` whose characters all satisfy `p` (a greedy `p+` run). */
  function LongestPrefix(s: string, p: char -> bool): (w: string)
    ensures |w| <= |s| && w == s[..|w|]
    ensures forall i :: 0 <= i < |w| ==> p(w[i])
    ensures |w| == |s| || !p(s[|w|])
  {
    if s == [] || !p(s[0]) then [] else [s[0]] + LongestPrefix(s[1..], p)
  }

  lemma {:induction false} LongestPrefixOf(w: string, x: string, p: char -> bool)
    requires forall i :: 0 <= i < |w| ==> p(w[i])
    requires x == [] || !p(x[0])
    ensures LongestPrefix(w + x, p) == w
    decreases |w|
  {
    if w != [] {
      assert (w + x)[1..] == w[1..] + x;
      LongestPrefixOf(w[1..], x, p);
      assert [w[0]] + w[1..] == w;
    } else {
      assert w + x == x;
    }
  }

  /** `re.match(r'(\w+)\[(\d+)\]', v)`: the identifier and the digits of a leading
      `word[digits]`; anything may follow the closing bracket. */
  function ArrayMatch(v: string): (r: Option<(string, string)>)
    ensures r.Some? ==>
      var (w, d) := r.value;
      w != [] && (forall i :: 0 <= i < |w| ==> IsWordChar(w[i])) && d != [] && AllDigits(d)
      && |w| + |d| + 2 <= |v| && v[..|w| + |d| + 2] == w + "[" + d + "]"
  {
    var w := LongestPrefix(v, IsWordChar);
    if w == [] || |w| == |v| || v[|w|] != '[' then None
    else
      var rest := v[|w| + 1..];
      var d := LongestPrefix(rest, IsDigit);
      if d == [] || |d| == |rest| || rest[|d|] != ']' then None
      else
        assert v[..|w| + |d| + 2] == v[..|w|] + [v[|w|]] + rest[..|d|] + [rest[|d|]];
        Some((w, d))
  }

  /** Every identifier of the form `word[digits]...` is recognised, with exactly that
      word and those digits. */
  lemma ArrayMatchComplete(w: string, d: string, rest: string)
    requires w != [] && forall i :: 0 <= i < |w| ==> IsWordChar(w[i])
    requires d != [] && AllDigits(d)
    ensures ArrayMatch(w + "[" + d + "]" + rest) == Some((w, d))
  {
    var close := "]" + rest;
    var tail := "[" + d + close;
    var v := w + tail;
    assert w + "[" + d + "]" + rest == v;
    LongestPrefixOf(w, tail, IsWordChar);
    assert v[|w|] == '[';
    assert v[|w| + 1..] == d + close;
    LongestPrefixOf(d, close, IsDigit);
    assert (d + close)[|d|] == ']';
  }

  /** The Go field line for a field of source type `t` named `v` (lines 50-58): an
      array name `word[digits]` becomes `word [digits]goType`. */
  function FieldOf(t: string, v: string): (r: string)
    ensures |r| > |GoType(t)| && r[0] == '\t' && r[|r| - |GoType(t)|..] == GoType(t)
    ensures ArrayMatch(v).Some? ==>
      var d := ArrayMatch(v).value.1;
      |r| >= |GoType(t)| + |d| + 2 && r[|r| - |GoType(t)| - |d| - 2..|r| - |GoType(t)|] == "[" + d + "]"
  {
    var goT := GoType(t);
    var m := ArrayMatch(v);
    if m.Some? then
      var pre := "\t" + m.value.0 + " [" + m.value.1 + "]";
      SuffixOfAppend(pre, "[" + m.value.1 + "]", goT);
      pre + goT
    else
      SuffixOfAppend("\t" + v + " ", [], goT);
      "\t" + v + " " + goT
  }

  /** Appending keeps a suffix in place in front of what is appended. */
  lemma SuffixOfAppend(pre: string, suf: string, x: string)
    requires |suf| <= |pre| && pre[|pre| - |suf|..] == suf
    ensures var r := pre + x; r[|r| - |x|..] == x && r[|r| - |x| - |suf|..|r| - |x|] == suf
  {
    var r := pre + x;
    assert r[|r| - |x|..] == x;
    assert r[|r| - |x| - |suf|..|r| - |x|] == pre[|pre| - |suf|..];
  }


  /** The text of the field line in each case of the match. */
  lemma FieldOfCases(t: string, v: string)
    ensures ArrayMatch(v).Some? ==>
      FieldOf(t, v) == "\t" + ArrayMatch(v).value.0 + " [" + ArrayMatch(v).value.1 + "]" + GoType(t)
    ensures ArrayMatch(v).None? ==> FieldOf(t, v) == "\t" + v + " " + GoType(t)
  {
  }

  /** The Go field line for the whitespace tokens of a field line (lines 42-58). */
  function FieldOfTokens(parts: seq<string>): string
    requires parts != []
  {
    var tv := SplitField(parts);
    FieldOf(tv.0, tv.1)
  }

  /** The Go field line for a cleaned field line. */
  function FieldText(line: string): string
    requires IsFieldLine(line)
  {
    assert Split(line) != [] by { assert !AllSpace(line); }
    FieldOfTokens(Split(line))
  }

  /** A two-token field whose name is `word[digits]...` becomes `\tword [digits]goType`,
      digits copied verbatim; one whose name has no such prefix becomes `\tname goType`. */
  lemma FieldTextTwoTokens(t: string, v: string)
    requires t != [] && NoSpace(t) && v != [] && NoSpace(v)
    ensures IsFieldLine(t + " " + v)
    ensures ArrayMatch(v).Some? ==>
      FieldText(t + " " + v) == "\t" + ArrayMatch(v).value.0 + " [" + ArrayMatch(v).value.1 + "]" + GoType(t)
    ensures ArrayMatch(v).None? ==> FieldText(t + " " + v) == "\t" + v + " " + GoType(t)
  {
    TwoTokens(t, v);
    assert SplitField([t, v]) == (t, v);
    assert FieldText(t + " " + v) == FieldOf(t, v);
    FieldOfCases(t, v);
  }

  lemma TwoTokens(t: string, v: string)
    requires t != [] && NoSpace(t) && v != [] && NoSpace(v)
    ensures IsFieldLine(t + " " + v) && Split(t + " " + v) == [t, v]
  {
    SplitTokenSpace(t, v);
    SplitSingle(v);
    PairAppend(t, v);
    assert (t + " " + v)[0] == t[0];
  }

  /** With four or more tokens the type is the first token and the name the last;
      the words between are dropped. */
  lemma FieldTextFallback(parts: seq<string>)
    requires |parts| >= 4 && ArrayMatch(parts[|parts| - 1]).None?
    ensures FieldOfTokens(parts) == "\t" + parts[|parts| - 1] + " " + GoType(parts[0])
  {
  }

  /** The Go field line a body line contributes (lines 38-58): none when the line is
      blank after cleaning, otherwise exactly one. */
  function FieldLineOf(line: string): (r: seq<string>)
    ensures |r| <= 1
    ensures r == [] <==> CleanLine(line) == []
  {
    var c := CleanLine(line);
    if c == [] then [] else [FieldText(c)]
  }

  /** The Go field lines for a struct body's lines, in order. */
  function FieldBlock(lines: seq<string>): seq<string> {
    ConcatMap(lines, FieldLineOf)
  }

  /** Every body line that is not blank after cleaning has its field line at the
      position given by the number of field lines before it; blank lines add nothing. */
  lemma FieldLineAt(lines: seq<string>, j: nat)
    requires j < |lines|
    ensures CleanLine(lines[j]) == [] ==> FieldBlock(lines[..j + 1]) == FieldBlock(lines[..j])
    ensures CleanLine(lines[j]) != [] ==>
      |FieldBlock(lines[..j])| < |FieldBlock(lines)|
      && FieldBlock(lines)[|FieldBlock(lines[..j])|] == FieldText(CleanLine(lines[j]))
  {
    ConcatMapSnoc(lines, j, FieldLineOf);
    if CleanLine(lines[j]) != [] {
      ConcatMapAt(lines, j, 0, FieldLineOf);
    } else {
      AppendEmpty(FieldBlock(lines[..j]));
    }
  }

  /** A non-blank body written on one line yields exactly one field, whatever it
      declares. */
  lemma OneLineBodyOneField(body: string)
    requires NoLineBreak(body) && CleanLine(body) != []
    ensures FieldBlock(SplitLines(body)) == [FieldText(CleanLine(body))]
  {
    SplitLinesNoBreak(body);
    assert SplitLines(body) == [body];
    ConcatMapSingle(body, FieldLineOf);
    assert FieldLineOf(body) == [FieldText(CleanLine(body))];
  }

  /** The directive text before the pack value. */
  const DirectivePrefix: string := "//go:generate struc-gen -little -pack "

  /** `//go:generate struc-gen -little -pack {pack}`: a non-negative pack value reads
      back from the text after the prefix. */
  function Directive(pack: int): (r: string)
    ensures |r| > |DirectivePrefix| && r[..|DirectivePrefix|] == DirectivePrefix
    ensures pack >= 0 ==> AllDigits(r[|DirectivePrefix|..]) && DecimalValue(r[|DirectivePrefix|..]) == pack
  {
    var r := DirectivePrefix + IntToDecimal(pack);
    assert r[|DirectivePrefix|..] == IntToDecimal(pack);
    if pack >= 0 then DecimalRoundTrip(pack); r else r
  }

  /** With the default pack value the directive asks for 2-byte packing. */
  lemma DefaultDirective()
    ensures Directive(DefaultPack) == "//go:generate struc-gen -little -pack 2"
  {
    assert IntToDecimal(2) == "2";
  }

  /** The block written for one struct (lines 36-59). */
  function StructBlock(s: StructSource, pack: int): seq<string> {
    [Directive(pack), "type " + s.name + " struct {"]
    + FieldBlock(SplitLines(s.body))
    + ["}", ""]
  }

  function Blocks(structs: seq<StructSource>, pack: int): (r: seq<string>)
    ensures |r| >= 4 * |structs|
    decreases |structs|
  {
    if structs == [] then []
    else Blocks(structs[..|structs| - 1], pack) + StructBlock(structs[|structs| - 1], pack)
  }

  /** The whole file `cpp_to_go_structs` writes: the package clause, then at least
      four lines per struct. */
  function GoStructsFile(structs: seq<StructSource>, pack: int): (r: seq<string>)
    ensures |r| >= 2 + 4 * |structs|
    ensures r[0] == "package main" && r[1] == ""
  {
    ["package main", ""] + Blocks(structs, pack)
  }

  /** A struct's block is the directive, the type header, one field line per body line
      that is non-blank after cleaning (at the position counting such lines before it),
      and the closing brace. */
  lemma StructBlockLayout(s: StructSource, pack: int, j: nat)
    requires j < |SplitLines(s.body)| && CleanLine(SplitLines(s.body)[j]) != []
    ensures var lines := SplitLines(s.body);
            var b := StructBlock(s, pack);
            var pos := 2 + |FieldBlock(lines[..j])|;
            |b| == 4 + |FieldBlock(lines)|
            && b[0] == "//go:generate struc-gen -little -pack " + IntToDecimal(pack)
            && b[1] == "type " + s.name + " struct {"
            && pos < |b| - 2 && b[pos] == FieldText(CleanLine(lines[j]))
            && b[|b| - 2] == "}" && b[|b| - 1] == ""
  {
    var lines := SplitLines(s.body);
    StructBlockFrame(s, pack);
    FieldLineAt(lines, j);
    StructBlockField(s, pack, |FieldBlock(lines[..j])|);
  }

  lemma StructBlockFrame(s: StructSource, pack: int)
    ensures var b := StructBlock(s, pack);
            |b| == 4 + |FieldBlock(SplitLines(s.body))|
            && b[0] == Directive(pack) && b[1] == "type " + s.name + " struct {"
            && b[|b| - 2] == "}" && b[|b| - 1] == ""
  {
  }

  lemma StructBlockField(s: StructSource, pack: int, i: nat)
    requires i < |FieldBlock(SplitLines(s.body))|
    ensures StructBlock(s, pack)[2 + i] == FieldBlock(SplitLines(s.body))[i]
  {
  }

  /** `cpp_to_go_structs(cpp_file, go_file, pack)` with the regex scan given as `structs`:
      the lines it writes, in order. */
  method CppToGoStructs(structs: seq<StructSource>, pack: int) returns (out: seq<string>)
    ensures out == GoStructsFile(structs, pack)
  {
    out := ["package main", ""];
    for k := 0 to |structs|
      invariant out == ["package main", ""] + Blocks(structs[..k], pack)
    {
      var s := structs[k];
      ghost var before := out;
      var header := [Directive(pack), "type " + s.name + " struct {"];
      out := out + header;
      var lines := SplitLines(s.body);
      for j := 0 to |lines|
        invariant out == before + header + FieldBlock(lines[..j])
      {
        ConcatMapSnoc(lines, j, FieldLineOf);
        ghost var done := FieldBlock(lines[..j]);
        assert FieldBlock(lines[..j + 1]) == done + FieldLineOf(lines[j]);
        var line := CleanLine(lines[j]);
        if line == [] {
          AppendEmpty(done);
          continue;
        }
        var text := EmitField(line);
        out := out + [text];
        AppendAssoc(before + header, done, [text]);
      }
      TakeAll(lines);
      out := out + ["}", ""];
      AppendAssoc(before, header + FieldBlock(lines), ["}", ""]);
      AppendAssoc(before, header, FieldBlock(lines));
      TakeOneMore(structs, k);
      AppendAssoc(["package main", ""], Blocks(structs[..k], pack), StructBlock(s, pack));
    }
    TakeAll(structs);
  }

  /** The loop body for one cleaned field line (lines 42-58). */
  method EmitField(line: string) returns (text: string)
    requires IsFieldLine(line)
    ensures text == FieldText(line)
  {
    var parts := Split(line);
    assert parts != [] by { assert !AllSpace(line); }
    var (t, v) := SplitField(parts);
    var goT := GoType(t);
    var m := ArrayMatch(v);
    FieldOfCases(t, v);
    if m.Some? {
      text := "\t" + m.value.0 + " [" + m.value.1 + "]" + goT;
    } else {
      text := "\t" + v + " " + goT;
    }
  }
}
