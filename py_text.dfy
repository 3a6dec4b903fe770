/** The Python `str` operations the generator relies on: `strip()`, `rstrip(c)`,
    `split()`, `splitlines()`, `split(sep)`, `sep.join(...)`, `replace(pat, '')`
    and `str(n)` for integers. */
module PyText {
  import opened SeqUtil

  /** `str.isspace()`: the code points `strip()` and `split()` treat as whitespace. */
  predicate IsSpace(c: char) {
    if c <= ' ' then ('\t' <= c <= '\r') || '\U{1C}' <= c
    else
      c == '\U{85}' || c == '\U{A0}' || c == '\U{1680}' || ('\U{2000}' <= c <= '\U{200A}')
      || c == '\U{2028}' || c == '\U{2029}' || c == '\U{202F}' || c == '\U{205F}'
      || c == '\U{3000}'
  }

  /** The code points `str.splitlines()` breaks at (a `\r\n` pair is one break). */
  predicate IsLineBreak(c: char) {
    ('\n' <= c <= '\r') || ('\U{1C}' <= c <= '\U{1E}') || c == '\U{85}' || c == '\U{2028}'
    || c == '\U{2029}'
  }

  predicate IsDigit(c: char) { '0' <= c <= '9' }

  predicate AllSpace(s: string) { forall i :: 0 <= i < |s| ==> IsSpace(s[i]) }

  predicate NoSpace(s: string) { forall i :: 0 <= i < |s| ==> !IsSpace(s[i]) }

  predicate NoLineBreak(s: string) { forall i :: 0 <= i < |s| ==> !IsLineBreak(s[i]) }

  predicate AllDigits(s: string) { forall i :: 0 <= i < |s| ==> IsDigit(s[i]) }

  /** A string `strip()` leaves alone: empty, or no whitespace at either end. */
  predicate Trimmed(s: string) { s == [] || (!IsSpace(s[0]) && !IsSpace(s[|s| - 1])) }

  /** `s.lstrip()` */
  function LStrip(s: string): (r: string)
    ensures |r| <= |s| && r == s[|s| - |r|..]
    ensures AllSpace(s[..|s| - |r|])
    ensures r == [] || !IsSpace(r[0])
  {
    if s != [] && IsSpace(s[0]) then
      var r := LStrip(s[1..]);
      assert s[..|s| - |r|] == [s[0]] + s[1..][..|s| - 1 - |r|];
      r
    else s
  }

  /** `s.rstrip()` */
  function RStrip(s: string): (r: string)
    ensures |r| <= |s| && r == s[..|r|]
    ensures AllSpace(s[|r|..])
    ensures r == [] || !IsSpace(r[|r| - 1])
  {
    if s != [] && IsSpace(s[|s| - 1]) then
      var t := s[..|s| - 1];
      var r := RStrip(t);
      assert s[|r|..] == t[|r|..] + [s[|s| - 1]];
      r
    else s
  }

  /** `s.strip()` */
  function Strip(s: string): (r: string)
    ensures Trimmed(r)
    ensures |r| <= |s|
  {
    var l := LStrip(s);
    var r := RStrip(l);
    assert r == [] || r[0] == l[0];
    r
  }

  /** `s.rstrip(c)` for a single character `c` */
  function RStripChar(s: string, c: char): (r: string)
    ensures |r| <= |s| && r == s[..|r|]
    ensures forall i :: |r| <= i < |s| ==> s[i] == c
    ensures r == [] || r[|r| - 1] != c
  {
    if s != [] && s[|s| - 1] == c then RStripChar(s[..|s| - 1], c) else s
  }

  lemma {:induction false} LStripPadded(w: string, x: string)
    requires AllSpace(w) && (x == [] || !IsSpace(x[0]))
    ensures LStrip(w + x) == x
    decreases |w|
  {
    if w != [] {
      assert (w + x)[1..] == w[1..] + x;
      LStripPadded(w[1..], x);
    }
  }

  lemma {:induction false} RStripPadded(x: string, w: string)
    requires AllSpace(w) && (x == [] || !IsSpace(x[|x| - 1]))
    ensures RStrip(x + w) == x
    decreases |w|
  {
    if w != [] {
      assert (x + w)[..|x + w| - 1] == x + w[..|w| - 1];
      RStripPadded(x, w[..|w| - 1]);
    } else {
      assert x + w == x;
    }
  }

  /** `strip()` removes exactly the whitespace padding around a trimmed core. */
  lemma StripPadded(w1: string, x: string, w2: string)
    requires AllSpace(w1) && AllSpace(w2) && Trimmed(x)
    ensures Strip(w1 + x + w2) == x
  {
    assert w1 + x + w2 == w1 + (x + w2);
    if x == [] {
      assert w1 + x + w2 == (w1 + w2) + [];
      assert AllSpace(w1 + w2);
      LStripPadded(w1 + w2, []);
    } else {
      LStripPadded(w1, x + w2);
      RStripPadded(x, w2);
    }
  }

  /** `strip()` leaves a trimmed string alone. */
  lemma StripTrimmed(x: string)
    requires Trimmed(x)
    ensures Strip(x) == x
  {
    StripPadded([], x, []);
    assert [] + x + [] == x;
  }

  /** The longest prefix of `s` without whitespace. */
  function TakeToken(s: string): (w: string)
    ensures |w| <= |s| && w == s[..|w|] && NoSpace(w)
    ensures |w| == |s| || IsSpace(s[|w|])
    ensures s != [] && !IsSpace(s[0]) ==> w != []
  {
    if s == [] || IsSpace(s[0]) then [] else [s[0]] + TakeToken(s[1..])
  }

  /** Pieces as `split()` produces them: non-empty, without whitespace. */
  predicate Tokens(ts: seq<string>) {
    forall k :: 0 <= k < |ts| ==> ts[k] != [] && NoSpace(ts[k])
  }

  lemma TokensCons(w: string, ts: seq<string>)
    requires w != [] && NoSpace(w) && Tokens(ts)
    ensures Tokens([w] + ts)
  {
    var r := [w] + ts;
    forall k | 0 <= k < |r| ensures r[k] != [] && NoSpace(r[k]) {
      if k > 0 { assert r[k] == ts[k - 1]; }
    }
  }

  /** `s.split()`: the maximal runs of non-whitespace, in order. */
  function Split(s: string): (r: seq<string>)
    ensures Tokens(r)
    ensures r == [] <==> AllSpace(s)
    decreases |s|
  {
    var t := LStrip(s);
    if t == [] then
      assert s[..|s| - |t|] == s;
      []
    else
      NotAllSpace(s, |s| - |t|);
      var w := TakeToken(t);
      var rest := Split(t[|w|..]);
      TokensCons(w, rest);
      [w] + rest
  }

  lemma NotAllSpace(s: string, i: nat)
    requires i < |s| && !IsSpace(s[i])
    ensures !AllSpace(s)
  {
  }

  /** `sep.join(xs)` */
  function Join(xs: seq<string>, sep: string): string {
    if |xs| == 0 then "" else if |xs| == 1 then xs[0] else xs[0] + sep + Join(xs[1..], sep)
  }

  lemma {:induction false} TokenOfPrefix(w: string, x: string)
    requires w != [] && NoSpace(w) && (x == [] || IsSpace(x[0]))
    ensures TakeToken(w + x) == w
    decreases |w|
  {
    if |w| > 1 {
      assert (w + x)[1..] == w[1..] + x;
      TokenOfPrefix(w[1..], x);
    } else {
      assert (w + x)[1..] == x;
    }
  }

  /** A leading token followed by whitespace (or nothing) is the first piece of `split()`. */
  lemma SplitLeadingToken(w: string, x: string)
    requires w != [] && NoSpace(w) && (x == [] || IsSpace(x[0]))
    ensures Split(w + x) == [w] + Split(x)
  {
    assert LStrip(w + x) == w + x;
    TokenOfPrefix(w, x);
    assert (w + x)[|w|..] == x;
  }

  /** Leading whitespace does not change `split()`. */
  lemma SplitLeadingSpace(c: char, x: string)
    requires IsSpace(c)
    ensures Split([c] + x) == Split(x)
  {
    assert ([c] + x)[1..] == x;
    assert LStrip([c] + x) == LStrip(x);
  }

  /** A single token splits to itself. */
  lemma SplitSingle(w: string)
    requires w != [] && NoSpace(w)
    ensures Split(w) == [w]
  {
    SplitLeadingToken(w, "");
    assert w + "" == w;
    assert Split("") == [];
  }

  /** A token followed by one space and more text is the first piece of `split()`. */
  lemma SplitTokenSpace(w: string, x: string)
    requires w != [] && NoSpace(w)
    ensures Split(w + " " + x) == [w] + Split(x)
  {
    assert w + " " + x == w + (" " + x);
    SplitLeadingToken(w, " " + x);
    SplitLeadingSpace(' ', x);
  }

  /** Splitting a single-space join of tokens gives the tokens back. */
  lemma {:induction false} SplitJoin(ts: seq<string>)
    requires Tokens(ts)
    ensures Split(Join(ts, " ")) == ts
    decreases |ts|
  {
    if |ts| == 0 {
      assert Split("") == [];
    } else if |ts| == 1 {
      SplitSingle(ts[0]);
    } else {
      var rest := Join(ts[1..], " ");
      AppendAssoc(ts[0], " ", rest);
      SplitTokenSpace(ts[0], rest);
      SplitJoin(ts[1..]);
      ConsTail(ts);
    }
  }

  /** The index of the first line break in `s`, or `|s|` when there is none. */
  function LineEnd(s: string): (i: nat)
    ensures i <= |s| && NoLineBreak(s[..i])
    ensures i == |s| || IsLineBreak(s[i])
  {
    if s == [] || IsLineBreak(s[0]) then 0 else 1 + LineEnd(s[1..])
  }

  /** `s.splitlines()`: the text between line breaks; no empty line after a final break. */
  function SplitLines(s: string): (r: seq<string>)
    ensures forall k :: 0 <= k < |r| ==> NoLineBreak(r[k])
    decreases |s|
  {
    if s == [] then []
    else
      var i := LineEnd(s);
      if i == |s| then [s]
      else
        var next := if s[i] == '\r' && i + 1 < |s| && s[i + 1] == '\n' then i + 2 else i + 1;
        [s[..i]] + SplitLines(s[next..])
  }

  /** Text without a line break is one line, unless it is empty. */
  lemma SplitLinesNoBreak(a: string)
    requires NoLineBreak(a)
    ensures SplitLines(a) == if a == [] then [] else [a]
  {
    if a != [] {
      LineEndOf(a, []);
      assert a + [] == a;
    }
  }

  /** A line ended by a break other than the `\r` of a `\r\n` pair is the first line, and
      the lines of the rest follow. */
  lemma SplitLinesBreak(a: string, c: char, b: string)
    requires NoLineBreak(a) && IsLineBreak(c)
    requires c != '\r' || b == [] || b[0] != '\n'
    ensures SplitLines(a + [c] + b) == [a] + SplitLines(b)
  {
    var s := a + [c] + b;
    LineEndOf(a, [c] + b);
    assert s == a + ([c] + b);
    assert s[..|a|] == a && s[|a|] == c;
    assert s[|a| + 1..] == b;
  }

  /** A line ended by `\r\n` is the first line, and the lines of the rest follow. */
  lemma SplitLinesCrLf(a: string, b: string)
    requires NoLineBreak(a)
    ensures SplitLines(a + "\r\n" + b) == [a] + SplitLines(b)
  {
    var s := a + "\r\n" + b;
    LineEndOf(a, "\r\n" + b);
    assert s == a + ("\r\n" + b);
    assert s[..|a|] == a && s[|a|] == '\r' && s[|a| + 1] == '\n';
    assert s[|a| + 2..] == b;
  }

  /** The first line break of `a + rest` is where `rest` starts when `rest` starts with
      one (or is empty) and `a` has none. */
  lemma {:induction false} LineEndOf(a: string, rest: string)
    requires NoLineBreak(a) && (rest == [] || IsLineBreak(rest[0]))
    ensures LineEnd(a + rest) == |a|
    decreases |a|
  {
    if a != [] {
      assert (a + rest)[1..] == a[1..] + rest;
      LineEndOf(a[1..], rest);
    }
  }

  /** The index of the first `sep` in `s`, or `|s|` when there is none. */
  function IndexOf(s: string, sep: char): (i: nat)
    ensures i <= |s| && sep !in s[..i]
    ensures i == |s| || s[i] == sep
  {
    if s == [] || s[0] == sep then 0 else 1 + IndexOf(s[1..], sep)
  }

  /** `s.split(sep)` for a one-character separator: always at least one piece. */
  function SplitOn(s: string, sep: char): (r: seq<string>)
    ensures |r| >= 1
    ensures forall k :: 0 <= k < |r| ==> sep !in r[k]
    decreases |s|
  {
    var i := IndexOf(s, sep);
    if i == |s| then
      assert s[..i] == s;
      [s]
    else [s[..i]] + SplitOn(s[i + 1..], sep)
  }

  /** Joining the pieces of `s.split(sep)` with `sep` gives `s` back. */
  lemma {:induction false} JoinSplitOn(s: string, sep: char)
    ensures Join(SplitOn(s, sep), [sep]) == s
    decreases |s|
  {
    var i := IndexOf(s, sep);
    if i == |s| {
      assert s[..i] == s;
    } else {
      var rest := SplitOn(s[i + 1..], sep);
      JoinSplitOn(s[i + 1..], sep);
      assert SplitOn(s, sep) == [s[..i]] + rest;
      assert (SplitOn(s, sep))[1..] == rest;
      assert s == s[..i] + [sep] + s[i + 1..];
    }
  }

  /** `s.replace(pat, '')`: drop the leftmost non-overlapping occurrences of `pat`. */
  function RemoveAll(s: string, pat: string): (r: string)
    requires pat != []
    ensures |r| <= |s|
    ensures |pat| == 1 ==> pat[0] !in r
    ensures s != [] && s[0] != pat[0] ==> r != [] && r[0] == s[0]
    decreases |s|
  {
    if |s| < |pat| then
      assert |pat| == 1 ==> s == [];
      s
    else if s[..|pat|] == pat then RemoveAll(s[|pat|..], pat)
    else [s[0]] + RemoveAll(s[1..], pat)
  }

  /** No two adjacent characters of `s` are both `c`. */
  predicate NoDouble(s: string, c: char) {
    forall i :: 0 <= i < |s| - 1 ==> !(s[i] == c && s[i + 1] == c)
  }

  /** After `replace(cc, '')` no two adjacent `c` remain. */
  lemma {:induction false} RemoveAllNoDouble(s: string, c: char)
    ensures NoDouble(RemoveAll(s, [c, c]), c)
    decreases |s|
  {
    var pat := [c, c];
    if |s| < 2 {
    } else if s[..2] == pat {
      RemoveAllNoDouble(s[2..], c);
    } else {
      var tail := RemoveAll(s[1..], pat);
      RemoveAllNoDouble(s[1..], c);
      var r := [s[0]] + tail;
      assert RemoveAll(s, pat) == r;
      if s[0] == c {
        assert s[1] != c;
        assert tail != [] && tail[0] == s[1];
      }
      forall i | 0 <= i < |r| - 1 ensures !(r[i] == c && r[i + 1] == c) {
        if i > 0 {
          assert r[i] == tail[i - 1] && r[i + 1] == tail[i];
        }
      }
    }
  }

  /** Text with no character in common with the pattern's first one passes through `replace` unchanged. */
  lemma {:induction false} RemoveAllPrefix(d: string, s: string, pat: string)
    requires pat != [] && pat[0] !in d
    ensures RemoveAll(d + s, pat) == d + RemoveAll(s, pat)
    decreases |d|
  {
    if d != [] {
      assert (d + s)[0] == d[0];
      if |d + s| >= |pat| {
        assert (d + s)[..|pat|][0] == d[0];
        assert (d + s)[1..] == d[1..] + s;
      } else {
        assert |s| < |pat|;
      }
      RemoveAllPrefix(d[1..], s, pat);
      assert d == [d[0]] + d[1..];
    } else {
      assert d + s == s;
    }
  }

  function DigitChar(d: nat): (c: char)
    requires d < 10
    ensures IsDigit(c)
  {
    ('0' as int + d) as char
  }

  /** `str(n)` for `n >= 0`: decimal digits, no leading zero. */
  function NatToDecimal(n: nat): (r: string)
    ensures r != [] && AllDigits(r)
    ensures r[0] == '0' ==> n == 0
  {
    if n < 10 then [DigitChar(n)] else NatToDecimal(n / 10) + [DigitChar(n % 10)]
  }

  /** `str(i)` for any integer. */
  function IntToDecimal(i: int): (r: string)
    ensures r != []
    ensures i >= 0 <==> r[0] != '-'
  {
    if i < 0 then "-" + NatToDecimal(-i) else NatToDecimal(i)
  }

  /** `int(d)` for a string of ASCII decimal digits (empty gives 0). */
  function DecimalValue(d: string): nat
    requires AllDigits(d)
  {
    if d == [] then 0 else DecimalValue(d[..|d| - 1]) * 10 + (d[|d| - 1] as int - '0' as int)
  }

  /** `int(str(n)) == n` */
  lemma {:induction false} DecimalRoundTrip(n: nat)
    ensures DecimalValue(NatToDecimal(n)) == n
  {
    if n >= 10 {
      var r := NatToDecimal(n);
      DecimalRoundTrip(n / 10);
      assert r[..|r| - 1] == NatToDecimal(n / 10);
    }
  }
}
