/** Array-type detection in the test-harness generator: `is_array_field` and
    `array_length` (test_cpp/cpp2go.py:96-101), the patterns `.*\[\d+\]$` and
    `.*\[(\d+)\]$` anchored at the start by `re.match`. */
module ArrayTypes {
  import opened PyErrors
  import opened PyText

  /** The text up to where `$` can match: the end, or just before one final newline. */
  function MatchEnd(t: string): (c: string)
    ensures c == t || (t != [] && t[|t| - 1] == '\n' && c == t[..|t| - 1])
  {
    if t != [] && t[|t| - 1] == '\n' then t[..|t| - 1] else t
  }

  /** The longest run of ASCII digits at the end of `s`. */
  function DigitSuffix(s: string): (d: string)
    ensures |d| <= |s| && d == s[|s| - |d|..] && AllDigits(d)
    ensures |d| == |s| || !IsDigit(s[|s| - |d| - 1])
  {
    if s != [] && IsDigit(s[|s| - 1]) then
      var d := DigitSuffix(s[..|s| - 1]);
      assert s[|s| - |d| - 1..] == s[..|s| - 1][|s| - 1 - |d|..] + [s[|s| - 1]];
      d + [s[|s| - 1]]
    else []
  }

  /** The digits group of a match of `.*\[(\d+)\]$`, when the text matches: `.` is any
      character but a newline, and the greedy `.*` leaves exactly the digit run that
      closes the text between `[` and `]`. */
  function ArrayDigits(t: string): (r: Option<string>)
    ensures r.Some? ==> r.value != [] && AllDigits(r.value)
    ensures r.Some? ==>
      var c := MatchEnd(t);
      var p := |c| - |r.value| - 2;
      0 <= p && c == c[..p] + "[" + r.value + "]" && '\n' !in c[..p]
  {
    BracketedDigits(MatchEnd(t))
  }

  /** The digits of `c` when it is `PREFIX[DIGITS]` with no newline in the prefix. */
  function BracketedDigits(c: string): (r: Option<string>)
    ensures r.Some? ==> r.value != [] && AllDigits(r.value)
    ensures r.Some? ==>
      var p := |c| - |r.value| - 2;
      0 <= p && c == c[..p] + "[" + r.value + "]" && '\n' !in c[..p]
  {
    if c == [] || c[|c| - 1] != ']' then None
    else
      var body := c[..|c| - 1];
      var d := DigitSuffix(body);
      var p := |body| - |d|;
      if d != [] && p >= 1 && body[p - 1] == '[' && '\n' !in body[..p - 1] then
        assert body[..p - 1] == c[..p - 1];
        assert c == body[..p - 1] + "[" + d + "]" by {
          assert body == body[..p - 1] + [body[p - 1]] + body[p..];
          assert c == body + [c[|c| - 1]];
        }
        Some(d)
      else None
  }

  /** `is_array_field(field_type)` as a truth value. */
  predicate IsArrayField(t: string) {
    ArrayDigits(t).Some?
  }

  /** `array_length(field_type)`: `int` of the digits group, 0 when there is no match. */
  function ArrayLength(t: string): (n: nat)
    ensures !IsArrayField(t) ==> n == 0
  {
    match ArrayDigits(t)
    case Some(d) => DecimalValue(d)
    case None => 0
  }

  /** Digits behind a text that does not end in a digit are its whole digit suffix. */
  lemma {:induction false} DigitSuffixOf(x: string, d: string)
    requires AllDigits(d)
    requires x == [] || !IsDigit(x[|x| - 1])
    ensures DigitSuffix(x + d) == d
    decreases |d|
  {
    if d == [] {
      assert x + d == x;
    } else {
      var d' := d[..|d| - 1];
      var last := d[|d| - 1];
      assert d == d' + [last];
      assert x + d == (x + d') + [last];
      DigitSuffixOf(x, d');
      DigitSuffixSnoc(x + d', last);
    }
  }

  /** A digit at the end extends the digit suffix by itself. */
  lemma DigitSuffixSnoc(s: string, ch: char)
    requires IsDigit(ch)
    ensures DigitSuffix(s + [ch]) == DigitSuffix(s) + [ch]
  {
    assert (s + [ch])[..|s|] == s;
  }

  /** Every `PREFIX[DIGITS]` with no newline in the prefix matches, with or without one
      final newline, and the group is exactly the digits. */
  lemma ArrayDigitsOf(p: string, d: string)
    requires '\n' !in p && d != [] && AllDigits(d)
    ensures ArrayDigits(p + "[" + d + "]") == Some(d)
    ensures ArrayDigits(p + "[" + d + "]" + "\n") == Some(d)
  {
    var c := p + "[" + d + "]";
    BracketedDigitsOf(p, d);
    assert MatchEnd(c) == c;
    assert (c + "\n")[..|c + "\n"| - 1] == c;
    assert MatchEnd(c + "\n") == c;
  }

  lemma BracketedDigitsOf(p: string, d: string)
    requires '\n' !in p && d != [] && AllDigits(d)
    ensures BracketedDigits(p + "[" + d + "]") == Some(d)
  {
    var c := p + "[" + d + "]";
    var x := p + "[";
    assert c[..|c| - 1] == x + d;
    DigitSuffixOf(x, d);
    assert (x + d)[..|x + d| - |d|] == x;
  }

  /** An array type written with the decimal text of `n` has length `n`. */
  lemma ArrayLengthOf(p: string, n: nat)
    requires '\n' !in p
    ensures IsArrayField(p + "[" + NatToDecimal(n) + "]")
    ensures ArrayLength(p + "[" + NatToDecimal(n) + "]") == n
  {
    ArrayDigitsOf(p, NatToDecimal(n));
    DecimalRoundTrip(n);
  }

  /** A type token without `]`, which is every C type name, is never an array: in C the
      dimension follows the field name, so the check looks at the wrong token. */
  lemma ScalarType(t: string)
    requires ']' !in t
    ensures !IsArrayField(t) && ArrayLength(t) == 0
  {
    var c := MatchEnd(t);
    if c != [] {
      assert c[|c| - 1] == t[|c| - 1];
    }
  }
}
