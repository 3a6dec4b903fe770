/** Literal normalisation `cpp_value_to_go` (test_cpp/cpp2go.py:61-73): a C/C++
    initializer token becomes the text of a Go literal. */
module Literals {
  import opened PyErrors
  import opened PyText
  import opened SeqUtil

  /** `re.match(r"^'.'$", v)` on a stripped token: a quote, one character other than a
      newline, a quote. (`$` could also match before a final newline, but a stripped
      token has none.) */
  predicate IsCharLiteral(v: string) {
    |v| == 3 && v[0] == '\'' && v[1] != '\n' && v[2] == '\''
  }

  /** Every `LL` removed, then every `U` removed (line 72). */
  function DropSuffixes(v: string): (r: string)
    ensures 'U' !in r && |r| <= |v|
  {
    RemoveAll(RemoveAll(v, "LL"), "U")
  }

  /** `cpp_value_to_go(val)`. A character literal becomes the decimal code point of its
      character; the only escape it can hold is a lone backslash, which the
      `unicode_escape` codec rejects. Anything else has its integer suffixes dropped. */
  function CppValueToGo(val: string): (r: Result<string>)
    ensures r.Err? <==> IsCharLiteral(Strip(val)) && Strip(val)[1] == '\\'
    ensures r.Err? ==> r.error == UnicodeDecodeError
    ensures r.Ok? ==> 'U' !in r.value
    ensures r.Ok? && IsCharLiteral(Strip(val)) ==>
      AllDigits(r.value) && DecimalValue(r.value) == Strip(val)[1] as int
  {
    var v := Strip(val);
    if IsCharLiteral(v) then
      if v[1] == '\\' then
        Err(UnicodeDecodeError)
      else
        Ok(Ordinal(v[1]))
    else
      Ok(DropSuffixes(v))
  }

  /** `str(ord(c))`: the decimal text of a character's code point. */
  function Ordinal(c: char): (r: string)
    ensures AllDigits(r) && DecimalValue(r) == c as int
    ensures 'U' !in r
  {
    DecimalRoundTrip(c as int);
    NoLetterInDigits(NatToDecimal(c as int), 'U');
    NatToDecimal(c as int)
  }

  lemma NoLetterInDigits(d: string, c: char)
    requires AllDigits(d) && !IsDigit(c)
    ensures c !in d
  {
    forall i | 0 <= i < |d| ensures d[i] != c {
      assert IsDigit(d[i]);
    }
  }

  /** Text without the pattern's first character is left alone by `replace`. */
  lemma RemoveAllAbsent(s: string, pat: string)
    requires pat != [] && pat[0] !in s
    ensures RemoveAll(s, pat) == s
  {
    RemoveAllPrefix(s, [], pat);
    AppendEmpty(s);
  }

  /** A token that strips to a quoted character other than a backslash or a newline
      becomes the decimal text of its code point: `'A'` gives `65`. */
  lemma CharLiteralOrdinal(val: string, c: char)
    requires Strip(val) == ['\'', c, '\''] && c != '\\' && c != '\n'
    ensures CppValueToGo(val) == Ok(NatToDecimal(c as int))
  {
    assert IsCharLiteral(Strip(val)) && Strip(val)[1] == c;
  }

  /** `'A'` becomes `65`. */
  lemma CharLiteralExample()
    ensures CppValueToGo("'A'") == Ok("65")
  {
    StripTrimmed("'A'");
    CharLiteralOrdinal("'A'", 'A');
    assert 'A' as int == 65;
    assert DigitChar(6) == '6' && DigitChar(5) == '5';
    assert NatToDecimal(6) == ['6'];
    assert NatToDecimal(65) == NatToDecimal(6) + [DigitChar(5)];
    assert ['6'] + ['5'] == "65";
  }

  /** The quoted lone backslash, with any surrounding whitespace, is rejected. */
  lemma BackslashLiteralFails(w1: string, w2: string)
    requires AllSpace(w1) && AllSpace(w2)
    ensures CppValueToGo(w1 + "'\\'" + w2) == Err(UnicodeDecodeError)
  {
    var v := w1 + "'\\'" + w2;
    StripPadded(w1, "'\\'", w2);
    assert IsCharLiteral(Strip(v)) && Strip(v)[1] == '\\';
  }

  /** A two-character escape such as `'\0'` or `'\n'` is not a character literal to the
      pattern (the pattern needs exactly one character between the quotes, three in all;
      an escape has two, four in all), so it passes through as written. */
  lemma EscapeLiteralUnchanged(x: char)
    requires x != 'L' && x != 'U'
    ensures CppValueToGo(['\'', '\\', x, '\'']) == Ok(['\'', '\\', x, '\''])
  {
    PlainTrimmed(['\'', '\\', x, '\'']);
    EscapeHasNoSuffix(x);
  }

  lemma EscapeHasNoSuffix(x: char)
    requires x != 'L' && x != 'U'
    ensures DropSuffixes(['\'', '\\', x, '\'']) == ['\'', '\\', x, '\'']
  {
    var v := ['\'', '\\', x, '\''];
    assert 'L' !in v && 'U' !in v by {
      forall i | 0 <= i < 4 ensures v[i] != 'L' && v[i] != 'U' {
        if i == 2 { assert v[i] == x; } else { assert v[i] == '\'' || v[i] == '\\'; }
      }
    }
    RemoveAllAbsent(v, "LL");
    RemoveAllAbsent(v, "U");
  }

  /** A token that does not strip to a character literal has only its suffix letters
      removed. */
  lemma PlainToken(val: string, v: string)
    requires Strip(val) == v && !IsCharLiteral(v)
    ensures CppValueToGo(val) == Ok(DropSuffixes(v))
  {
  }

  /** The same for a token without surrounding whitespace. */
  lemma PlainTrimmed(v: string)
    requires Trimmed(v) && !IsCharLiteral(v)
    ensures CppValueToGo(v) == Ok(DropSuffixes(v))
  {
    StripTrimmed(v);
    PlainToken(v, v);
  }

  /** Text the normalisation leaves alone: trimmed, not a quoted character, and without
      the suffix letters. */
  predicate Stable(v: string) {
    Trimmed(v) && !IsCharLiteral(v) && 'L' !in v && 'U' !in v
  }

  /** A stable text is a fixed point: `-5`, `3.14` and every decimal numeral. */
  lemma StableFixed(v: string)
    requires Stable(v)
    ensures CppValueToGo(v) == Ok(v)
  {
    PlainTrimmed(v);
    RemoveAllAbsent(v, "LL");
    RemoveAllAbsent(v, "U");
  }

  /** Decimal digits followed by any of the suffixes `U`, `LL`, `ULL`, `LLU` (or none),
      with surrounding whitespace, become the digits alone: `1234567890LL` gives
      `1234567890`, `42U` gives `42`. */
  lemma IntegerSuffixDropped(w1: string, d: string, sfx: string, w2: string)
    requires AllSpace(w1) && AllSpace(w2) && d != [] && AllDigits(d)
    requires sfx in {"", "U", "LL", "ULL", "LLU"}
    ensures CppValueToGo(w1 + d + sfx + w2) == Ok(d)
  {
    var v := d + sfx;
    assert v[0] == d[0];
    assert !IsSpace(v[|v| - 1]) by {
      if sfx == [] {
        assert v[|v| - 1] == d[|d| - 1];
      } else {
        assert v[|v| - 1] == sfx[|sfx| - 1];
      }
    }
    AppendAssoc(w1, d, sfx);
    StripPadded(w1, v, w2);
    PlainToken(w1 + v + w2, v);
    DigitsSuffixDropped(d, sfx);
  }

  /** Removing `LL` and then `U` from digits with one of the recognised suffixes leaves
      the digits. */
  lemma DigitsSuffixDropped(d: string, sfx: string)
    requires AllDigits(d)
    requires sfx in {"", "U", "LL", "ULL", "LLU"}
    ensures DropSuffixes(d + sfx) == d
  {
    NoLetterInDigits(d, 'L');
    NoLetterInDigits(d, 'U');
    RemoveAllPrefix(d, sfx, "LL");
    var s1 := RemoveAll(sfx, "LL");
    SuffixesAfterLL(sfx);
    RemoveAllPrefix(d, s1, "U");
    assert RemoveAll(s1, "U") == "";
    AppendEmpty(d);
  }

  lemma SuffixesAfterLL(sfx: string)
    requires sfx in {"", "U", "LL", "ULL", "LLU"}
    ensures RemoveAll(sfx, "LL") == "" || RemoveAll(sfx, "LL") == "U"
  {
    if sfx == "ULL" {
      assert RemoveAll(sfx, "LL") == "U" + RemoveAll("LL", "LL");
    } else if sfx == "LLU" {
      assert RemoveAll(sfx, "LL") == RemoveAll("U", "LL");
    }
  }

  /** Decimal digits are a fixed point, so the output for an integer or a character
      literal is unchanged by a second normalisation. */
  lemma DigitsFixed(d: string)
    requires d != [] && AllDigits(d)
    ensures CppValueToGo(d) == Ok(d)
  {
    IntegerSuffixDropped("", d, "", "");
    assert "" + d + "" + "" == d;
  }

  /** `replace('LL', '')` leaves `LUL` alone. */
  lemma LulFirstPass()
    ensures RemoveAll("LUL", "LL") == "LUL"
  {
    var lul: string := ['L', 'U', 'L'];
    assert lul[..2][1] == 'U';
    assert lul[1..] == ['U', 'L'];
    RemoveAllPrefix(['U'], ['L'], "LL");
    assert ['U'] + ['L'] == ['U', 'L'];
  }

  /** `replace('U', '')` turns `LUL` into `LL`. */
  lemma LulSecondPass()
    ensures RemoveAll("LUL", "U") == "LL"
  {
    var lul: string := ['L', 'U', 'L'];
    RemoveAllPrefix(['L'], ['U', 'L'], "U");
    assert ['L'] + ['U', 'L'] == lul;
    assert ['U', 'L'][..1] == "U" && ['U', 'L'][1..] == ['L'];
    RemoveAllAbsent(['L'], "U");
    assert ['L'] + ['L'] == "LL";
  }

  /** Both passes remove all of `LL`. */
  lemma LlDropped()
    ensures DropSuffixes("LL") == ""
  {
    assert "LL"[..2] == "LL" && "LL"[2..] == "";
    assert RemoveAll("LL", "LL") == "";
  }

  /** The normalisation is not idempotent: `LUL` becomes `LL`, which becomes empty. */
  lemma NotIdempotent()
    ensures CppValueToGo("LUL") == Ok("LL")
    ensures CppValueToGo("LL") == Ok("")
  {
    PlainTrimmed("LUL");
    LulFirstPass();
    LulSecondPass();
    PlainTrimmed("LL");
    LlDropped();
  }
}
