# struc-gen C-style packing: generator model

This project models two parts of the struc-gen C-style-packing repository in Dafny.

The first is the Python helper `test_cpp/cpp2go.py`, which reads C/C++ struct
declarations and initializers. From them it writes two things:

- a Go file of struct declarations, each tagged with a
  `//go:generate struc-gen -little -pack N` directive;
- a Go interoperability test, which decodes the C++ binary variable by variable and
  compares every field with the value of its initializer.

The second is the bit-position `Context` of the Go code generator
(`cmd/struc-gen/internal/structag/context.go`). It accumulates pending bits, made of
a static count plus an optional dynamic expression. `Flush` emits the code that moves
the byte offset `m` to the next whole byte and pads it to the `Pack` boundary.

The modules follow the program:

- `PyErrors`: Python exceptions as `Result`.
- `PyText`: the `str` operations the script uses.
- `TypeMap`: the type table.
- `StructEmitter`: `cpp_to_go_structs`.
- `Literals`: `cpp_value_to_go`.
- `ArrayTypes`: `is_array_field` and `array_length`.
- `StructColumns`: `get_struct_fields` and `get_struct_types`.
- `Initializers`: `parse_initializations`.
- `Checks`: the `val_idx` field-check loop.
- `TestHarness`: `generate_go_test`.
- `Structag`: `Context`.

The script's loops are methods. Each is proved equal to a specification function, and
the properties are proved about those functions.

What the model establishes:

- The emitted struct lines are laid out as the source intends.
- Literal normalisation has fixed points, and it is not idempotent.
- The initializer table keeps the last initializer of each type.
- Scalar fields are checked, in order, against their normalised values.
- A completed test file declares `n` once when there is a variable, advances the offset
  once per variable and ends with a closing brace.
- For non-negative pending bits, the flushed code advances `m` by `ceil(bits/8)` and,
  when `Pack > 0`, lands on a multiple of `Pack`.

Where the documented behaviour of the repository and the code disagree, the model follows the
code:

- **Escape literals.** A two-character escape such as `'\0'` or `'\n'` is not matched
  by the one-character pattern `^'.'$` at `test_cpp/cpp2go.py:64`. It passes through
  unchanged (`Literals.EscapeLiteralUnchanged`) instead of becoming `0` or `10`. The
  only escape the pattern admits is a lone backslash, whose `unicode_escape` decoding
  raises (`Literals.BackslashLiteralFails`).
- **One-line bodies.** A non-blank struct body written on one line yields exactly one
  field line, because fields are found line by line (`StructEmitter.OneLineBodyOneField`).
- **Initializer types.** `parse_initializations` does not check that the initializer's
  type names a parsed struct. Its table is keyed by the declared type name, and a later
  initializer of the same type replaces an earlier one
  (`Initializers.LastInitializerWins`).
- **Array dimensions.** The array test in the harness looks at the type token. In C the
  dimension follows the field name, so a C type never counts as an array there
  (`ArrayTypes.ScalarType`). The struct emitter does find the dimension, on the name
  token.
- **Three-token lines.** A field line of three tokens is read by the harness as type =
  first token, field = second token. The emitter reads the same line as a two-word type
  and a name (`StructColumns.ThreeTokenLine`).

## Model

| member | source | states |
|---|---|---|
| TypeMap.GoType | test_cpp/cpp2go.py:50 | the Go type is the text itself or one of the Go primitive names; text that is not a table key passes through unchanged |
| TypeMap.FixedWidthEntries | test_cpp/cpp2go.py:5-8 | the 8- and 16-bit `<stdint.h>` names map to the Go integer of the same width and sign |
| TypeMap.WideFixedWidthEntries | test_cpp/cpp2go.py:9-12 | the 32- and 64-bit `<stdint.h>` names map to the Go integer of the same width and sign |
| TypeMap.CharShortIntEntries | test_cpp/cpp2go.py:13-18 | `char`/`unsigned char` map to `byte`, `short`/`unsigned short` to `int16`/`uint16`, `int`/`unsigned int` to `int`/`uint` |
| TypeMap.LongEntries | test_cpp/cpp2go.py:19-22 | the `long` family, including the three-word key, maps to `int64`/`uint64` |
| TypeMap.FloatBoolEntries | test_cpp/cpp2go.py:23-25 | `float`, `double`, `bool` map to `float32`, `float64`, `bool` |
| TypeMap.GoTypeIdempotent | test_cpp/cpp2go.py:4-26 | mapping a mapped type again changes nothing |
| StructEmitter.CleanLine | test_cpp/cpp2go.py:39 | the cleaned line is empty or starts with a non-space and does not end in `;` |
| StructEmitter.SplitField | test_cpp/cpp2go.py:42-49 | the name is the last token; the type is the first two tokens joined by a space for three tokens, else the first token |
| StructEmitter.SplitFieldLossless | test_cpp/cpp2go.py:42-49 | `type + " " + name` reproduces the line's tokens exactly when the line has two or three tokens |
| StructEmitter.LossyMany | test_cpp/cpp2go.py:48-49 | with four or more tokens the middle words are lost |
| StructEmitter.ArrayMatch | test_cpp/cpp2go.py:52-55 | a match is a non-empty word and non-empty digits such that the name starts with `word[digits]` |
| StructEmitter.ArrayMatchComplete | test_cpp/cpp2go.py:52-55 | every name starting with `word[digits]` matches, with exactly that word and those digits |
| StructEmitter.FieldTextTwoTokens | test_cpp/cpp2go.py:50-58 | a two-token field `t v` becomes `\tword [digits]GoType(t)` when `v` starts `word[digits]`, else `\tv GoType(t)` |
| StructEmitter.FieldTextFallback | test_cpp/cpp2go.py:48-58 | with four or more tokens the Go line uses the last token as name and the mapped first token as type |
| StructEmitter.FieldOf | test_cpp/cpp2go.py:50-58 | the Go field line starts with a tab and ends with the mapped type; for an array name `word[digits]` the bracketed digits come right before the type |
| StructEmitter.FieldOfCases | test_cpp/cpp2go.py:50-58 | an array name `word[digits]` gives `\tword [digits]` and the mapped type; any other name `v` gives `\tv`, a space and the mapped type |
| StructEmitter.FieldLineOf | test_cpp/cpp2go.py:38-58 | a body line yields at most one field line, and none exactly when it is blank after cleaning |
| StructEmitter.FieldLineAt | test_cpp/cpp2go.py:38-58 | every non-blank body line has its field line at the position counting the non-blank lines before it; blank lines add nothing |
| StructEmitter.OneLineBodyOneField | test_cpp/cpp2go.py:38-41 | a non-blank body with no line break yields exactly one field line |
| StructEmitter.StructBlockLayout | test_cpp/cpp2go.py:36-59 | a struct block is the directive with the pack value, the type header, the field lines in body order, `}` and an empty line |
| StructEmitter.StructBlockFrame | test_cpp/cpp2go.py:36-37 | a block has four lines besides its field lines: directive, header, `}` and the empty line |
| StructEmitter.StructBlock | test_cpp/cpp2go.py:35-59 | the block for one struct: directive, type header, the field lines of the body lines, `}` and an empty line (its layout is stated by `StructBlockLayout` and `StructBlockFrame`) |
| StructEmitter.Directive | test_cpp/cpp2go.py:36 | the `struc-gen` directive prefix followed by the pack value, which reads back from the text when non-negative |
| StructEmitter.DefaultDirective | test_cpp/cpp2go.py:3-36 | the default `pack=2` gives `-pack 2` |
| StructEmitter.GoStructsFile | test_cpp/cpp2go.py:34-59 | the file opens with the package clause and an empty line and has at least four lines per struct |
| StructEmitter.CppToGoStructs | test_cpp/cpp2go.py:3-59 | the written lines are the package clause and the struct blocks in scan order |
| StructEmitter.EmitField | test_cpp/cpp2go.py:42-58 | the loop body writes the Go field line of the cleaned line |
| Literals.DropSuffixes | test_cpp/cpp2go.py:72 | no `U` is left and the text never grows |
| Literals.CppValueToGo | test_cpp/cpp2go.py:61-73 | the result is an error exactly for a quoted lone backslash (a decode error); otherwise it has no `U`, and a quoted character becomes the decimal digits of its code point |
| Literals.IsCharLiteral | test_cpp/cpp2go.py:64 | `^'.'$` on a stripped token: a quote, one character other than a newline, a quote (used by `CharLiteralOrdinal` and `EscapeLiteralUnchanged`) |
| Literals.Ordinal | test_cpp/cpp2go.py:71 | `str(ord(c))` is all digits, with no `U`, and its decimal value is the code point |
| Literals.CharLiteralOrdinal | test_cpp/cpp2go.py:64-71 | a token stripping to a quoted plain character becomes the decimal text of its code point |
| Literals.CharLiteralExample | test_cpp/cpp2go.py:64-71 | `'A'` becomes `65` |
| Literals.BackslashLiteralFails | test_cpp/cpp2go.py:68-70 | the quoted lone backslash, with any padding, raises the decode error |
| Literals.EscapeLiteralUnchanged | test_cpp/cpp2go.py:64 | a two-character escape such as `'\0'` passes through unchanged |
| Literals.PlainToken | test_cpp/cpp2go.py:72-73 | a token that is not a character literal is stripped and has its suffix letters dropped |
| Literals.StableFixed | test_cpp/cpp2go.py:62-73 | trimmed text without a quoted character or suffix letters is a fixed point |
| Literals.IntegerSuffixDropped | test_cpp/cpp2go.py:62-73 | digits with suffix none, `U`, `LL`, `ULL` or `LLU`, padded with whitespace, become the digits |
| Literals.DigitsSuffixDropped | test_cpp/cpp2go.py:72 | removing `LL` then `U` from digits with a recognised suffix leaves the digits |
| Literals.DigitsFixed | test_cpp/cpp2go.py:62-73 | decimal digits are a fixed point |
| Literals.NotIdempotent | test_cpp/cpp2go.py:72 | `LUL` becomes `LL`, which becomes empty: normalising twice differs from once |
| ArrayTypes.MatchEnd | test_cpp/cpp2go.py:97 | `$` matches at the end or just before one final newline |
| ArrayTypes.ArrayDigits | test_cpp/cpp2go.py:100 | a match gives non-empty digits with the text being `PREFIX[DIGITS]`, the prefix free of newlines |
| ArrayTypes.IsArrayField | test_cpp/cpp2go.py:96-97 | `is_array_field` holds exactly when the `.*[digits]$` match succeeds (its consequences are stated by `ArrayDigitsOf` and `ScalarType`) |
| ArrayTypes.ArrayLength | test_cpp/cpp2go.py:99-101 | a type that is not an array has length 0 |
| ArrayTypes.ArrayDigitsOf | test_cpp/cpp2go.py:96-101 | every newline-free `PREFIX[DIGITS]`, with or without a final newline, matches with exactly those digits |
| ArrayTypes.ArrayLengthOf | test_cpp/cpp2go.py:96-101 | a type written `PREFIX[n]` is an array of length `n` |
| ArrayTypes.ScalarType | test_cpp/cpp2go.py:96-101 | a type token without `]` is never an array and has length 0 |
| StructColumns.KeepNonBlank | test_cpp/cpp2go.py:87 | a line is kept, as itself, exactly when it does not strip to empty |
| StructColumns.Pick | test_cpp/cpp2go.py:87 | `parts[col]` exists exactly when `col` is in range, otherwise `IndexError` |
| StructColumns.ColumnOf | test_cpp/cpp2go.py:87 | a column has one entry per kept line; its only failure is `IndexError` |
| StructColumns.StructColumn | test_cpp/cpp2go.py:84-94 | the column of the first struct of that name; no such struct gives the empty list; failures are `IndexError` |
| StructColumns.StructColumnFirst | test_cpp/cpp2go.py:84-94 | when struct `i` is the first of that name, the column is read from struct `i`'s body lines |
| StructColumns.StructFields | test_cpp/cpp2go.py:84-88 | `get_struct_fields`: the second tokens; no struct of that name gives the empty list; failures are `IndexError` |
| StructColumns.StructTypes | test_cpp/cpp2go.py:90-94 | `get_struct_types`: the first tokens; no struct of that name gives the empty list; failures are `IndexError` |
| StructColumns.StructNames | test_cpp/cpp2go.py:131 | the names of the scanned structs, in order |
| StructColumns.ColumnsAgree | test_cpp/cpp2go.py:84-94 | when the field column can be read so can the type column; entry `i` of each is the second and first token of the same line |
| StructColumns.StructColumnsAgree | test_cpp/cpp2go.py:84-94 | the same for the first struct of a name: same length |
| StructColumns.ThreeTokenLine | test_cpp/cpp2go.py:87-93 | a three-token line gives type = first token and field = second token, while the emitter makes a two-word type |
| StructColumns.BareSemicolonLine | test_cpp/cpp2go.py:87 | a lone `;` line raises `IndexError` in the columns but is skipped by the emitter |
| Initializers.NormalizeAll | test_cpp/cpp2go.py:80 | every value normalised in order; fails exactly when some value fails, with the decode error |
| Initializers.ValueList | test_cpp/cpp2go.py:80 | one value per comma-separated piece; failures are the decode error |
| Initializers.Table | test_cpp/cpp2go.py:78-81 | the table fails exactly when some initializer's values fail, with that error |
| Initializers.InitTable | test_cpp/cpp2go.py:75-82 | the table fails exactly when some initializer's values fail to normalise |
| Initializers.TableKeys | test_cpp/cpp2go.py:78-81 | the keys are exactly the initializers' type names |
| Initializers.LastInitializerWins | test_cpp/cpp2go.py:79-81 | a type's entry is the values of its last initializer |
| Initializers.ParseInitializations | test_cpp/cpp2go.py:75-82 | the loop builds the table |
| Initializers.EmptyBracesOneValue | test_cpp/cpp2go.py:80 | empty braces give one empty value |
| PyErrors.MapResult | test_cpp/cpp2go.py:80 | a comprehension maps every element in order; it fails exactly when some element fails, with the first failure's error |
| PyText.Strip | test_cpp/cpp2go.py:39 | `strip()` leaves no whitespace at either end and never grows |
| PyText.StripPadded | test_cpp/cpp2go.py:39 | `strip()` removes exactly the whitespace padding around a trimmed text |
| PyText.RStripChar | test_cpp/cpp2go.py:39 | `rstrip(';')` removes exactly the trailing run of `;` |
| PyText.Split | test_cpp/cpp2go.py:42 | `split()` gives non-empty whitespace-free tokens, none exactly when the text is all whitespace |
| PyText.SplitJoin | test_cpp/cpp2go.py:42 | splitting a single-space join of tokens gives the tokens back |
| PyText.SplitLines | test_cpp/cpp2go.py:38 | no piece of `splitlines()` holds a line break |
| PyText.SplitLinesNoBreak | test_cpp/cpp2go.py:38 | text without a line break splits into itself, or into nothing when empty |
| PyText.SplitLinesBreak | test_cpp/cpp2go.py:38 | text up to the first line break is the first piece and splitting goes on after the break |
| PyText.SplitLinesCrLf | test_cpp/cpp2go.py:38 | `\r\n` is a single break: the text before it is the first piece and splitting goes on after it |
| PyText.SplitOn | test_cpp/cpp2go.py:80 | `split(',')` gives at least one piece and none holds a comma |
| PyText.JoinSplitOn | test_cpp/cpp2go.py:80 | joining the pieces of `split(',')` with commas gives the text back |
| PyText.RemoveAll | test_cpp/cpp2go.py:72 | `replace(p, '')` never grows the text and leaves no one-character pattern |
| PyText.RemoveAllNoDouble | test_cpp/cpp2go.py:72 | after `replace('LL', '')` no two adjacent `L` remain |
| PyText.NatToDecimal | test_cpp/cpp2go.py:71 | `str(n)` is non-empty decimal digits without a leading zero |
| PyText.DecimalRoundTrip | test_cpp/cpp2go.py:101 | `int(str(n)) == n` |
| Checks.Slice | test_cpp/cpp2go.py:137 | the slice is clamped to the values and element `i` is value `lo + i` |
| Checks.ArrayChecks | test_cpp/cpp2go.py:138-139 | one check per array value, numbered from 0 |
| Checks.LeafStep | test_cpp/cpp2go.py:135-154 | an array type appends one check per value of its slice and advances by its full length; a scalar appends the check against the normalised value under the cursor and advances by one; failure exactly when a scalar finds no value (`IndexError`) or its value fails to normalise |
| Checks.Zip | test_cpp/cpp2go.py:130 | `zip` pairs the columns up to the shorter length |
| Checks.SubFold | test_cpp/cpp2go.py:134-144 | the embedded loop advances the cursor by the widths of the subfields and only appends checks |
| Checks.FieldStep | test_cpp/cpp2go.py:131-154 | one field advances the cursor by its width (a struct's total subfield width) and only appends checks |
| Checks.FieldsFold | test_cpp/cpp2go.py:130-154 | the field loop advances by the total field width and only appends checks |
| Checks.VariableCursor | test_cpp/cpp2go.py:124-154 | a successful walk read both columns and ends at the total field width |
| Checks.VariableChecks | test_cpp/cpp2go.py:124-155 | the checks exist exactly when the walk succeeds |
| Checks.AppendLeaf | test_cpp/cpp2go.py:135-154 | the loop body for a leaf field computes the leaf step |
| Checks.AppendArrayChecks | test_cpp/cpp2go.py:138-139 | the `enumerate` loop appends the array checks |
| Checks.AppendField | test_cpp/cpp2go.py:131-154 | the loop body for a top-level field computes the field step |
| Checks.BuildChecks | test_cpp/cpp2go.py:126-154 | the loops compute the variable's checks |
| Checks.InOrderChecks | test_cpp/cpp2go.py:151-154 | check `k` compares field `k` with value `idx + k` |
| Checks.ScalarFieldsInOrder | test_cpp/cpp2go.py:130-154 | with scalar non-struct fields whose values all normalise, field `k` is compared with the normalised value `idx + k` and the cursor ends one past the last |
| Checks.StableFieldsInOrder | test_cpp/cpp2go.py:130-154 | values that normalisation leaves alone, numerals say, are compared as written |
| Checks.ScalarFieldStep | test_cpp/cpp2go.py:151-154 | a scalar field takes the value under the cursor and advances by one |
| Checks.StableFieldStep | test_cpp/cpp2go.py:151-154 | the same, compared with the value itself when normalisation leaves it alone |
| Checks.NestedStructIsLeaf | test_cpp/cpp2go.py:131-144 | embedding stops after one level: a struct-typed subfield takes one value |
| Checks.ShortArrayOverruns | test_cpp/cpp2go.py:145-154 | an array with too few values still advances by its length, so a later scalar raises `IndexError` |
| Checks.SecondNormalisation | test_cpp/cpp2go.py:152 | values are normalised a second time: a stored `LL` is compared as empty |
| TestHarness.Header | test_cpp/cpp2go.py:111-115 | fourteen lines from `package main` to `offset := 0` |
| TestHarness.VarHead | test_cpp/cpp2go.py:117-122 | the five decoding lines of a variable; only the first variable declares `n` (stated by `VarHeadCounts`) |
| TestHarness.CheckBlock | test_cpp/cpp2go.py:155-156 | the three comparison lines, the checks joined by the Go or-operator (stated by `CheckBlockCounts` and `EmptyCondition`) |
| TestHarness.Body | test_cpp/cpp2go.py:116-157 | the variable blocks in order, up to the first exception (stated by `BodyStep`, `BodyRaised`, `BodyCounts` and `FailedChecksTruncate`) |
| TestHarness.DefaultHeader | test_cpp/cpp2go.py:103-113 | by default the test reads `sample_cpp.bin` |
| TestHarness.VarBlock | test_cpp/cpp2go.py:117-157 | a variable is decoded, compared when its type has an initializer, and the offset advanced; a failure while building the checks stops right after the decoding lines |
| TestHarness.BodyStep | test_cpp/cpp2go.py:116-157 | past a prefix with no failure, one more variable appends its block |
| TestHarness.Finish | test_cpp/cpp2go.py:158 | the file carries the exception of the blocks, if any |
| TestHarness.TestFile | test_cpp/cpp2go.py:103-158 | no file is created exactly when the initializers fail to normalise, with the decode error |
| TestHarness.GenerateGoTest | test_cpp/cpp2go.py:103-158 | the generator writes the test file |
| TestHarness.WriteVariables | test_cpp/cpp2go.py:116-157 | the loop over the variables writes their blocks after the header and stops at the first exception |
| TestHarness.WriteVariable | test_cpp/cpp2go.py:117-157 | the loop body writes one variable's block |
| TestHarness.HeaderCounts | test_cpp/cpp2go.py:111-115 | the header neither declares `n` nor advances the offset |
| TestHarness.VarHeadCounts | test_cpp/cpp2go.py:117-122 | the decoding lines declare `n` only for the first variable and never advance the offset |
| TestHarness.CheckBlockCounts | test_cpp/cpp2go.py:155-156 | the comparison lines neither declare `n` nor advance the offset |
| TestHarness.VarBlockCounts | test_cpp/cpp2go.py:117-157 | a finished block declares `n` only for the first variable and advances the offset once |
| TestHarness.BodyCounts | test_cpp/cpp2go.py:116-157 | with nothing raised, `n` is declared once if there is a variable and the offset advanced once per variable |
| TestHarness.CompletedFile | test_cpp/cpp2go.py:111-158 | a completed file starts with the header, ends with `}`, declares `n` at most once and advances the offset once per variable |
| TestHarness.BodyRaised | test_cpp/cpp2go.py:116-157 | nothing is raised exactly when no variable's checks fail |
| TestHarness.FailedChecksTruncate | test_cpp/cpp2go.py:116-157 | a failure at variable `k` leaves the earlier blocks and `k`'s decoding lines, with `k`'s exception |
| TestHarness.UncheckedVariable | test_cpp/cpp2go.py:124 | a variable whose type has no initializer is decoded but not compared |
| TestHarness.EmptyCondition | test_cpp/cpp2go.py:155-156 | empty checks give the line `if  {` |
| Structag.GoQuo | cmd/struc-gen/internal/structag/context.go:45 | Go's `/` truncates toward zero: `b*q <= a < b*q + b` for `a >= 0` and `b*q - b < a <= b*q` for `a < 0` |
| Structag.GoRem | cmd/struc-gen/internal/structag/context.go:48 | Go's `%` satisfies `a == b*q + r` with `r` of the sign of `a` and smaller than `b` in magnitude |
| Structag.Eval | cmd/struc-gen/internal/structag/context.go:27-32 | the pending bits are the static part, plus the dynamic part when present |
| Structag.ByteAdvance | cmd/struc-gen/internal/structag/context.go:44-50 | `m += bits / 8` then `m++` on a remainder: the advance in bytes (stated by `CeilingBytes` and `NegativeBitsRoundAway`) |
| Structag.Align | cmd/struc-gen/internal/structag/context.go:52-58 | padding `m` to the next multiple of `Pack` when `Pack > 0` (stated by `AlignedToPack`, `PaddingBelowPack` and `AlignIdempotent`) |
| Structag.Step | cmd/struc-gen/internal/structag/context.go:44-61 | the effect on `m` of one emitted statement |
| Structag.Run | cmd/struc-gen/internal/structag/context.go:42-62 | the effect on `m` of the emitted statements in order (stated by `FlushCodeEffect`) |
| Structag.FlushEffect | cmd/struc-gen/internal/structag/context.go:38-57 | the flush rule: byte advance, then alignment (stated by `PackedFlush`, `NaturalFlush`, `FlushMonotone` and `FlushTwice`) |
| Structag.FlushCode | cmd/struc-gen/internal/structag/context.go:42-62 | the flushed code ends with the new placeholder and holds an alignment step exactly when `Pack > 0` |
| Structag.Context.constructor | cmd/struc-gen/internal/structag/context.go:5-11 | a zero-valued context: no placeholder, no pending bits |
| Structag.Context.InsertNewCheckBound | cmd/struc-gen/internal/structag/context.go:16-20 | `checkBound` moves to a fresh placeholder, which the returned statement holds; nothing else changes |
| Structag.Context.Flush | cmd/struc-gen/internal/structag/context.go:25-63 | the context is emptied, `Pack` kept, `checkBound` moved to a fresh placeholder closing the code, and the code moves `m` by the flush rule on the bits that were pending |
| Structag.FlushCodeEffect | cmd/struc-gen/internal/structag/context.go:42-58 | running the flushed code has the flush rule's effect on `m` |
| Structag.CeilingBytes | cmd/struc-gen/internal/structag/context.go:44-50 | for non-negative bits the advance is `ceil(bits/8)`, the fewest bytes holding the bits |
| Structag.AlignedToPack | cmd/struc-gen/internal/structag/context.go:53-57 | alignment lands on a multiple of `Pack`, never moves back, and moves exactly when unaligned |
| Structag.PaddingBelowPack | cmd/struc-gen/internal/structag/context.go:53-57 | for a non-negative offset the padding is below `Pack`, and 0 exactly when aligned |
| Structag.NegativeOffsetOverpads | cmd/struc-gen/internal/structag/context.go:55-56 | from a negative offset the padding can exceed `Pack` |
| Structag.AlignIdempotent | cmd/struc-gen/internal/structag/context.go:53-57 | aligning twice is aligning once |
| Structag.PackedFlush | cmd/struc-gen/internal/structag/context.go:38-57 | with `Pack > 0` the final offset is a multiple of `Pack`, and the first one at or after the byte boundary past the bits |
| Structag.NaturalFlush | cmd/struc-gen/internal/structag/context.go:53 | with natural packing the final offset is `m + ceil(bits/8)` |
| Structag.FlushMonotone | cmd/struc-gen/internal/structag/context.go:38-57 | for non-negative bits a flush never moves `m` back |
| Structag.FlushTwice | cmd/struc-gen/internal/structag/context.go:22-24 | flushing again with nothing pending leaves `m` where the first flush put it |
| Structag.NegativeBitsRoundAway | cmd/struc-gen/internal/structag/context.go:44-50 | negative pending bits round away from zero: `-3` bits advance one byte |

## Left out

- Regular-expression scans. The scans `struct\s+(\w+)\s*{([^}]*)}`,
  `(\w+)\s+\w+\s*=\s*{([^}]*)}` and `(\w+)\s+\w+\s*=\s*{[^}]*};`
  (`test_cpp/cpp2go.py:31, 77, 106, 108`) are not modelled as regular expressions.
  Their matches are the inputs: struct name/body pairs, initializer type/value pairs
  and the list of top-level variable types. The small anchored patterns on tokens are
  modelled.
- File and process I/O. Reading the C++ file, opening and writing the Go files, the
  command line, `os.path.splitext` and `sys.exit` are left out. Written text is the list
  of lines; each line is written followed by a newline.
- The `unicode_escape` codec. It is modelled only where the pattern lets it run, on a
  lone backslash, where it raises. No other escape reaches it.
- Character classes. `\w` and `\d` are taken as ASCII. Python would also accept
  non-ASCII letters and digits.
- The dynamic bit expression. The dynamic part of the pending bits is a Go expression
  produced by the jennifer library. The model keeps only its text and evaluates it to
  one runtime value, passed as a parameter. The emitted code clones it twice, and both
  copies are assumed to yield the same value.
- The jennifer statement tree. `jen.Null`, `Op`, `Parens`, `Line`, `Clone` and the
  layout lines are modelled by each emitted statement's effect on `m`. The placeholder
  statement is an object, so that `checkBound` can refer to it.
- Go integer widths. Go `int` is 32 or 64 bits wide depending on the platform, and overflow of `m`, of the bit count or of
  `Pack` is not modelled. Integers are unbounded.
- The generated Go code's own behaviour (`UnmarshalBinary`, `t.Fatalf`, comparisons)
  is out of scope. The model fixes the text of the test file, not what it does when run.
- Type widths. The documented claim that each mapped type keeps its byte width is
  not modelled, since there are no byte widths in the model. (C `int` and `long` vary by
  platform, so the claim is not true of every platform.)
- The Go test imports `bytes` and never uses it, so the emitted file would not compile
  as written. The model keeps the import line as text and proves nothing about
  compilability.
