# simple_size: the `Unit` storage quantity, in Dafny

simple_size defines one value type, `Unit`: a byte count that can be
built from bytes, kilobytes, megabytes, gigabytes or terabytes (powers of
1024), parsed from text such as `"10GB"`, `"1,5 KB"` or `"-1TB"`, printed
in the largest tier that fits its magnitude (`"10.00GB"`, `"-10B"`), and
combined with `+ - * /` and their in-place forms `+= -= *= /=`.

The model has four modules:

- `Wrappers` (`wrappers.dfy`): `Option` and `Result`.
- `Strings` (`strings.dfy`): the three `str` operations the parser relies
  on. These are `rfind(char::is_numeric)`, `trim` and `replace(",", ".")`.
  Each comes with its characterisation.
- `SimpleSize` (`simple_size.dfy`): `Unit` and the rest of the module:
  - `down_from`/`up_to` and the constructors;
  - the operators, as functions, and the in-place operators, as methods of
    the class `UnitCell`, whose field `bytes` is the tuple field `self.0`;
  - `from_str` as `Parse`;
  - `Display::fmt` as `Format`;
  - the properties relating parsing and printing.
- `SimpleSizeTests` (`simple_size_tests.dfy`): the unit tests of `mod tests`,
  stated as lemmas, plus a few further examples.

The standard library's number parser (`parse::<f32>`) and the two number
renderers (`{:.2}` and `{}`) are parameters of the model. They have the
types `NumberParser = string -> Option<real>` and `Renderer = real -> string`.
Every property holds for any such functions. The unit-test lemmas assume
only what the standard library does on the handful of inputs involved,
for example that `"10"` parses as 10 and that `{:.2}` renders 10 as
`"10.00"`.

Byte counts are `real`. Where the source compares against
`down_from(1, TB)`, the model compares against `Scale(TB)`.
`ScaleIsDownFrom` proves the two equal for every tier.

Bytes are printed with `{}` (src/lib.rs:143), which shows any fraction the
`f32` has; the model renders the B tier with the `plain` renderer.

## Model

| member | source | states |
|---|---|---|
| `Strings.LastNumericIndex` | src/lib.rs:91 | the result is the index of a digit with no digit after it, and it is None exactly when the string has no digit |
| `Strings.LeadingWhitespace` | src/lib.rs:95-96 | the count is a prefix of whitespace, followed by a non-whitespace character or the end |
| `Strings.TrailingWhitespaceStart` | src/lib.rs:100 | everything from the result on is whitespace, and the character before it is not |
| `Strings.Trim` | src/lib.rs:95-96 | a string without whitespace is its own trim |
| `Strings.TrimIsTrimOf` | src/lib.rs:95-96 | `Trim` returns a factor of the input with only whitespace outside it and no whitespace at either end |
| `Strings.TrimIsUnique` | src/lib.rs:95-96 | any string that is the input with exactly its outer whitespace removed is `Trim` of the input, so `IsTrimOf` characterises `Trim` completely |
| `Strings.TrimOfWhitespace` | src/lib.rs:100 | a string of whitespace only trims to the empty string |
| `Strings.TrimOfFactor` | src/lib.rs:95-96 | a non-empty factor with non-whitespace ends and only whitespace outside it is the trim |
| `Strings.LeadingWhitespaceIs` | src/lib.rs:95-96 | a whitespace prefix followed by a non-whitespace character or the end is the count `LeadingWhitespace` returns |
| `Strings.TrailingWhitespaceStartIs` | src/lib.rs:100 | a whitespace suffix preceded by a non-whitespace character or the start begins where `TrailingWhitespaceStart` says |
| `Strings.ReplaceCommas` | src/lib.rs:97 | same length; each comma becomes a full stop and every other character is kept |
| `SimpleSize.Pow2` | src/lib.rs:18 | `2_u64.pow(n)` is at least 1 |
| `SimpleSize.Pow2Add` | src/lib.rs:18 | 2^(a+b) = 2^a · 2^b |
| `SimpleSize.Pow2Values` | src/lib.rs:8-11 | the shifts 10, 20, 30 and 40 give 1024, 1048576, 1073741824 and 1099511627776 |
| `SimpleSize.DownFrom` | src/lib.rs:17-19 | `down_from` keeps the sign and zero, and does not shrink the magnitude |
| `SimpleSize.UpTo` | src/lib.rs:21-23 | `up_to` keeps the sign and zero, and does not grow the magnitude |
| `SimpleSize.UpToDownFrom` | src/lib.rs:17-23 | `up_to` undoes `down_from` at the same shift, and the other way round |
| `SimpleSize.AsBytesRoundTrip` | src/lib.rs:62-64 | `as_bytes` gives back the count `from_bytes` stored, and `from_bytes` of `as_bytes` gives back the unit |
| `SimpleSize.FromBytes` | src/lib.rs:66-68 | the unit holds exactly the value given (also `From<f32>`, src/lib.rs:118-122) |
| `SimpleSize.FromKiloBytes` | src/lib.rs:70-72 | `as_bytes` of the result is the value times 1024; `FromTierIsDownFrom` proves this is `down_from(value, KB)` |
| `SimpleSize.FromMegaBytes` | src/lib.rs:74-76 | `as_bytes` of the result is the value times 1048576; `FromTierIsDownFrom` proves this is `down_from(value, MB)` |
| `SimpleSize.FromGigaBytes` | src/lib.rs:78-80 | `as_bytes` of the result is the value times 1073741824; `FromTierIsDownFrom` proves this is `down_from(value, GB)` |
| `SimpleSize.FromTeraBytes` | src/lib.rs:82-84 | `as_bytes` of the result is the value times 1099511627776; `FromTierIsDownFrom` proves this is `down_from(value, TB)` |
| `SimpleSize.FromU64` | src/lib.rs:112-116 | a 64-bit count becomes a non-negative byte count below 2^64 whose integer part is the count |
| `SimpleSize.Add` | src/lib.rs:28-36 | the sum's byte count minus the right operand's is the left operand's (`impl_op!(Add, add, +)`, src/lib.rs:56) |
| `SimpleSize.Sub` | src/lib.rs:28-36 | the difference's byte count plus the right operand's is the left operand's (src/lib.rs:57) |
| `SimpleSize.Mul` | src/lib.rs:28-36 | for a non-zero right operand, the product's byte count divided by it is the left operand's; a zero right operand gives a zero byte count (src/lib.rs:58) |
| `SimpleSize.Div` | src/lib.rs:28-36 | for a non-zero right operand, the quotient's byte count times it is the left operand's (src/lib.rs:59) |
| `SimpleSize.SubUndoesAdd` | src/lib.rs:33-35 | `(a + b) - b == a` and `(a - b) + b == a` |
| `SimpleSize.DivUndoesMul` | src/lib.rs:33-35 | for a non-zero `b`, `(a * b) / b == a` and `(a / b) * b == a` |
| `SimpleSize.UnitCell.AddAssign` | src/lib.rs:47-50 | the cell's new value is its old value plus `rhs` |
| `SimpleSize.UnitCell.SubAssign` | src/lib.rs:47-50 | the cell's new value is its old value minus `rhs` |
| `SimpleSize.UnitCell.MulAssign` | src/lib.rs:47-50 | the cell's new value is its old value times `rhs` |
| `SimpleSize.UnitCell.DivAssign` | src/lib.rs:47-50 | for a non-zero `rhs`, the cell's new value is its old value divided by `rhs` |
| `SimpleSize.ScaleIsDownFrom` | src/lib.rs:131-142 | each tier's scale is `down_from(1, shift)`, and `up_to` at that shift divides by the scale |
| `SimpleSize.ScaleIsPow2` | src/lib.rs:17-19 | each tier's scale is 2 to the tier's shift |
| `SimpleSize.FromTier` | src/lib.rs:101-106 | each arm of the unit match gives the number times its tier's scale |
| `SimpleSize.FromTierIsDownFrom` | src/lib.rs:69-84 | each constructor is `down_from` of the value at its tier's shift |
| `SimpleSize.TierOfSuffix` | src/lib.rs:101-107 | a tier is found only for that tier's exact suffix |
| `SimpleSize.TierOfSuffixInverts` | src/lib.rs:101-107 | every tier's suffix is matched to that tier |
| `SimpleSize.TierOfSuffixFails` | src/lib.rs:101-107 | the match fails exactly on strings that are no tier's suffix |
| `SimpleSize.SuffixIsPlain` | src/lib.rs:100 | a suffix has no digits and no whitespace, so `trim` keeps it unchanged |
| `SimpleSize.Parse` | src/lib.rs:90-110 | every failure is `InvalidFormat` of the input; a string without a digit always fails |
| `SimpleSize.ParseSplit` | src/lib.rs:92-99 | every failure is `InvalidFormat` of the input |
| `SimpleSize.ScaleBySuffix` | src/lib.rs:100-107 | succeeds exactly when the trimmed suffix names a tier; a failure is `InvalidFormat` of the input |
| `SimpleSize.IsSplitUnique` | src/lib.rs:91 | at most one index holds the last digit |
| `SimpleSize.LastNumericIndexIsSplit` | src/lib.rs:91 | `rfind` returns index `i` exactly when `i` holds the last digit |
| `SimpleSize.ParseAtSplit` | src/lib.rs:91-94 | once `rfind` finds the last digit, `from_str` continues with the split after it |
| `SimpleSize.ParseSplitComplete` | src/lib.rs:95-106 | a split whose number parses and whose trimmed rest names a tier gives the number in that tier |
| `SimpleSize.ParseSplitSound` | src/lib.rs:95-107 | a successful split parsed a number and matched a tier's suffix, and the result is the number in that tier |
| `SimpleSize.ParseSound` | src/lib.rs:90-110 | every success is a reading of the input: a split after the last digit, a number the parser accepts, and a suffix naming the tier that scales it |
| `SimpleSize.ParseComplete` | src/lib.rs:90-110 | every reading is what the parser returns: the number times its tier's scale, negative exactly when the number is |
| `SimpleSize.ScalingKeepsSign` | src/lib.rs:101-107 | scaling by a factor of at least 1 keeps the sign |
| `SimpleSize.ParseNeedsNumeric` | src/lib.rs:91 | a string without a digit, the empty string included, is refused with `InvalidFormat` |
| `SimpleSize.ParseRejectsBadNumber` | src/lib.rs:95-99 | when the number parser refuses the normalised prefix, so does `from_str` |
| `SimpleSize.ParseRejectsBadSuffix` | src/lib.rs:100-107 | a trimmed suffix that is no tier's suffix is refused |
| `SimpleSize.Magnitude` | src/lib.rs:126-130 | the magnitude is non-negative and is the value or its negation |
| `SimpleSize.SelectTier` | src/lib.rs:126-142 | the chosen tier fits the magnitude: it is B or one unit of it is at most the magnitude |
| `SimpleSize.SelectTierIsLargestFit` | src/lib.rs:126-143 | the chosen tier fits the magnitude (one unit of it is at most the magnitude, or it is B), and no larger tier fits |
| `SimpleSize.SelectTierSignSymmetric` | src/lib.rs:126-130 | a value and its negation select the same tier |
| `SimpleSize.Shown` | src/lib.rs:132-143 | the printed number is the signed byte count for B and the byte count divided by the tier's scale otherwise |
| `SimpleSize.ShownText` | src/lib.rs:132-143 | the number's text is `{}` of the byte count for B and `{:.2}` of the byte count divided by the tier's scale otherwise |
| `SimpleSize.Format` | src/lib.rs:124-145 | the output is that number's text followed by the chosen tier's suffix |
| `SimpleSize.FormatSignSymmetric` | src/lib.rs:124-145 | a negated value prints the negated number in the same tier |
| `SimpleSize.FromTierOfShown` | src/lib.rs:131-143 | the printed number scaled back by the printed tier is the byte count |
| `SimpleSize.SelectTierOfScaled` | src/lib.rs:131-143 | `value` units of tier `t`, with 1 ≤ \|value\| < 1024 (no lower bound for B, no upper bound for TB), print in tier `t` |
| `SimpleSize.ShownOfScaled` | src/lib.rs:131-143 | `value` units of the tier they print in show the number `value` |
| `SimpleSize.ScaledMagnitude` | src/lib.rs:126-130 | the magnitude of a value scaled by a positive factor is the scaled magnitude |
| `SimpleSize.FormatAfterParse` | src/lib.rs:90-145 | parsing a reading of `value` units of a tier, with 1 ≤ \|value\| < 1024 (no lower bound for B, no upper bound for TB), and printing the result prints that number in that tier |
| `SimpleSize.ParseAfterFormat` | src/lib.rs:90-145 | printing and then parsing gives the value back when the rendered number ends in a digit and parses back to itself |
| `SimpleSizeTests.JoinedDenotes` | src/lib.rs:90-110 | a number without whitespace ending in a digit, joined to a suffix, is a reading of that number in that tier |
| `SimpleSizeTests.ParseJoined` | src/lib.rs:90-110 | such a joined string parses to the number times the tier's scale |
| `SimpleSizeTests.ParseOneOfEachTier` | src/lib.rs:195-202 | `"1B"` to `"1TB"` parse to 1, 1024, 1048576, 1073741824 and 1099511627776 bytes |
| `SimpleSizeTests.ParseNegativeOfEachTier` | src/lib.rs:204-214 | `"-1B"` to `"-1TB"` parse to the same amounts, negated |
| `SimpleSizeTests.ParseDecimalComma` | src/lib.rs:95-99 | `"1,5"` followed by a suffix is 1.5 units of that tier, so `"1,5KB"` is 1536 bytes |
| `SimpleSizeTests.ParseRefusesUnknownSuffix` | src/lib.rs:107 | `"10XB"` is refused |
| `SimpleSizeTests.ParseRefusesNoDigits` | src/lib.rs:91 | `"abc"` and `""` are refused |
| `SimpleSizeTests.FormatTenOfEachTier` | src/lib.rs:216-242 | `"10B"` to `"10TB"` and `"-10B"` to `"-10TB"` print in their own tier, with two decimals except for bytes |
| `SimpleSizeTests.FormatTen` | src/lib.rs:216-242 | plus or minus ten units of a tier print that number in that tier |
| `SimpleSizeTests.NegativeUsesMagnitude` | src/lib.rs:126-139 | minus 1.5 GiB selects the GB tier, because the comparison uses the magnitude |
| `SimpleSizeTests.AddAssignExample` | src/lib.rs:47-50 | 5 bytes `+=` 3 bytes leaves 8 bytes |
| `SimpleSizeTests.AssignRoundTrip` | src/lib.rs:47-50 | `+=` then `-=` of the same amount restores a cell, and so does `*=` then `/=` of a non-zero amount |

## Left out

- The `serde` support (src/lib.rs:147-189) is not modelled. It serialises
  through `Display` and deserialises through `from_str`, and it depends on
  an external framework.
- The error message text is not modelled. This covers `err_message`
  (src/lib.rs:13-15) and the number parser's message that `from_str`
  appends. Every error is `InvalidFormat(input)`.
- `f32` arithmetic is not modelled: no rounding, no overflow to infinity,
  no NaN and no negative zero. Byte counts are exact reals, so the
  arithmetic lemmas hold for reals, not for `f32`.
- FromU64: does not model the rounding of a `u64` to the nearest `f32`.
  Counts above 2^24 lose precision in the source but stay exact here.
- SimpleSize.Div: requires a non-zero divisor. The source divides by zero
  and yields an infinity or NaN, which reals do not have.
- SimpleSize.UnitCell.DivAssign: requires a non-zero divisor, for the same
  reason.
- `parse::<f32>`, `{:.2}` and `{}` are parameters, so their behaviour is
  not modelled. This includes exponents, `inf`, `NaN`, a leading `+` and
  rounding to two decimals.
- Strings.LastNumericIndex: treats only the ASCII digits as numeric.
  Rust's `char::is_numeric` also accepts other Unicode numerals. For a
  multi-byte numeral, the byte index `index + 1` falls inside the
  character, and `split_at_checked` fails (src/lib.rs:92-94). That error
  branch cannot arise in this model.
- Strings.LastNumericIndex: returns a position in the sequence of
  characters, where `rfind` returns a byte offset into the UTF-8 text.
  The split falls in the same place, because an ASCII digit is one byte.
- The operators on `&Unit` (src/lib.rs:38-45) are the same functions as on
  `Unit`.
- The derived `PartialOrd`, `Default`, `Debug`, `Clone` and `Copy` are not
  modelled. `PartialEq` is Dafny's equality on `Unit`.
- SimpleSizeTests.ParseOneOfEachTier: states the tests for a tier `t` and
  the string `"1" + t.Suffix()`, with the byte counts given by `Scale`.
  The five strings are not written out one by one.
- SimpleSizeTests.ParseNegativeOfEachTier: states the tests in the same
  per-tier form.
- SimpleSizeTests.FormatTenOfEachTier: states the tests in the same
  per-tier form.
