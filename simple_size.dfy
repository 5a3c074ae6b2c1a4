/** The `Unit` value type of simple_size: a quantity of storage held as a
    number of bytes, with constructors that scale by powers of two, a parser
    for strings such as "10GB" or "1,5 KB", a formatter that picks the largest
    fitting tier, and the four arithmetic operators with their in-place forms.
    The byte count is a `real` (the source uses `f32`). */
module SimpleSize {
  import opened Wrappers
  import opened Strings

  // ---------------------------------------------------------------------------
  // Powers of two and scaling
  // ---------------------------------------------------------------------------

  /** The shifts of the four larger tiers (`KB`, `MB`, `GB`, `TB` in the source). */
  const KiloShift: nat := 10
  const MegaShift: nat := 20
  const GigaShift: nat := 30
  const TeraShift: nat := 40

  /** `2_u64.pow(n)`. */
  function Pow2(n: nat): (r: nat)
    ensures r >= 1
  {
    if n == 0 then 1 else 2 * Pow2(n - 1)
  }

  lemma {:induction false} Pow2Add(a: nat, b: nat)
    ensures Pow2(a + b) == Pow2(a) * Pow2(b)
  {
    if a > 0 {
      Pow2Add(a - 1, b);
    }
  }

  /** The four powers the tiers use. */
  lemma Pow2Values()
    ensures Pow2(KiloShift) == 1024
    ensures Pow2(MegaShift) == 1048576
    ensures Pow2(GigaShift) == 1073741824
    ensures Pow2(TeraShift) == 1099511627776
  {
    assert Pow2(10) == 1024 by {
      assert Pow2(5) == 32;
      Pow2Add(5, 5);
    }
    assert Pow2(20) == 1048576 by {
      Pow2Add(10, 10);
    }
    assert Pow2(30) == 1073741824 by {
      Pow2Add(20, 10);
    }
    assert Pow2(40) == 1099511627776 by {
      Pow2Add(20, 20);
    }
  }

  /** `down_from`: from a count in units of 2^dec bytes to bytes. The count
      keeps its sign and does not shrink. */
  function DownFrom(lhs: real, dec: nat): (r: real)
    ensures r < 0.0 <==> lhs < 0.0
    ensures r == 0.0 <==> lhs == 0.0
    ensures lhs >= 0.0 ==> r >= lhs
    ensures lhs <= 0.0 ==> r <= lhs
  {
    lhs * (Pow2(dec) as real)
  }

  /** `up_to`: from bytes to a count in units of 2^dec bytes. The count keeps
      its sign and does not grow. */
  function UpTo(lhs: real, dec: nat): (r: real)
    ensures r < 0.0 <==> lhs < 0.0
    ensures r == 0.0 <==> lhs == 0.0
    ensures lhs >= 0.0 ==> r <= lhs
    ensures lhs <= 0.0 ==> r >= lhs
  {
    lhs / (Pow2(dec) as real)
  }

  /** `up_to` undoes `down_from` and the other way round: scaling by a power of
      two is exact on reals. */
  lemma UpToDownFrom(x: real, dec: nat)
    ensures UpTo(DownFrom(x, dec), dec) == x
    ensures DownFrom(UpTo(x, dec), dec) == x
  {
  }

  // ---------------------------------------------------------------------------
  // The value type and its constructors
  // ---------------------------------------------------------------------------

  /** `pub struct Unit(f32)`: a byte count, whatever it was constructed from. */
  datatype Unit = Unit(bytes: real) {
    /** `as_bytes`. */
    function AsBytes(): real {
      bytes
    }
  }

  /** `as_bytes` gives back the count `from_bytes` stored, and `from_bytes`
      of it gives back the unit. */
  lemma AsBytesRoundTrip(u: Unit, value: real)
    ensures FromBytes(value).AsBytes() == value
    ensures FromBytes(u.AsBytes()) == u
  {
  }

  /** `from_bytes` (and `From<f32>`): the value is already in bytes. */
  function FromBytes(value: real): (r: Unit)
    ensures r.bytes == value
  {
    Unit(value)
  }

  /** `from_kilo_bytes`: `down_from(value, KB)`, the value times the scale of
      KB (`FromTierIsDownFrom`). */
  function FromKiloBytes(value: real): (r: Unit)
    ensures r.AsBytes() == value * 1024.0
  {
    Unit(value * Scale(KB))
  }

  /** `from_mega_bytes`: `down_from(value, MB)`, the value times the scale of
      MB (`FromTierIsDownFrom`). */
  function FromMegaBytes(value: real): (r: Unit)
    ensures r.AsBytes() == value * 1048576.0
  {
    Unit(value * Scale(MB))
  }

  /** `from_giga_bytes`: `down_from(value, GB)`, the value times the scale of
      GB (`FromTierIsDownFrom`). */
  function FromGigaBytes(value: real): (r: Unit)
    ensures r.AsBytes() == value * 1073741824.0
  {
    Unit(value * Scale(GB))
  }

  /** `from_tera_bytes`: `down_from(value, TB)`, the value times the scale of
      TB (`FromTierIsDownFrom`). */
  function FromTeraBytes(value: real): (r: Unit)
    ensures r.AsBytes() == value * 1099511627776.0
  {
    Unit(value * Scale(TB))
  }

  /** `From<u64>`: an unsigned 64-bit count of bytes (exact here; see README). */
  function FromU64(value: nat): (r: Unit)
    requires value < 0x1_0000_0000_0000_0000
    ensures 0.0 <= r.AsBytes() < 18446744073709551616.0
    ensures r.AsBytes().Floor == value
  {
    Unit(value as real)
  }

  // ---------------------------------------------------------------------------
  // Arithmetic (`impl_op!` for `Unit` and `&Unit`)
  // ---------------------------------------------------------------------------

  /** `add`: subtracting the right operand again gives back the left one. */
  function Add(a: Unit, b: Unit): (r: Unit)
    ensures r.AsBytes() - b.AsBytes() == a.AsBytes()
  {
    Unit(a.bytes + b.bytes)
  }

  /** `sub`: adding the right operand again gives back the left one. */
  function Sub(a: Unit, b: Unit): (r: Unit)
    ensures r.AsBytes() + b.AsBytes() == a.AsBytes()
  {
    Unit(a.bytes - b.bytes)
  }

  /** `mul`: dividing by a non-zero right operand gives back the left one,
      and a zero right operand gives zero. */
  function Mul(a: Unit, b: Unit): (r: Unit)
    ensures b.AsBytes() != 0.0 ==> r.AsBytes() / b.AsBytes() == a.AsBytes()
    ensures b.AsBytes() == 0.0 ==> r.AsBytes() == 0.0
  {
    Unit(a.bytes * b.bytes)
  }

  /** `div` by a non-zero unit: multiplying by the right operand again gives
      back the left one. */
  function Div(a: Unit, b: Unit): (r: Unit)
    requires b.bytes != 0.0
    ensures r.AsBytes() * b.AsBytes() == a.AsBytes()
  {
    Unit(a.bytes / b.bytes)
  }

  /** Subtracting what was added gives back the left operand. */
  lemma SubUndoesAdd(a: Unit, b: Unit)
    ensures Sub(Add(a, b), b) == a
    ensures Add(Sub(a, b), b) == a
  {
  }

  /** Dividing by what was multiplied in gives back the left operand. */
  lemma DivUndoesMul(a: Unit, b: Unit)
    requires b.bytes != 0.0
    ensures Div(Mul(a, b), b) == a
    ensures Mul(Div(a, b), b) == a
  {
  }

  /** A cell holding a `Unit` that the `*_assign` operators update in place:
      `bytes` is the tuple field `self.0`. */
  class UnitCell {
    var bytes: real

    function Value(): Unit
      reads this
    {
      Unit(bytes)
    }

    constructor (init: Unit)
      ensures Value() == init
    {
      bytes := init.bytes;
    }

    /** `add_assign`: `self` becomes `self + rhs`. */
    method AddAssign(rhs: Unit)
      modifies this
      ensures Value() == Add(old(Value()), rhs)
    {
      bytes := bytes + rhs.bytes;
    }

    /** `sub_assign`: `self` becomes `self - rhs`. */
    method SubAssign(rhs: Unit)
      modifies this
      ensures Value() == Sub(old(Value()), rhs)
    {
      bytes := bytes - rhs.bytes;
    }

    /** `mul_assign`: `self` becomes `self * rhs`. */
    method MulAssign(rhs: Unit)
      modifies this
      ensures Value() == Mul(old(Value()), rhs)
    {
      bytes := bytes * rhs.bytes;
    }

    /** `div_assign`: `self` becomes `self / rhs`. */
    method DivAssign(rhs: Unit)
      requires rhs.bytes != 0.0
      modifies this
      ensures Value() == Div(old(Value()), rhs)
    {
      bytes := bytes / rhs.bytes;
    }
  }

  // ---------------------------------------------------------------------------
  // Tiers: the units a string may name and the formatter may print
  // ---------------------------------------------------------------------------

  datatype Tier = B | KB | MB | GB | TB {
    /** The power of two this tier scales by. */
    function Shift(): nat {
      match this
      case B => 0
      case KB => KiloShift
      case MB => MegaShift
      case GB => GigaShift
      case TB => TeraShift
    }

    /** The suffix that names the tier in text. */
    function Suffix(): string {
      match this
      case B => "B"
      case KB => "KB"
      case MB => "MB"
      case GB => "GB"
      case TB => "TB"
    }
  }

  /** The number of bytes in one unit of tier `t`: 2^0, 2^10, 2^20, 2^30 or 2^40. */
  function Scale(t: Tier): (r: real)
    ensures r >= 1.0
  {
    match t
    case B => 1.0
    case KB => 1024.0
    case MB => 1048576.0
    case GB => 1073741824.0
    case TB => 1099511627776.0
  }

  /** The scale of a tier is `down_from(1, shift)`, the threshold `fmt`
      compares against, and `up_to` at the tier's shift divides by it. */
  lemma ScaleIsDownFrom(t: Tier, x: real)
    ensures Scale(t) == DownFrom(1.0, t.Shift())
    ensures UpTo(x, t.Shift()) == x / Scale(t)
  {
    ScaleIsPow2(t);
  }

  lemma ScaleIsPow2(t: Tier)
    ensures Scale(t) == Pow2(t.Shift()) as real
  {
    Pow2Values();
  }

  /** The arm of the `match unit` in `from_str` for tier `t`: each arm scales
      the number by its tier, 2^0, 2^10, 2^20, 2^30 or 2^40. */
  function FromTier(value: real, t: Tier): (r: Unit)
    ensures r.AsBytes() == value * Scale(t)
  {
    match t
    case B => FromBytes(value)
    case KB => FromKiloBytes(value)
    case MB => FromMegaBytes(value)
    case GB => FromGigaBytes(value)
    case TB => FromTeraBytes(value)
  }

  /** Each constructor is `down_from` at its tier's shift. */
  lemma FromTierIsDownFrom(value: real, t: Tier)
    ensures FromTier(value, t) == Unit(DownFrom(value, t.Shift()))
  {
    ScaleIsPow2(t);
  }

  /** The case-sensitive match of a trimmed suffix against "B", "KB", "MB",
      "GB" and "TB". */
  function TierOfSuffix(u: string): (r: Option<Tier>)
    ensures r.Some? ==> r.value.Suffix() == u
  {
    if u == "B" then Some(B)
    else if u == "KB" then Some(KB)
    else if u == "MB" then Some(MB)
    else if u == "GB" then Some(GB)
    else if u == "TB" then Some(TB)
    else None
  }

  /** A suffix has neither digits nor whitespace, so it survives `trim`. */
  lemma SuffixIsPlain(t: Tier)
    ensures NoNumeric(t.Suffix()) && NoWhitespace(t.Suffix())
    ensures Trim(t.Suffix()) == t.Suffix()
  {
  }

  /** The match fails exactly on the strings that name no tier. */
  lemma TierOfSuffixFails(u: string)
    ensures TierOfSuffix(u).None? <==> forall t: Tier :: t.Suffix() != u
  {
    if TierOfSuffix(u).None? {
      forall t: Tier ensures t.Suffix() != u {
        TierOfSuffixInverts(t);
      }
    }
  }

  /** Distinct tiers have distinct suffixes, so a suffix names one tier. */
  lemma TierOfSuffixInverts(t: Tier)
    ensures TierOfSuffix(t.Suffix()) == Some(t)
  {
  }

  // ---------------------------------------------------------------------------
  // Parsing (`FromStr::from_str`)
  // ---------------------------------------------------------------------------

  /** The only error: the input does not have the form number + unit. */
  datatype ParseError = InvalidFormat(input: string)

  /** The decimal number parser of the standard library (`parse::<f32>`),
      given as a parameter. */
  type NumberParser = string -> Option<real>

  /** The text handed to the number parser when the input is split after
      index `i`: the prefix, trimmed, with every comma made a full stop. */
  function NumberText(s: string, i: nat): (r: string)
    requires i < |s|
  {
    ReplaceCommas(Trim(s[..i + 1]))
  }

  /** `Unit::from_str`: split after the last numeric character, or fail
      when there is none. */
  function Parse(s: string, parseNumber: NumberParser): (r: Result<Unit, ParseError>)
    ensures r.Failure? ==> r.error == InvalidFormat(s)
    ensures NoNumeric(s) ==> r.Failure?
  {
    match LastNumericIndex(s)
    case None => Failure(InvalidFormat(s))
    case Some(i) => ParseSplit(s, i, parseNumber)
  }

  /** The rest of `from_str` once the input is split after index `i`: parse
      the normalised number, then match the trimmed suffix. */
  function ParseSplit(s: string, i: nat, parseNumber: NumberParser): (r: Result<Unit, ParseError>)
    requires i < |s|
    ensures r.Failure? ==> r.error == InvalidFormat(s)
  {
    match parseNumber(NumberText(s, i))
    case None => Failure(InvalidFormat(s))
    case Some(value) => ScaleBySuffix(s, value, Trim(s[i + 1..]))
  }

  /** The `match unit` of `from_str`: the value scaled by the tier the
      trimmed suffix names, or an error for any other suffix. */
  function ScaleBySuffix(s: string, value: real, unit: string): (r: Result<Unit, ParseError>)
    ensures r.Failure? ==> r.error == InvalidFormat(s)
    ensures r.Success? <==> TierOfSuffix(unit).Some?
  {
    match TierOfSuffix(unit)
    case None => Failure(InvalidFormat(s))
    case Some(t) => Success(FromTier(value, t))
  }

  /** Index `i` holds the last numeric character of `s`. */
  ghost predicate IsSplit(s: string, i: nat) {
    && i < |s|
    && IsNumeric(s[i])
    && NoNumeric(s[i + 1..])
  }

  /** Reading of `s` as the number `value` in tier `t`, split after index `i`:
      `s[..i+1]` ends with the last numeric character, the number parser
      accepts its normalised text as `value`, and the rest, trimmed, is
      exactly the suffix of `t`. */
  ghost predicate Denotes(s: string, parseNumber: NumberParser, i: nat, value: real, t: Tier) {
    && IsSplit(s, i)
    && parseNumber(NumberText(s, i)) == Some(value)
    && Trim(s[i + 1..]) == t.Suffix()
  }

  /** At most one index of a string holds its last numeric character. */
  lemma IsSplitUnique(s: string, i: nat, k: nat)
    requires IsSplit(s, i) && IsSplit(s, k)
    ensures i == k
  {
  }

  /** `rfind` finds exactly the split index. */
  lemma LastNumericIndexIsSplit(s: string, i: nat)
    requires i < |s|
    ensures LastNumericIndex(s) == Some(i) <==> IsSplit(s, i)
  {
    var r := LastNumericIndex(s);
    if r.Some? {
      assert IsSplit(s, r.value);
    }
    if IsSplit(s, i) {
      assert !NoNumeric(s);
      IsSplitUnique(s, i, r.value);
    }
  }

  /** Every successful parse is a reading of the input. */
  lemma ParseSound(s: string, parseNumber: NumberParser, u: Unit)
    requires Parse(s, parseNumber) == Success(u)
    ensures exists i: nat, value: real, t: Tier ::
      Denotes(s, parseNumber, i, value, t) && u == FromTier(value, t)
  {
    assert LastNumericIndex(s).Some?;
    var i := LastNumericIndex(s).value;
    assert ParseSplit(s, i, parseNumber) == Success(u);
    var value, t := ParseSplitSound(s, i, parseNumber, u);
    LastNumericIndexIsSplit(s, i);
    assert Denotes(s, parseNumber, i, value, t);
  }

  /** A successful split parse read a number and a suffix naming a tier. */
  lemma ParseSplitSound(s: string, i: nat, parseNumber: NumberParser, u: Unit)
    returns (value: real, t: Tier)
    requires i < |s| && ParseSplit(s, i, parseNumber) == Success(u)
    ensures parseNumber(NumberText(s, i)) == Some(value)
    ensures Trim(s[i + 1..]) == t.Suffix()
    ensures u == FromTier(value, t)
  {
    assert parseNumber(NumberText(s, i)).Some?;
    value := parseNumber(NumberText(s, i)).value;
    var unit := Trim(s[i + 1..]);
    assert ScaleBySuffix(s, value, unit) == Success(u);
    t := TierOfSuffix(unit).value;
  }

  lemma ScalingKeepsSign(value: real, scale: real)
    requires scale >= 1.0
    ensures value * scale < 0.0 <==> value < 0.0
  {
  }

  /** Every reading of the input is what the parser returns: the number
      times the scale of the suffix's tier, with its sign kept. */
  lemma ParseComplete(s: string, parseNumber: NumberParser, i: nat, value: real, t: Tier)
    requires Denotes(s, parseNumber, i, value, t)
    ensures Parse(s, parseNumber) == Success(FromTier(value, t))
    ensures Parse(s, parseNumber).value.AsBytes() == value * Scale(t)
    ensures Parse(s, parseNumber).value.AsBytes() < 0.0 <==> value < 0.0
  {
    ParseAtSplit(s, parseNumber, i);
    ParseSplitComplete(s, i, parseNumber, value, t);
    ScalingKeepsSign(value, Scale(t));
  }

  /** Once split at the last numeric character, `from_str` goes on with
      that split. */
  lemma ParseAtSplit(s: string, parseNumber: NumberParser, i: nat)
    requires IsSplit(s, i)
    ensures Parse(s, parseNumber) == ParseSplit(s, i, parseNumber)
  {
    LastNumericIndexIsSplit(s, i);
  }

  /** A split whose number parses and whose trimmed rest names a tier gives
      the number in that tier. */
  lemma ParseSplitComplete(s: string, i: nat, parseNumber: NumberParser, value: real, t: Tier)
    requires i < |s| && parseNumber(NumberText(s, i)) == Some(value)
    requires Trim(s[i + 1..]) == t.Suffix()
    ensures ParseSplit(s, i, parseNumber) == Success(FromTier(value, t))
  {
    TierOfSuffixInverts(t);
  }

  /** A string without a numeric character, the empty one included, is refused. */
  lemma ParseNeedsNumeric(s: string, parseNumber: NumberParser)
    requires NoNumeric(s)
    ensures Parse(s, parseNumber) == Failure(InvalidFormat(s))
  {
  }

  /** When the number parser refuses the normalised prefix, so does `Parse`. */
  lemma ParseRejectsBadNumber(s: string, parseNumber: NumberParser, i: nat)
    requires IsSplit(s, i)
    requires parseNumber(NumberText(s, i)).None?
    ensures Parse(s, parseNumber) == Failure(InvalidFormat(s))
  {
    ParseAtSplit(s, parseNumber, i);
  }

  /** A trimmed suffix other than the five tier names is refused. */
  lemma ParseRejectsBadSuffix(s: string, parseNumber: NumberParser, i: nat)
    requires IsSplit(s, i)
    requires forall t: Tier :: Trim(s[i + 1..]) != t.Suffix()
    ensures Parse(s, parseNumber) == Failure(InvalidFormat(s))
  {
    ParseAtSplit(s, parseNumber, i);
    TierOfSuffixFails(Trim(s[i + 1..]));
  }

  // ---------------------------------------------------------------------------
  // Formatting (`Display::fmt`)
  // ---------------------------------------------------------------------------

  /** A renderer of a number as text: `{:.2}` (two decimals) or `{}`, given
      as a parameter. */
  type Renderer = real -> string

  /** The absolute value the formatter compares (`value` in `fmt`). */
  function Magnitude(x: real): (m: real)
    ensures m >= 0.0
    ensures m == x || m == -x
  {
    if x < 0.0 then -x else x
  }

  /** Tier `t` may be printed for magnitude `m`: B always, any other tier
      when one unit of it is at most `m`. */
  ghost predicate Fits(t: Tier, m: real) {
    t == B || Scale(t) <= m
  }

  /** The tier `fmt` chooses: TB, GB, MB, KB, whichever comes first with a
      scale (`down_from(1, shift)`) at most the magnitude, and B if none does. */
  function SelectTier(u: Unit): (r: Tier)
    ensures Fits(r, Magnitude(u.bytes))
  {
    var value := Magnitude(u.bytes);
    if value >= Scale(TB) then TB
    else if value >= Scale(GB) then GB
    else if value >= Scale(MB) then MB
    else if value >= Scale(KB) then KB
    else B
  }

  /** `fmt` prints the largest tier that fits the magnitude of the byte count. */
  lemma SelectTierIsLargestFit(u: Unit)
    ensures Fits(SelectTier(u), Magnitude(u.bytes))
    ensures forall t: Tier :: Fits(t, Magnitude(u.bytes)) ==> t.Shift() <= SelectTier(u).Shift()
  {
  }

  /** The number `fmt` prints: the signed byte count divided by the scale of
      the tier (the byte count itself for B). */
  function Shown(u: Unit): (r: real)
    ensures SelectTier(u) == B ==> r == u.bytes
    ensures SelectTier(u) != B ==> r == u.bytes / Scale(SelectTier(u))
  {
    var t := SelectTier(u);
    ScaleIsDownFrom(t, u.bytes);
    if t == B then u.bytes else UpTo(u.bytes, t.Shift())
  }

  /** The text of the number: `{:.2}` for the larger tiers, `{}` for B. */
  function ShownText(u: Unit, fixed2: Renderer, plain: Renderer): (r: string)
    ensures r == if SelectTier(u) == B then plain(u.bytes)
                 else fixed2(u.bytes / Scale(SelectTier(u)))
  {
    if SelectTier(u) == B then plain(Shown(u)) else fixed2(Shown(u))
  }

  /** `Unit::fmt`: the number followed by the tier's suffix. */
  function Format(u: Unit, fixed2: Renderer, plain: Renderer): (r: string)
    ensures r == (if SelectTier(u) == B then plain(u.bytes)
                  else fixed2(u.bytes / Scale(SelectTier(u)))) + SelectTier(u).Suffix()
  {
    ShownText(u, fixed2, plain) + SelectTier(u).Suffix()
  }

  /** A value and its negation get the same tier. */
  lemma SelectTierSignSymmetric(x: real)
    ensures SelectTier(Unit(-x)) == SelectTier(Unit(x))
  {
    assert Magnitude(-x) == Magnitude(x);
  }

  /** The printed number keeps the sign of the byte count: a value and its
      negation print negated numbers in the same tier. */
  lemma FormatSignSymmetric(u: Unit, fixed2: Renderer, plain: Renderer)
    ensures Shown(Unit(-u.bytes)) == -Shown(u)
    ensures Format(Unit(-u.bytes), fixed2, plain) ==
            (if SelectTier(u) == B then plain(-Shown(u)) else fixed2(-Shown(u))) + SelectTier(u).Suffix()
  {
    var t := SelectTier(u);
    SelectTierSignSymmetric(u.bytes);
    NegatedQuotient(u.bytes, Scale(t));
  }

  lemma NegatedQuotient(x: real, d: real)
    requires d != 0.0
    ensures -x / d == -(x / d)
  {
  }

  /** Scaling the printed number back by the tier gives the byte count: the
      formatter loses nothing before rendering. */
  lemma FromTierOfShown(u: Unit)
    ensures FromTier(Shown(u), SelectTier(u)) == u
  {
    var t := SelectTier(u);
    ScaleIsDownFrom(t, u.bytes);
  }

  /** Which tier a value `value * Scale(t)` is printed in: `t` itself when
      the magnitude of the count is at least one unit (any count for B) and below 1024 units
      (any count for TB). */
  ghost predicate InTierRange(value: real, t: Tier) {
    && (t == B || Magnitude(value) >= 1.0)
    && (t == TB || Magnitude(value) < 1024.0)
  }

  lemma SelectTierOfScaled(value: real, t: Tier)
    requires InTierRange(value, t)
    ensures SelectTier(Unit(value * Scale(t))) == t
  {
    ScaledMagnitude(value, Scale(t));
  }

  /** The number printed for `value` units of a tier `t` it is printed in
      is `value` itself. */
  lemma ShownOfScaled(value: real, t: Tier)
    requires SelectTier(Unit(value * Scale(t))) == t
    ensures Shown(Unit(value * Scale(t))) == value
  {
    ScaleIsDownFrom(t, value * Scale(t));
  }

  lemma ScaledMagnitude(value: real, scale: real)
    requires scale >= 1.0
    ensures Magnitude(value * scale) == Magnitude(value) * scale
  {
  }

  /** Parsing and then formatting a count of a tier with 1 <= |count| < 1024
      (no lower bound for B, no upper bound for TB) prints that count in
      that tier (so "10KB" prints as "10.00KB" when `{:.2}` renders 10 as
      "10.00"). A count of exactly 1024 prints one tier up. */
  lemma FormatAfterParse(s: string, parseNumber: NumberParser, i: nat, value: real, t: Tier,
                         fixed2: Renderer, plain: Renderer)
    requires Denotes(s, parseNumber, i, value, t)
    requires InTierRange(value, t)
    ensures Parse(s, parseNumber).Success?
    ensures Format(Parse(s, parseNumber).value, fixed2, plain) ==
            (if t == B then plain(value) else fixed2(value)) + t.Suffix()
  {
    ParseComplete(s, parseNumber, i, value, t);
    SelectTierOfScaled(value, t);
    ShownOfScaled(value, t);
  }

  /** Formatting and then parsing gives the value back whenever the rendered
      number ends with a digit and the number parser reads its normalised
      text as the number that was rendered. */
  lemma ParseAfterFormat(u: Unit, parseNumber: NumberParser, fixed2: Renderer, plain: Renderer)
    requires |ShownText(u, fixed2, plain)| > 0
    requires IsNumeric(ShownText(u, fixed2, plain)[|ShownText(u, fixed2, plain)| - 1])
    requires parseNumber(ReplaceCommas(Trim(ShownText(u, fixed2, plain)))) == Some(Shown(u))
    ensures Parse(Format(u, fixed2, plain), parseNumber) == Success(u)
  {
    var text := ShownText(u, fixed2, plain);
    var t := SelectTier(u);
    var s := Format(u, fixed2, plain);
    var i := |text| - 1;
    assert Denotes(s, parseNumber, i, Shown(u), t) by {
      assert s[..i + 1] == text;
      assert s[i + 1..] == t.Suffix();
      SuffixIsPlain(t);
    }
    ParseComplete(s, parseNumber, i, Shown(u), t);
    FromTierOfShown(u);
  }
}
