/** The unit tests of simple_size (`mod tests` in src/lib.rs), stated for any
    number parser and renderers that behave as the standard library does on
    the few inputs involved. */
module SimpleSizeTests {
  import opened Wrappers
  import opened Strings
  import opened SimpleSize

  /** A number written without whitespace and ending in a digit, directly
      followed by a tier's suffix, denotes in that tier whatever the number
      parser makes of it once its commas are full stops. */
  lemma JoinedDenotes(number: string, t: Tier, parseNumber: NumberParser, value: real)
    requires |number| > 0 && IsNumeric(number[|number| - 1]) && NoWhitespace(number)
    requires parseNumber(ReplaceCommas(number)) == Some(value)
    ensures Denotes(number + t.Suffix(), parseNumber, |number| - 1, value, t)
  {
    var s := number + t.Suffix();
    var i := |number| - 1;
    assert s[..i + 1] == number;
    assert s[i + 1..] == t.Suffix();
    SuffixIsPlain(t);
  }

  /** Such a joined string parses to that number in that tier. */
  lemma ParseJoined(number: string, t: Tier, parseNumber: NumberParser, value: real)
    requires |number| > 0 && IsNumeric(number[|number| - 1]) && NoWhitespace(number)
    requires parseNumber(ReplaceCommas(number)) == Some(value)
    ensures Parse(number + t.Suffix(), parseNumber) == Success(Unit(value * Scale(t)))
  {
    var s := number + t.Suffix();
    assert Parse(s, parseNumber) == Success(FromTier(value, t)) by {
      JoinedDenotes(number, t, parseNumber, value);
      ParseComplete(s, parseNumber, |number| - 1, value, t);
    }
    assert FromTier(value, t).AsBytes() == value * Scale(t);
  }

  /** Test `from_str`: one unit of each tier, "1B" to "1TB", is 1, 1024,
      1048576, 1073741824 or 1099511627776 bytes (`Scale`). */
  lemma ParseOneOfEachTier(parseNumber: NumberParser, t: Tier)
    requires parseNumber("1") == Some(1.0)
    ensures Parse("1" + t.Suffix(), parseNumber) == Success(Unit(Scale(t)))
  {
    assert ReplaceCommas("1") == "1";
    ParseJoined("1", t, parseNumber, 1.0);
  }

  /** Test `from_str_negative`: the sign is kept and scaled, "-1B" to "-1TB". */
  lemma ParseNegativeOfEachTier(parseNumber: NumberParser, t: Tier)
    requires parseNumber("-1") == Some(-1.0)
    ensures Parse("-1" + t.Suffix(), parseNumber) == Success(Unit(-Scale(t)))
  {
    assert Parse("-1" + t.Suffix(), parseNumber) == Success(Unit(-1.0 * Scale(t))) by {
      assert ReplaceCommas("-1") == "-1";
      ParseJoined("-1", t, parseNumber, -1.0);
    }
  }

  /** A decimal comma reaches the number parser as a full stop: "1,5KB" is
      one and a half kilobytes, and so on for every tier. */
  lemma ParseDecimalComma(parseNumber: NumberParser, t: Tier)
    requires parseNumber("1.5") == Some(1.5)
    ensures Parse("1,5" + t.Suffix(), parseNumber) == Success(Unit(1.5 * Scale(t)))
  {
    assert Parse("1,5" + t.Suffix(), parseNumber) == Success(Unit(1.5 * Scale(t))) by {
      DecimalCommaText();
      ParseJoined("1,5", t, parseNumber, 1.5);
    }
  }

  /** "1,5" ends with a digit, has no whitespace, and its comma becomes a
      full stop. */
  lemma DecimalCommaText()
    ensures NoWhitespace("1,5") && IsNumeric("1,5"[2])
    ensures ReplaceCommas("1,5") == "1.5"
  {
    assert ReplaceCommas("1,5")[1] == '.';
  }

  /** An unknown suffix is refused. */
  lemma ParseRefusesUnknownSuffix(parseNumber: NumberParser)
    ensures Parse("10XB", parseNumber) == Failure(InvalidFormat("10XB"))
  {
    var s := "10XB";
    assert s[2..] == "XB";
    assert Trim("XB") == "XB";
    ParseRejectsBadSuffix(s, parseNumber, 1);
  }

  /** A string without digits, the empty one included, is refused. */
  lemma ParseRefusesNoDigits(parseNumber: NumberParser)
    ensures Parse("abc", parseNumber) == Failure(InvalidFormat("abc"))
    ensures Parse("", parseNumber) == Failure(InvalidFormat(""))
  {
    ParseNeedsNumeric("abc", parseNumber);
    ParseNeedsNumeric("", parseNumber);
  }

  /** Tests `to_string` and `to_string_negative`: ten units of each tier,
      "10B" to "10TB" and "-10B" to "-10TB", print in that tier, with two
      decimals except for bytes. */
  lemma FormatTenOfEachTier(parseNumber: NumberParser, fixed2: Renderer, plain: Renderer, t: Tier)
    requires parseNumber("10") == Some(10.0) && parseNumber("-10") == Some(-10.0)
    requires fixed2(10.0) == "10.00" && fixed2(-10.0) == "-10.00"
    requires plain(10.0) == "10" && plain(-10.0) == "-10"
    ensures Parse("10" + t.Suffix(), parseNumber).Success?
    ensures Format(Parse("10" + t.Suffix(), parseNumber).value, fixed2, plain) ==
            (if t == B then "10" else "10.00") + t.Suffix()
    ensures Parse("-10" + t.Suffix(), parseNumber).Success?
    ensures Format(Parse("-10" + t.Suffix(), parseNumber).value, fixed2, plain) ==
            (if t == B then "-10" else "-10.00") + t.Suffix()
  {
    FormatTen("10", 10.0, t, parseNumber, fixed2, plain);
    FormatTen("-10", -10.0, t, parseNumber, fixed2, plain);
  }

  /** Ten units, or minus ten, of a tier print in that tier. */
  lemma FormatTen(number: string, value: real, t: Tier, parseNumber: NumberParser, fixed2: Renderer, plain: Renderer)
    requires number == "10" || number == "-10"
    requires value == 10.0 || value == -10.0
    requires parseNumber(number) == Some(value)
    ensures Parse(number + t.Suffix(), parseNumber).Success?
    ensures Format(Parse(number + t.Suffix(), parseNumber).value, fixed2, plain) ==
            (if t == B then plain(value) else fixed2(value)) + t.Suffix()
  {
    assert ReplaceCommas(number) == number;
    ParseJoined(number, t, parseNumber, value);
    SelectTierOfScaled(value, t);
    ShownOfScaled(value, t);
  }

  /** A negative count of one and a half gigabytes prints in the GB tier. */
  lemma NegativeUsesMagnitude()
    ensures SelectTier(Unit(-1610612736.0)) == GB
  {
    SelectTierOfScaled(-1.5, GB);
  }

  /** In-place addition leaves the left operand equal to the sum. */
  method AddAssignExample() returns (sum: Unit)
    ensures sum == FromBytes(8.0)
  {
    var cell := new UnitCell(FromBytes(5.0));
    cell.AddAssign(FromBytes(3.0));
    sum := cell.Value();
    assert sum == Add(FromBytes(5.0), FromBytes(3.0));
  }

  /** `+=` followed by `-=` of the same amount leaves a cell as it was, and
      so do `*=` followed by `/=` of a non-zero amount. */
  method AssignRoundTrip(cell: UnitCell, rhs: Unit)
    requires rhs.bytes != 0.0
    modifies cell
    ensures cell.Value() == old(cell.Value())
  {
    cell.AddAssign(rhs);
    cell.SubAssign(rhs);
    cell.MulAssign(rhs);
    cell.DivAssign(rhs);
  }
}
