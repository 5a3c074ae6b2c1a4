/** The string operations of Rust's `str` that `Unit::from_str` relies on:
    `rfind(char::is_numeric)`, `trim` and `replace(",", ".")`. Strings are
    sequences of Unicode scalar values; "numeric" is restricted to ASCII digits. */
module Strings {
  import opened Wrappers

  /** A numeric character: the ASCII digits only. */
  predicate IsNumeric(c: char) {
    '0' <= c <= '9'
  }

  /** Rust's `char::is_whitespace`: the Unicode White_Space property. */
  predicate IsWhitespace(c: char) {
    || ('\t' <= c <= '\r')          // tab, line feed, vertical tab, form feed, carriage return
    || c == ' '
    || c == '\U{85}'                // next line
    || c == '\U{A0}'                // no-break space
    || c == '\U{1680}'              // ogham space mark
    || ('\U{2000}' <= c <= '\U{200A}')
    || c == '\U{2028}' || c == '\U{2029}'
    || c == '\U{202F}' || c == '\U{205F}'
    || c == '\U{3000}'
  }

  /** No character of `s` is numeric. */
  predicate NoNumeric(s: string) {
    forall j | 0 <= j < |s| :: !IsNumeric(s[j])
  }

  /** No character of `s` is whitespace. */
  predicate NoWhitespace(s: string) {
    forall j | 0 <= j < |s| :: !IsWhitespace(s[j])
  }

  /** `s.rfind(char::is_numeric)`: the index of the last numeric character,
      or None when there is none. The index counts characters where `rfind`
      counts UTF-8 bytes; both name the same split point, since a digit is
      one byte. */
  function LastNumericIndex(s: string): (r: Option<nat>)
    ensures r.Some? ==> r.value < |s| && IsNumeric(s[r.value])
    ensures r.Some? ==> forall j | r.value < j < |s| :: !IsNumeric(s[j])
    ensures r.None? <==> NoNumeric(s)
  {
    if |s| == 0 then None
    else if IsNumeric(s[|s| - 1]) then Some(|s| - 1)
    else LastNumericIndex(s[..|s| - 1])
  }

  /** Number of leading whitespace characters of `s`. */
  function LeadingWhitespace(s: string): (k: nat)
    ensures k <= |s|
    ensures forall j | 0 <= j < k :: IsWhitespace(s[j])
    ensures k < |s| ==> !IsWhitespace(s[k])
  {
    if |s| == 0 || !IsWhitespace(s[0]) then 0
    else 1 + LeadingWhitespace(s[1..])
  }

  /** Length of `s` once its trailing whitespace is removed. */
  function TrailingWhitespaceStart(s: string): (k: nat)
    ensures k <= |s|
    ensures forall j | k <= j < |s| :: IsWhitespace(s[j])
    ensures k > 0 ==> !IsWhitespace(s[k - 1])
  {
    if |s| == 0 || !IsWhitespace(s[|s| - 1]) then |s|
    else TrailingWhitespaceStart(s[..|s| - 1])
  }

  /** The factor `s[i..j]` has only whitespace outside it and, unless it is
      empty, no whitespace at its ends. */
  ghost predicate IsTrimFactor(s: string, i: nat, j: nat) {
    && i <= j <= |s|
    && (forall k | 0 <= k < i :: IsWhitespace(s[k]))
    && (forall k | j <= k < |s| :: IsWhitespace(s[k]))
    && (i < j ==> !IsWhitespace(s[i]) && !IsWhitespace(s[j - 1]))
  }

  /** `r` is `s` with its leading and trailing whitespace removed. */
  ghost predicate IsTrimOf(s: string, r: string) {
    exists i: nat, j: nat :: IsTrimFactor(s, i, j) && r == s[i..j]
  }

  /** `str::trim`. */
  function Trim(s: string): (r: string)
    ensures NoWhitespace(s) ==> r == s
  {
    var i := LeadingWhitespace(s);
    var j := i + TrailingWhitespaceStart(s[i..]);
    assert s[i..][..j - i] == s[i..j];
    s[i..j]
  }

  /** `Trim` removes exactly the leading and trailing whitespace. */
  lemma TrimIsTrimOf(s: string)
    ensures IsTrimOf(s, Trim(s))
  {
    var i := LeadingWhitespace(s);
    var j := i + TrailingWhitespaceStart(s[i..]);
    assert s[i..][..j - i] == s[i..j];
    assert forall k | j <= k < |s| :: s[k] == s[i..][k - i];
    assert i < j ==> s[j - 1] == s[i..][j - i - 1];
    assert IsTrimFactor(s, i, j);
  }

  /** `IsTrimOf` determines the trim: whatever satisfies it is `Trim(s)`. */
  lemma TrimIsUnique(s: string, r: string)
    requires IsTrimOf(s, r)
    ensures r == Trim(s)
  {
    var i: nat, j: nat :| IsTrimFactor(s, i, j) && r == s[i..j];
    if i == j {
      TrimOfWhitespace(s, i);
    } else {
      TrimOfFactor(s, i, j);
    }
  }

  /** A string made of whitespace only trims to the empty string. */
  lemma TrimOfWhitespace(s: string, i: nat)
    requires IsTrimFactor(s, i, i)
    ensures Trim(s) == []
  {
    LeadingWhitespaceIs(s, |s|);
  }

  /** A non-empty trim factor `s[i..j]` is `Trim(s)`. */
  lemma TrimOfFactor(s: string, i: nat, j: nat)
    requires i < j && IsTrimFactor(s, i, j)
    ensures Trim(s) == s[i..j]
  {
    LeadingWhitespaceIs(s, i);
    var t := s[i..];
    assert forall k | j - i <= k < |t| :: IsWhitespace(t[k]) by {
      forall k | j - i <= k < |t| ensures IsWhitespace(t[k]) {
        assert t[k] == s[i + k];
      }
    }
    assert t[j - i - 1] == s[j - 1];
    TrailingWhitespaceStartIs(t, j - i);
    assert t[..j - i] == s[i..j];
  }

  /** A whitespace prefix of length `i` followed by a non-whitespace
      character, or by the end, is what `LeadingWhitespace` counts. */
  lemma LeadingWhitespaceIs(s: string, i: nat)
    requires i <= |s|
    requires forall k | 0 <= k < i :: IsWhitespace(s[k])
    requires i < |s| ==> !IsWhitespace(s[i])
    ensures LeadingWhitespace(s) == i
  {
  }

  /** A whitespace suffix from `m` on, preceded by a non-whitespace
      character or by the start, is where `TrailingWhitespaceStart` points. */
  lemma TrailingWhitespaceStartIs(s: string, m: nat)
    requires m <= |s|
    requires forall k | m <= k < |s| :: IsWhitespace(s[k])
    requires m > 0 ==> !IsWhitespace(s[m - 1])
    ensures TrailingWhitespaceStart(s) == m
  {
  }

  /** `str::replace(",", ".")`: every comma becomes a full stop. */
  function ReplaceCommas(s: string): (r: string)
    ensures |r| == |s|
    ensures forall j | 0 <= j < |s| :: r[j] == if s[j] == ',' then '.' else s[j]
  {
    if |s| == 0 then []
    else [if s[0] == ',' then '.' else s[0]] + ReplaceCommas(s[1..])
  }
}
