/**
 * The two input sanitisers the generator applies to its form fields:
 * `clampNumber` for the numeric ones (size, margin, logo ratio) and
 * `normalizeHex` for the two colour pickers.
 */
module Dom {
  import opened Strings

  /** A JavaScript number after `Number(value)`: a finite value or one of the non-finite ones. */
  datatype Num = Finite(v: real) | NaN | PosInf | NegInf

  function Max(a: real, b: real): real { if a >= b then a else b }
  function Min(a: real, b: real): real { if a <= b then a else b }

  /**
   * `clampNumber(value, { min, max, fallback })`: a value that is not finite
   * gives the fallback; a finite one is pushed into `[min, max]`, and when
   * the bounds are crossed the upper bound wins.
   */
  function ClampNumber(value: Num, min: real, max: real, fallback: real): (r: real)
    ensures !value.Finite? ==> r == fallback
    ensures value.Finite? && min <= max ==> min <= r <= max
    ensures value.Finite? && min <= value.v <= max ==> r == value.v
    ensures value.Finite? && min > max ==> r == max
  {
    match value
    case Finite(v) => Min(max, Max(min, v))
    case _ => fallback
  }

  /** Clamping a finite value a second time changes nothing. */
  lemma ClampIdempotent(value: Num, min: real, max: real, fallback: real)
    requires value.Finite?
    ensures var once := ClampNumber(value, min, max, fallback);
      ClampNumber(Finite(once), min, max, fallback) == once
  {
  }

  /** With ordered bounds the result is the point of `[min, max]` nearest to the value. */
  lemma ClampNearest(v: real, min: real, max: real, fallback: real, y: real)
    requires min <= max && min <= y <= max
    ensures var r := ClampNumber(Finite(v), min, max, fallback);
      (if r >= v then r - v else v - r) <= (if y >= v then y - v else v - y)
  {
  }

  predicate IsHexDigit(c: char) {
    '0' <= c <= '9' || 'a' <= c <= 'f' || 'A' <= c <= 'F'
  }

  /** `/^#[0-9a-fA-F]{6}$/`. */
  predicate IsHexColor(s: string) {
    |s| == 7 && s[0] == '#' && forall k :: 1 <= k < 7 ==> IsHexDigit(s[k])
  }

  /**
   * `normalizeHex(hex, fallback)`: the trimmed text when it is a `#` and six
   * hex digits, in the case it was written; the fallback otherwise. A missing
   * or empty field arrives here as the empty string.
   */
  function NormalizeHex(hex: string, fallback: string): (r: string)
    ensures IsHexColor(Trim(hex)) ==> r == Trim(hex)
    ensures r != fallback ==> r == Trim(hex) && IsHexColor(r)
    ensures IsHexColor(fallback) ==> IsHexColor(r)
  {
    var text := Trim(hex);
    if IsHexColor(text) then text else fallback
  }

  /** A colour code has no white space at either end, so trimming leaves it alone. */
  lemma HexColorTrimmed(s: string)
    requires IsHexColor(s)
    ensures Trim(s) == s
  {
    assert !IsSpace(s[6]);
    TrimFixed(s);
  }

  /** Normalising an accepted colour again keeps it, whatever the second fallback. */
  lemma NormalizeHexIdempotent(hex: string, fallback: string, other: string)
    requires IsHexColor(fallback)
    ensures NormalizeHex(NormalizeHex(hex, fallback), other) == NormalizeHex(hex, fallback)
  {
    HexColorTrimmed(NormalizeHex(hex, fallback));
  }

  /** An accepted colour is returned character for character: `#ABCDEF` is not lower-cased. */
  lemma NormalizeHexKeepsCase(s: string, fallback: string)
    requires IsHexColor(s)
    ensures NormalizeHex(s, fallback) == s
  {
    HexColorTrimmed(s);
  }

  /** White space typed in front of the field is ignored. */
  lemma NormalizeHexLeadingSpace(hex: string, fallback: string)
    ensures NormalizeHex(" " + hex, fallback) == NormalizeHex(hex, fallback)
  {
    assert (" " + hex)[1..] == hex;
  }
}
