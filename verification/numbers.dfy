/**
 * Integer text conversions as the two implementations perform them:
 * JavaScript `parseInt` and `Number.prototype.toString(16)`, Python `int()`
 * and the `X` format specification, with round-trip lemmas between them.
 */
module Numbers {
  import opened Wrappers
  import opened Text

  /** Value of an ASCII digit or letter as a digit in bases up to 36; 36 for any other character. */
  function DigitValue(c: char): (d: nat)
    ensures d <= 36
    ensures d < 10 <==> '0' <= c <= '9'
  {
    if '0' <= c <= '9' then c as int - '0' as int
    else if 'a' <= c <= 'z' then c as int - 'a' as int + 10
    else if 'A' <= c <= 'Z' then c as int - 'A' as int + 10
    else 36
  }

  predicate IsDigit(c: char, base: nat) {
    DigitValue(c) < base
  }

  predicate AllDigits(s: string, base: nat) {
    forall i :: 0 <= i < |s| ==> IsDigit(s[i], base)
  }

  /** A non-empty string of the decimal digits 0-9. */
  predicate IsDecimal(s: string) {
    |s| > 0 && AllDigits(s, 10)
  }

  /** The number a digit string denotes in `base`, most significant digit first. */
  function ValueOf(z: string, base: nat): nat
    decreases |z|
  {
    if z == [] then 0 else ValueOf(z[..|z| - 1], base) * base + DigitValue(z[|z| - 1])
  }

  /** Length of the longest prefix of `s` made of digits of `base`. */
  function DigitPrefixLen(s: string, base: nat): (n: nat)
    ensures n <= |s|
    ensures AllDigits(s[..n], base)
    ensures n < |s| ==> !IsDigit(s[n], base)
    decreases |s|
  {
    if |s| > 0 && IsDigit(s[0], base) then
      var m := DigitPrefixLen(s[1..], base);
      assert s[..m + 1] == [s[0]] + s[1..][..m];
      m + 1
    else 0
  }

  predicate HasHexPrefix(u: string) {
    |u| >= 2 && u[0] == '0' && (u[1] == 'x' || u[1] == 'X')
  }

  // ---------------------------------------------------------------------
  // JavaScript
  // ---------------------------------------------------------------------

  /** A JavaScript number as the extractors can produce it: an integer, or NaN. */
  datatype JsNumber = Finite(value: int) | NaN

  /** The radix argument of `parseInt`: omitted, 10 or 16. */
  datatype Radix = Unspecified | Radix10 | Radix16

  /**
   * ECMAScript `parseInt(s, radix)`: skips leading white space, takes one
   * optional sign, then reads the magnitude (JsMagnitude); no digit at all
   * gives NaN. It never throws.
   */
  function JsParseInt(s: string, radix: Radix): JsNumber {
    var t := TrimStart(JsSpaces, s);
    match JsMagnitude(Unsigned(t), radix)
    case NaN => NaN
    case Finite(v) => Finite(if IsNegative(t) then -v else v)
  }

  /** The text starts with a minus sign. */
  predicate IsNegative(t: string) {
    |t| > 0 && t[0] == '-'
  }

  /** The text without one leading `+` or `-`. */
  function Unsigned(t: string): (u: string)
    ensures u == t || (|t| > 0 && (t[0] == '-' || t[0] == '+') && u == t[1..])
  {
    if |t| > 0 && (t[0] == '-' || t[0] == '+') then t[1..] else t
  }

  /**
   * The unsigned part of `parseInt`: a `0x`/`0X` prefix is dropped unless
   * the radix is 10 (switching to base 16 when the radix is omitted), then
   * the longest run of digits of the base is read; none gives NaN.
   */
  function JsMagnitude(u: string, radix: Radix): JsNumber {
    var prefixed := radix != Radix10 && HasHexPrefix(u);
    var base := if prefixed || radix == Radix16 then 16 else 10;
    var w := if prefixed then u[2..] else u;
    var n := DigitPrefixLen(w, base);
    if n == 0 then NaN else Finite(ValueOf(w[..n], base))
  }

  /** A string that does not start with white space is its own TrimStart. */
  lemma NoLeadingSpace(s: string)
    requires |s| > 0 && DigitValue(s[0]) < 36
    ensures TrimStart(JsSpaces, s) == s
  {
    assert !IsJsSpace(s[0]);
  }

  /** A decimal digit string parses to its value, with radix 10 or with the radix omitted. */
  lemma JsParseIntDecimal(s: string, radix: Radix)
    requires IsDecimal(s) && radix != Radix16
    ensures JsParseInt(s, radix) == Finite(ValueOf(s, 10))
  {
    NoLeadingSpace(s);
    assert !IsNegative(s) && Unsigned(s) == s;
    DecimalPrefixIsAll(s);
    assert JsMagnitude(s, radix) == Finite(ValueOf(s, 10));
  }

  /** The digit run of `d + rest` is `d` when `rest` does not start with a digit. */
  lemma {:induction false} DigitPrefixOf(d: string, rest: string, base: nat)
    requires AllDigits(d, base) && (rest == [] || !IsDigit(rest[0], base))
    ensures DigitPrefixLen(d + rest, base) == |d|
    decreases |d|
  {
    if d != [] {
      assert (d + rest)[1..] == d[1..] + rest;
      DigitPrefixOf(d[1..], rest, base);
    } else {
      assert d + rest == rest;
    }
  }

  /** `parseInt(s, 10)` reads the leading digits and ignores whatever follows them ("12abc" gives 12). */
  lemma JsParseIntPrefix(d: string, rest: string)
    requires IsDecimal(d) && (rest == [] || !IsDigit(rest[0], 10))
    ensures JsParseInt(d + rest, Radix10) == Finite(ValueOf(d, 10))
  {
    var s := d + rest;
    assert s[0] == d[0];
    NoLeadingSpace(s);
    assert !IsNegative(s) && Unsigned(s) == s;
    DigitPrefixOf(d, rest, 10);
    assert s[..|d|] == d;
  }

  /** In a string of digits the longest digit prefix is the whole string. */
  lemma DecimalPrefixIsAll(s: string)
    requires IsDecimal(s)
    ensures DigitPrefixLen(s, 10) == |s| && s[..|s|] == s
  {
  }

  function HexDigitChar(d: nat): (c: char)
    requires d < 16
    ensures DigitValue(c) == d
    ensures '0' <= c <= '9' || 'a' <= c <= 'f'
  {
    if d < 10 then ('0' as int + d) as char else ('a' as int + d - 10) as char
  }

  /** The shortest lower-case base-16 numeral of `n`. */
  function HexDigits(n: nat): (r: string)
    ensures |r| >= 1 && AllDigits(r, 16)
    ensures forall i :: 0 <= i < |r| ==> '0' <= r[i] <= '9' || 'a' <= r[i] <= 'f'
    ensures ValueOf(r, 16) == n
    ensures r[0] == '0' ==> n == 0
    decreases n
  {
    if n < 16 then [HexDigitChar(n)]
    else
      var r := HexDigits(n / 16) + [HexDigitChar(n % 16)];
      assert r[..|r| - 1] == HexDigits(n / 16);
      r
  }

  /** `Number.prototype.toString(16)`: a sign for negatives, and "NaN" for NaN. */
  function JsToString16(x: JsNumber): string {
    match x
    case NaN => "NaN"
    case Finite(v) => if v < 0 then "-" + HexDigits(-v) else HexDigits(v)
  }

  // ---------------------------------------------------------------------
  // Python
  // ---------------------------------------------------------------------

  /** The base argument of `int()`: omitted (10) or 16. */
  datatype PyBase = Base10 | Base16

  function BaseValue(b: PyBase): nat {
    if b == Base10 then 10 else 16
  }

  /**
   * The digits `int()` accepts after the sign and prefix: at least one
   * digit, single underscores only between digits (or right after a `0x`
   * prefix) and none at the end.
   */
  predicate PyDigitsValid(w: string, base: nat, afterPrefix: bool) {
    && |w| > 0
    && (forall i :: 0 <= i < |w| ==> IsDigit(w[i], base) || w[i] == '_')
    && NoDoubleUnderscore(w)
    && w[|w| - 1] != '_'
    && (w[0] == '_' ==> afterPrefix)
  }

  predicate IsUnderscore(c: char) {
    c == '_'
  }

  /** No two underscores in a row. */
  predicate NoDoubleUnderscore(w: string)
    decreases |w|
  {
    |w| < 2 || (!(w[0] == '_' && w[1] == '_') && NoDoubleUnderscore(w[1..]))
  }

  /** A string without underscores has no two in a row. */
  lemma {:induction false} NoUnderscoreNoDouble(w: string)
    requires forall i :: 0 <= i < |w| ==> w[i] != '_'
    ensures NoDoubleUnderscore(w)
    decreases |w|
  {
    if |w| >= 2 {
      NoUnderscoreNoDouble(w[1..]);
    }
  }

  /**
   * Python `int(s)` / `int(s, 16)`: strips white space, takes one optional
   * sign and, in base 16, an optional `0x`/`0X` prefix; anything else that
   * is not a well-formed digit string raises ValueError, modelled as None.
   */
  function PyInt(s: string, base: PyBase): Option<int> {
    var t := PyStrip(s);
    match PyMagnitude(Unsigned(t), base)
    case None => None
    case Some(v) => Some(if IsNegative(t) then -(v as int) else v as int)
  }

  /** The unsigned part of `int()`: an optional `0x` in base 16, then digits with single underscores. */
  function PyMagnitude(u: string, base: PyBase): Option<nat> {
    var prefixed := base == Base16 && HasHexPrefix(u);
    var w := if prefixed then u[2..] else u;
    var b := BaseValue(base);
    if PyDigitsValid(w, b, prefixed) then Some(ValueOf(RemoveAll(w, IsUnderscore), b)) else None
  }

  /** A decimal string never starts with `0x`, so the code formatters always re-format it. */
  lemma DecimalNotHex(s: string)
    requires IsDecimal(s)
    ensures !StartsWith(s, "0x")
  {
    if |s| >= 2 {
      assert IsDigit(s[1], 10);
    }
  }

  /** A decimal digit string converts to its value. */
  lemma PyIntDecimal(s: string)
    requires IsDecimal(s)
    ensures PyInt(s, Base10) == Some(ValueOf(s, 10))
  {
    StripSelf(s);
    assert !IsNegative(s) && Unsigned(s) == s;
    DigitsAreValid(s, 10);
    assert PyDigitsValid(s, 10, false);
    assert PyMagnitude(s, Base10) == Some(ValueOf(s, 10));
  }

  /**
   * Unlike `parseInt`, `int()` accepts nothing after the digits but
   * underscores between digits and white space: "12abc" raises ValueError.
   */
  lemma PyIntRejectsTrailing(d: string, rest: string)
    requires IsDecimal(d) && |rest| > 0 && !IsDigit(rest[0], 10) && rest[0] != '_' && !IsPySpace(rest[0])
    ensures PyInt(d + rest, Base10) == None
  {
    var s := d + rest;
    assert s[0] == d[0] && s[|d|] == rest[0];
    assert !IsPySpace(s[0]);
    assert TrimStart(PySpaces, s) == s;
    var t := PyStrip(s);
    TrimEndIsPrefix(PySpaces, s);
    assert |t| > |d| && t[|d|] == s[|d|];
    assert t[0] == d[0];
    assert !IsNegative(t) && Unsigned(t) == t;
    assert !PyDigitsValid(t, 10, false);
  }

  /** Python `format(v, '0<width>X')`: upper-case hex, zero-padded after the sign. */
  function PyHex(v: int, width: nat): string {
    if v < 0 then "-" + PaddedHex(-v, if width > 0 then width - 1 else 0)
    else PaddedHex(v, width)
  }

  // ---------------------------------------------------------------------
  // Round trips
  // ---------------------------------------------------------------------

  lemma {:induction false} ValueOfUpper(s: string, base: nat)
    ensures ValueOf(Upper(s), base) == ValueOf(s, base)
    ensures AllDigits(s, base) ==> AllDigits(Upper(s), base)
    decreases |s|
  {
    if s != [] {
      assert Upper(s)[..|s| - 1] == Upper(s[..|s| - 1]);
      ValueOfUpper(s[..|s| - 1], base);
    }
  }

  lemma {:induction false} ValueOfZeros(k: nat, base: nat)
    ensures ValueOf(Repeat('0', k), base) == 0
    decreases k
  {
    if k > 0 {
      assert Repeat('0', k)[..k - 1] == Repeat('0', k - 1);
      ValueOfZeros(k - 1, base);
    }
  }

  /** Leading zeros do not change the value of a numeral. */
  lemma {:induction false} ValueOfLeadingZeros(k: nat, s: string, base: nat)
    ensures ValueOf(Repeat('0', k) + s, base) == ValueOf(s, base)
    decreases |s|
  {
    if s == [] {
      assert Repeat('0', k) + s == Repeat('0', k);
      ValueOfZeros(k, base);
    } else {
      var z := Repeat('0', k) + s;
      assert z[..|z| - 1] == Repeat('0', k) + s[..|s| - 1];
      ValueOfLeadingZeros(k, s[..|s| - 1], base);
    }
  }

  /** Zero-padding keeps a numeral made of digits, and keeps its value. */
  lemma PadZeros(h: string, width: nat, base: nat)
    requires AllDigits(h, base) && base > 0
    ensures AllDigits(PadStart(h, width, '0'), base)
    ensures ValueOf(PadStart(h, width, '0'), base) == ValueOf(h, base)
  {
    if |h| < width {
      var z := Repeat('0', width - |h|);
      assert PadStart(h, width, '0') == z + h;
      ValueOfLeadingZeros(width - |h|, h, base);
      forall i | 0 <= i < |z + h| ensures IsDigit((z + h)[i], base) {
        if i < |z| { assert (z + h)[i] == '0'; } else { assert (z + h)[i] == h[i - |z|]; }
      }
    }
  }

  /**
   * The upper-case base-16 numeral of `n`, zero-padded to `width` characters
   * (JavaScript `toString(16).padStart(width, '0').toUpperCase()` and Python
   * `format(n, '0<width>X')` on a non-negative number).
   */
  function PaddedHex(n: nat, width: nat): (r: string)
    ensures |r| == if |HexDigits(n)| >= width then |HexDigits(n)| else width
    ensures |r| >= 1 && AllDigits(r, 16)
    ensures forall i :: 0 <= i < |r| ==> '0' <= r[i] <= '9' || 'A' <= r[i] <= 'F'
    ensures ValueOf(r, 16) == n
  {
    var x := HexDigits(n);
    ValueOfUpper(x, 16);
    PadZeros(Upper(x), width, 16);
    UpperHexPadded(x, width);
    PadStart(Upper(x), width, '0')
  }

  /** Upper-casing lower-case hex digits and padding them with zeros leaves only `0-9` and `A-F`. */
  lemma UpperHexPadded(x: string, width: nat)
    requires forall i :: 0 <= i < |x| ==> '0' <= x[i] <= '9' || 'a' <= x[i] <= 'f'
    ensures var r := PadStart(Upper(x), width, '0');
      forall i :: 0 <= i < |r| ==> '0' <= r[i] <= '9' || 'A' <= r[i] <= 'F'
  {
    var u := Upper(x);
    assert forall i :: 0 <= i < |u| ==> '0' <= u[i] <= '9' || 'A' <= u[i] <= 'F';
    var r := PadStart(u, width, '0');
    forall i | 0 <= i < |r| ensures '0' <= r[i] <= '9' || 'A' <= r[i] <= 'F' {
      if i >= |r| - |u| {
        assert r[i] == u[i - (|r| - |u|)];
      }
    }
  }

  /** JavaScript `parseInt("0x" + d, 16)` reads a hex digit string back to its value. */
  lemma JsReadHex(d: string)
    requires |d| >= 1 && AllDigits(d, 16)
    ensures JsParseInt("0x" + d, Radix16) == Finite(ValueOf(d, 16))
  {
    var s := "0x" + d;
    NoLeadingSpace(s);
    assert !IsNegative(s) && Unsigned(s) == s;
    assert HasHexPrefix(s) && s[2..] == d;
    var k := DigitPrefixLen(d, 16);
    assert k == |d|;
    assert d[..k] == d;
    assert JsMagnitude(s, Radix16) == Finite(ValueOf(d, 16));
  }

  /** Reading back, with radix 16, a `0x`-prefixed padded hex numeral gives the number. */
  lemma JsHexRoundTrip(n: nat, width: nat)
    ensures JsParseInt("0x" + PaddedHex(n, width), Radix16) == Finite(n)
  {
    JsReadHex(PaddedHex(n, width));
  }

  /** `0x` and hex digits: nothing to strip, no sign, and the digits follow the prefix. */
  lemma HexLiteralShape(d: string)
    requires |d| >= 1 && AllDigits(d, 16)
    ensures var s := "0x" + d;
      PyStrip(s) == s && !IsNegative(s) && Unsigned(s) == s && HasHexPrefix(s) && s[2..] == d
  {
    var s := "0x" + d;
    assert s[|s| - 1] == d[|d| - 1];
    assert IsDigit(d[|d| - 1], 16);
    StripSelf(s);
  }

  /** The digits after `0x` are read as a hexadecimal magnitude. */
  lemma HexLiteralMagnitude(d: string)
    requires |d| >= 1 && AllDigits(d, 16)
    ensures PyMagnitude("0x" + d, Base16) == Some(ValueOf(d, 16))
  {
    HexLiteralShape(d);
    DigitsAreValid(d, 16);
  }

  /** Python `int("0x" + d, 16)` reads a hex digit string back to its value. */
  lemma PyReadHex(d: string)
    requires |d| >= 1 && AllDigits(d, 16)
    ensures PyInt("0x" + d, Base16) == Some(ValueOf(d, 16))
  {
    HexLiteralShape(d);
    HexLiteralMagnitude(d);
  }

  /** A string with no white space at either end is its own `strip()`. */
  lemma StripSelf(s: string)
    requires |s| > 0 && DigitValue(s[0]) < 36 && DigitValue(s[|s| - 1]) < 36
    ensures PyStrip(s) == s
  {
    assert !IsPySpace(s[0]) && !IsPySpace(s[|s| - 1]);
  }

  /** A non-empty digit string is accepted by `int()` and has no underscore to remove. */
  lemma DigitsAreValid(d: string, base: nat)
    requires |d| >= 1 && AllDigits(d, base) && base <= 36
    ensures PyDigitsValid(d, base, true)
    ensures RemoveAll(d, IsUnderscore) == d
  {
    forall i | 0 <= i < |d| ensures !IsUnderscore(d[i]) {
      assert IsDigit(d[i], base);
    }
    NoUnderscoreNoDouble(d);
    RemoveAllNoneDropped(d, IsUnderscore);
  }

  /** Python reads back, in base 16, the numeral it formats for a non-negative number. */
  lemma PyHexRoundTrip(n: nat, width: nat)
    ensures PyInt("0x" + PyHex(n, width), Base16) == Some(n)
  {
    PyReadHex(PaddedHex(n, width));
  }
}
