/**
 * The few Python string operations the preprocessor relies on, over ASCII:
 * `str.isdigit`, `int(s)`, `str(n)` for a non-negative integer and `str.zfill`.
 */
module Text {
  import opened Wrappers

  predicate IsDigit(c: char) {
    '0' <= c <= '9'
  }

  /** `s.isdigit()`: non-empty and every character a decimal digit. */
  predicate IsDigits(s: string) {
    |s| > 0 && forall i :: 0 <= i < |s| ==> IsDigit(s[i])
  }

  function DigitValue(c: char): (d: nat)
    requires IsDigit(c)
    ensures d < 10
  {
    c as int - '0' as int
  }

  function DigitChar(d: nat): (c: char)
    requires d < 10
    ensures IsDigit(c) && DigitValue(c) == d
  {
    ('0' as int + d) as char
  }

  /** The value of a string of decimal digits, most significant first (`int(s)` on a digit string). */
  function DigitsValue(s: string): nat
    requires forall i :: 0 <= i < |s| ==> IsDigit(s[i])
  {
    if |s| == 0 then 0 else DigitsValue(s[..|s| - 1]) * 10 + DigitValue(s[|s| - 1])
  }

  /** `str(n)` for a non-negative integer: its decimal digits, without leading zeros. */
  function DecimalString(n: nat): (r: string)
    ensures IsDigits(r) && DigitsValue(r) == n
    ensures r[0] == '0' ==> n == 0
  {
    if n < 10 then [DigitChar(n)]
    else
      var prefix := DecimalString(n / 10);
      var r := prefix + [DigitChar(n % 10)];
      assert r[..|r| - 1] == prefix;
      r
  }

  /** `str(n)` is one-to-one: distinct integers print differently. */
  lemma DecimalStringInjective(a: nat, b: nat)
    requires DecimalString(a) == DecimalString(b)
    ensures a == b
  {
  }

  function Zeros(k: nat): (z: string)
    ensures |z| == k && forall i :: 0 <= i < k ==> z[i] == '0'
  {
    if k == 0 then [] else Zeros(k - 1) + ['0']
  }

  /**
   * `s.zfill(width)`: pads with '0' on the left, after a leading sign, up to `width` characters;
   * a string already that long is returned unchanged.
   */
  function ZFill(s: string, width: nat): (r: string)
    ensures |s| >= width ==> r == s
    ensures |s| < width ==> |r| == width
    ensures |s| < width && (|s| == 0 || (s[0] != '+' && s[0] != '-')) ==>
              r[..width - |s|] == Zeros(width - |s|) && r[width - |s|..] == s
  {
    if |s| >= width then s
    else if |s| > 0 && (s[0] == '+' || s[0] == '-') then [s[0]] + Zeros(width - |s|) + s[1..]
    else Zeros(width - |s|) + s
  }

  // ---------------------------------------------------------------------------------------
  // `int(s)` on a string, as Python 3 accepts it for ASCII input: optional surrounding
  // whitespace, an optional sign, then decimal digits with single underscores between them.

  predicate IsSpace(c: char) {
    c == ' ' || c == '\t' || c == '\n' || c == '\r' || c as int == 11 || c as int == 12
  }

  function StripLeft(s: string): (r: string)
    ensures |r| <= |s| && r == s[|s| - |r|..]
    ensures |r| == 0 || !IsSpace(r[0])
  {
    if |s| > 0 && IsSpace(s[0]) then StripLeft(s[1..]) else s
  }

  function StripRight(s: string): (r: string)
    ensures |r| <= |s| && r == s[..|r|]
    ensures |r| == 0 || !IsSpace(r[|r| - 1])
  {
    if |s| > 0 && IsSpace(s[|s| - 1]) then StripRight(s[..|s| - 1]) else s
  }

  /** Digits, where an underscore may sit only between two digits. */
  predicate IsDigitGroup(b: string) {
    && |b| > 0 && IsDigit(b[0]) && IsDigit(b[|b| - 1])
    && (forall i :: 0 <= i < |b| ==> IsDigit(b[i]) || b[i] == '_')
    && (forall i :: 0 <= i < |b| - 1 ==> b[i] == '_' ==> b[i + 1] != '_')
  }

  function DropUnderscores(b: string): (r: string)
    requires forall i :: 0 <= i < |b| ==> IsDigit(b[i]) || b[i] == '_'
    ensures forall i :: 0 <= i < |r| ==> IsDigit(r[i])
    ensures (forall i :: 0 <= i < |b| ==> b[i] != '_') ==> r == b
  {
    if |b| == 0 then []
    else if b[0] == '_' then DropUnderscores(b[1..])
    else [b[0]] + DropUnderscores(b[1..])
  }

  /** `int(s)`: `Some(value)` when Python accepts `s`, `None` when it raises ValueError. */
  function ParseInt(s: string): (r: Option<int>)
    ensures IsDigits(s) ==> r == Some(DigitsValue(s))
  {
    if IsDigits(s) then
      assert !IsSpace(s[0]) && !IsSpace(s[|s| - 1]);
      StripUnspaced(s);
      ParseUnspaced(s)
    else ParseUnspaced(StripRight(StripLeft(s)))
  }

  /** What `int` makes of a string once its surrounding whitespace is gone. */
  function ParseUnspaced(t: string): (r: Option<int>)
    ensures IsDigits(t) ==> r == Some(DigitsValue(t))
  {
    var signed := |t| > 0 && (t[0] == '+' || t[0] == '-');
    var body := if signed then t[1..] else t;
    if IsDigitGroup(body) then
      var magnitude: int := DigitsValue(DropUnderscores(body));
      Some(if signed && t[0] == '-' then -magnitude else magnitude)
    else None
  }

  /** A string without whitespace at either end is left alone by `strip()`. */
  lemma {:induction false} StripUnspaced(t: string)
    requires |t| > 0 && !IsSpace(t[0]) && !IsSpace(t[|t| - 1])
    ensures StripRight(StripLeft(t)) == t
  {
    assert StripLeft(t) == t;
  }

  /** `int` first strips the surrounding whitespace, on every input. */
  lemma {:induction false} ParseIntStrips(s: string)
    ensures ParseInt(s) == ParseUnspaced(StripRight(StripLeft(s)))
  {
    if IsDigits(s) {
      assert !IsSpace(s[0]) && !IsSpace(s[|s| - 1]);
      StripUnspaced(s);
      assert ParseInt(s) == ParseUnspaced(s);
    } else {
      assert ParseInt(s) == ParseUnspaced(StripRight(StripLeft(s)));
    }
  }

  /** A digit string is a digit group with nothing to drop. */
  lemma {:induction false} DigitsAreGroup(t: string)
    requires IsDigits(t)
    ensures IsDigitGroup(t) && DropUnderscores(t) == t
  {
  }

  /** After a sign, a digit string is read as its decimal value with that sign. */
  lemma {:induction false} SignedDigits(t: string, sign: char)
    requires IsDigits(t) && (sign == '-' || sign == '+')
    ensures ParseUnspaced([sign] + t) == Some(if sign == '-' then -(DigitsValue(t) as int) else DigitsValue(t))
  {
    DigitsAreGroup(t);
    assert ([sign] + t)[1..] == t;
  }

  /** `int(sign + t)` for a digit string `t`. */
  lemma {:induction false} SignedParse(t: string, sign: char)
    requires IsDigits(t) && (sign == '-' || sign == '+')
    ensures ParseInt([sign] + t) == Some(if sign == '-' then -(DigitsValue(t) as int) else DigitsValue(t))
  {
    var signed := [sign] + t;
    assert signed[|signed| - 1] == t[|t| - 1];
    StripUnspaced(signed);
    var stripped := StripRight(StripLeft(signed));
    assert stripped == signed;
    ParseIntStrips(signed);
    assert ParseInt(signed) == ParseUnspaced(stripped);
    SignedDigits(t, sign);
  }

  /** `int('-' + t)` and `int('+' + t)` for a digit string `t`: the sign is applied. */
  lemma {:induction false} ParseIntSigned(t: string)
    requires IsDigits(t)
    ensures ParseInt("-" + t) == Some(-(DigitsValue(t) as int))
    ensures ParseInt("+" + t) == Some(DigitsValue(t))
  {
    SignedParse(t, '-');
    SignedParse(t, '+');
  }

  /** Whitespace in front is skipped: `int(' ' + s) == int(s)`. */
  lemma {:induction false} ParseIntLeadingSpace(s: string, c: char)
    requires IsSpace(c)
    ensures ParseInt([c] + s) == ParseInt(s)
  {
    assert ([c] + s)[1..] == s;
    assert StripLeft([c] + s) == StripLeft(s);
    ParseIntStrips([c] + s);
    ParseIntStrips(s);
  }

  /** Whitespace behind is skipped: `int(s + ' ') == int(s)`. */
  lemma {:induction false} ParseIntTrailingSpace(s: string, c: char)
    requires IsSpace(c)
    ensures ParseInt(s + [c]) == ParseInt(s)
  {
    StripLeftAppendSpace(s, c);
    var left := StripLeft(s);
    if |left| > 0 {
      assert (left + [c])[..|left + [c]| - 1] == left;
      assert StripRight(left + [c]) == StripRight(left);
    }
    ParseIntStrips(s + [c]);
    ParseIntStrips(s);
  }

  lemma {:induction false} StripLeftAppendSpace(s: string, c: char)
    requires IsSpace(c)
    ensures StripLeft(s + [c]) == if StripLeft(s) == [] then [] else StripLeft(s) + [c]
  {
    if |s| == 0 {
      assert StripLeft([c]) == StripLeft([c][1..]);
    } else if IsSpace(s[0]) {
      assert (s + [c])[1..] == s[1..] + [c];
      StripLeftAppendSpace(s[1..], c);
    }
  }

  /** `int(s)` accepts nothing without a digit: an empty, blank or sign-only string raises. */
  lemma ParseIntNeedsDigit(s: string)
    requires ParseInt(s).Some?
    ensures exists i :: 0 <= i < |s| && IsDigit(s[i])
  {
    if IsDigits(s) {
      assert IsDigit(s[0]);
    } else {
      ParseIntStrips(s);
      var left := StripLeft(s);
      var t := StripRight(left);
      var signed := |t| > 0 && (t[0] == '+' || t[0] == '-');
      var body := if signed then t[1..] else t;
      var j := |s| - |left| + (if signed then 1 else 0);
      assert body[0] == t[if signed then 1 else 0] == left[if signed then 1 else 0];
      assert left[if signed then 1 else 0] == s[j];
    }
  }

}
