/** The JavaScript built-ins the volume engine relies on, stated over exact
    reals and Unicode strings: `Math.round`, `Math.min`, `toLowerCase`,
    `trim`, `replace(/,/g, '')`, `parseFloat`, `Number.prototype.toFixed`,
    the `toString` of a whole number and `padStart(width, '0')`. */
module JsRuntime {
  import opened Wrappers

  // ---------------------------------------------------------------- numbers

  /** `Math.round`: the nearest integer, a half rounded towards +infinity. */
  function Round(x: real): (n: int)
    ensures x - 0.5 < n as real <= x + 0.5
  {
    (x + 0.5).Floor
  }

  /** Rounding never reverses an order. */
  lemma RoundMonotone(x: real, y: real)
    requires x <= y
    ensures Round(x) <= Round(y)
  {
  }

  /** Rounding a whole number keeps it. */
  lemma RoundWhole(n: int)
    ensures Round(n as real) == n
  {
  }

  /** A whole number of whole units is whole. */
  lemma WholeScaled(y: real, k: nat)
    requires IsWhole(y)
    ensures IsWhole(y * k as real)
  {
    var f := y.Floor;
    assert y * k as real == (f * k) as real;
  }

  /** A whole number of units of a whole size is whole. */
  lemma WholeMultiple(v: real, k: nat)
    requires k >= 1 && IsWhole(v / k as real)
    ensures IsWhole(v)
  {
    var y := v / k as real;
    assert v == y * k as real;
    WholeScaled(y, k);
  }

  /** `Math.min` of two numbers. */
  function Min(a: real, b: real): (m: real)
    ensures m <= a && m <= b
    ensures m == a || m == b
  {
    if b < a then b else a
  }

  predicate IsWhole(x: real) {
    x == x.Floor as real
  }

  function Pow10(k: nat): (p: nat)
    ensures p >= 1
  {
    if k == 0 then 1 else 10 * Pow10(k - 1)
  }

  // ------------------------------------------------------------- characters

  predicate IsDigit(c: char) {
    '0' <= c <= '9'
  }

  predicate AllDigits(s: string) {
    forall i :: 0 <= i < |s| ==> IsDigit(s[i])
  }

  function DigitValue(c: char): (d: nat)
    requires IsDigit(c)
    ensures d < 10
  {
    c as int - '0' as int
  }

  function DigitChar(d: nat): (c: char)
    requires d < 10
    ensures IsDigit(c) && DigitValue(c) == d
  {
    ('0' as int + d) as char
  }

  /** The white space and line terminators that `trim` and `parseFloat`
      skip (ECMAScript WhiteSpace and LineTerminator). */
  predicate IsWhitespace(c: char) {
    var u := c as int;
    u == 0x09 || u == 0x0A || u == 0x0B || u == 0x0C || u == 0x0D || u == 0x20
    || u == 0xA0 || u == 0x1680 || (0x2000 <= u <= 0x200A) || u == 0x2028
    || u == 0x2029 || u == 0x202F || u == 0x205F || u == 0x3000 || u == 0xFEFF
  }

  predicate AllWhitespace(s: string) {
    forall i :: 0 <= i < |s| ==> IsWhitespace(s[i])
  }

  /** `toLowerCase` on one character (ASCII letters only). */
  function LowerChar(c: char): char {
    if 'A' <= c <= 'Z' then (c as int + 32) as char else c
  }

  // ---------------------------------------------------------------- strings

  function ToLower(s: string): (r: string)
    ensures |r| == |s|
    ensures forall i :: 0 <= i < |s| ==> r[i] == LowerChar(s[i])
  {
    seq(|s|, i requires 0 <= i < |s| => LowerChar(s[i]))
  }

  /** Leading white space removed. */
  function TrimStart(s: string): (r: string)
    ensures |r| <= |s| && r == s[|s| - |r|..]
    ensures AllWhitespace(s[..|s| - |r|])
    ensures r == [] || !IsWhitespace(r[0])
  {
    if s != [] && IsWhitespace(s[0]) then TrimStart(s[1..]) else s
  }

  /** Trailing white space removed. */
  function TrimEnd(s: string): (r: string)
    ensures |r| <= |s| && r == s[..|r|]
    ensures AllWhitespace(s[|r|..])
    ensures r == [] || !IsWhitespace(r[|r| - 1])
  {
    if s != [] && IsWhitespace(s[|s| - 1]) then TrimEnd(s[..|s| - 1]) else s
  }

  /** `trim`. */
  function Trim(s: string): string {
    TrimEnd(TrimStart(s))
  }

  /** `replace(/,/g, '')`: every comma dropped, everything else kept in order. */
  function RemoveCommas(s: string): (r: string)
    ensures ',' !in r
    ensures forall c :: c != ',' ==> (c in r <==> c in s)
    ensures ',' !in s ==> r == s
  {
    if s == [] then []
    else (if s[0] == ',' then [] else [s[0]]) + RemoveCommas(s[1..])
  }

  /** `padStart(width, '0')`. */
  function PadStart(s: string, width: nat): (r: string)
    ensures |r| == if |s| < width then width else |s|
    ensures r == r[..|r| - |s|] + s
    ensures forall i :: 0 <= i < |r| - |s| ==> r[i] == '0'
  {
    if |s| < width then seq(width - |s|, _ => '0') + s else s
  }

  // --------------------------------------------------------- decimal digits

  /** Value of a run of decimal digits, most significant first. */
  function DigitsValue(s: string): nat
    requires AllDigits(s)
  {
    if s == [] then 0 else 10 * DigitsValue(s[..|s| - 1]) + DigitValue(s[|s| - 1])
  }

  /** Length of the run of digits at the head of `s`. */
  function DigitRun(s: string): (n: nat)
    ensures n <= |s| && AllDigits(s[..n])
    ensures n < |s| ==> !IsDigit(s[n])
  {
    if s != [] && IsDigit(s[0]) then 1 + DigitRun(s[1..]) else 0
  }

  /** The decimal numeral of a natural number, without leading zeros. */
  function NatToString(n: nat): (s: string)
    ensures |s| >= 1 && AllDigits(s)
    ensures DigitsValue(s) == n
    ensures |s| > 1 ==> s[0] != '0'
  {
    if n < 10 then [DigitChar(n)]
    else
      var s := NatToString(n / 10) + [DigitChar(n % 10)];
      assert s[..|s| - 1] == NatToString(n / 10);
      s
  }

  /** `toString` of a whole number (below 1e21). */
  function IntToString(i: int): string {
    if i < 0 then "-" + NatToString(-i) else NatToString(i)
  }

  // ---------------------------------------------------------------- parsing

  /** The unsigned literal `digits [. digits]` or `. digits` at the head of
      `s`, as `parseFloat` reads it; None when there is no digit. */
  function UnsignedDecimal(s: string): Option<real> {
    var n := DigitRun(s);
    var frac := if n < |s| && s[n] == '.' then s[n + 1..][..DigitRun(s[n + 1..])] else "";
    if n == 0 && |frac| == 0 then None else Some(DecimalValue(s[..n], frac))
  }

  /** The value of the literal `whole.frac`. */
  function DecimalValue(whole: string, frac: string): real
    requires AllDigits(whole) && AllDigits(frac)
  {
    DigitsValue(whole) as real + DigitsValue(frac) as real / Pow10(|frac|) as real
  }

  /** `parseFloat` without exponents and `Infinity`: leading white space,
      an optional sign, then an unsigned decimal literal; None stands for NaN. */
  function ParseFloat(s: string): (r: Option<real>)
    ensures AllWhitespace(s) ==> r.None?
  {
    var t := TrimStart(s);
    if t != [] && t[0] == '-' then
      match UnsignedDecimal(t[1..])
      case None => None
      case Some(v) => Some(-v)
    else if t != [] && t[0] == '+' then UnsignedDecimal(t[1..])
    else UnsignedDecimal(t)
  }

  // ------------------------------------------------------------- formatting

  /** `x.toFixed(f)` for `0 <= x < 1e21`: the integer nearest to `x * 10^f`
      (the larger on a tie), written with `f` digits after the point. */
  function ToFixed(x: real, f: nat): (s: string)
    requires x >= 0.0
    ensures FixedShape(s, f)
  {
    var n := ScaledRound(x, Pow10(f));
    if f == 0 then NatToString(n)
    else
      FixedNumeralShape(n, f);
      FixedNumeral(n, f)
  }

  /** The shape of a numeral written with `f` digits after the point: a
      digit first and, for `f >= 1`, a point followed by exactly `f`
      digits. */
  predicate FixedShape(s: string, f: nat) {
    |s| > f && IsDigit(s[0])
    && (f >= 1 ==> s[|s| - f - 1] == '.' && AllDigits(s[|s| - f..]))
  }

  /** A fixed numeral has a digit first and exactly `f` digits after its
      point. */
  lemma FixedNumeralShape(n: nat, f: nat)
    requires f >= 1
    ensures FixedShape(FixedNumeral(n, f), f)
  {
    var p := Pow10(f);
    DivMod(n, p);
    var w := NatToString(n / p);
    var m := NatToString(n % p);
    NatToStringLength(n % p, f);
    var fr := PadStart(m, f);
    assert |fr| == f;
    LeadingZeros(fr[..|fr| - |m|], m);
    var s := w + "." + fr;
    assert s[|s| - f..] == fr;
  }

  /** The number `x.toFixed(f)` stands for: `x` rounded to `f` decimals. */
  function FixedValue(x: real, f: nat): real
    requires x >= 0.0
  {
    ScaledRound(x, Pow10(f)) as real / Pow10(f) as real
  }

  /** The numeral of `n / 10^f` with exactly `f >= 1` digits after the point. */
  function FixedNumeral(n: nat, f: nat): string
    requires f >= 1
  {
    var p := Pow10(f);
    DivMod(n, p);
    NatToString(n / p) + "." + PadStart(NatToString(n % p), f)
  }

  /** `x` scaled by `p`. */
  function Scaled(x: real, p: nat): real {
    x * p as real
  }

  /** The integer nearest to `x * p`, the larger on a tie; it is not
      negative for `x >= 0`. */
  function ScaledRound(x: real, p: nat): (n: nat)
    requires x >= 0.0
    ensures Scaled(x, p) - 0.5 < n as real <= Scaled(x, p) + 0.5
  {
    var y := Scaled(x, p);
    assert y >= 0.0 by { NonNegativeProduct(x, p as real); }
    Round(y)
  }

  lemma DivMod(n: nat, p: nat)
    requires p >= 1
    ensures n / p >= 0 && 0 <= n % p < p && (n / p) * p + n % p == n
  {}

  lemma NonNegativeProduct(a: real, b: real)
    requires a >= 0.0 && b >= 0.0
    ensures a * b >= 0.0
  {}

  // ----------------------------------------------------------------- lemmas

  lemma {:induction false} DigitsValueAppend(s: string, c: char)
    requires AllDigits(s) && IsDigit(c)
    ensures AllDigits(s + [c])
    ensures DigitsValue(s + [c]) == 10 * DigitsValue(s) + DigitValue(c)
  {
    assert (s + [c])[..|s|] == s;
  }

  /** Leading zeros do not change the value of a numeral. */
  lemma {:induction false} LeadingZeros(z: string, s: string)
    requires forall i :: 0 <= i < |z| ==> z[i] == '0'
    requires AllDigits(s)
    ensures AllDigits(z + s) && DigitsValue(z + s) == DigitsValue(s)
    decreases |s|
  {
    if s == [] {
      assert z + s == z;
      ZerosValue(z);
    } else {
      var init := s[..|s| - 1];
      LeadingZeros(z, init);
      assert z + s == (z + init) + [s[|s| - 1]];
      DigitsValueAppend(z + init, s[|s| - 1]);
      assert s == init + [s[|s| - 1]];
      DigitsValueAppend(init, s[|s| - 1]);
    }
  }

  lemma {:induction false} ZerosValue(z: string)
    requires forall i :: 0 <= i < |z| ==> z[i] == '0'
    ensures AllDigits(z) && DigitsValue(z) == 0
  {
    if z != [] {
      ZerosValue(z[..|z| - 1]);
    }
  }

  /** A numeral below 10^k has at most k digits. */
  lemma {:induction false} NatToStringLength(n: nat, k: nat)
    requires 1 <= k && n < Pow10(k)
    ensures |NatToString(n)| <= k
  {
    if n >= 10 {
      NatToStringLength(n / 10, k - 1);
    }
  }

  /** The digit run of a numeral followed by a non-digit is the numeral. */
  lemma {:induction false} DigitRunOfNumeral(d: string, rest: string)
    requires AllDigits(d)
    requires rest == [] || !IsDigit(rest[0])
    ensures DigitRun(d + rest) == |d|
  {
    if d != [] {
      assert (d + rest)[1..] == d[1..] + rest;
      DigitRunOfNumeral(d[1..], rest);
    } else {
      assert d + rest == rest;
    }
  }

  /** `parseFloat` reads back what `toFixed` wrote, up to a following
      non-digit character. */
  lemma ParseToFixed(x: real, f: nat, rest: string)
    requires x >= 0.0 && 1 <= f
    requires rest == [] || (!IsDigit(rest[0]) && rest[0] != '.')
    ensures ParseFloat(ToFixed(x, f) + rest) == Some(FixedValue(x, f))
  {
    ParseFixedNumeral(ScaledRound(x, Pow10(f)), f, rest);
  }

  lemma ParseFixedNumeral(n: nat, f: nat, rest: string)
    requires 1 <= f
    requires rest == [] || (!IsDigit(rest[0]) && rest[0] != '.')
    ensures ParseFloat(FixedNumeral(n, f) + rest) == Some(n as real / Pow10(f) as real)
  {
    var p := Pow10(f);
    DivMod(n, p);
    var whole := NatToString(n / p);
    var m := NatToString(n % p);
    var frac := PadStart(m, f);
    assert |m| <= f by { NatToStringLength(n % p, f); }
    assert AllDigits(frac) && DigitsValue(frac) == n % p by {
      LeadingZeros(frac[..|frac| - |m|], m);
    }
    assert |frac| == f;
    assert FixedNumeral(n, f) + rest == whole + "." + frac + rest;
    ParseNumeral(whole, frac, rest);
    assert DecimalValue(whole, frac) == n as real / p as real by {
      assert DecimalValue(whole, frac) == (n / p) as real + (n % p) as real / p as real;
      FractionValue(n, p);
    }
  }

  /** `parseFloat` reads `whole.frac` followed by a non-digit. */
  lemma ParseNumeral(whole: string, frac: string, rest: string)
    requires |whole| >= 1 && AllDigits(whole) && AllDigits(frac)
    requires rest == [] || (!IsDigit(rest[0]) && rest[0] != '.')
    ensures ParseFloat(whole + "." + frac + rest) == Some(DecimalValue(whole, frac))
  {
    var s := whole + "." + frac + rest;
    assert s[0] == whole[0];
    ParseFromDigit(s);
    UnsignedNumeral(whole, frac, rest);
  }

  /** Text that starts with a digit is read without skipping or a sign. */
  lemma ParseFromDigit(s: string)
    requires s != [] && IsDigit(s[0])
    ensures ParseFloat(s) == UnsignedDecimal(s)
  {
    assert TrimStart(s) == s;
  }

  lemma UnsignedNumeral(whole: string, frac: string, rest: string)
    requires |whole| >= 1 && AllDigits(whole) && AllDigits(frac)
    requires rest == [] || (!IsDigit(rest[0]) && rest[0] != '.')
    ensures UnsignedDecimal(whole + "." + frac + rest) == Some(DecimalValue(whole, frac))
  {
    var s := whole + "." + frac + rest;
    var n := DigitRun(s);
    assert n == |whole| && s[..n] == whole && s[n] == '.' by {
      assert s == whole + ("." + frac + rest);
      DigitRunOfNumeral(whole, "." + frac + rest);
    }
    assert DigitRun(s[n + 1..]) == |frac| && s[n + 1..][..|frac|] == frac by {
      assert s == (whole + ".") + (frac + rest);
      assert s[n + 1..] == frac + rest;
      DigitRunOfNumeral(frac, rest);
    }
  }

  lemma FractionValue(n: nat, p: nat)
    requires p >= 1
    ensures (n / p) as real + (n % p) as real / p as real == n as real / p as real
  {
    DivMod(n, p);
    var q, r := n / p, n % p;
    assert (q * p) as real == q as real * p as real;
    assert q as real == (q as real * p as real) / p as real;
  }

  /** `parseFloat` reads a whole number's `toString` back. */
  lemma ParseIntToString(i: int, rest: string)
    requires rest == [] || (!IsDigit(rest[0]) && rest[0] != '.')
    ensures ParseFloat(IntToString(i) + rest) == Some(i as real)
  {
    if i < 0 {
      var n: nat := -i;
      assert IntToString(i) + rest == "-" + (NatToString(n) + rest) by {
        assert IntToString(i) == "-" + NatToString(n);
      }
      ParseNegative(n, rest);
      assert -(n as real) == i as real;
    } else {
      ParseNonNegative(i, rest);
    }
  }

  lemma ParseNegative(n: nat, rest: string)
    requires rest == [] || (!IsDigit(rest[0]) && rest[0] != '.')
    ensures ParseFloat("-" + (NatToString(n) + rest)) == Some(-(n as real))
  {
    ParseNatToString(n, rest);
    ParseAfterMinus(NatToString(n) + rest, n as real);
  }

  lemma ParseNonNegative(n: nat, rest: string)
    requires rest == [] || (!IsDigit(rest[0]) && rest[0] != '.')
    ensures ParseFloat(NatToString(n) + rest) == Some(n as real)
  {
    var t := NatToString(n) + rest;
    ParseNatToString(n, rest);
    assert t[0] == NatToString(n)[0];
    ParseFromDigit(t);
  }

  lemma ParseNatToString(n: nat, rest: string)
    requires rest == [] || (!IsDigit(rest[0]) && rest[0] != '.')
    ensures UnsignedDecimal(NatToString(n) + rest) == Some(n as real)
  {
    var d := NatToString(n);
    DigitRunOfNumeral(d, rest);
    assert (d + rest)[..|d|] == d;
    assert DecimalValue(d, "") == n as real;
  }

  /** `parseFloat` reads a run of digits followed by neither a digit nor
      a point as the number it spells. */
  lemma ParseDigits(d: string, rest: string)
    requires |d| >= 1 && AllDigits(d)
    requires rest == [] || (!IsDigit(rest[0]) && rest[0] != '.')
    ensures ParseFloat(d + rest) == Some(DigitsValue(d) as real)
  {
    var s := d + rest;
    assert s[0] == d[0];
    ParseFromDigit(s);
    UnsignedDigits(d, rest);
  }

  lemma UnsignedDigits(d: string, rest: string)
    requires |d| >= 1 && AllDigits(d)
    requires rest == [] || (!IsDigit(rest[0]) && rest[0] != '.')
    ensures UnsignedDecimal(d + rest) == Some(DigitsValue(d) as real)
  {
    var s := d + rest;
    DigitRunOfNumeral(d, rest);
    assert s[..|d|] == d;
    assert |d| < |s| ==> s[|d|] == rest[0];
    WholeDecimal(d);
  }

  /** A literal without a fraction is worth its digits. */
  lemma WholeDecimal(d: string)
    requires AllDigits(d)
    ensures DecimalValue(d, "") == DigitsValue(d) as real
  {
    assert DigitsValue("") == 0;
  }

  // ------------------------------------------------------ numeral characters

  /** A character `toString` or `toFixed` writes for a finite number: a
      digit, the point or the minus sign. */
  predicate NumeralChar(c: char) {
    IsDigit(c) || c == '.' || c == '-'
  }

  predicate AllNumeralChars(s: string) {
    forall i :: 0 <= i < |s| ==> NumeralChar(s[i])
  }

  /** `toFixed` with decimals writes digits around a point, a digit first. */
  lemma ToFixedChars(x: real, f: nat)
    requires x >= 0.0 && f >= 1
    ensures var s := ToFixed(x, f); |s| >= 1 && IsDigit(s[0]) && AllNumeralChars(s)
  {
    FixedNumeralChars(ScaledRound(x, Pow10(f)), f);
  }

  lemma FixedNumeralChars(n: nat, f: nat)
    requires f >= 1
    ensures var s := FixedNumeral(n, f); |s| >= 1 && IsDigit(s[0]) && AllNumeralChars(s)
  {
    var p := Pow10(f);
    DivMod(n, p);
    var m := NatToString(n % p);
    var fr := PadStart(m, f);
    LeadingZeros(fr[..|fr| - |m|], m);
    PointedChars(NatToString(n / p), fr);
  }

  /** Digits, a point and digits. */
  lemma PointedChars(w: string, fr: string)
    requires |w| >= 1 && AllDigits(w) && AllDigits(fr)
    ensures var s := w + "." + fr; IsDigit(s[0]) && AllNumeralChars(s)
  {
    var s := w + "." + fr;
    assert s[0] == w[0];
    forall i | 0 <= i < |s|
      ensures NumeralChar(s[i])
    {
      if i < |w| {
        assert s[i] == w[i];
      } else if i > |w| {
        assert s[i] == fr[i - |w| - 1];
      }
    }
  }

  /** `toString` of a whole number writes digits, after a minus sign when
      it is negative; the last character is a digit. */
  lemma IntToStringChars(i: int)
    ensures var s := IntToString(i);
      |s| >= 1 && (IsDigit(s[0]) || s[0] == '-') && IsDigit(s[|s| - 1]) && AllNumeralChars(s)
  {
    if i < 0 {
      var d := NatToString(-i);
      var s := "-" + d;
      assert s[|s| - 1] == d[|d| - 1];
      forall k | 0 <= k < |s|
        ensures NumeralChar(s[k])
      {
        if k > 0 {
          assert s[k] == d[k - 1];
        }
      }
    }
  }

  /** Lower-casing leaves a numeral as it is. */
  lemma NumeralLower(s: string)
    requires AllNumeralChars(s)
    ensures ToLower(s) == s
  {
  }

  /** A leading minus sign negates what follows it. */
  lemma ParseAfterMinus(t: string, v: real)
    requires UnsignedDecimal(t) == Some(v)
    ensures ParseFloat("-" + t) == Some(-v)
  {
    var s := "-" + t;
    assert TrimStart(s) == s;
    assert s[1..] == t;
  }
}
