/** Numbers as the converter sees them, abstracted from IEEE doubles to exact
    decimals: `Number(text)` on a string numeric literal (every form but
    `Infinity`), and `String(n)` restricted to its positional form: a
    minus sign, the integer digits, and the fractional digits with no
    trailing zero. The exponent form `String` uses for magnitudes from
    1e21 up and below 1e-6, and rounding to the nearest double, are not
    modelled: every decimal here is exact. */
module Numbers {
  import opened Text
  import opened Wrappers

  /** The value mant · 10^(-scale). */
  datatype Decimal = Decimal(mant: int, scale: nat)

  function Abs(x: int): nat {
    if x < 0 then -x else x
  }

  function Pow10(k: nat): (r: nat)
    ensures r >= 1
  {
    if k == 0 then 1 else 10 * Pow10(k - 1)
  }

  /** Natural quotient and remainder, kept behind functions so that the
      solver sees them only through these contracts. */
  function Quot(a: nat, b: nat): nat
    requires b > 0
  {
    a / b
  }

  function Rem(a: nat, b: nat): (r: nat)
    requires b > 0
    ensures r < b
  {
    a % b
  }


  /** One representation per value: no trailing fractional zero. */
  predicate Normalized(d: Decimal) {
    d.scale == 0 || Abs(d.mant) % 10 != 0
  }

  /** Drops trailing fractional zeros of m · 10^(-s) without changing its value. */
  function Normalize(m: nat, s: nat): (r: (nat, nat))
    ensures r.1 <= s
    ensures r.1 == 0 || r.0 % 10 != 0
  {
    if s > 0 && m % 10 == 0 then Normalize(m / 10, s - 1) else (m, s)
  }

  /** Normalising keeps the value: m · 10^(-s) equals the result's. */
  lemma {:induction false} NormalizeValue(m: nat, s: nat)
    ensures var r := Normalize(m, s); r.0 * Pow10(s - r.1) == m
    decreases s
  {
    if s > 0 && m % 10 == 0 {
      NormalizeValue(m / 10, s - 1);
      var r := Normalize(m / 10, s - 1);
      assert Pow10(s - r.1) == 10 * Pow10(s - 1 - r.1);
      assert r.0 * Pow10(s - r.1) == 10 * (r.0 * Pow10(s - 1 - r.1));
    }
  }

  function DigitValue(c: char): nat
    requires IsDigit(c)
  {
    (c as int - '0' as int) as nat
  }

  function DigitChar(n: nat): (c: char)
    requires n < 10
    ensures IsDigit(c) && DigitValue(c) == n
  {
    ('0' as int + n) as char
  }

  /** The value of a string of decimal digits (leading zeros allowed). */
  function DigitsValue(s: string): nat
    requires AllDigits(s)
  {
    if |s| == 0 then 0 else DigitsValue(s[..|s| - 1]) * 10 + DigitValue(s[|s| - 1])
  }

  /** Canonical decimal text of a natural number: digits only, no leading zero. */
  function NatText(n: nat): (r: string)
    ensures |r| >= 1 && AllDigits(r)
    ensures DigitsValue(r) == n
    ensures r[0] == '0' ==> n == 0
  {
    if n < 10 then [DigitChar(n)]
    else
      var p := NatText(n / 10);
      var r := p + [DigitChar(n % 10)];
      assert r[..|r| - 1] == p;
      r
  }

  function Zeros(k: nat): (r: string)
    ensures |r| == k && AllDigits(r)
  {
    seq(k, i => '0')
  }

  /** Left-pads `s` with zeros to width `k`. */
  function PadZeros(s: string, k: nat): (r: string)
    ensures |r| == if |s| <= k then k else |s|
  {
    if |s| <= k then Zeros(k - |s|) + s else s
  }

  /** Decimal characters only: digits, a sign and a point. */
  predicate NumberChars(s: string) {
    forall i :: 0 <= i < |s| ==> IsDigit(s[i]) || s[i] == '-' || s[i] == '.'
  }

  /** The unsigned text of a · 10^(-s): the integer part, then a point and
      exactly `s` fractional digits when `s` is positive. */
  function UnsignedText(a: nat, s: nat): (r: string)
    ensures |r| > 0 && NumberChars(r)
    ensures IsDigit(r[0]) && IsDigit(r[|r| - 1])
  {
    var ip := NatText(Quot(a, Pow10(s)));
    if s == 0 then ip
    else
      var fp := PadZeros(NatText(Rem(a, Pow10(s))), s);
      assert AllDigits(fp);
      var r := ip + "." + fp;
      assert forall i :: 0 <= i < |r| ==> r[i] == (if i < |ip| then ip[i] else if i == |ip| then '.' else fp[i - |ip| - 1]);
      r
  }

  /** `String(n)` in positional form: a minus sign for a negative value,
      then the unsigned text. */
  function DecimalText(d: Decimal): (r: string)
    ensures |r| > 0 && NumberChars(r)
    ensures IsDigit(r[|r| - 1])
    ensures r[0] == '-' || IsDigit(r[0])
  {
    var u := UnsignedText(Abs(d.mant), d.scale);
    if d.mant < 0 then
      var r := "-" + u;
      assert forall i :: 1 <= i < |r| ==> r[i] == u[i - 1];
      r
    else u
  }

  function Negate(d: Decimal): Decimal {
    Decimal(-d.mant, d.scale)
  }

  /** `Number(t)` for a trimmed, non-empty `t`, by the grammar of string
      numeric literals: a decimal literal with an optional sign, point and
      exponent, or an unsigned binary, octal or hexadecimal integer. `None`
      stands for `NaN`. */
  function LexNumber(t: string): (r: Option<Decimal>)
    ensures r.Some? ==> Normalized(r.value)
    ensures r.Some? ==> |t| > 0
  {
    if |t| > 0 && (t[0] == '-' || t[0] == '+') then
      match LexDecimal(t[1..])
      case None => None
      case Some(d) => Some(if t[0] == '-' then Negate(d) else d)
    else if |t| >= 2 && t[0] == '0' && Radix(t[1]) > 0 then LexRadix(t[2..], Radix(t[1]))
    else LexDecimal(t)
  }

  /** The base that the letter of a `0x`, `0o` or `0b` prefix selects, in
      either case; 0 for any other character. */
  function Radix(c: char): nat {
    if c == 'x' || c == 'X' then 16
    else if c == 'o' || c == 'O' then 8
    else if c == 'b' || c == 'B' then 2
    else 0
  }

  /** The value of a hexadecimal digit in either case; 16 for any other
      character. */
  function HexValue(c: char): (r: nat)
    ensures r <= 16
    ensures IsDigit(c) ==> r == DigitValue(c)
  {
    if '0' <= c <= '9' then (c as int - '0' as int) as nat
    else if 'a' <= c <= 'f' then (c as int - 'a' as int + 10) as nat
    else if 'A' <= c <= 'F' then (c as int - 'A' as int + 10) as nat
    else 16
  }

  predicate RadixDigits(s: string, base: nat) {
    forall i :: 0 <= i < |s| ==> HexValue(s[i]) < base
  }

  /** The value of a string of digits in base `base`. */
  function RadixValue(s: string, base: nat): nat
    requires RadixDigits(s, base)
  {
    if |s| == 0 then 0 else RadixValue(s[..|s| - 1], base) * base + HexValue(s[|s| - 1])
  }

  /** The digits after a `0x`, `0o` or `0b` prefix: at least one, each
      below the base. */
  function LexRadix(s: string, base: nat): (r: Option<Decimal>)
    ensures r.Some? <==> |s| > 0 && RadixDigits(s, base)
    ensures r.Some? ==> r.value == Decimal(RadixValue(s, base), 0)
  {
    if |s| > 0 && RadixDigits(s, base) then Some(Decimal(RadixValue(s, base), 0)) else None
  }

  /** The index of the first `e` or `E`, or the length when there is none. */
  function ExponentIndex(t: string): (k: nat)
    ensures k <= |t|
    ensures k < |t| ==> t[k] == 'e' || t[k] == 'E'
    ensures forall i :: 0 <= i < k ==> t[i] != 'e' && t[i] != 'E'
  {
    if |t| == 0 || t[0] == 'e' || t[0] == 'E' then 0 else 1 + ExponentIndex(t[1..])
  }

  /** An unsigned decimal literal: a mantissa, then optionally `e` or `E`
      and a signed integer that scales it by a power of ten. */
  function LexDecimal(t: string): (r: Option<Decimal>)
    ensures r.Some? ==> Normalized(r.value) && r.value.mant >= 0
    ensures r.Some? ==> |t| > 0
  {
    var k := ExponentIndex(t);
    if k == |t| then LexMantissa(t)
    else
      match LexMantissa(t[..k])
      case None => None
      case Some(d) =>
        match LexExponent(t[k + 1..])
        case None => None
        case Some(e) => Some(Scale(d, e))
  }

  /** `digits [. digits]` or `. digits`, with at least one digit. */
  function LexMantissa(t: string): (r: Option<Decimal>)
    ensures r.Some? ==> Normalized(r.value) && r.value.mant >= 0
    ensures r.Some? ==> |t| > 0
  {
    var k := IndexOf(t, '.');
    var ip := t[..k];
    var fp := if k < |t| then t[k + 1..] else "";
    if AllDigits(ip) && AllDigits(fp) && |ip| + |fp| > 0 then
      var n := Normalize(DigitsValue(ip + fp), |fp|);
      Some(Decimal(n.0, n.1))
    else None
  }

  /** The exponent of a decimal literal: `[+|-] digits`. */
  function LexExponent(x: string): (r: Option<int>)
    ensures r.Some? <==> (|x| > 0 && AllDigits(x)) || (|x| > 1 && (x[0] == '+' || x[0] == '-') && AllDigits(x[1..]))
  {
    if |x| > 1 && (x[0] == '+' || x[0] == '-') && AllDigits(x[1..]) then
      var v: int := DigitsValue(x[1..]);
      Some(if x[0] == '-' then -v else v)
    else if |x| > 0 && AllDigits(x) then Some(DigitsValue(x))
    else None
  }

  /** `d` times `10^e`, normalised. */
  function Scale(d: Decimal, e: int): (r: Decimal)
    requires d.mant >= 0
    ensures Normalized(r) && r.mant >= 0
  {
    if e >= d.scale then Decimal(d.mant * Pow10(e - d.scale), 0)
    else
      var n := Normalize(d.mant, d.scale - e);
      Decimal(n.0, n.1)
  }

  /** Two decimals denote the same number. */
  predicate SameValue(x: Decimal, y: Decimal) {
    x.mant * Pow10(y.scale) == y.mant * Pow10(x.scale)
  }

  lemma {:induction false} Pow10Add(a: nat, b: nat)
    ensures Pow10(a + b) == Pow10(a) * Pow10(b)
    decreases a
  {
    if a > 0 {
      Pow10Add(a - 1, b);
      assert Pow10(a + b) == 10 * Pow10(a - 1 + b);
    }
  }

  /** The exponent scales the mantissa: `Scale(d, e)` is `d · 10^e`, which
      for a non-negative `e` multiplies the mantissa and for a negative one
      widens the scale. */
  lemma {:induction false} ScaleValue(d: Decimal, e: int)
    requires d.mant >= 0
    ensures e >= 0 ==> SameValue(Scale(d, e), Decimal(d.mant * Pow10(e), d.scale))
    ensures e < 0 ==> SameValue(Scale(d, e), Decimal(d.mant, d.scale - e))
  {
    var m: nat := d.mant;
    var s := d.scale;
    var r := Scale(d, e);
    if e >= s {
      Pow10Add(e - s, s);
      MulAssoc(m, Pow10(e - s), Pow10(s));
    } else {
      NormalizeValue(m, s - e);
      var w := s - e - r.scale;
      if e >= 0 {
        Pow10Add(w, e);
        Pow10Add(s - r.scale, r.scale);
        MulAssoc(r.mant, Pow10(w), Pow10(e));
        MulAssoc(r.mant, Pow10(s - r.scale), Pow10(r.scale));
        MulAssoc(m, Pow10(e), Pow10(r.scale));
        assert m * Pow10(e) == r.mant * Pow10(s - r.scale);
      } else {
        Pow10Add(w, r.scale);
        MulAssoc(r.mant, Pow10(w), Pow10(r.scale));
      }
    }
  }


  /** The arithmetic steps below are stated apart so that each nonlinear
      identity is proved without the string facts of its caller in scope. */
  lemma {:induction false} MulAssoc(x: int, y: int, z: int)
    ensures x * y * z == x * (y * z)
  {
  }

  lemma {:induction false} ShiftDigit(x: int, y: int, z: int, w: int)
    ensures (x * y + z) * 10 + w == x * (10 * y) + (z * 10 + w)
  {
  }

  lemma {:induction false} QuotRem(a: nat, b: nat)
    requires b > 0
    ensures Quot(a, b) * b + Rem(a, b) == a
  {
  }

  lemma {:induction false} DigitsAppend(a: string, b: string)
    requires AllDigits(a) && AllDigits(b)
    ensures AllDigits(a + b)
    ensures DigitsValue(a + b) == DigitsValue(a) * Pow10(|b|) + DigitsValue(b)
    decreases |b|
  {
    if |b| > 0 {
      var s := a + b;
      var b' := b[..|b| - 1];
      assert s[..|s| - 1] == a + b';
      assert s[|s| - 1] == b[|b| - 1];
      DigitsAppend(a, b');
      ShiftDigit(DigitsValue(a), Pow10(|b'|), DigitsValue(b'), DigitValue(b[|b| - 1]));
    } else {
      assert a + b == a;
    }
  }


  lemma {:induction false} ZerosValue(k: nat)
    ensures DigitsValue(Zeros(k)) == 0
    decreases k
  {
    if k > 0 {
      assert Zeros(k)[..k - 1] == Zeros(k - 1);
      ZerosValue(k - 1);
    }
  }

  lemma {:induction false} PadZerosValue(t: string, k: nat)
    requires AllDigits(t) && |t| <= k
    ensures AllDigits(PadZeros(t, k))
    ensures DigitsValue(PadZeros(t, k)) == DigitsValue(t)
    decreases |t|
  {
    var z := Zeros(k - |t|);
    var s := z + t;
    assert PadZeros(t, k) == s;
    if |t| == 0 {
      assert s == z;
      ZerosValue(k);
    } else {
      var t' := t[..|t| - 1];
      assert s[..|s| - 1] == Zeros(k - 1 - |t'|) + t';
      PadZerosValue(t', k - 1);
      assert s[|s| - 1] == t[|t| - 1];
    }
  }

  lemma {:induction false} PlaceValue(ip: string, fp: string, q: nat, r: nat)
    requires AllDigits(ip) && AllDigits(fp)
    requires DigitsValue(ip) == q && DigitsValue(fp) == r
    ensures AllDigits(ip + fp)
    ensures DigitsValue(ip + fp) == q * Pow10(|fp|) + r
  {
    DigitsAppend(ip, fp);
  }

  lemma {:induction false} NatTextLength(n: nat, k: nat)
    requires k >= 1 && n < Pow10(k)
    ensures |NatText(n)| <= k
    decreases n
  {
    if n >= 10 {
      assert k >= 2;
      NatTextLength(n / 10, k - 1);
    }
  }

  /** Printing then reading a normalised decimal gives it back: the number
      text the encoder writes is the number the decoder reads. */
  lemma {:induction false} LexDecimalText(d: Decimal)
    requires Normalized(d)
    ensures LexNumber(DecimalText(d)) == Some(d)
  {
    var a := Abs(d.mant);
    LexMantissaText(a, d.scale);
    if d.mant < 0 {
      LexSigned(UnsignedText(a, d.scale), Decimal(a, d.scale));
      assert Negate(Decimal(a, d.scale)) == d;
    } else {
      LexPlain(UnsignedText(a, d.scale), d);
    }
  }

  lemma {:induction false} LexSigned(u: string, d: Decimal)
    requires NumberChars(u) && LexMantissa(u) == Some(d)
    ensures LexNumber("-" + u) == Some(Negate(d))
  {
    assert ("-" + u)[1..] == u;
    NoExponent(u);
  }

  lemma {:induction false} LexPlain(u: string, d: Decimal)
    requires NumberChars(u) && LexMantissa(u) == Some(d)
    requires |u| > 0 && IsDigit(u[0])
    ensures LexNumber(u) == Some(d)
  {
    NoExponent(u);
    assert |u| >= 2 ==> Radix(u[1]) == 0;
  }

  /** Printed number text carries no exponent marker. */
  lemma {:induction false} NoExponent(u: string)
    requires NumberChars(u)
    ensures ExponentIndex(u) == |u|
  {
    assert forall i :: 0 <= i < |u| ==> u[i] != 'e' && u[i] != 'E';
  }

  lemma {:induction false} LexMantissaText(a: nat, s: nat)
    requires s == 0 || a % 10 != 0
    ensures LexMantissa(UnsignedText(a, s)) == Some(Decimal(a, s))
  {
    if s == 0 {
      LexIntegerDigits(NatText(Quot(a, Pow10(0))));
    } else {
      LexFractionText(a, s);
    }
  }

  lemma {:induction false} LexFractionText(a: nat, s: nat)
    requires s > 0 && a % 10 != 0
    ensures LexMantissa(UnsignedText(a, s)) == Some(Decimal(a, s))
  {
    var p := Pow10(s);
    var q := Quot(a, p);
    var r := Rem(a, p);
    var ip := NatText(q);
    var rt := NatText(r);
    var digits := PadZeros(rt, s);
    NatTextLength(r, s);
    PadZerosValue(rt, s);
    PlaceValue(ip, digits, q, r);
    QuotRem(a, p);
    assert DigitsValue(ip + digits) == a;
    LexPointDigits(ip, digits);
    NormalizeNormalized(a, s);
    assert UnsignedText(a, s) == ip + "." + digits;
  }

  /** A mantissa with no trailing zero is already normal. */
  lemma {:induction false} NormalizeNormalized(m: nat, s: nat)
    requires s == 0 || m % 10 != 0
    ensures Normalize(m, s) == (m, s)
  {
  }

  /** A digit string with no point lexes to its value. */
  lemma {:induction false} LexIntegerDigits(ip: string)
    requires |ip| > 0 && AllDigits(ip)
    ensures LexMantissa(ip) == Some(Decimal(DigitsValue(ip), 0))
  {
    assert '.' !in ip by {
      assert forall i :: 0 <= i < |ip| ==> IsDigit(ip[i]);
    }
    IndexOfAbsent(ip, '.');
    assert ip[..|ip|] == ip;
    assert ip + "" == ip;
  }

  /** `digits . digits` lexes to the value of all its digits, scaled by the
      number of fractional digits and normalised. */
  lemma {:induction false} LexPointDigits(ip: string, fp: string)
    requires AllDigits(ip) && AllDigits(fp) && |ip| > 0
    ensures AllDigits(ip + fp)
    ensures var n := Normalize(DigitsValue(ip + fp), |fp|);
      LexMantissa(ip + "." + fp) == Some(Decimal(n.0, n.1))
  {
    assert '.' !in ip by {
      assert forall i :: 0 <= i < |ip| ==> IsDigit(ip[i]);
    }
    var t := ip + ("." + fp);
    assert ip + "." + fp == t;
    IndexOfAfterPrefix(ip, "." + fp, '.');
    assert t[..|ip|] == ip;
    assert t[|ip| + 1..] == fp;
    DigitsAppend(ip, fp);
  }

  /** A number literal starts with a digit, a sign or a point. */
  lemma {:induction false} LexNumberStart(t: string)
    ensures LexNumber(t).Some? ==> IsDigit(t[0]) || t[0] == '+' || t[0] == '-' || t[0] == '.'
  {
    if |t| > 0 && t[0] != '-' && t[0] != '+' && !(|t| >= 2 && t[0] == '0' && Radix(t[1]) > 0) {
      var k := ExponentIndex(t);
      if k == |t| {
        MantissaStart(t);
      } else {
        MantissaStart(t[..k]);
        assert |t[..k]| > 0 ==> t[..k][0] == t[0];
      }
    }
  }

  /** A mantissa starts with a digit or a point. */
  lemma {:induction false} MantissaStart(t: string)
    ensures LexMantissa(t).Some? ==> IsDigit(t[0]) || t[0] == '.'
  {
    var k := IndexOf(t, '.');
    assert k > 0 ==> t[..k][0] == t[0];
  }
}
