/** The arithmetic of the evaluators: `realizaOperacao`, `realizaFuncao`,
    `fmod` and `atof`, over mathematical reals. The routines of <math.h>
    whose values the calculator only passes on are parameters (a `Libm`);
    `fmod` and the decimal part of `atof` are defined exactly. A C result of
    NAN is `None`. */
module Arith {
  import opened Wrappers
  import opened CType
  import opened Symbols

  /** The <math.h> routines the evaluators call and never inspect, as the
      caller's environment provides them. `pow` is `None` where C's `pow`
      is NAN (a negative base with a fractional exponent); the three
      trigonometric functions take their argument in degrees, that is they
      stand for `sin(x * M_PI / 180.0)` and so on. */
  datatype Libm = Libm(
    pow: (real, real) -> Option<real>,
    sqrt: real -> real,
    log10: real -> real,
    sinDeg: real -> real,
    cosDeg: real -> real,
    tanDeg: real -> real)

  predicate IsInteger(q: real) {
    q.Floor as real == q
  }

  /** Rounding toward zero. */
  function Trunc(x: real): (n: int)
    ensures 0.0 <= x ==> 0 <= n && n as real <= x < n as real + 1.0
    ensures x < 0.0 ==> n <= 0 && n as real - 1.0 < x <= n as real
  {
    if x >= 0.0 then x.Floor else -((-x).Floor)
  }

  /** C's `fmod`: the remainder of `x / y` rounded toward zero. It is
      smaller than the divisor in magnitude and has the sign of `x`. */
  function Fmod(x: real, y: real): (r: real)
    requires y != 0.0
    ensures 0.0 < y ==> -y < r < y
    ensures y < 0.0 ==> y < r < -y
    ensures r == 0.0 || (0.0 < r <==> 0.0 < x)
  {
    var n := Trunc(x / y) as real;
    FmodRemainder(x, y, n, x - n * y);
    x - n * y
  }

  lemma FmodRemainder(x: real, y: real, n: real, r: real)
    requires y != 0.0 && r == x - n * y
    requires (0.0 <= x / y && 0.0 <= n <= x / y < n + 1.0) || (x / y < 0.0 && n <= 0.0 && n - 1.0 < x / y <= n)
    ensures 0.0 < y ==> -y < r < y
    ensures y < 0.0 ==> y < r < -y
    ensures r == 0.0 || (0.0 < r <==> 0.0 < x)
  {
    var q := x / y;
    var d := q - n;
    QuotientTimes(x, y, n);
    FractionTimes(d, y, q, x, r);
  }

  /** Multiplying the quotient back: `x - n * y` is `(x / y - n) * y`. */
  lemma QuotientTimes(x: real, y: real, n: real)
    requires y != 0.0
    ensures (x / y) * y == x
    ensures x - n * y == (x / y - n) * y
  {
    calc {
      (x / y - n) * y;
      (x / y) * y - n * y;
      x - n * y;
    }
  }

  lemma MulPositive(a: real, b: real)
    requires a > 0.0 && b > 0.0
    ensures a * b > 0.0
  {
  }

  /** The remainder is the fractional part of the quotient times the divisor. */
  lemma FractionTimes(d: real, y: real, q: real, x: real, r: real)
    requires y != 0.0 && x == q * y && r == d * y
    requires (0.0 <= q && 0.0 <= d <= q && d < 1.0) || (q < 0.0 && -1.0 < d && q <= d <= 0.0)
    ensures 0.0 < y ==> -y < r < y
    ensures y < 0.0 ==> y < r < -y
    ensures r == 0.0 || (0.0 < r <==> 0.0 < x)
  {
    Within(d, y);
    ProductSign(d, y);
    ProductSign(q, y);
    if d != 0.0 {
      assert q != 0.0 && (0.0 < d <==> 0.0 < q);
      assert 0.0 < r <==> 0.0 < x;
    }
  }

  /** A factor strictly between -1 and 1 shrinks the magnitude. */
  lemma Within(d: real, y: real)
    requires -1.0 < d < 1.0 && y != 0.0
    ensures 0.0 < y ==> -y < d * y < y
    ensures y < 0.0 ==> y < d * y < -y
  {
    if y > 0.0 {
      MulPositive(1.0 - d, y);
      assert (1.0 - d) * y == y - d * y;
      MulPositive(1.0 + d, y);
      assert (1.0 + d) * y == y + d * y;
    } else {
      MulPositive(1.0 - d, -y);
      assert (1.0 - d) * (-y) == d * y - y;
      MulPositive(1.0 + d, -y);
      assert (1.0 + d) * (-y) == -y - d * y;
    }
  }

  /** The sign of a product. */
  lemma ProductSign(a: real, b: real)
    requires b != 0.0
    ensures a == 0.0 ==> a * b == 0.0
    ensures a != 0.0 ==> (0.0 < a * b <==> (0.0 < a <==> 0.0 < b))
  {
    if a > 0.0 && b > 0.0 {
      MulPositive(a, b);
    } else if a > 0.0 && b < 0.0 {
      MulPositive(a, -b);
      assert a * (-b) == -(a * b);
    } else if a < 0.0 && b > 0.0 {
      MulPositive(-a, b);
      assert (-a) * b == -(a * b);
    } else if a < 0.0 {
      MulPositive(-a, -b);
      assert (-a) * (-b) == a * b;
    }
  }

  /** The tangent guard of `realizaFuncao`: `fmod(x, 180.0)` is 90 or -90. */
  predicate TanPole(x: real) {
    Fmod(x, 180.0) == 90.0 || Fmod(x, 180.0) == -90.0
  }

  lemma FloorOf(k: int, f: real)
    requires 0.0 <= f < 1.0
    ensures (k as real + f).Floor == k
  {
  }

  /** The guard rejects exactly the angles `90 + k * 180` degrees, for every
      integer `k`, where the tangent is undefined. */
  lemma {:induction false} TanPoleOddRightAngles(x: real)
    ensures TanPole(x) <==> IsInteger((x - 90.0) / 180.0)
  {
    var q := x / 180.0;
    var n := Trunc(q);
    assert Fmod(x, 180.0) == x - n as real * 180.0;
    if Fmod(x, 180.0) == 90.0 {
      assert (x - 90.0) / 180.0 == n as real;
    } else if Fmod(x, 180.0) == -90.0 {
      assert (x - 90.0) / 180.0 == (n - 1) as real;
    }
    if IsInteger((x - 90.0) / 180.0) {
      var k := ((x - 90.0) / 180.0).Floor;
      assert x == 180.0 * k as real + 90.0;
      assert q == k as real + 0.5;
      if k >= 0 {
        FloorOf(k, 0.5);
        assert n == k;
      } else {
        FloorOf(-k - 1, 0.5);
        assert (-q).Floor == -k - 1;
        assert n == k + 1;
      }
    }
  }

  /** realizaOperacao(op, op2, op1): `op1 op op2`, where `right` is `op2`,
      the operand popped first. `None` is the NAN of a zero divisor, of an
      undefined power or of an unknown operator. */
  function Operate(m: Libm, op: char, right: real, left: real): (r: Option<real>)
    ensures r.None? <==>
      !IsOperator(op) || ((op == '/' || op == '%') && right == 0.0) || (op == '^' && m.pow(left, right).None?)
    ensures op == '+' ==> r == Some(left + right)
    ensures op == '-' ==> r == Some(left - right)
    ensures op == '*' ==> r == Some(left * right)
    ensures op == '/' && right != 0.0 ==> r == Some(left / right)
  {
    match op
    case '+' => Some(left + right)
    case '-' => Some(left - right)
    case '*' => Some(left * right)
    case '/' => if right != 0.0 then Some(left / right) else None
    case '%' => if right != 0.0 then Some(Fmod(left, right)) else None
    case '^' => m.pow(left, right)
    case _ => None
  }

  /** realizaFuncao: `None` is the NAN of the domain guards (a negative root,
      a non-positive logarithm, a tangent pole) or of an unknown name. */
  function ApplyFunction(m: Libm, f: string, x: real): (r: Option<real>)
    ensures r.None? <==>
      !IsFunctionName(f) || (f == "raiz" && x < 0.0) || (f == "log" && x <= 0.0) || (f == "tg" && TanPole(x))
  {
    if f == "raiz" then (if x >= 0.0 then Some(m.sqrt(x)) else None)
    else if f == "log" then (if x > 0.0 then Some(m.log10(x)) else None)
    else if f == "sen" then Some(m.sinDeg(x))
    else if f == "cos" then Some(m.cosDeg(x))
    else if f == "tg" then (if TanPole(x) then None else Some(m.tanDeg(x)))
    else None
  }

  /** Length of the leading run of digits. */
  function DigitRun(s: string): (n: nat)
    ensures n <= |s|
    ensures forall k :: 0 <= k < n ==> IsDigit(s[k])
    ensures n == |s| || !IsDigit(s[n])
  {
    if s == [] || !IsDigit(s[0]) then 0 else 1 + DigitRun(s[1..])
  }

  /** The value of a string of decimal digits. */
  function DigitsValue(ds: string): nat
    requires forall k :: 0 <= k < |ds| ==> IsDigit(ds[k])
  {
    if ds == [] then 0
    else
      assert IsDigit(ds[|ds| - 1]); 10 * DigitsValue(ds[..|ds| - 1]) + ((ds[|ds| - 1] as int - '0' as int) as nat)
  }

  function Pow10(n: nat): (p: nat)
    ensures p > 0
  {
    if n == 0 then 1 else 10 * Pow10(n - 1)
  }

  /** Where the mantissa digits [ '.' digits ] at the start of `s` end. */
  function MantissaEnd(s: string): (n: nat)
    ensures n <= |s|
  {
    var w := DigitRun(s);
    if w < |s| && s[w] == '.' then w + 1 + DigitRun(s[w + 1..]) else w
  }

  /** The value of the mantissa digits [ '.' digits ] at the start of `s`. */
  function Mantissa(s: string): (r: real)
    ensures r >= 0.0
  {
    var n := DigitRun(s);
    var whole := DigitsValue(s[..n]) as real;
    if n < |s| && s[n] == '.' then
      var f := s[n + 1..];
      var m := DigitRun(f);
      whole + (DigitsValue(f[..m]) as real) / (Pow10(m) as real)
    else whole
  }

  /** The exponent part at the start of `s`: 'e' or 'E', an optional sign
      and at least one digit; 0 when there is none. */
  function ExponentOf(s: string): int {
    if |s| < 2 || (s[0] != 'e' && s[0] != 'E') then 0
    else
      var digits := if s[1] == '-' || s[1] == '+' then s[2..] else s[1..];
      var v := DigitsValue(digits[..DigitRun(digits)]) as int;
      if s[1] == '-' then -v else v
  }

  /** `a` times ten to the power `e`. */
  function ScaleBy(a: real, e: int): (r: real)
    requires a >= 0.0
    ensures r >= 0.0
    ensures e == 0 ==> r == a
    ensures e >= 0 ==> r == a * Pow10(e) as real
  {
    if e >= 0 then
      var p := Pow10(e) as real;
      ScaledNonnegative(a, p);
      a * p
    else a / (Pow10(-e) as real)
  }

  lemma ScaledNonnegative(a: real, b: real)
    requires a >= 0.0 && b > 0.0
    ensures a * b >= 0.0
  {
    if a > 0.0 {
      MulPositive(a, b);
    }
  }

  /** The value of the longest prefix of the form
      digits [ '.' digits ] [ ('e' | 'E') [ '+' | '-' ] digits ]. */
  function Unsigned(s: string): (r: real)
    ensures r >= 0.0
  {
    ScaleBy(Mantissa(s), ExponentOf(s[MantissaEnd(s)..]))
  }

  /** atof on the tokens the evaluators hand it (they start with a digit, a
      '-' or a '.'): an optional minus sign and the longest decimal prefix
      that follows, exponent included; 0 when there is none. */
  function Atof(t: string): (r: real)
    ensures (t == [] || t[0] != '-') ==> r >= 0.0
    ensures t != [] && t[0] == '-' ==> r <= 0.0
  {
    if t != [] && t[0] == '-' then -Unsigned(t[1..]) else Unsigned(t)
  }

  lemma {:induction false} DigitRunAll(t: string)
    requires forall k :: 0 <= k < |t| ==> IsDigit(t[k])
    ensures DigitRun(t) == |t|
    decreases |t|
  {
    if t != [] {
      DigitRunAll(t[1..]);
    }
  }

  /** The run of digits stops at the first character that is not one. */
  lemma {:induction false} DigitRunPrefix(t: string, rest: string)
    requires forall k :: 0 <= k < |t| ==> IsDigit(t[k])
    requires rest == [] || !IsDigit(rest[0])
    ensures DigitRun(t + rest) == |t|
    decreases |t|
  {
    if t != [] {
      assert (t + rest)[1..] == t[1..] + rest;
      DigitRunPrefix(t[1..], rest);
    } else {
      assert t + rest == rest;
    }
  }

  /** Digits followed by neither a digit nor a point are the whole
      mantissa. */
  lemma MantissaDigits(t: string, rest: string)
    requires forall k :: 0 <= k < |t| ==> IsDigit(t[k])
    requires rest == [] || (rest[0] != '.' && !IsDigit(rest[0]))
    ensures MantissaEnd(t + rest) == |t| && Mantissa(t + rest) == DigitsValue(t) as real
  {
    DigitRunPrefix(t, rest);
    assert (t + rest)[..|t|] == t;
  }

  /** 'e' and digits are an exponent of their value. */
  lemma ExponentDigits(u: string)
    requires u != [] && forall k :: 0 <= k < |u| ==> IsDigit(u[k])
    ensures ExponentOf("e" + u) == DigitsValue(u)
  {
    var x := "e" + u;
    assert x[1..] == u && x[1] == u[0];
    DigitRunAll(u);
    assert u[..|u|] == u;
  }

  /** A token made of digits only is read as the decimal number it
      writes. */
  lemma AtofWhole(t: string)
    requires t != [] && forall k :: 0 <= k < |t| ==> IsDigit(t[k])
    ensures Atof(t) == DigitsValue(t) as real
  {
    MantissaDigits(t, []);
    assert t + [] == t && t[|t|..] == [];
  }

  /** Digits, 'e' and digits are read as the first number scaled by ten to
      the second (by `ScaleBy`, a product for such an exponent), as
      `atof("1e3")` gives 1000. */
  lemma AtofExponent(t: string, u: string)
    requires t != [] && forall k :: 0 <= k < |t| ==> IsDigit(t[k])
    requires u != [] && forall k :: 0 <= k < |u| ==> IsDigit(u[k])
    ensures Atof(t + ("e" + u)) == ScaleBy(DigitsValue(t) as real, DigitsValue(u))
  {
    var s := t + ("e" + u);
    MantissaDigits(t, "e" + u);
    assert s[|t|..] == "e" + u;
    ExponentDigits(u);
    assert IsDigit(s[0]);
  }

  /** The exponent form on its own: `atof("1e3")` is 1000. */
  lemma AtofThousand()
    ensures Atof("1e3") == 1000.0
  {
    AtofExponent("1", "3");
    ThousandParts();
  }

  lemma ThousandParts()
    ensures "1" + ("e" + "3") == "1e3"
    ensures DigitsValue("1") == 1 && DigitsValue("3") == 3 && Pow10(3) == 1000
  {
  }
}
