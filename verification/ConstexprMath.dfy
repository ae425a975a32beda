/** token_bucket/constexpr_math.h on integers: bit scans, powers, clamped sums
    and casts, each compared with what it is meant to compute. */
module ConstexprMath {

  // ---------------------------------------------------------------- powers of two

  function Pow2(n: nat): (r: nat)
    ensures r > 0
  {
    if n == 0 then 1 else 2 * Pow2(n - 1)
  }

  lemma {:induction false} Pow2Add(a: nat, b: nat)
    ensures Pow2(a + b) == Pow2(a) * Pow2(b)
  {
    if a > 0 { Pow2Add(a - 1, b); }
  }

  lemma {:induction false} Pow2Grows(a: nat, b: nat)
    requires a <= b
    ensures Pow2(a) <= Pow2(b)
    decreases b
  {
    if a < b { Pow2Grows(a, b - 1); }
  }

  lemma Pow2Double(n: nat)
    ensures Pow2(n + 1) == 2 * Pow2(n)
  { }

  // ---------------------------------------------------------------- lowest and highest bit

  /** detail::constexpr_find_first_set_: `s` halves, `a` zeros are known. */
  function FirstSetFrom(s: nat, a: nat, u: nat): nat {
    if s == 0 then a
    else FirstSetFrom(s / 2, a + if (u / Pow2(a)) % Pow2(s) == 0 then s else 0, u)
  }

  /** A value of a signed or unsigned type of `w` bits seen as unsigned. */
  function AsUnsigned(t: int, w: nat): (u: nat) {
    t % Pow2(w)
  }

  function FindFirstSet(t: int, w: nat): nat {
    if t == 0 then 0 else 1 + FirstSetFrom(w / 2, 0, AsUnsigned(t, w))
  }

  predicate IsPow2(s: nat) { s == 1 || (s > 0 && s % 2 == 0 && IsPow2(s / 2)) }

  lemma ModOfProduct(x: nat, p: nat, q: nat)
    requires p > 0 && q > 0 && p * q > 0 && x % (p * q) != 0 && x % p == 0
    ensures (x / p) % q != 0
  {
    var y := x / p;
    assert x == p * y;
    if y % q == 0 {
      var z := y / q;
      assert y == q * z;
      assert x == (p * q) * z by { Assoc(p, q, z); }
      MultipleMod(p * q, z);
      assert false;
    }
  }

  lemma Assoc(p: nat, q: nat, z: nat)
    ensures p * (q * z) == (p * q) * z
  { }

  lemma MulAtLeast(m: nat, d: int)
    ensures d >= 1 ==> m * d >= m
    ensures d <= -1 ==> m * d <= -(m as int)
  { }

  lemma MulMinus(m: int, p: int, q: int)
    ensures m * (p - q) == m * p - m * q
  { }

  /** Quotient and remainder are determined by what they have to satisfy. */
  lemma DivModUnique(x: int, m: nat, q: int, r: int)
    requires m > 0 && x == m * q + r && 0 <= r < m
    ensures x / m == q && x % m == r
  {
    var d := q - x / m;
    MulMinus(m, q, x / m);
    MulAtLeast(m, d);
    assert m * d == x % m - r;
  }

  lemma MultipleMod(m: nat, z: int)
    requires m > 0
    ensures (m * z) % m == 0
  {
    DivModUnique(m * z, m, z, 0);
  }

  lemma DivDiv(u: nat, p: nat, q: nat)
    requires p > 0 && q > 0 && p * q > 0 && u % p == 0 && (u / p) % q == 0
    ensures u % (p * q) == 0 && u / (p * q) == (u / p) / q
  {
    var z := (u / p) / q;
    assert u == p * (q * z);
    Assoc(p, q, z);
    MultipleMod(p * q, z);
    MultipleDiv(p * q, z);
  }

  lemma MultipleDiv(m: nat, z: int)
    requires m > 0
    ensures (m * z) / m == z
  {
    DivModUnique(m * z, m, z, 0);
  }

  lemma DivDivMod(u: nat, p: nat, q: nat)
    requires p > 0 && q > 0 && p * q > 0 && u % p == 0 && u % (p * q) == 0
    ensures (u / p) % q == 0
  {
    var z := u / (p * q);
    assert u == (p * q) * z;
    Assoc(p, q, z);
    MultipleDiv(p, q * z);
    MultipleMod(q, z);
  }

  /** The search keeps: 2^a divides u, and the next window of bits is not all zero. */
  lemma {:induction false} FirstSetIs(s: nat, a: nat, u: nat)
    requires s == 0 || IsPow2(s)
    requires u % Pow2(a) == 0 && (u / Pow2(a)) % Pow2(if s == 0 then 1 else 2 * s) != 0
    ensures var r := FirstSetFrom(s, a, u); u % Pow2(r) == 0 && (u / Pow2(r)) % 2 != 0
    ensures a <= FirstSetFrom(s, a, u) < a + if s == 0 then 1 else 2 * s
  {
    if s > 0 {
      var x := u / Pow2(a);
      Pow2Add(s, s);
      Pow2Add(a, s);
      if x % Pow2(s) == 0 {
        ModOfProduct(x, Pow2(s), Pow2(s));
        DivDiv(u, Pow2(a), Pow2(s));
        FirstSetIs(s / 2, a + s, u);
      } else {
        FirstSetIs(s / 2, a, u);
      }
    }
  }

  lemma OddPart(u: nat, p: nat)
    requires p > 0 && u % p == 0 && (u / p) % 2 != 0
    ensures u % (2 * p) != 0
  {
    if u % (2 * p) == 0 {
      DivDivMod(u, p, 2);
      assert false;
    }
  }

  lemma {:induction false} SameMultiples(t: int, w: nat, k: nat)
    requires k <= w
    ensures t % Pow2(k) == AsUnsigned(t, w) % Pow2(k)
  {
    hide Pow2;
    Pow2Add(k, w - k);
    SameRemainder(t, Pow2(k), Pow2(w - k));
  }

  lemma SameRemainder(t: int, a: nat, b: nat)
    requires a > 0 && b > 0 && a * b > 0
    ensures t % a == (t % (a * b)) % a
  {
    var z := t / (a * b);
    var u := t % (a * b);
    assert t == (a * b) * z + u;
    AssocInt(a, b, z);
    ModShift(u, a, b * z);
  }

  lemma AssocInt(p: int, q: int, z: int)
    ensures p * (q * z) == (p * q) * z
  { }

  lemma ModShift(u: int, m: nat, z: int)
    requires m > 0
    ensures (m * z + u) % m == u % m
  {
    assert m * (z + u / m) == m * z + m * (u / m) by { MulMinus(m, z, -(u / m)); MulNeg(m, u / m); }
    DivModUnique(m * z + u, m, z + u / m, u % m);
  }

  lemma MulNeg(m: int, q: int)
    ensures m * -q == -(m * q)
  { }

  predicate FitsSigned(t: int, w: nat) { w > 0 && -(Pow2(w - 1) as int) <= t < Pow2(w) }

  /** For every width of 2, 4, 8, ... bits and every nonzero value of a signed or
      unsigned type of that width: the answer is one more than the number of
      factors two of the value. */
  lemma FindFirstSetIsExact(t: int, w: nat)
    requires w > 1 && IsPow2(w) && t != 0 && FitsSigned(t, w)
    ensures var r := FindFirstSet(t, w);
      1 <= r <= w && t % Pow2(r - 1) == 0 && t % Pow2(r) != 0
  {
    hide AsUnsigned, IsPow2;
    var u := AsUnsigned(t, w);
    UnsignedNotZero(t, w);
    HalfWidth(w);
    WholeValue(u, Pow2(w));
    FirstSetIs(w / 2, 0, u);
    var r := FindFirstSet(t, w);
    OddPart(u, Pow2(r - 1));
    SameMultiples(t, w, r - 1);
    SameMultiples(t, w, r);
  }

  lemma HalfWidth(w: nat)
    requires w > 1 && IsPow2(w)
    ensures w / 2 > 0 && IsPow2(w / 2) && 2 * (w / 2) == w
  { }

  lemma WholeValue(u: nat, m: nat)
    requires u < m
    ensures u / Pow2(0) == u && u % Pow2(0) == 0 && u % m == u
  {
    DivModUnique(u, m, 0, u);
  }

  lemma UnsignedNotZero(t: int, w: nat)
    requires t != 0 && FitsSigned(t, w)
    ensures 0 < AsUnsigned(t, w) < Pow2(w) && (t < 0 ==> AsUnsigned(t, w) == t + Pow2(w))
    ensures t > 0 ==> AsUnsigned(t, w) == t
  {
    Pow2Grows(w - 1, w);
    if t < 0 { DivModUnique(t, Pow2(w), -1, t + Pow2(w)); } else { DivModUnique(t, Pow2(w), 0, t); }
  }

  /** detail::constexpr_log2_ */
  function Log2From(a: nat, e: nat): nat
    requires e > 0
    decreases e
  {
    if e == 1 then a else Log2From(a + 1, e / 2)
  }

  function Log2(t: nat): nat
    requires t > 0
  {
    Log2From(0, t)
  }

  function FindLastSet(t: int, w: nat): nat
    requires t != 0 ==> AsUnsigned(t, w) > 0
  {
    if t == 0 then 0 else 1 + Log2(AsUnsigned(t, w))
  }

  function Log2Ceil(t: nat): nat
    requires t > 0
  {
    Log2(t) + if Pow2(Log2(t)) < t then 1 else 0
  }

  lemma {:induction false} Log2FromIs(a: nat, e: nat)
    requires e > 0
    ensures Log2From(a, e) >= a
    ensures Pow2(Log2From(a, e) - a) <= e < 2 * Pow2(Log2From(a, e) - a)
    decreases e
  {
    if e > 1 { Log2FromIs(a + 1, e / 2); }
  }

  /** The floor of the logarithm, and its ceiling. */
  lemma Log2IsExact(t: nat)
    requires t > 0
    ensures Pow2(Log2(t)) <= t < Pow2(Log2(t) + 1)
    ensures t <= Pow2(Log2Ceil(t)) && (t > 1 ==> Log2Ceil(t) > 0 && Pow2(Log2Ceil(t) - 1) < t)
  {
    Log2FromIs(0, t);
  }

  /** For a positive value the position of its highest bit; for a negative one
      the sign bit. */
  lemma FindLastSetIsExact(t: int, w: nat)
    requires t != 0 && FitsSigned(t, w)
    ensures AsUnsigned(t, w) > 0
    ensures var r := FindLastSet(t, w);
      1 <= r <= w && (t > 0 ==> Pow2(r - 1) <= t < Pow2(r)) && (t < 0 ==> r == w)
  {
    UnsignedNotZero(t, w);
    var u := AsUnsigned(t, w);
    Log2IsExact(u);
    var r := FindLastSet(t, w);
    if r > w { Pow2Grows(w, r - 1); }
    if t < 0 && r < w { Pow2Grows(r, w - 1); }
  }

  // ---------------------------------------------------------------- powers

  function Power(base: int, exp: nat): int {
    if exp == 0 then 1 else base * Power(base, exp - 1)
  }

  /** constexpr_pow in a type whose products wrap around at `m`. */
  function PowBySquaring(base: nat, exp: nat, m: nat): nat
    requires m > 1
  {
    if exp == 0 then 1
    else if exp == 1 then base
    else
      var half := PowBySquaring(base, exp / 2, m);
      (half * half % m) * (if exp % 2 == 1 then base else 1) % m
  }

  lemma {:induction false} PowerAdd(base: int, a: nat, b: nat)
    ensures Power(base, a + b) == Power(base, a) * Power(base, b)
  {
    if a > 0 {
      PowerAdd(base, a - 1, b);
      AssocInt(base, Power(base, a - 1), Power(base, b));
    }
  }

  lemma ModTimes(x: int, y: int, m: nat)
    requires m > 0
    ensures ((x % m) * y) % m == (x * y) % m && (x * (y % m)) % m == (x * y) % m
  {
    var k := x / m;
    assert x == m * k + x % m;
    assert x * y == m * (k * y) + (x % m) * y by { Distribute(m, k, x % m, y); }
    ModShift((x % m) * y, m, k * y);
    var j := y / m;
    assert x * y == m * (j * x) + (y % m) * x by { Distribute(m, j, y % m, x); }
    ModShift((y % m) * x, m, j * x);
  }

  lemma Distribute(m: int, k: int, r: int, y: int)
    ensures (m * k + r) * y == m * (k * y) + r * y
  { }

  /** Square and multiply is repeated multiplication, up to the wrap-around that
      the type has anyway. */
  lemma {:induction false} PowIsExact(base: nat, exp: nat, m: nat)
    requires m > 1 && base < m
    ensures PowBySquaring(base, exp, m) == Power(base, exp) % m
    decreases exp
  {
    if exp == 1 {
      assert Power(base, 1) == base * Power(base, 0) == base;
    } else if exp > 1 {
      var h := exp / 2;
      PowIsExact(base, h, m);
      var p := Power(base, h);
      PowerAdd(base, h, h);
      ModTimes(p, p % m, m);
      ModTimes(p, p, m);
      assert (p % m) * (p % m) % m == p * p % m;
      var odd := if exp % 2 == 1 then base else 1;
      ModTimes(p * p, odd, m);
      if exp % 2 == 1 {
        PowerAdd(base, 2 * h, 1);
        assert Power(base, 1) == base * Power(base, 0) == base;
      }
    }
  }

  // ---------------------------------------------------------------- clamped arithmetic

  /** An integer type: its bits, and whether it has a sign. */
  datatype IntType = IntType(bits: nat, signed: bool)

  const I64 := IntType(64, true)

  function Lowest(t: IntType): int
    requires t.bits > 0
  {
    if t.signed then -(Pow2(t.bits - 1) as int) else 0
  }

  function Highest(t: IntType): int
    requires t.bits > 0
  {
    if t.signed then Pow2(t.bits - 1) - 1 else Pow2(t.bits) - 1
  }

  predicate Fits(t: IntType, x: int) { t.bits > 0 && Lowest(t) <= x <= Highest(t) }

  /** char, short, int and long, signed or not. */
  predicate IsType(t: IntType) { t.bits in {8, 16, 32, 64} }

  /** The mathematical meaning: the value of the type that is nearest to `x`. */
  function Nearest(t: IntType, x: int): int
    requires t.bits > 0
  {
    if x < Lowest(t) then Lowest(t) else if x > Highest(t) then Highest(t) else x
  }

  // C++ operations that are defined only without overflow.
  function Plus(t: IntType, x: int, y: int): int
    requires Fits(t, x + y)
  {
    x + y
  }

  function Minus(t: IntType, x: int, y: int): int
    requires Fits(t, x - y)
  {
    x - y
  }

  function Times(t: IntType, x: int, y: int): int
    requires Fits(t, x * y)
  {
    x * y
  }

  function Cast(t: IntType, x: int): int
    requires Fits(t, x)
  {
    x
  }

  function Clamp(v: int, lo: int, hi: int): int {
    var a := if v < lo then lo else v;
    if hi < a then hi else a
  }

  function Min2(a: int, b: int): int { if b < a then b else a }

  function Max2(a: int, b: int): int { if b < a then a else b }

  lemma TypeBounds(t: IntType)
    requires IsType(t)
    ensures Lowest(t) <= 0 <= Highest(t)
    ensures t.signed ==> Lowest(t) == -Highest(t) - 1
    ensures t.bits < 64 ==>
      Lowest(I64) <= 2 * Lowest(t) && 2 * Highest(t) <= Highest(I64) && Highest(t) - Lowest(t) <= Highest(I64)
  {
    hide Pow2;
    Pow2Double(t.bits - 1);
    Pow2Double(t.bits);
    if t.bits < 64 { Pow2Grows(t.bits + 1, 63); }
  }

  function AddClamped(t: IntType, a: int, b: int): (r: int)
    requires IsType(t) && Fits(t, a) && Fits(t, b)
    ensures r == Nearest(t, a + b)
  {
    TypeBounds(t);
    if t.bits < 64 then Cast(t, Clamp(Plus(I64, a, b), Lowest(t), Highest(t)))
    else if a >= 0 then Plus(t, a, Min2(b, Minus(t, Highest(t), a)))
    else if b >= 0 then Plus(t, a, b)
    else Plus(t, a, Max2(b, Minus(t, Lowest(t), a)))
  }

  /** The source has one more branch, for a negative `a` with the lowest `b`; the
      test of the signs before it has already taken that case. */
  function SubClamped(t: IntType, a: int, b: int): (r: int)
    requires IsType(t) && Fits(t, a) && Fits(t, b)
    ensures r == Nearest(t, a - b)
  {
    TypeBounds(t);
    if !t.signed then (if a < b then 0 else Minus(t, a, b))
    else if t.bits < 64 then Cast(t, Clamp(Minus(I64, a, b), Lowest(t), Highest(t)))
    else if (a < 0) == (b < 0) then Minus(t, a, b)
    else if Lowest(t) < b then AddClamped(t, a, Cast(t, -b))
    else Highest(t)
  }

  lemma WiderFits(src: IntType, dst: IntType)
    requires IsType(src) && IsType(dst)
    ensures src.bits <= dst.bits && src.signed == dst.signed ==>
      Lowest(dst) <= Lowest(src) && Highest(src) <= Highest(dst)
    ensures src.bits <= dst.bits && src.signed && !dst.signed ==> Highest(src) <= Highest(dst)
    ensures src.bits < dst.bits && !src.signed && dst.signed ==> Highest(src) <= Highest(dst)
  {
    hide Pow2;
    if src.bits <= dst.bits {
      Pow2Grows(src.bits, dst.bits);
      Pow2Grows(src.bits - 1, dst.bits - 1);
      Pow2Grows(src.bits - 1, dst.bits);
      if src.bits < dst.bits { Pow2Grows(src.bits, dst.bits - 1); }
    }
  }

  /** constexpr_clamp_cast between integer types. */
  function ClampCast(src: IntType, dst: IntType, v: int): (r: int)
    requires IsType(src) && IsType(dst) && Fits(src, v)
    ensures r == Nearest(dst, v)
  {
    TypeBounds(src);
    TypeBounds(dst);
    WiderFits(src, dst);
    WiderFits(dst, src);
    if src.signed == dst.signed then
      if src.bits <= dst.bits then Cast(dst, v)
      else Cast(dst, Clamp(v, Cast(src, Lowest(dst)), Cast(src, Highest(dst))))
    else if src.signed then
      if v < 0 then 0
      else if src.bits <= dst.bits then Cast(dst, v)
      else Cast(dst, Min2(v, Cast(src, Highest(dst))))
    else
      if src.bits < dst.bits then Cast(dst, v)
      else Cast(dst, Min2(v, Cast(src, Highest(dst))))
  }

  // ---------------------------------------------------------------- powers without overflow

  function Abs(x: int): nat { if x < 0 then -x else x }

  lemma MulGrows(x: int, y: int, k: nat)
    requires Abs(y) >= k
    ensures Abs(x * y) == Abs(x) * Abs(y) && Abs(x * y) >= k * Abs(x)
  {
    MulMonotone(Abs(x), k, Abs(y));
    assert x * y == Abs(x) * Abs(y) || x * y == -(Abs(x) * Abs(y));
  }

  lemma MulMonotone(a: nat, k: nat, b: nat)
    requires k <= b
    ensures k * a <= a * b
  {
    assert a * b == k * a + (b - k) * a;
  }

  lemma {:induction false} PowerOfUnit(base: int, n: nat)
    requires Abs(base) == 1
    ensures Abs(Power(base, n)) == 1
  {
    if n > 0 { PowerOfUnit(base, n - 1); }
  }

  /** If a power fits the type, so do its half power and the square of that. */
  lemma HalfPowersFit(t: IntType, base: int, exp: nat)
    requires IsType(t) && exp > 1 && Fits(t, base) && Fits(t, Power(base, exp))
    ensures var p := Power(base, exp / 2);
      && Fits(t, p) && Fits(t, p * p)
      && Power(base, exp) == p * p * (if exp % 2 == 1 then base else 1)
  {
    hide Pow2;
    var h := exp / 2;
    var p := Power(base, h);
    PowerAdd(base, h, h);
    if exp % 2 == 1 {
      PowerAdd(base, 2 * h, 1);
      assert Power(base, 1) == base * Power(base, 0) == base;
    }
    assert Power(base, exp) == p * p * (if exp % 2 == 1 then base else 1);
    SquareFits(t, base, h, p, exp % 2 == 1);
    if p != 0 { MulGrows(p, p, 1); }
    if !t.signed { PowerSign(base, h); }
  }

  lemma {:induction false} PowerSign(base: int, n: nat)
    requires base >= 0
    ensures Power(base, n) >= 0
  {
    if n > 0 { PowerSign(base, n - 1); }
  }

  lemma SquareFits(t: IntType, base: int, h: nat, p: int, odd: bool)
    requires IsType(t) && h > 0 && p == Power(base, h) && Fits(t, p * p * (if odd then base else 1))
    ensures 0 <= p * p <= Highest(t)
  {
    hide Pow2;
    TypeRange(t);
    var q := p * p;
    if odd {
      if base == 0 {
        assert p == base * Power(base, h - 1) == 0;
      } else if Abs(base) == 1 {
        PowerOfUnit(base, h);
        MulGrows(p, p, 1);
      } else {
        MulGrows(q, base, 2);
      }
    }
  }

  lemma TypeRange(t: IntType)
    requires IsType(t)
    ensures Highest(t) >= 127 && (t.signed ==> Lowest(t) == -Highest(t) - 1) && (!t.signed ==> Lowest(t) == 0)
  {
    Pow2Grows(7, t.bits - 1);
    Pow2Grows(7, t.bits);
    assert Pow2(7) == 128;
  }

  /** constexpr_pow in any integer type, for any base: when the power fits the type
      no product on the way overflows, and the result is the power. */
  function ConstexprPow(t: IntType, base: int, exp: nat): (r: int)
    requires IsType(t) && Fits(t, base) && Fits(t, Power(base, exp))
    ensures r == Power(base, exp)
    decreases exp
  {
    if exp == 0 then 1
    else if exp == 1 then assert Power(base, 1) == base * Power(base, 0); base
    else
      HalfPowersFit(t, base, exp);
      var half := ConstexprPow(t, base, exp / 2);
      Times(t, Times(t, half, half), if exp % 2 == 1 then base else 1)
  }

  // ---------------------------------------------------------------- rounding, minimum, maximum

  /** C++ division of integers: towards zero. */
  function Trunc(x: int, y: int): int
    requires y != 0
  {
    var q := Abs(x) / Abs(y);
    if x >= 0 <==> y > 0 then q else -q
  }

  function CeilTo(t: int, round: int): int {
    if round == 0 then t else Trunc(t + if t < 0 then 0 else round - 1, round) * round
  }

  /** `r` is the least multiple of `m` that is not below `t`. */
  predicate IsCeil(t: int, m: nat, r: int)
    requires m > 0
  {
    r % m == 0 && t <= r < t + m
  }

  /** Division towards zero and back: at most one `m` short, on the side of zero. */
  lemma TruncTimes(x: int, y: int)
    requires y != 0
    ensures var m := Abs(y); var r := Trunc(x, y) * y;
      && r % m == 0 && (x >= 0 ==> x - m < r <= x && 0 <= r) && (x <= 0 ==> x <= r < x + m && r <= 0)
  {
    var m := Abs(y);
    var q := Abs(x) / m;
    TimesBack(Abs(x), m);
    TimesSign(q, y);
  }

  /** The quotient times the divisor, without signs. */
  lemma TimesBack(a: nat, m: nat)
    requires m > 0
    ensures var r := m * (a / m); 0 <= r <= a < r + m && r % m == 0 && (-r) % m == 0
  {
    var q := a / m;
    assert a == m * q + a % m;
    MultipleMod(m, q);
    MultipleMod(m, -q);
    MulNeg(m, q);
  }

  lemma TimesSign(q: int, y: int)
    ensures q * y == if y < 0 then -(Abs(y) * q) else Abs(y) * q
    ensures -q * y == if y < 0 then Abs(y) * q else -(Abs(y) * q)
  { }

  /** For a rounding unit of zero the value itself; else the least multiple that is
      not below the value exactly when the unit or the value is not of the wrong
      sign: a negative unit works for negative values only. */
  lemma CeilIsExact(t: int, round: int)
    ensures round == 0 ==> CeilTo(t, round) == t
    ensures round != 0 ==> (IsCeil(t, Abs(round), CeilTo(t, round)) <==> round > 0 || t < 0)
  {
    if round != 0 { TruncTimes(t + if t < 0 then 0 else round - 1, round); }
  }

  /** No value on the way overflows the type. */
  predicate CeilDefined(ty: IntType, t: int, round: int) {
    var sum := t + if t < 0 then 0 else round - 1;
    round == 0 ||
    ((t >= 0 ==> Fits(ty, round - 1) && Fits(ty, sum))
     && Fits(ty, Trunc(sum, round)) && Fits(ty, Trunc(sum, round) * round))
  }

  /** A quotient is never larger than the dividend, and as large for a divisor of
      one only. */
  lemma QuotientSmall(a: nat, m: nat)
    requires m > 0
    ensures 0 <= a / m <= a && (a > 0 ==> (a / m == a <==> m == 1))
  {
    var q := a / m;
    assert a == m * q + a % m;
    if m > 1 { MulMonotone(q, 2, m); }
  }

  lemma TruncSmall(x: int, y: int)
    requires y != 0
    ensures -(Abs(x) as int) <= Trunc(x, y) <= Abs(x)
    ensures x < 0 ==> (Trunc(x, y) == -x <==> y == -1)
  {
    QuotientSmall(Abs(x), Abs(y));
  }

  /** Exactly when nothing overflows: for a value that is not negative the sum must
      fit, and the unit must not be the lowest; for a negative one the only case is
      the lowest value divided by minus one. */
  lemma CeilDefinedIff(ty: IntType, t: int, round: int)
    requires IsType(ty) && Fits(ty, t) && Fits(ty, round)
    ensures CeilDefined(ty, t, round) <==>
      || round == 0
      || (if t < 0 then t != Lowest(ty) || round != -1 else round != Lowest(ty) && t + round - 1 <= Highest(ty))
  {
    hide Pow2;
    TypeRange(ty);
    if round != 0 {
      var sum := t + if t < 0 then 0 else round - 1;
      TruncTimes(sum, round);
      TruncSmall(sum, round);
    }
  }

  /** constexpr_max: the loop over its further arguments. */
  method ConstexprMax(first: int, ts: seq<int>) returns (a: int)
    ensures a == first || a in ts
    ensures a >= first && forall t :: t in ts ==> a >= t
  {
    a := first;
    var list := ts + [first];
    for i := 0 to |ts|
      invariant (a == first || a in ts) && a >= first && forall k :: 0 <= k < i ==> a >= ts[k]
    {
      a := if list[i] < a then a else list[i];
    }
  }

  /** constexpr_min. */
  method ConstexprMin(first: int, ts: seq<int>) returns (a: int)
    ensures a == first || a in ts
    ensures a <= first && forall t :: t in ts ==> a <= t
  {
    a := first;
    var list := ts + [first];
    for i := 0 to |ts|
      invariant (a == first || a in ts) && a <= first && forall k :: 0 <= k < i ==> a <= ts[k]
    {
      a := if list[i] < a then list[i] else a;
    }
  }
}
