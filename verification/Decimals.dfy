/** Exact fixed-point decimals: `unscaled * 10^-scale` with `unscaled` in 64 bits. The intermediates
    are computed in 128 bits; when they stay there is stated and proved below. */
module Decimals {
  import opened Wrappers

  datatype Decimal = Decimal(unscaled: int, scale: nat)

  const LL_MAX: int := 0x7FFF_FFFF_FFFF_FFFF
  const LL_MIN: int := -0x8000_0000_0000_0000
  const WIDE_MAX: int := 0x7FFF_FFFF_FFFF_FFFF_FFFF_FFFF_FFFF_FFFF
  const MAX_DECIMAL_SCALE := 8
  const MAX_INTERNAL_SCALE := 16
  const ZERO := Decimal(0, 0)

  predicate FitsLl(x: int) {
    LL_MIN <= x <= LL_MAX
  }

  predicate FitsWide(x: int) {
    -WIDE_MAX - 1 <= x <= WIDE_MAX
  }

  /** A narrowing cast from 128 to 64 bits keeps the low 64 bits. */
  function WrapLl(x: int): int {
    (x - LL_MIN) % 0x1_0000_0000_0000_0000 + LL_MIN
  }

  function Abs(x: int): nat {
    if x < 0 then -x else x
  }

  function ClampZero(x: int): nat {
    if x < 0 then 0 else x
  }

  function Max(a: nat, b: nat): nat {
    if a < b then b else a
  }

  // ---- powers of ten ----

  function Pow10(n: nat): (p: int)
    ensures p >= 1
  {
    if n == 0 then 1 else 10 * Pow10(n - 1)
  }

  method PowerOfTen(exponent: nat) returns (value: int)
    ensures value == Pow10(exponent)
  {
    value := 1;
    var i := 0;
    while i < exponent
      invariant 0 <= i <= exponent
      invariant value == Pow10(i)
    {
      value := value * 10;
      i := i + 1;
    }
  }

  /** u * 10^k, one factor at a time. */
  function Scaled(u: int, k: nat): int {
    if k == 0 then u else 10 * Scaled(u, k - 1)
  }

  lemma {:induction false} ScaledIsProduct(u: int, k: nat)
    ensures Scaled(u, k) == u * Pow10(k)
  {
    if k > 0 {
      ScaledIsProduct(u, k - 1);
      assert u * (10 * Pow10(k - 1)) == 10 * (u * Pow10(k - 1));
    }
  }

  lemma {:induction false} ScaledShift(u: int, j: nat, k: nat)
    ensures Scaled(Scaled(u, j), k) == Scaled(u, j + k)
  {
    if k > 0 {
      ScaledShift(u, j, k - 1);
    }
  }

  lemma {:induction false} ScaledAdd(u: int, v: int, k: nat)
    ensures Scaled(u + v, k) == Scaled(u, k) + Scaled(v, k)
    ensures Scaled(-v, k) == -Scaled(v, k)
    ensures Scaled(u - v, k) == Scaled(u, k) - Scaled(v, k)
  {
    if k > 0 {
      ScaledAdd(u, v, k - 1);
    }
  }

  lemma {:induction false} ScaledOrder(u: int, v: int, k: nat)
    ensures u < v <==> Scaled(u, k) < Scaled(v, k)
    ensures u == v <==> Scaled(u, k) == Scaled(v, k)
    ensures Scaled(0, k) == 0 && Abs(Scaled(u, k)) == Scaled(Abs(u), k) >= Abs(u)
  {
    if k > 0 {
      ScaledOrder(u, v, k - 1);
    }
  }

  // ---- what a decimal denotes ----

  /** The value of `d` in units of 10^-n. */
  function At(d: Decimal, n: nat): int
    requires d.scale <= n
  {
    Scaled(d.unscaled, n - d.scale)
  }

  lemma {:induction false} AtShift(d: Decimal, m: nat, n: nat)
    requires d.scale <= m <= n
    ensures At(d, n) == Scaled(At(d, m), n - m)
  {
    ScaledShift(d.unscaled, m - d.scale, n - m);
  }

  /** No trailing fractional zero: the one representation `Normalized` chooses. */
  predicate Canonical(d: Decimal) {
    d.scale == 0 || d.unscaled % 10 != 0
  }

  function Normalized(d: Decimal): (r: Decimal)
    ensures Canonical(r) && r.scale <= d.scale
    ensures At(r, d.scale) == d.unscaled
    decreases d.scale
  {
    if d.scale > 0 && d.unscaled % 10 == 0 then Normalized(Decimal(d.unscaled / 10, d.scale - 1)) else d
  }

  method Normalize(value: Decimal) returns (r: Decimal)
    ensures r == Normalized(value)
  {
    r := value;
    while r.scale > 0 && r.unscaled % 10 == 0
      invariant Normalized(r) == Normalized(value)
      decreases r.scale
    {
      r := Decimal(r.unscaled / 10, r.scale - 1);
    }
    if r.unscaled == 0 {
      r := r.(scale := 0);
    }
  }

  /** Normalizing keeps the value at every precision and never enlarges the magnitude. */
  lemma {:induction false} NormalizedKeepsValue(d: Decimal, n: nat)
    requires d.scale <= n
    ensures Normalized(d).scale <= n && At(Normalized(d), n) == At(d, n)
    ensures Abs(Normalized(d).unscaled) <= Abs(d.unscaled)
    ensures Normalized(d).unscaled < 0 <==> d.unscaled < 0
    ensures FitsLl(d.unscaled) ==> FitsLl(Normalized(d).unscaled)
  {
    var r := Normalized(d);
    AtShift(r, d.scale, n);
    ScaledOrder(r.unscaled, 0, d.scale - r.scale);
  }

  /** Two canonical decimals of equal value are the same decimal. */
  lemma {:induction false} CanonicalIsUnique(a: Decimal, b: Decimal, n: nat)
    requires Canonical(a) && Canonical(b)
    requires a.scale <= n && b.scale <= n
    requires At(a, n) == At(b, n)
    ensures a == b
  {
    if a.scale < b.scale {
      ShorterScaleHasZeros(a, b, n);
    } else if b.scale < a.scale {
      ShorterScaleHasZeros(b, a, n);
    }
    ScaledOrder(a.unscaled, b.unscaled, n - a.scale);
  }

  lemma {:induction false} ShorterScaleHasZeros(a: Decimal, b: Decimal, n: nat)
    requires a.scale < b.scale <= n && At(a, n) == At(b, n)
    ensures b.unscaled % 10 == 0
  {
    AtShift(a, b.scale, n);
    ScaledOrder(At(a, b.scale), b.unscaled, n - b.scale);
  }

  // ---- arithmetic ----

  function Aligned(a: Decimal, b: Decimal): (int, int) {
    var scale := Max(a.scale, b.scale);
    (At(a, scale), At(b, scale))
  }

  function Compare(a: Decimal, b: Decimal): int {
    var (lhs, rhs) := Aligned(a, b);
    if lhs < rhs then -1 else if lhs > rhs then 1 else 0
  }

  function Add(a: Decimal, b: Decimal): Result<Decimal> {
    var (lhs, rhs) := Aligned(a, b);
    if !FitsLl(lhs + rhs) then Err(Error("protocol", "decimal add overflow"))
    else Ok(Normalized(Decimal(lhs + rhs, Max(a.scale, b.scale))))
  }

  function Sub(a: Decimal, b: Decimal): Result<Decimal> {
    var (lhs, rhs) := Aligned(a, b);
    if !FitsLl(lhs - rhs) then Err(Error("protocol", "decimal sub overflow"))
    else Ok(Normalized(Decimal(lhs - rhs, Max(a.scale, b.scale))))
  }

  /** max(0, a - b); the difference is cast to 64 bits without a range check. */
  function SubClampedZero(a: Decimal, b: Decimal): Decimal {
    var (lhs, rhs) := Aligned(a, b);
    if lhs <= rhs then ZERO
    else Normalized(Decimal(WrapLl(lhs - rhs), Max(a.scale, b.scale)))
  }

  function Mul(a: Decimal, b: Decimal): Result<Decimal> {
    var product := a.unscaled * b.unscaled;
    if !FitsLl(product) then Err(Error("protocol", "decimal mul overflow"))
    else Ok(Normalized(Decimal(product, a.scale + b.scale)))
  }

  /** The negation is within 64 bits; beyond, the source's behaviour is undefined. */
  predicate NegationStays(d: Decimal) {
    FitsLl(-d.unscaled)
  }

  function Negate(d: Decimal): Decimal
    requires NegationStays(d)
  {
    Decimal(-d.unscaled, d.scale)
  }

  /** The quotient's magnitude at `maxScale` digits, as the two integer steps compute it. */
  function RoundedMagnitude(numerator: nat, denominator: nat): nat
    requires denominator > 0
  {
    numerator / denominator + (if numerator % denominator * 2 >= denominator then 1 else 0)
  }

  function Dividend(a: Decimal, b: Decimal, maxScale: nat): int {
    Scaled(a.unscaled, Max(a.scale, b.scale) - a.scale + maxScale)
  }

  function Divisor(a: Decimal, b: Decimal): int {
    Scaled(b.unscaled, Max(a.scale, b.scale) - b.scale)
  }

  /** Every 128-bit intermediate of the division is in range. */
  predicate DivStays(a: Decimal, b: Decimal, maxScale: nat)
    requires b.unscaled != 0
  {
    var (lhs, rhs) := (Dividend(a, b, maxScale), Divisor(a, b));
    ScaledOrder(b.unscaled, 0, Max(a.scale, b.scale) - b.scale);
    && FitsWide(Pow10(Max(a.scale, b.scale) - a.scale + maxScale)) && FitsWide(Pow10(Max(a.scale, b.scale) - b.scale))
    && FitsWide(lhs) && FitsWide(-lhs) && FitsWide(rhs) && FitsWide(-rhs)
    && FitsWide(Abs(lhs) % Abs(rhs) * 2) && FitsWide(RoundedMagnitude(Abs(lhs), Abs(rhs)))
  }

  /** None when a 128-bit intermediate overflows, where the source's behaviour is undefined. */
  function Div(a: Decimal, b: Decimal, maxScale: int): Option<Result<Decimal>> {
    if b.unscaled == 0 then Some(Err(Error("protocol", "decimal div by zero")))
    else if maxScale < 0 || maxScale > MAX_INTERNAL_SCALE
         then Some(Err(Error("protocol", "decimal div scale out of range")))
    else if !DivStays(a, b, maxScale) then None
    else
      var (lhs, rhs) := (Dividend(a, b, maxScale), Divisor(a, b));
      assert rhs != 0 by { ScaledOrder(b.unscaled, 0, Max(a.scale, b.scale) - b.scale); }
      var magnitude: int := RoundedMagnitude(Abs(lhs), Abs(rhs));
      var quotient := if (lhs < 0) != (rhs < 0) then -magnitude else magnitude;
      Some(if !FitsLl(quotient) then Err(Error("protocol", "decimal div overflow"))
           else Ok(Normalized(Decimal(quotient, maxScale))))
  }

  // ---- what the operations mean ----

  /** Three-way comparison is comparison of values, at any common precision. */
  lemma {:induction false} CompareIsExact(a: Decimal, b: Decimal, n: nat)
    requires a.scale <= n && b.scale <= n
    ensures Compare(a, b) < 0 <==> At(a, n) < At(b, n)
    ensures Compare(a, b) == 0 <==> At(a, n) == At(b, n)
    ensures Compare(a, b) > 0 <==> At(a, n) > At(b, n)
  {
    var m := Max(a.scale, b.scale);
    AtShift(a, m, n);
    AtShift(b, m, n);
    ScaledOrder(At(a, m), At(b, m), n - m);
  }

  /** Addition is exact and canonical, or reports that the aligned sum leaves 64 bits. */
  lemma {:induction false} AddIsExact(a: Decimal, b: Decimal, n: nat)
    requires a.scale <= n && b.scale <= n
    ensures Add(a, b).Ok? <==> FitsLl(At(a, Max(a.scale, b.scale)) + At(b, Max(a.scale, b.scale)))
    ensures Add(a, b).Err? ==> Add(a, b).error.code == "protocol"
    ensures Add(a, b).Ok? ==>
              var r := Add(a, b).value;
              Canonical(r) && r.scale <= Max(a.scale, b.scale) && At(r, n) == At(a, n) + At(b, n) && FitsLl(r.unscaled)
  {
    var m := Max(a.scale, b.scale);
    AtShift(a, m, n);
    AtShift(b, m, n);
    ScaledAdd(At(a, m), At(b, m), n - m);
    NormalizedKeepsValue(Decimal(At(a, m) + At(b, m), m), n);
  }

  /** Subtraction likewise. */
  lemma {:induction false} SubIsExact(a: Decimal, b: Decimal, n: nat)
    requires a.scale <= n && b.scale <= n
    ensures Sub(a, b).Ok? <==> FitsLl(At(a, Max(a.scale, b.scale)) - At(b, Max(a.scale, b.scale)))
    ensures Sub(a, b).Err? ==> Sub(a, b).error.code == "protocol"
    ensures Sub(a, b).Ok? ==>
              var r := Sub(a, b).value;
              Canonical(r) && r.scale <= Max(a.scale, b.scale) && At(r, n) == At(a, n) - At(b, n) && FitsLl(r.unscaled)
  {
    var m := Max(a.scale, b.scale);
    AtShift(a, m, n);
    AtShift(b, m, n);
    ScaledAdd(At(a, m), At(b, m), n - m);
    NormalizedKeepsValue(Decimal(At(a, m) - At(b, m), m), n);
  }

  /** The clamped difference is max(0, a - b) exactly when the aligned difference is within 64
      bits; past that the unchecked cast loses 2^64 units. */
  lemma {:induction false} SubClampedZeroIsExact(a: Decimal, b: Decimal, n: nat)
    requires a.scale <= n && b.scale <= n
    ensures SubClampedZero(a, b).scale <= Max(a.scale, b.scale) && Canonical(SubClampedZero(a, b))
    ensures At(SubClampedZero(a, b), n) == ClampZero(At(a, n) - At(b, n)) <==>
            At(a, Max(a.scale, b.scale)) - At(b, Max(a.scale, b.scale)) <= LL_MAX
  {
    var m := Max(a.scale, b.scale);
    var diff := At(a, m) - At(b, m);
    AtShift(a, m, n);
    AtShift(b, m, n);
    ScaledAdd(At(a, m), At(b, m), n - m);
    ScaledOrder(0, diff, n - m);
    ScaledOrder(0, 0, n);
    if diff > 0 {
      NormalizedKeepsValue(Decimal(WrapLl(diff), m), n);
      ScaledOrder(WrapLl(diff), diff, n - m);
    }
  }

  /** Multiplication is exact at the sum of the scales, or reports that it leaves 64 bits. */
  lemma {:induction false} MulIsExact(a: Decimal, b: Decimal)
    ensures Mul(a, b).Ok? <==> FitsLl(a.unscaled * b.unscaled)
    ensures Mul(a, b).Err? ==> Mul(a, b).error.code == "protocol"
    ensures Mul(a, b).Ok? ==> Mul(a, b).value.scale <= a.scale + b.scale && Canonical(Mul(a, b).value)
                              && At(Mul(a, b).value, a.scale + b.scale) == a.unscaled * b.unscaled
                              && FitsLl(Mul(a, b).value.unscaled)
  {
    if FitsLl(a.unscaled * b.unscaled) {
      NormalizedKeepsValue(Decimal(a.unscaled * b.unscaled, a.scale + b.scale), a.scale + b.scale);
    }
  }

  /** `q` is numerator/denominator rounded to the nearest integer, ties upward in magnitude. */
  predicate IsRoundedHalfAway(q: int, numerator: int, denominator: int) {
    -denominator < 2 * (q * denominator - numerator) <= denominator
  }

  lemma RoundingIsHalfAway(numerator: nat, denominator: nat)
    requires denominator > 0
    ensures IsRoundedHalfAway(RoundedMagnitude(numerator, denominator), numerator, denominator)
  {
    var q, r := numerator / denominator, numerator % denominator;
    assert numerator == q * denominator + r;
    assert (q + 1) * denominator == q * denominator + denominator;
  }

  lemma RoundingIsUnique(p: int, q: int, numerator: int, denominator: int)
    requires denominator > 0
    requires IsRoundedHalfAway(p, numerator, denominator) && IsRoundedHalfAway(q, numerator, denominator)
    ensures p == q
  {
    StepsAreWide(p, q, denominator);
    StepsAreWide(q, p, denominator);
  }

  lemma StepsAreWide(p: int, q: int, d: int)
    requires d > 0
    ensures p < q ==> q * d - p * d >= d
  {
    if p < q {
      var k := q - p - 1;
      GrowsBy(k, d);
      assert q * d == (p + (k + 1)) * d == p * d + (k + 1) * d;
      assert (k + 1) * d == k * d + d;
    }
  }

  lemma GrowsBy(q: nat, d: nat)
    requires d > 0
    ensures q * d >= q
  {
    assert q * (d - 1) >= 0;
    assert q * d == q * (d - 1) + q;
  }

  predicate DivAdmits(b: Decimal, maxScale: int) {
    b.unscaled != 0 && 0 <= maxScale <= MAX_INTERNAL_SCALE
  }

  /** Division: an error for a zero divisor or a precision out of range; else undefined exactly when a
      128-bit intermediate overflows; else the nearest decimal of `maxScale` digits to the true quotient
      a/b, ties away from zero, or an error exactly when that leaves 64 bits. `q` is that decimal's
      magnitude; it is the only integer within half a unit on the stated side. */
  lemma {:induction false} DivIsNearest(a: Decimal, b: Decimal, maxScale: int, q: nat)
    requires DivAdmits(b, maxScale) ==>
               IsRoundedHalfAway(q, Scaled(Abs(At(a, Max(a.scale, b.scale))), maxScale),
                                 Abs(At(b, Max(a.scale, b.scale))))
    ensures var signed: int := if (a.unscaled < 0) != (b.unscaled < 0) then -(q as int) else q;
            var outcome := Div(a, b, maxScale);
            && (outcome.Some? && outcome.value.Err? ==> outcome.value.error.code == "protocol")
            && if !DivAdmits(b, maxScale) then outcome.Some? && outcome.value.Err?
            else
              && (outcome.Some? <==> DivStays(a, b, maxScale))
              && (outcome.Some? ==> (outcome.value.Ok? <==> FitsLl(signed)))
              && (outcome.Some? && outcome.value.Ok? ==>
                    && Canonical(outcome.value.value) && outcome.value.value.scale <= maxScale
                    && At(outcome.value.value, maxScale) == signed)
  {
    if DivAdmits(b, maxScale) {
      var common := Max(a.scale, b.scale);
      var numerator, denominator := Scaled(Abs(At(a, common)), maxScale), Abs(At(b, common));
      ScaledShift(a.unscaled, common - a.scale, maxScale);
      ScaledOrder(At(a, common), 0, maxScale);
      ScaledOrder(a.unscaled, 0, common - a.scale);
      ScaledOrder(b.unscaled, 0, common - b.scale);
      assert Abs(Dividend(a, b, maxScale)) == numerator && Abs(Divisor(a, b)) == denominator > 0;
      RoundingIsHalfAway(numerator, denominator);
      RoundingIsUnique(q, RoundedMagnitude(numerator, denominator), numerator, denominator);
    }
  }

  // ---- 128 bits ----

  /** For 64-bit operands of at most 16 digits nothing but the scaled dividend can leave 128 bits, and
      it cannot as long as it is scaled by at most 10^19. */
  lemma {:induction false} DivStaysIn128Bits(a: Decimal, b: Decimal, maxScale: nat)
    requires FitsLl(a.unscaled) && FitsLl(b.unscaled) && b.unscaled != 0
    requires a.scale <= MAX_INTERNAL_SCALE && b.scale <= MAX_INTERNAL_SCALE && maxScale <= MAX_INTERNAL_SCALE
    ensures DivStays(a, b, maxScale) <==> FitsWide(Dividend(a, b, maxScale))
    ensures Max(a.scale, b.scale) - a.scale + maxScale <= 19 ==> DivStays(a, b, maxScale)
  {
    var common := Max(a.scale, b.scale);
    var e := common - a.scale + maxScale;
    PowersFit(e);
    PowersFit(common - b.scale);
    ScaledFits(b.unscaled, common - b.scale);
    ScaledOrder(b.unscaled, 0, common - b.scale);
    RoundingNeverGrows(Abs(Dividend(a, b, maxScale)), Abs(Divisor(a, b)));
    if e <= 19 {
      ScaledFitsWide(a.unscaled, e);
    }
    NegationFits(a.unscaled, e);
  }

  /** 10^19 is the exact bound: a power that keeps every 64-bit value within 128 bits. */
  lemma {:induction false} EveryDividendFitsIff(e: nat)
    ensures (forall u :: FitsLl(u) ==> FitsWide(Scaled(u, e))) <==> e <= 19
  {
    if e <= 19 {
      forall u | FitsLl(u) ensures FitsWide(Scaled(u, e)) {
        ScaledFitsWide(u, e);
      }
    } else {
      LargestOverflows(e);
      assert FitsLl(LL_MAX);
    }
  }

  /** The guard admits operands that overflow: dividing the largest value by 10^-8 at 12 digits. */
  lemma {:induction false} DivCanOverflow()
    ensures Div(Decimal(LL_MAX, 0), Decimal(1, 8), 12).None?
  {
    LargestOverflows(20);
  }

  lemma {:induction false} LargestOverflows(e: nat)
    requires e >= 20
    ensures !FitsWide(Scaled(LL_MAX, e))
  {
    ScaledBound(LL_MAX, LL_MAX, 20, e);
    EightDigits(LL_MAX);
    ScaledShift(LL_MAX, 8, 8);
    EightDigits(Scaled(LL_MAX, 8));
    ScaledShift(LL_MAX, 16, 4);
    FourDigits(Scaled(LL_MAX, 16));
  }

  lemma {:induction false} FourDigits(x: int)
    ensures Scaled(x, 3) == x * 1000 && Scaled(x, 4) == x * 1_0000
  {
    var x1, x2, x3 := Scaled(x, 1), Scaled(x, 2), Scaled(x, 3);
    assert x1 == 10 * Scaled(x, 0) == 10 * x;
    assert x2 == 10 * x1;
    assert x3 == 10 * x2;
    assert Scaled(x, 4) == 10 * x3;
  }

  lemma {:induction false} ScaledFitsWide(u: int, e: nat)
    requires FitsLl(u) && e <= 19
    ensures FitsWide(Scaled(u, e)) && FitsWide(-Scaled(u, e))
  {
    var most := 0x8000_0000_0000_0000;
    ScaledBound(Abs(u), most, e, 19);
    ScaledOrder(u, 0, e);
    EightDigits(most);
    ScaledShift(most, 8, 8);
    EightDigits(Scaled(most, 8));
    ScaledShift(most, 16, 3);
    FourDigits(Scaled(most, 16));
  }

  /** A scaled 64-bit value is never the one 128-bit number without a negation. */
  lemma {:induction false} NegationFits(u: int, e: nat)
    requires FitsLl(u)
    ensures FitsWide(Scaled(u, e)) ==> FitsWide(-Scaled(u, e))
  {
    if e > 0 {
      assert Scaled(u, e) == 10 * Scaled(u, e - 1);
      assert Scaled(u, e) != -WIDE_MAX - 1;
    }
  }

  lemma {:induction false} PowersFit(e: nat)
    requires e <= 32
    ensures FitsWide(Pow10(e))
  {
    ScaledIsProduct(1, e);
    ScaledBound(1, 1, e, 32);
    EightDigits(1);
    ScaledShift(1, 8, 8);
    EightDigits(Scaled(1, 8));
    ScaledShift(1, 16, 8);
    EightDigits(Scaled(1, 16));
    ScaledShift(1, 24, 8);
    EightDigits(Scaled(1, 24));
  }

  lemma RoundingNeverGrows(n: nat, d: nat)
    requires d > 0
    ensures 0 <= RoundedMagnitude(n, d) <= n && 0 <= n % d < d
  {
    QuotientIsSmaller(n, d);
    var q, r := n / d, n % d;
    if r * 2 >= d {
      assert n == q * d + r && d >= 2;
      GrowsBy(q, d - 1);
      assert q * d == q * (d - 1) + q;
    }
  }

  /** Aligning, adding and subtracting two 64-bit values of at most 16 digits stays in 128 bits. */
  lemma {:induction false} AlignedStaysIn128Bits(a: Decimal, b: Decimal)
    requires FitsLl(a.unscaled) && FitsLl(b.unscaled) && a.scale <= MAX_INTERNAL_SCALE && b.scale <= MAX_INTERNAL_SCALE
    ensures var (lhs, rhs) := Aligned(a, b);
            FitsWide(lhs) && FitsWide(rhs) && FitsWide(lhs + rhs) && FitsWide(lhs - rhs)
  {
    ScaledFits(a.unscaled, Max(a.scale, b.scale) - a.scale);
    ScaledFits(b.unscaled, Max(a.scale, b.scale) - b.scale);
  }

  lemma QuotientIsSmaller(n: nat, d: nat)
    requires d > 0
    ensures 0 <= n / d <= n && 0 <= n % d < d
  {
    var q, r := n / d, n % d;
    assert n == q * d + r;
    if q < 0 {
      StepsAreWide(q, 0, d);
    } else {
      GrowsBy(q, d);
    }
  }

  /** A 64-bit value times 10^e, e at most 16, uses less than 118 bits. */
  lemma {:induction false} ScaledFits(x: int, e: nat)
    requires FitsLl(x) && e <= 16
    ensures Abs(Scaled(x, e)) <= 0x8000_0000_0000_0000 * 1_0000_0000_0000_0000
  {
    ScaledBound(Abs(x), 0x8000_0000_0000_0000, e, 16);
    ScaledOrder(x, 0, e);
    EightDigits(0x8000_0000_0000_0000);
    EightDigits(0x8000_0000_0000_0000 * 1_0000_0000);
    ScaledShift(0x8000_0000_0000_0000, 8, 8);
  }

  lemma {:induction false} EightDigits(x: int)
    ensures Scaled(x, 8) == x * 1_0000_0000
  {
    FourDigits(x);
    FourDigits(Scaled(x, 4));
    ScaledShift(x, 4, 4);
  }

  lemma {:induction false} ScaledBound(u: nat, v: nat, j: nat, k: nat)
    requires u <= v && j <= k
    ensures 0 <= Scaled(u, j) <= Scaled(v, k)
  {
    if j > 0 {
      ScaledBound(u, v, j - 1, k - 1);
    } else if k > 0 {
      ScaledBound(u, v, 0, k - 1);
    }
  }
}
