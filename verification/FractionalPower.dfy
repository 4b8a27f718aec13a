/**
 `power_two_fractional`: 64 rounds of "shift by one bit of the ratio, take the square root",
 which approximate 2^(ratio / 2^64) or 2^(-ratio / 2^64) in 254-bit fixed point.
 */
module FractionalPower {
  import opened Powers
  import opened FixedPoint

  /** The doubling or halving that precedes a square root, when the bit of the ratio is set. */
  function Shifted(base: nat, bit: bool, increase: bool): nat {
    if !bit then base else if increase then 2 * base else base / 2
  }

  /** The fixed-point value held by the loop after `k` rounds; 2^254 stands for one. */
  ghost function BaseAfter(ratio: nat, increase: bool, k: nat): nat
    decreases k, 0
  {
    if k == 0 then TWO_254 else FloorSqrt(Input(ratio, increase, k - 1)) * TWO_127
  }

  /** The number whose square root round `k` takes. */
  ghost function Input(ratio: nat, increase: bool, k: nat): nat
    decreases k, 1
  {
    Shifted(BaseAfter(ratio, increase, k), Bit(ratio, k), increase)
  }

  // ---------------------------------------------------------------------------------------
  // Ranges
  // ---------------------------------------------------------------------------------------

  /** The held value stays in [1/2, 1] going down and in [1, 2) going up. */
  ghost predicate InRange(base: nat, increase: bool) {
    && base % 2 == 0
    && (if increase then TWO_254 <= base < 2 * TWO_254 else TWO_254 / 2 <= base <= TWO_254)
  }

  lemma {:induction false} BaseInRange(ratio: nat, increase: bool, k: nat)
    ensures InRange(BaseAfter(ratio, increase, k), increase)
  {
    if k != 0 {
      BaseInRange(ratio, increase, k - 1);
      RootRange(BaseAfter(ratio, increase, k - 1), Bit(ratio, k - 1), increase,
                FloorSqrt(Input(ratio, increase, k - 1)));
    }
  }

  /** One round keeps the range, and its root is at least two thirds of the factor applied. */
  lemma RootRange(base: nat, bit: bool, increase: bool, root: nat)
    requires InRange(base, increase) && IsRoot(root, Shifted(base, bit, increase))
    ensures InRange(root * TWO_127, increase)
    ensures 3 * root >= (if !bit then 2 else if increase then 4 else 1) * TWO_127
  {
    var input := Shifted(base, bit, increase);
    RootOrder(if increase then TWO_127 else TWO_127 / 2, root, input, input);
    RootOrder(root, if increase then TWO_128 - 1 else TWO_127, input, input);
    if increase && bit {
      RootOrder(0xAAAA_AAAA_AAAA_AAAA_AAAA_AAAA_AAAA_AAAB, root, input, input);
    } else if !bit {
      RootOrder(0x5555_5555_5555_5555_5555_5555_5555_5556, root, input, input);
    }
  }

  // ---------------------------------------------------------------------------------------
  // The error bound
  // ---------------------------------------------------------------------------------------

  /** The weight of the last bit of a root, 2^-127. */
  const ULP: real := 1.0 / TWO_127 as real

  /** The number a fixed-point value stands for. */
  function Fraction(base: nat): real {
    base as real / TWO_254 as real
  }

  /** 2^r going up and 2^-r going down, for the low `k` bits `r` of the ratio. */
  ghost function Target(ratio: nat, increase: bool, k: nat): real {
    Power(if increase then 2.0 else 0.5, LowBits(ratio, k))
  }

  /** The value held after `k` rounds, and the same with the error bound of four units added. */
  ghost function Lower(ratio: nat, increase: bool, k: nat): real {
    Fraction(BaseAfter(ratio, increase, k))
  }

  ghost function Upper(ratio: nat, increase: bool, k: nat): real {
    Lower(ratio, increase, k) + 4.0 * ULP
  }

  /**
   After every round the held value, raised to 2^k, is at most the true power, and four units of
   2^-127 more is at least the true power. The source claims 5.2 units.
   */
  lemma {:induction false} ErrorBound(ratio: nat, increase: bool, k: nat)
    ensures Squared(Lower(ratio, increase, k), k) <= Target(ratio, increase, k)
    ensures Target(ratio, increase, k) <= Squared(Upper(ratio, increase, k), k)
  {
    if k == 0 {
      assert Squared(1.0, 0) == 1.0;
    } else {
      ErrorBound(ratio, increase, k - 1);
      ErrorStep(ratio, increase, k - 1);
    }
  }

  lemma ErrorStep(ratio: nat, increase: bool, k: nat)
    requires Squared(Lower(ratio, increase, k), k) <= Target(ratio, increase, k)
    requires Target(ratio, increase, k) <= Squared(Upper(ratio, increase, k), k)
    ensures Squared(Lower(ratio, increase, k + 1), k + 1) <= Target(ratio, increase, k + 1)
    ensures Target(ratio, increase, k + 1) <= Squared(Upper(ratio, increase, k + 1), k + 1)
  {
    BaseInRange(ratio, increase, k);
    TargetStep(ratio, increase, k);
    BracketRound(BaseAfter(ratio, increase, k), Bit(ratio, k), increase, FloorSqrt(Input(ratio, increase, k)),
                 Target(ratio, increase, k), Target(ratio, increase, k + 1), k);
  }

  /** One round keeps the bracket around the target. */
  lemma BracketRound(base: nat, bit: bool, increase: bool, root: nat, target: real, target': real, k: nat)
    requires InRange(base, increase) && IsRoot(root, Shifted(base, bit, increase))
    requires Squared(Fraction(base), k) <= target <= Squared(Fraction(base) + 4.0 * ULP, k)
    requires target' == target * Squared(Factor(bit, increase), k)
    ensures Squared(Fraction(root * TWO_127), k + 1) <= target'
    ensures target' <= Squared(Fraction(root * TWO_127) + 4.0 * ULP, k + 1)
  {
    OneRound(base, bit, increase, root);
    BracketStep(Fraction(base), Fraction(base) + 4.0 * ULP, Factor(bit, increase), target, target',
                Fraction(root * TWO_127), Fraction(root * TWO_127) + 4.0 * ULP, k);
  }

  function Factor(bit: bool, increase: bool): real {
    if !bit then 1.0 else if increase then 2.0 else 0.5
  }

  lemma OneRound(base: nat, bit: bool, increase: bool, root: nat)
    requires InRange(base, increase) && IsRoot(root, Shifted(base, bit, increase))
    ensures RootBelow(Fraction(base), Factor(bit, increase), Fraction(root * TWO_127))
    ensures RootAbove(Fraction(base) + 4.0 * ULP, Factor(bit, increase), Fraction(root * TWO_127) + 4.0 * ULP)
  {
    var x, next := Fraction(base), Fraction(root * TWO_127);
    RootRange(base, bit, increase, root);
    RealRoot(base, bit, increase, root, x, next);
    FourUnits(x, Factor(bit, increase), next, ULP, x + 4.0 * ULP, next + 4.0 * ULP);
  }

  /** `next` is at most the square root of `x * factor`. */
  ghost predicate RootBelow(x: real, factor: real, next: real) {
    0.0 <= next * next <= x * factor
  }

  /** `next` is at least the square root of `x * factor`. */
  ghost predicate RootAbove(x: real, factor: real, next: real) {
    0.0 <= x * factor <= next * next
  }

  lemma RealRoot(base: nat, bit: bool, increase: bool, root: nat, x: real, next: real)
    requires base % 2 == 0 && IsRoot(root, Shifted(base, bit, increase))
    requires x == Fraction(base) && next == Fraction(root * TWO_127)
    ensures next * next <= x * Factor(bit, increase) < (next + ULP) * (next + ULP)
  {
    var input := Shifted(base, bit, increase);
    FractionOfRoot(root);
    FractionOfShift(base, bit, increase);
    RealIsRoot(root, input);
    Scaled(input as real, root as real, TWO_127 as real, x * Factor(bit, increase), next, ULP);
  }

  lemma RealIsRoot(root: nat, input: nat)
    requires IsRoot(root, input)
    ensures var r := root as real; r * r <= input as real < (r + 1.0) * (r + 1.0)
  {
    var r := root as real;
    assert (root * root) as real == r * r;
    assert ((root + 1) * (root + 1)) as real == (r + 1.0) * (r + 1.0);
  }

  lemma FractionOfRoot(root: nat)
    ensures Fraction(root * TWO_127) == root as real / TWO_127 as real
  {
  }

  lemma FractionOfShift(base: nat, bit: bool, increase: bool)
    requires base % 2 == 0
    ensures Fraction(base) * Factor(bit, increase) ==
            Shifted(base, bit, increase) as real / (TWO_127 as real * TWO_127 as real)
  {
  }

  lemma Scaled(input: real, root: real, t: real, y: real, next: real, u: real)
    requires t > 0.0 && root * root <= input < (root + 1.0) * (root + 1.0)
    requires y == input / (t * t) && next == root / t && u == 1.0 / t
    ensures next * next <= y < (next + u) * (next + u)
  {
    SquareScaled(next, t, root);
    assert (next + u) * t == root + 1.0;
    SquareScaled(next + u, t, root + 1.0);
    DivLess(input, t * t, (next + u) * (next + u));
    DivAtLeast(input, t * t, next * next);
  }

  lemma SquareScaled(x: real, t: real, r: real)
    requires x * t == r
    ensures (x * x) * (t * t) == r * r
  {
  }

  lemma DivAtLeast(a: real, b: real, q: real)
    requires b > 0.0 && q * b <= a
    ensures q <= a / b
  {
  }

  lemma DivLess(a: real, b: real, q: real)
    requires b > 0.0 && a < q * b
    ensures a / b < q
  {
  }

  /** Four units absorb both the inherited error, scaled by the factor, and the new rounding. */
  lemma FourUnits(x: real, factor: real, next: real, u: real, x': real, next': real)
    requires 0.0 < u && next * next <= x * factor < (next + u) * (next + u)
    requires 0.0 < next && 0.0 < factor && 3.0 * next >= 2.0 * factor
    requires x' == x + 4.0 * u && next' == next + 4.0 * u
    ensures RootBelow(x, factor, next) && RootAbove(x', factor, next')
  {
    ScaleSum(x, u, factor);
    SquareOfSum(next, u);
    ScaleOrder(4.0 * factor, 6.0 * next + 15.0 * u, u);
    RealSquare(next);
  }

  lemma ScaleSum(x: real, u: real, f: real)
    ensures (x + 4.0 * u) * f == x * f + (4.0 * f) * u
  {
  }

  lemma SquareOfSum(a: real, u: real)
    ensures (a + 4.0 * u) * (a + 4.0 * u) == (a + u) * (a + u) + (6.0 * a + 15.0 * u) * u
  {
  }

  lemma RealSquare(a: real)
    ensures a * a >= 0.0
  {
  }

  lemma LowerStep(x: real, factor: real, target: real, target': real, next: real, k: nat)
    requires RootBelow(x, factor, next) && factor > 0.0
    requires Squared(x, k) <= target && target' == target * Squared(factor, k)
    ensures Squared(next, k + 1) <= target'
  {
    var y := x * factor;
    SquaredMonotone(next * next, y, k);
    SquaredMonotone(0.0, factor, k);
    SquaredProduct(x, factor, y, k);
    ScaleOrder(Squared(x, k), target, Squared(factor, k));
  }

  lemma UpperStep(x: real, factor: real, target: real, target': real, next: real, k: nat)
    requires RootAbove(x, factor, next) && factor > 0.0
    requires target <= Squared(x, k) && target' == target * Squared(factor, k)
    ensures target' <= Squared(next, k + 1)
  {
    var y := x * factor;
    SquaredMonotone(y, next * next, k);
    SquaredMonotone(0.0, factor, k);
    SquaredProduct(x, factor, y, k);
    ScaleOrder(target, Squared(x, k), Squared(factor, k));
  }

  lemma BracketStep(x: real, y: real, factor: real, target: real, target': real, x': real, y': real, k: nat)
    requires RootBelow(x, factor, x') && RootAbove(y, factor, y') && factor > 0.0
    requires Squared(x, k) <= target <= Squared(y, k) && target' == target * Squared(factor, k)
    ensures Squared(x', k + 1) <= target' <= Squared(y', k + 1)
  {
    LowerStep(x, factor, target, target', x', k);
    UpperStep(y, factor, target, target', y', k);
  }

  lemma ScaleOrder(a: real, b: real, c: real)
    requires a <= b && c >= 0.0
    ensures a * c <= b * c
  {
  }

  lemma TargetStep(ratio: nat, increase: bool, k: nat)
    ensures Target(ratio, increase, k + 1) ==
            Target(ratio, increase, k) * Squared(Factor(Bit(ratio, k), increase), k)
  {
    LowBitsStep(ratio, k);
    if Bit(ratio, k) {
      RaiseMore(if increase then 2.0 else 0.5, LowBits(ratio, k), k);
    } else {
      SquaredOne(k);
    }
  }

  lemma RaiseMore(two: real, low: nat, k: nat)
    ensures Power(two, low + Pow2(k)) == Power(two, low) * Squared(two, k)
  {
    PowerAdd(two, low, Pow2(k));
    SquaredIsPower(two, k);
  }

  lemma {:induction false} SquaredOne(k: nat)
    ensures Squared(1.0, k) == 1.0
  {
    if k != 0 {
      SquaredOne(k - 1);
    }
  }

  /**
   `result / 2^precision` approximates 2^(ratio / 2^64), or its inverse: it is not above, and
   one unit of the last place plus four units of 2^-127 more is not below.
   */
  ghost predicate Approximates(result: nat, ratio: nat, increase: bool, precision: nat) {
    var one := Pow2(precision) as real;
    var target := Power(if increase then 2.0 else 0.5, ratio);
    && Squared(result as real / one, 64) <= target
    && target <= Squared((result + 1) as real / one + 4.0 * ULP, 64)
  }

  lemma FinalShift(ratio: nat, increase: bool, precision: nat, k: nat, base: nat, result: nat)
    requires ratio < TWO_64 && precision <= 127
    requires k == 64 && base == BaseAfter(ratio, increase, k) && result == Shr(base, 254 - precision)
    ensures Approximates(result, ratio, increase, precision)
  {
    ErrorBound(ratio, increase, k);
    WholeRatio(ratio, k);
    Truncate(base, precision, result, Target(ratio, increase, k), k);
  }

  lemma Truncate(base: nat, precision: nat, result: nat, target: real, k: nat)
    requires precision <= 127 && result == Shr(base, 254 - precision)
    requires Squared(Fraction(base), k) <= target <= Squared(Fraction(base) + 4.0 * ULP, k)
    ensures var one := Pow2(precision) as real;
            Squared(result as real / one, k) <= target <= Squared((result + 1) as real / one + 4.0 * ULP, k)
  {
    var one := Pow2(precision) as real;
    ShiftBounds(base, precision, result);
    Widen(result as real / one, Fraction(base), Fraction(base) + 4.0 * ULP,
          (result + 1) as real / one + 4.0 * ULP, target, k);
  }

  lemma WholeRatio(ratio: nat, k: nat)
    requires ratio < TWO_64 && k == 64
    ensures LowBits(ratio, k) == ratio
  {
    SmallPowers();
    LowBitsSmall(ratio, k);
  }

  lemma Widen(lo: real, x: real, y: real, hi: real, target: real, k: nat)
    requires 0.0 <= lo <= x && 0.0 <= y <= hi && Squared(x, k) <= target <= Squared(y, k)
    ensures Squared(lo, k) <= target <= Squared(hi, k)
  {
    SquaredMonotone(lo, x, k);
    SquaredMonotone(y, hi, k);
  }

  lemma ShiftBounds(base: nat, precision: nat, result: nat)
    requires precision <= 127 && result == Shr(base, 254 - precision)
    ensures var one := Pow2(precision) as real;
            0.0 <= result as real / one <= Fraction(base) <= (result + 1) as real / one
  {
    SplitScale(precision);
    ShrBounds(base, 254 - precision);
    ShiftOrder(base, Pow2(precision), Pow2(254 - precision), result);
  }

  lemma SplitScale(precision: nat)
    requires precision <= 127
    ensures Pow2(precision) * Pow2(254 - precision) == TWO_254
  {
    Pow2Add(precision, 254 - precision);
    Power254();
  }

  lemma ShiftOrder(base: nat, one: nat, rest: nat, result: nat)
    requires one * rest == TWO_254 && one > 0 && rest > 0 && rest * result <= base < rest * (result + 1)
    ensures 0.0 <= result as real / one as real <= Fraction(base) <= (result + 1) as real / one as real
  {
    assert rest as real * result as real <= base as real <= rest as real * (result as real + 1.0);
    assert one as real * rest as real == TWO_254 as real;
    RealScale(one as real, rest as real, result as real, base as real);
  }

  lemma RealScale(one: real, rest: real, result: real, base: real)
    requires one > 0.0 && rest > 0.0 && rest * result <= base <= rest * (result + 1.0)
    ensures result / one <= base / (one * rest) <= (result + 1.0) / one
  {
    var x := base / (one * rest);
    assert x * (one * rest) == base;
    var lo, hi := result / one, (result + 1.0) / one;
    assert lo * one == result && hi * one == result + 1.0;
    assert lo * (one * rest) == rest * result;
    assert hi * (one * rest) == rest * (result + 1.0);
    CancelScale(lo, x, one * rest);
    CancelScale(x, hi, one * rest);
  }

  lemma CancelScale(a: real, b: real, c: real)
    requires c > 0.0 && a * c <= b * c
    ensures a <= b
  {
  }
}
