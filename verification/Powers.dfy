/** Powers of two, integer square roots and real powers used by the fixed-point arithmetic. */
module Powers {

  const TWO_64: nat := 0x1_0000_0000_0000_0000

  function Pow2(n: nat): (p: nat)
    ensures p >= 1
  {
    if n == 0 then 1 else 2 * Pow2(n - 1)
  }

  lemma {:induction false} Pow2Add(a: nat, b: nat)
    ensures Pow2(a + b) == Pow2(a) * Pow2(b)
  {
    if a != 0 {
      Pow2Add(a - 1, b);
      assert Pow2(a + b) == 2 * Pow2((a - 1) + b);
    }
  }

  lemma {:induction false} Pow2Monotone(a: nat, b: nat)
    requires a <= b
    ensures Pow2(a) <= Pow2(b)
  {
    if a < b {
      Pow2Monotone(a, b - 1);
    }
  }

  /** `v << n`, without loss. */
  function Shl(v: nat, n: nat): nat {
    if n == 0 then v else 2 * Shl(v, n - 1)
  }

  /** `v >> n`. */
  function Shr(v: nat, n: nat): nat {
    if n == 0 then v else Shr(v / 2, n - 1)
  }

  /** The low `n` bits of `v`. */
  function LowBits(v: nat, n: nat): (low: nat)
    ensures low < Pow2(n) && low <= v
  {
    if n == 0 then 0 else 2 * LowBits(v / 2, n - 1) + v % 2
  }

  /** Bit `i` of `v`. */
  predicate Bit(v: nat, i: nat) {
    Shr(v, i) % 2 == 1
  }

  lemma {:induction false} ShlIsProduct(v: nat, n: nat)
    ensures Shl(v, n) == v * Pow2(n)
  {
    if n != 0 {
      ShlIsProduct(v, n - 1);
    }
  }

  lemma {:induction false} ShrHalves(v: nat, n: nat)
    ensures Shr(v, n + 1) == Shr(v, n) / 2
  {
    if n != 0 {
      ShrHalves(v / 2, n - 1);
    }
  }

  /** Splitting a number at bit `k` and putting it together again. */
  lemma {:induction false} SplitBits(v: nat, n: nat, k: nat)
    requires v < Pow2(n + k)
    ensures Shr(v, k) < Pow2(n) && v == Shl(Shr(v, k), k) + LowBits(v, k)
  {
    if k != 0 {
      SplitBits(v / 2, n, k - 1);
    }
  }

  /** The shift is the quotient by the power of two. */
  lemma {:induction false} ShrBounds(v: nat, k: nat)
    ensures Pow2(k) * Shr(v, k) <= v < Pow2(k) * (Shr(v, k) + 1)
  {
    if k != 0 {
      ShrBounds(v / 2, k - 1);
      DoubleBounds(Pow2(k - 1), Shr(v, k), v);
    }
  }

  lemma DoubleBounds(p: nat, q: nat, v: nat)
    requires p * q <= v / 2 < p * (q + 1)
    ensures (2 * p) * q <= v < (2 * p) * (q + 1)
  {
    assert (2 * p) * q == 2 * (p * q);
    assert (2 * p) * (q + 1) == 2 * (p * (q + 1));
  }

  /** Shifting keeps a number between powers of two. */
  lemma {:induction false} ShrRange(v: nat, k: nat, lo: nat, hi: nat)
    requires Pow2(k + lo) <= v < Pow2(k + hi)
    ensures Pow2(lo) <= Shr(v, k) < Pow2(hi)
  {
    if k != 0 {
      ShrRange(v / 2, k - 1, lo, hi);
    }
  }

  lemma {:induction false} LowBitsSmall(v: nat, n: nat)
    requires v < Pow2(n)
    ensures LowBits(v, n) == v
  {
    if n != 0 {
      LowBitsSmall(v / 2, n - 1);
    }
  }

  /** The low k + 1 bits are the low k bits with bit `k` put in front. */
  lemma {:induction false} LowBitsStep(v: nat, k: nat)
    ensures LowBits(v, k + 1) == LowBits(v, k) + (if Bit(v, k) then Pow2(k) else 0)
  {
    if k != 0 {
      LowBitsStep(v / 2, k - 1);
    }
  }

  lemma MulOrder(a: nat, b: nat, c: nat)
    requires b <= c
    ensures a * b <= a * c
  {
  }

  lemma SquareOrder(a: nat, b: nat)
    requires a <= b
    ensures a * a <= b * b
  {
    MulOrder(a, a, b);
    MulOrder(b, a, b);
  }

  /** `r` is the floor square root of `n`. */
  predicate IsRoot(r: nat, n: nat) {
    r * r <= n < (r + 1) * (r + 1)
  }

  /** The floor square root, found two bits at a time. */
  function IntegerRoot(n: nat): (r: nat)
    ensures IsRoot(r, n)
  {
    if n == 0 then 0
    else
      var half := IntegerRoot(n / 4);
      RootOfQuarter(half, n);
      if (2 * half + 1) * (2 * half + 1) <= n then 2 * half + 1 else 2 * half
  }

  lemma RootOfQuarter(half: nat, n: nat)
    requires IsRoot(half, n / 4)
    ensures (2 * half) * (2 * half) <= n < (2 * half + 2) * (2 * half + 2)
  {
    assert (2 * half) * (2 * half) == 4 * (half * half);
    assert (2 * half + 2) * (2 * half + 2) == 4 * ((half + 1) * (half + 1));
  }

  lemma RootOrder(r: nat, s: nat, a: nat, b: nat)
    requires r * r <= a <= b < (s + 1) * (s + 1)
    ensures r <= s
  {
    if s < r {
      SquareOrder(s + 1, r);
    }
  }

  /** The floor square root as a value to reason about. */
  ghost function FloorSqrt(n: nat): (r: nat)
    ensures IsRoot(r, n)
  {
    var _ := IntegerRoot(n);
    var r: nat :| IsRoot(r, n);
    r
  }

  lemma FloorSqrtUnique(n: nat, r: nat)
    requires IsRoot(r, n)
    ensures r == FloorSqrt(n)
  {
    RootOrder(r, FloorSqrt(n), n, n);
    RootOrder(FloorSqrt(n), r, n, n);
  }

  /** The number of bits of `n`; zero has none. */
  function BitLength(n: nat): (b: nat)
    ensures n < Pow2(b)
    ensures n > 0 ==> b > 0 && Pow2(b - 1) <= n
  {
    if n == 0 then 0 else 1 + BitLength(n / 2)
  }

  lemma {:induction false} BitLengthBound(n: nat, k: nat)
    requires n < Pow2(k)
    ensures BitLength(n) <= k
  {
    if BitLength(n) > k {
      Pow2Monotone(k, BitLength(n) - 1);
      assert false;
    }
  }

  /** `x` raised to the power `n`. */
  function Power(x: real, n: nat): real {
    if n == 0 then 1.0 else x * Power(x, n - 1)
  }

  /** `x` squared `k` times over: `x` raised to the power 2^k. */
  function Squared(x: real, k: nat): real
    decreases k, x
  {
    if k == 0 then x else Squared(x * x, k - 1)
  }

  lemma {:induction false} PowerAdd(x: real, a: nat, b: nat)
    ensures Power(x, a + b) == Power(x, a) * Power(x, b)
  {
    if a != 0 {
      PowerAdd(x, a - 1, b);
      assert Power(x, a + b) == x * Power(x, (a - 1) + b);
    }
  }

  lemma {:induction false} PowerOfSquare(x: real, n: nat)
    ensures Power(x * x, n) == Power(x, 2 * n)
  {
    if n != 0 {
      PowerOfSquare(x, n - 1);
      assert Power(x, 2 * n) == x * Power(x, 2 * n - 1);
      assert Power(x, 2 * n - 1) == x * Power(x, 2 * (n - 1));
    }
  }

  lemma {:induction false} SquaredIsPower(x: real, k: nat)
    ensures Squared(x, k) == Power(x, Pow2(k))
    decreases k
  {
    if k == 0 {
      assert Power(x, 1) == x * Power(x, 0);
    } else {
      SquaredIsPower(x * x, k - 1);
      PowerOfSquare(x, Pow2(k - 1));
    }
  }

  lemma {:induction false} SquaredMonotone(x: real, y: real, k: nat)
    requires 0.0 <= x <= y
    ensures 0.0 <= Squared(x, k) <= Squared(y, k)
    decreases k
  {
    if k != 0 {
      MulMonotone(x, y, x, y);
      SquaredMonotone(x * x, y * y, k - 1);
    }
  }

  lemma {:induction false} SquaredProduct(x: real, y: real, z: real, k: nat)
    requires z == x * y
    ensures Squared(z, k) == Squared(x, k) * Squared(y, k)
    decreases k
  {
    if k != 0 {
      var xx, yy, zz := x * x, y * y, z * z;
      assert zz == xx * yy;
      SquaredProduct(xx, yy, zz, k - 1);
      SquaredUnfold(x, xx, k);
      SquaredUnfold(y, yy, k);
      SquaredUnfold(z, zz, k);
    }
  }

  lemma SquaredUnfold(x: real, xx: real, k: nat)
    requires k > 0 && xx == x * x
    ensures Squared(x, k) == Squared(xx, k - 1)
  {
  }

  lemma MulMonotone(a: real, b: real, c: real, d: real)
    requires 0.0 <= a <= b && 0.0 <= c <= d
    ensures 0.0 <= a * c <= b * d
  {
    assert a * c <= b * c;
    assert b * c <= b * d;
  }
}
