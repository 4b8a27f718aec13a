/**
 256-bit fixed-point arithmetic: the integer square root of a U256 by Newton's method, and the
 64-step approximation of 2^(ratio / 2^64) and 2^(-ratio / 2^64) built on it.
 */
module FixedPoint {
  import opened Powers

  const TWO_31: nat := 0x8000_0000
  const TWO_32: nat := 0x1_0000_0000
  const TWO_96: nat := 0x1_0000_0000_0000_0000_0000_0000
  const TWO_127: nat := 0x8000_0000_0000_0000_0000_0000_0000_0000
  const TWO_128: nat := 0x1_0000_0000_0000_0000_0000_0000_0000_0000
  const TWO_192: nat := 0x1_0000_0000_0000_0000_0000_0000_0000_0000_0000_0000_0000_0000
  const TWO_254: nat := 0x4000_0000_0000_0000_0000_0000_0000_0000_0000_0000_0000_0000_0000_0000_0000_0000
  const TWO_256: nat := 0x1_0000_0000_0000_0000_0000_0000_0000_0000_0000_0000_0000_0000_0000_0000_0000_0000

  /** The square of 2^32 - 1: top words from here on make the first estimate 2^128. */
  const TOP_WORD: nat := 0xffff_fffe_0000_0001

  /** The outcome of arithmetic on a U256, whose `*` panics when the product leaves 256 bits. */
  datatype Checked = Value(value: nat) | Overflow

  lemma SmallPowers()
    ensures Pow2(32) == TWO_32 && Pow2(62) == TWO_64 / 4 && Pow2(63) == TWO_64 / 2 && Pow2(64) == TWO_64
  {
    assert Pow2(8) == 0x100;
    assert Pow2(16) == 0x1_0000;
    assert Pow2(24) == 0x100_0000;
    assert Pow2(31) == 0x8000_0000;
    Pow2Add(31, 31);
  }

  lemma Power96()
    ensures Pow2(96) == TWO_96
  {
    SmallPowers();
    Pow2Add(32, 64);
  }

  lemma Power128()
    ensures Pow2(128) == TWO_128
  {
    SmallPowers();
    Pow2Add(64, 64);
  }

  lemma Power254()
    ensures Pow2(254) == TWO_254
  {
    SmallPowers();
    Pow2Add(63, 64);
    Pow2Add(127, 127);
  }

  lemma Power256()
    ensures Pow2(256) == TWO_256
  {
    Power128();
    Pow2Add(128, 128);
  }

  // ---------------------------------------------------------------------------------------
  // Newton's iteration
  // ---------------------------------------------------------------------------------------

  /** The body of the loop: one Newton step with both divisions rounding down. */
  function NewtonStep(n: nat, root: nat): nat
    requires root > 0
  {
    (n / root + root) / 2
  }

  /** A step from above the root strictly decreases and never falls below the floor root. */
  lemma StepStaysAbove(n: nat, root: nat)
    requires root * root > n
    ensures n / root < root && NewtonStep(n, root) < root
    ensures n < (NewtonStep(n, root) + 1) * (NewtonStep(n, root) + 1)
  {
    var q := n / root;
    assert q < root by {
      if root <= q {
        MulOrder(root, root, q);
      }
    }
    var next := NewtonStep(n, root);
    assert n < root * (q + 1);
    MeanBound(q + 1, root);
    SquareOrder(q + 1 + root, 2 * next + 2);
    assert (2 * next + 2) * (2 * next + 2) == 4 * ((next + 1) * (next + 1));
  }

  lemma MeanBound(a: nat, b: nat)
    ensures 4 * (b * a) <= (a + b) * (a + b)
  {
    assert (a + b) * (a + b) == (a - b) * (a - b) + 4 * (b * a);
    SquareNonNegative(a - b);
  }

  lemma SquareNonNegative(x: int)
    ensures x * x >= 0
  {
  }

  /** Quadratic convergence: the excess of the square shrinks to at most excess^2 / (4 root^2). */
  lemma StepConverges(n: nat, root: nat)
    requires root * root > n
    ensures var next := NewtonStep(n, root);
            4 * (root * root) * (next * next - n) <= (root * root - n) * (root * root - n)
  {
    var q := n / root;
    var next := NewtonStep(n, root);
    var square := root * root;
    assert root * q <= n;
    assert 2 * (root * next) <= n + square by {
      MulOrder(root, 2 * next, q + root);
      assert root * (2 * next) == 2 * (root * next);
      assert root * (q + root) == root * q + square;
    }
    SquareOrder(2 * (root * next), n + square);
    assert (2 * (root * next)) * (2 * (root * next)) == 4 * square * (next * next) by {
      Regroup(root, next);
    }
    Completed(n, square, next * next);
  }

  lemma Regroup(a: int, b: int)
    ensures (2 * (a * b)) * (2 * (a * b)) == 4 * (a * a) * (b * b)
  {
  }

  lemma Completed(n: int, s: int, t: int)
    requires 4 * s * t <= (n + s) * (n + s)
    ensures 4 * s * (t - n) <= (s - n) * (s - n)
  {
  }

  /**
   What the first estimate knows. The bits shifted out of `n` are worth `p * p`, and `s` is the
   floor root of what is left.
   */
  ghost predicate Estimate(n: nat, s: nat, p: nat) {
    && TWO_31 <= s < TWO_32
    && 1 <= p <= TWO_96
    && (s * p) * (s * p) <= n < ((s + 1) * p) * ((s + 1) * p)
  }

  /** The number of low bits the first estimate drops; always even. */
  function RestBits(bits: nat): (rest: nat)
    requires bits > 64
    ensures rest % 2 == 0 && 62 <= bits - rest - 1 <= 63
  {
    bits - (64 - bits % 2)
  }

  /** The root of the bits kept, and the factor that brings it back to the size of the root of `n`. */
  function TopRoot(n: nat): nat
    requires BitLength(n) > 64
  {
    IntegerRoot(Shr(n, RestBits(BitLength(n))))
  }

  function Scale(n: nat): nat
    requires BitLength(n) > 64
  {
    Pow2(RestBits(BitLength(n)) / 2)
  }

  lemma FirstEstimate(n: nat)
    requires n < TWO_256 && BitLength(n) > 64
    ensures Estimate(n, TopRoot(n), Scale(n))
  {
    var bits := BitLength(n);
    var rest := RestBits(bits);
    assert bits <= 256 by {
      Power256();
      BitLengthBound(n, 256);
    }
    WordRange(n, bits, rest);
    assert Pow2(rest) == Pow2(rest / 2) * Pow2(rest / 2) by { Pow2Add(rest / 2, rest / 2); }
    assert Pow2(rest / 2) <= TWO_96 by {
      Power96();
      Pow2Monotone(rest / 2, 96);
    }
    ShrBounds(n, rest);
    RootOfWord(n, Shr(n, rest), Pow2(rest / 2), IntegerRoot(Shr(n, rest)));
  }

  lemma RootOfWord(n: nat, word: nat, p: nat, s: nat)
    requires 1 <= p <= TWO_96 && (p * p) * word <= n < (p * p) * (word + 1)
    requires TWO_64 / 4 <= word < TWO_64
    requires s * s <= word < (s + 1) * (s + 1)
    ensures Estimate(n, s, p)
  {
    RootOrder(TWO_31, s, word, word);
    RootOrder(s, TWO_32 - 1, word, TWO_64 - 1);
    ScaleRoot(n, word, p, s);
  }

  lemma WordRange(n: nat, bits: nat, rest: nat)
    requires bits > 64 && rest == RestBits(bits)
    requires Pow2(bits - 1) <= n < Pow2(bits)
    ensures TWO_64 / 4 <= Shr(n, rest) < TWO_64
  {
    Pow2Monotone(rest + 62, bits - 1);
    Pow2Monotone(bits, rest + 64);
    ShrRange(n, rest, 62, 64);
    SmallPowers();
  }

  lemma DivBounds(n: nat, d: nat, lo: nat, hi: nat)
    requires d > 0 && d * lo <= n < d * hi
    ensures lo <= n / d < hi
  {
    var q := n / d;
    assert d * q <= n < d * (q + 1);
    if q < lo {
      MulOrder(d, q + 1, lo);
    } else if hi <= q {
      MulOrder(d, hi, q);
    }
  }

  lemma ScaleRoot(n: nat, word: nat, p: nat, s: nat)
    requires (p * p) * word <= n < (p * p) * (word + 1)
    requires s * s <= word < (s + 1) * (s + 1)
    ensures (s * p) * (s * p) <= n < ((s + 1) * p) * ((s + 1) * p)
  {
    var d := p * p;
    MulOrder(d, s * s, word);
    MulOrder(d, word + 1, (s + 1) * (s + 1));
    SquareProduct(s, p);
    SquareProduct(s + 1, p);
  }

  lemma SquareProduct(a: nat, b: nat)
    ensures (a * b) * (a * b) == (b * b) * (a * a)
  {
  }

  /** After one round the square exceeds `n` by less than `p * p`. */
  lemma RoundOne(n: nat, s: nat, p: nat, root: nat)
    requires Estimate(n, s, p) && root == (s + 1) * p && root * root > n
    ensures NewtonStep(n, root) * NewtonStep(n, root) < n + p * p
  {
    var a := p * p;
    SquareProduct(s, p);
    SquareProduct(s + 1, p);
    NextSquare(a, s);
    SquareOrder(root * root - n, a * (2 * s + 1));
    StepConverges(n, root);
    ExcessOne(a, s, root * root, NewtonStep(n, root) * NewtonStep(n, root) - n);
  }

  lemma NextSquare(a: nat, s: nat)
    ensures a * ((s + 1) * (s + 1)) == a * (s * s) + a * (2 * s + 1)
  {
  }

  lemma ExcessOne(a: nat, s: nat, square: nat, excess: int)
    requires a > 0 && square == a * ((s + 1) * (s + 1))
    requires 4 * square * excess <= (a * (2 * s + 1)) * (a * (2 * s + 1))
    ensures excess < a
  {
    if excess >= a {
      MulOrder(4 * square, a, excess);
      assert 4 * square * a == (a * a) * ((2 * s + 2) * (2 * s + 2)) by {
        assert (2 * s + 2) * (2 * s + 2) == 4 * ((s + 1) * (s + 1));
        Shuffle(a, (s + 1) * (s + 1));
      }
      SquareProduct(2 * s + 1, a);
      assert (a * (2 * s + 1)) * (a * (2 * s + 1)) == (a * a) * ((2 * s + 1) * (2 * s + 1));
      StrictProduct(a * a, (2 * s + 1) * (2 * s + 1), (2 * s + 2) * (2 * s + 2));
    }
  }

  lemma Shuffle(a: nat, t: nat)
    ensures 4 * (a * t) * a == (a * a) * (4 * t)
  {
  }

  lemma StrictProduct(a: nat, b: nat, c: nat)
    requires a > 0 && b < c
    ensures a * b < a * c
  {
  }

  /** After two rounds the root is the floor root or one more. */
  lemma RoundTwo(n: nat, s: nat, p: nat, root: nat)
    requires Estimate(n, s, p) && n < root * root < n + p * p
    ensures var next := NewtonStep(n, root); next >= 1 && (next - 1) * (next - 1) <= n
  {
    var next := NewtonStep(n, root);
    var low := TWO_31 * p;
    StepStaysAbove(n, root);
    assert low * low <= n by {
      MulOrder(p, TWO_31, s);
      SquareOrder(low, s * p);
    }
    RootOrder(low, next, n, n);
    StepConverges(n, root);
    SquareOrder(root * root - n, p * p);
    ExcessTwo(n, p, low, root * root, next * next - n);
    PreviousSquare(next);
  }

  lemma PreviousSquare(x: nat)
    ensures (x - 1) * (x - 1) == x * x - 2 * x + 1
  {
  }

  lemma ExcessTwo(n: nat, p: nat, low: nat, square: nat, excess: int)
    requires 1 <= p <= TWO_96 && low == TWO_31 * p
    requires low * low <= n < square
    requires 4 * square * excess <= (p * p) * (p * p)
    ensures excess < 2 * low
  {
    SquareProduct(TWO_31, p);
    if excess >= TWO_32 * p {
      LargeProduct(4 * square, TWO_64, p, excess, TWO_32);
    }
  }

  lemma LargeProduct(c: nat, k: nat, p: nat, e: nat, m: nat)
    requires c > k * (p * p) && e >= m * p && 1 <= p <= k * m && m > 0
    ensures c * e > (p * p) * (p * p)
  {
    var a := p * p;
    MulOrder(c, m * p, e);
    assert m * p > 0;
    StrictProduct(m * p, k * a, c);
    assert (m * p) * (k * a) == (p * (k * m)) * a;
    MulOrder(p, p, k * m);
    MulOrder(a, p * p, p * (k * m));
  }

  /** The third round, when there is one, reaches the floor root. */
  lemma RoundThree(n: nat, root: nat)
    requires root >= 1 && (root - 1) * (root - 1) <= n < root * root
    ensures NewtonStep(n, root) * NewtonStep(n, root) <= n
  {
    StepStaysAbove(n, root);
    SquareOrder(NewtonStep(n, root), root - 1);
  }

  // ---------------------------------------------------------------------------------------
  // The square root
  // ---------------------------------------------------------------------------------------

  /** The first product overflows exactly when the top word is at least (2^32 - 1)^2. */
  lemma FirstSquare(n: nat, s: nat, p: nat, root: nat)
    requires Estimate(n, s, p) && (p == TWO_96 || 2 * p <= TWO_96) && root == (s + 1) * p
    ensures root * root >= TWO_256 <==> n / TWO_192 >= TOP_WORD
  {
    if p == TWO_96 && s + 1 == TWO_32 {
      DivBounds(n, TWO_192, TOP_WORD, n + 1);
    } else if p == TWO_96 {
      MulOrder(TWO_96, s + 1, TWO_32 - 1);
      SquareOrder(root, TWO_96 * (TWO_32 - 1));
      DivBounds(n, TWO_192, 0, TOP_WORD);
    } else {
      MulOrder(p, s + 1, TWO_32);
      SquareOrder(root, TWO_127);
      DivBounds(n, TWO_192, 0, TWO_64 / 4);
    }
  }

  lemma EstimateScale(n: nat)
    requires n < TWO_256 && BitLength(n) > 64
    ensures Scale(n) == TWO_96 || 2 * Scale(n) <= TWO_96
  {
    Power256();
    BitLengthBound(n, 256);
    Power96();
    var half := RestBits(BitLength(n)) / 2;
    if half < 96 {
      Pow2Monotone(half + 1, 96);
    }
  }

  lemma OneWord(n: nat)
    requires BitLength(n) <= 64
    ensures n / TWO_192 < TOP_WORD
  {
    SmallPowers();
    Pow2Monotone(BitLength(n), 64);
    DivBounds(n, TWO_192, 0, 1);
  }

  /**
   `sqrt_u256`: the floor square root of every U256 whose top word is below (2^32 - 1)^2, in at
   most three Newton rounds. For the others, and only for them, squaring the first estimate
   leaves 256 bits.
   */
  method SqrtU256(input: nat) returns (result: Checked, ghost rounds: nat)
    requires input < TWO_256
    ensures result.Overflow? <==> input / TWO_192 >= TOP_WORD
    ensures result.Value? ==> IsRoot(result.value, input)
    ensures rounds <= 3
  {
    rounds := 0;
    var bits := BitLength(input);
    if bits <= 64 {
      OneWord(input);
      return Value(IntegerRoot(input)), 0;
    }
    // Step 1: estimate the root from the most significant 63 or 64 bits.
    var root := InitRoot(input);
    FirstEstimate(input);
    EstimateScale(input);
    FirstSquare(input, TopRoot(input), Scale(input), root);
    // Step 2: Newton's method.
    result, rounds := NewtonLoop(input, TopRoot(input), Scale(input), root);
  }

  /** Step 1 of `sqrt_u256`: a root larger than the correct one by at most the scale. */
  method InitRoot(input: nat) returns (root: nat)
    requires input < TWO_256 && BitLength(input) > 64
    ensures root == (TopRoot(input) + 1) * Scale(input) && root > Scale(input)
    ensures (root - Scale(input)) * (root - Scale(input)) <= input < root * root
  {
    var restBits := RestBits(BitLength(input));
    var word := Shr(input, restBits);
    root := Shl(IntegerRoot(word) + 1, restBits / 2);
    ShlIsProduct(IntegerRoot(word) + 1, restBits / 2);
    FirstEstimate(input);
    EstimateBrackets(input, TopRoot(input), Scale(input), root);
  }

  lemma EstimateBrackets(n: nat, s: nat, p: nat, root: nat)
    requires Estimate(n, s, p) && root == (s + 1) * p
    ensures root > p && (root - p) * (root - p) <= n < root * root
  {
    assert root - p == s * p;
    StrictProduct(p, 1, s + 1);
  }

  /** The loop of `sqrt_u256`, entered with the first estimate. Only its first product can overflow. */
  method NewtonLoop(input: nat, ghost s: nat, ghost p: nat, initRoot: nat)
    returns (result: Checked, ghost rounds: nat)
    requires Estimate(input, s, p) && initRoot == (s + 1) * p
    ensures result.Overflow? <==> initRoot * initRoot >= TWO_256
    ensures result.Value? ==> IsRoot(result.value, input)
    ensures rounds <= 3
  {
    if initRoot * initRoot >= TWO_256 {
      return Overflow, 0;
    }
    var root: nat := initRoot;
    rounds := 0;
    SquareOrder(root, root + 1);
    while root * root > input
      invariant Above(input, root) && rounds <= 3
      invariant rounds == 0 ==> root == initRoot
      invariant rounds == 1 ==> root * root < input + p * p
      invariant rounds == 2 ==> root >= 1 && (root - 1) * (root - 1) <= input
      invariant rounds == 3 ==> root * root <= input
      decreases root
    {
      StepKeepsAbove(input, root);
      if rounds == 0 {
        RoundOne(input, s, p, root);
      } else if rounds == 1 {
        RoundTwo(input, s, p, root);
      } else {
        RoundThree(input, root);
      }
      root := (input / root + root) / 2;
      rounds := rounds + 1;
    }
    result := Value(root);
  }

  /** The candidate is not below the floor root, and its square stays within 256 bits. */
  ghost predicate Above(n: nat, root: nat) {
    root * root < TWO_256 && n < (root + 1) * (root + 1)
  }

  lemma StepKeepsAbove(n: nat, root: nat)
    requires Above(n, root) && root * root > n
    ensures n / root + root < TWO_256 && NewtonStep(n, root) < root && Above(n, NewtonStep(n, root))
  {
    StepStaysAbove(n, root);
    SquareOrder(NewtonStep(n, root), root);
    RootOrder(root, TWO_128 - 1, root * root, TWO_256 - 1);
  }
}
