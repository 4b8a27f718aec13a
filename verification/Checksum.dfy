/**
 `polymod`: the 40-bit BCH checksum over sequences of 5-bit symbols.

 The register is the bit string of the low forty bits of the accumulator, most significant bit
 first; the other bits of the machine word are always zero.
 */
module Checksum {
  import opened Powers
  import opened BitStrings

  /** A sequence of 5-bit symbols, each given by its bits. */
  ghost predicate AreSymbols(v: seq<seq<bool>>) {
    forall i | 0 <= i < |v| :: |v[i]| == 5
  }

  /** Bitwise exclusive or. */
  function Xor(a: seq<bool>, b: seq<bool>): (c: seq<bool>)
    requires |a| == |b|
    ensures |c| == |a|
  {
    seq(|a|, i requires 0 <= i < |a| => a[i] != b[i])
  }

  /** The five generator constants. */
  function GeneratorValue(i: nat): (g: nat)
    requires i < 5
    ensures g < 0x100_0000_0000
  {
    if i == 0 then 0x98f2bc8e61
    else if i == 1 then 0x79b76d99e2
    else if i == 2 then 0xf33e5fb3c4
    else if i == 3 then 0xae2eabe2a8
    else 0x1e4f43e470
  }

  function Generator(i: nat): (g: seq<bool>)
    requires i < 5
    ensures |g| == 40
  {
    LiteralsFit();
    ToBits(GeneratorValue(i), 40)
  }

  lemma LiteralsFit()
    ensures Pow2(40) == 0x100_0000_0000
  {
    assert Pow2(8) == 0x100;
    Pow2Add(8, 8);
    Pow2Add(16, 16);
    Pow2Add(32, 8);
  }

  /** `if on { c ^= g }`. */
  function AddIf(on: bool, c: seq<bool>, g: seq<bool>): (r: seq<bool>)
    requires |c| == |g|
    ensures |r| == |c|
  {
    if on then Xor(c, g) else c
  }

  /** The first `n` conditional additions, selected by the top five bits `c0` from the lowest up. */
  function AddTaps(c0: seq<bool>, c: seq<bool>, n: nat): (r: seq<bool>)
    requires |c0| == 5 && |c| == 40 && n <= 5
    ensures |r| == 40
  {
    if n == 0 then c else AddIf(c0[5 - n], AddTaps(c0, c, n - 1), Generator(n - 1))
  }

  /** One step: shift the symbol `d` in at the bottom, then add the generators selected. */
  function Step(c: seq<bool>, d: seq<bool>): (r: seq<bool>)
    requires |c| == 40 && |d| == 5
    ensures |r| == 40
  {
    AddTaps(c[..5], c[5..] + d, 5)
  }

  /** The register after reading `v`, starting from `c`. */
  function Fold(c: seq<bool>, v: seq<seq<bool>>): (r: seq<bool>)
    requires |c| == 40 && AreSymbols(v)
    ensures |r| == 40
  {
    if v == [] then c else Step(Fold(c, v[..|v| - 1]), v[|v| - 1])
  }

  // ---------------------------------------------------------------------------------------
  // Linearity
  // ---------------------------------------------------------------------------------------

  lemma AddIfLinear(x: bool, y: bool, a: seq<bool>, b: seq<bool>, g: seq<bool>)
    requires |a| == |b| == |g|
    ensures AddIf(x != y, Xor(a, b), g) == Xor(AddIf(x, a, g), AddIf(y, b, g))
  {
  }

  lemma {:induction false} AddTapsLinear(c0: seq<bool>, c0': seq<bool>, c: seq<bool>, c': seq<bool>, n: nat)
    requires |c0| == |c0'| == 5 && |c| == |c'| == 40 && n <= 5
    ensures AddTaps(Xor(c0, c0'), Xor(c, c'), n) == Xor(AddTaps(c0, c, n), AddTaps(c0', c', n))
  {
    if n != 0 {
      AddTapsLinear(c0, c0', c, c', n - 1);
      AddIfLinear(c0[5 - n], c0'[5 - n], AddTaps(c0, c, n - 1), AddTaps(c0', c', n - 1), Generator(n - 1));
    }
  }

  lemma StepLinear(c: seq<bool>, c': seq<bool>, d: seq<bool>, d': seq<bool>)
    requires |c| == |c'| == 40 && |d| == |d'| == 5
    ensures Step(Xor(c, c'), Xor(d, d')) == Xor(Step(c, d), Step(c', d'))
  {
    assert Xor(c, c')[..5] == Xor(c[..5], c'[..5]);
    assert Xor(c, c')[5..] + Xor(d, d') == Xor(c[5..] + d, c'[5..] + d');
    AddTapsLinear(c[..5], c'[..5], c[5..] + d, c'[5..] + d', 5);
  }

  /** Symbol by symbol exclusive or. */
  function XorAll(v: seq<seq<bool>>, v': seq<seq<bool>>): (e: seq<seq<bool>>)
    requires |v| == |v'| && AreSymbols(v) && AreSymbols(v')
    ensures |e| == |v| && AreSymbols(e)
    ensures forall i | 0 <= i < |e| :: e[i] == Xor(v[i], v'[i])
  {
    seq(|v|, i requires 0 <= i < |v| => Xor(v[i], v'[i]))
  }

  lemma {:induction false} FoldLinear(c: seq<bool>, c': seq<bool>, v: seq<seq<bool>>, v': seq<seq<bool>>)
    requires |c| == |c'| == 40 && |v| == |v'| && AreSymbols(v) && AreSymbols(v')
    ensures Fold(Xor(c, c'), XorAll(v, v')) == Xor(Fold(c, v), Fold(c', v'))
  {
    if v != [] {
      var n := |v| - 1;
      FoldLinear(c, c', v[..n], v'[..n]);
      assert XorAll(v, v')[..n] == XorAll(v[..n], v'[..n]);
      StepLinear(Fold(c, v[..n]), Fold(c', v'[..n]), v[n], v'[n]);
    }
  }

  lemma {:induction false} FoldAppend(c: seq<bool>, u: seq<seq<bool>>, w: seq<seq<bool>>)
    requires |c| == 40 && AreSymbols(u) && AreSymbols(w)
    ensures AreSymbols(u + w) && Fold(c, u + w) == Fold(Fold(c, u), w)
  {
    if w == [] {
      assert u + w == u;
    } else {
      var n := |w| - 1;
      FoldAppend(c, u, w[..n]);
      assert (u + w)[..|u + w| - 1] == u + w[..n];
    }
  }

  // ---------------------------------------------------------------------------------------
  // The step is invertible
  // ---------------------------------------------------------------------------------------

  /** Counted from the right, the low five bits of generator `i` are zero except bit `i`. */
  lemma GeneratorLow(i: nat, j: nat)
    requires i < 5 && j < 5
    ensures Generator(i)[39 - j] == (i == j)
  {
    LiteralsFit();
    ToBitsAt(GeneratorValue(i), 40, j);
    GeneratorLowBits(i);
    LowBit(GeneratorValue(i), 5, i, j);
  }

  lemma GeneratorLowBits(i: nat)
    requires i < 5
    ensures LowBits(GeneratorValue(i), 5) == Pow2(i)
  {
    match i
    case 0 => assert LowBits(0x98f2bc8e61, 5) == 1;
    case 1 => assert LowBits(0x79b76d99e2, 5) == 2;
    case 2 => assert LowBits(0xf33e5fb3c4, 5) == 4;
    case 3 => assert LowBits(0xae2eabe2a8, 5) == 8;
    case 4 => assert LowBits(0x1e4f43e470, 5) == 16 == Pow2(4);
  }

  lemma {:induction false} LowBit(v: nat, n: nat, i: nat, j: nat)
    requires j < n && LowBits(v, n) == if i < n then Pow2(i) else 0
    ensures (Shr(v, j) % 2 == 1) == (i == j)
    decreases j
  {
    if j != 0 {
      LowBit(v / 2, n - 1, if i == 0 then n - 1 else i - 1, j - 1);
    }
  }

  lemma AddIfAt(on: bool, c: seq<bool>, g: seq<bool>, k: nat)
    requires |c| == |g| && k < |c|
    ensures AddIf(on, c, g)[k] == (c[k] != (on && g[k]))
  {
  }

  lemma AddTapsStep(c0: seq<bool>, c: seq<bool>, n: nat, j: nat)
    requires |c0| == 5 && |c| == 40 && 0 < n <= 5 && j < 5
    ensures AddTaps(c0, c, n)[39 - j] == (AddTaps(c0, c, n - 1)[39 - j] != (c0[5 - n] && n - 1 == j))
  {
    GeneratorLow(n - 1, j);
    AddIfAt(c0[5 - n], AddTaps(c0, c, n - 1), Generator(n - 1), 39 - j);
  }

  lemma {:induction false} AddTapsLow(c0: seq<bool>, c: seq<bool>, n: nat, j: nat)
    requires |c0| == 5 && |c| == 40 && n <= 5 && j < 5
    ensures AddTaps(c0, c, n)[39 - j] == (c[39 - j] != (j < n && c0[4 - j]))
  {
    if n != 0 {
      AddTapsLow(c0, c, n - 1, j);
      AddTapsStep(c0, c, n, j);
    }
  }

  /** Nothing is added when the bits shifted out are zero. */
  lemma {:induction false} AddNoTaps(c: seq<bool>, n: nat)
    requires |c| == 40 && n <= 5
    ensures AddTaps(Zeros(5), c, n) == c
  {
    if n != 0 {
      AddNoTaps(c, n - 1);
    }
  }

  /** Only the zero register steps to the zero register. */
  lemma StepKernel(c: seq<bool>)
    requires |c| == 40 && Step(c, Zeros(5)) == Zeros(40)
    ensures c == Zeros(40)
  {
    forall k | 0 <= k < 5
      ensures !c[..5][k]
    {
      AddTapsLow(c[..5], c[5..] + Zeros(5), 5, 4 - k);
    }
    assert c[..5] == Zeros(5);
    AddNoTaps(c[5..] + Zeros(5), 5);
    assert forall k | 5 <= k < 40 :: c[k] == (c[5..] + Zeros(5))[k - 5];
  }

  /** A sequence of `n` zero symbols. */
  function ZeroSymbols(n: nat): (z: seq<seq<bool>>)
    ensures |z| == n && AreSymbols(z)
  {
    seq(n, _ => Zeros(5))
  }

  lemma {:induction false} FoldKernel(c: seq<bool>, n: nat)
    requires |c| == 40 && Fold(c, ZeroSymbols(n)) == Zeros(40)
    ensures c == Zeros(40)
  {
    if n != 0 {
      assert ZeroSymbols(n)[..n - 1] == ZeroSymbols(n - 1);
      StepKernel(Fold(c, ZeroSymbols(n - 1)));
      FoldKernel(c, n - 1);
    }
  }

  // ---------------------------------------------------------------------------------------
  // Eight symbols fill the register
  // ---------------------------------------------------------------------------------------

  /** The symbols' bits one after the other. */
  function Flatten(v: seq<seq<bool>>): (b: seq<bool>)
    requires AreSymbols(v)
    ensures |b| == 5 * |v|
  {
    if v == [] then [] else Flatten(v[..|v| - 1]) + v[|v| - 1]
  }

  /** Up to eight symbols are just shifted into the zero register. */
  lemma {:induction false} FoldFromZero(v: seq<seq<bool>>)
    requires AreSymbols(v) && |v| <= 8
    ensures Fold(Zeros(40), v) == Zeros(40 - 5 * |v|) + Flatten(v)
  {
    if v != [] {
      var n := |v| - 1;
      FoldFromZero(v[..n]);
      ShiftIn(Flatten(v[..n]), v[n]);
    }
  }

  lemma ShiftIn(b: seq<bool>, d: seq<bool>)
    requires |b| <= 35 && |d| == 5
    ensures Step(Zeros(40 - |b|) + b, d) == Zeros(35 - |b|) + (b + d)
  {
    var c, z := Zeros(40 - |b|) + b, Zeros(35 - |b|);
    assert c[..5] == Zeros(5);
    assert c[5..] + d == z + (b + d) by {
      assert c[5..] == z + b;
      assert (z + b) + d == z + (b + d);
    }
    AddNoTaps(z + (b + d), 5);
  }

  lemma {:induction false} FlattenInjective(v: seq<seq<bool>>, v': seq<seq<bool>>)
    requires AreSymbols(v) && AreSymbols(v') && |v| == |v'| && Flatten(v) == Flatten(v')
    ensures v == v'
  {
    if v != [] {
      var n := |v| - 1;
      AppendInjective(Flatten(v[..n]), v[n], Flatten(v'[..n]), v'[n]);
      FlattenInjective(v[..n], v'[..n]);
      assert v == v[..n] + [v[n]] && v' == v'[..n] + [v'[n]];
    }
  }

  /** The register cut into `n` symbols. */
  function CutSymbols(c: seq<bool>, n: nat): (v: seq<seq<bool>>)
    requires |c| == 5 * n
    ensures |v| == n && AreSymbols(v)
    ensures forall i | 0 <= i < n :: v[i] == c[5 * i..5 * i + 5]
  {
    seq(n, i requires 0 <= i < n => c[5 * i..5 * i + 5])
  }

  lemma {:induction false} FlattenCut(c: seq<bool>, n: nat)
    requires |c| == 5 * n
    ensures Flatten(CutSymbols(c, n)) == c
  {
    if n != 0 {
      var m: nat := n - 1;
      var init := c[..5 * m];
      FlattenCut(init, m);
      CutPrefix(c, m);
      assert c == init + c[5 * m..5 * m + 5];
    }
  }

  lemma CutPrefix(c: seq<bool>, m: nat)
    requires |c| == 5 * m + 5
    ensures CutSymbols(c, m + 1)[..m] == CutSymbols(c[..5 * m], m)
  {
    forall i | 0 <= i < m
      ensures CutSymbols(c, m + 1)[i] == CutSymbols(c[..5 * m], m)[i]
    {
      assert c[5 * i..5 * i + 5] == c[..5 * m][5 * i..5 * i + 5];
    }
  }

  lemma XorZero(a: seq<bool>, b: seq<bool>)
    requires |a| == |b|
    ensures Xor(a, b) == Zeros(|a|) <==> a == b
  {
    if Xor(a, b) == Zeros(|a|) {
      assert forall i | 0 <= i < |a| :: a[i] == b[i] by {
        forall i | 0 <= i < |a|
          ensures a[i] == b[i]
        {
          assert !Xor(a, b)[i];
        }
      }
    }
  }

  // ---------------------------------------------------------------------------------------
  // What the checksum promises
  // ---------------------------------------------------------------------------------------

  /**
   Eight symbols complete a sequence to a register equal to `target` exactly when they are the
   difference between `target` and the register completed by zeros, cut into symbols.
   */
  lemma CompletionUnique(c: seq<bool>, v: seq<seq<bool>>, t: seq<seq<bool>>, target: seq<bool>)
    requires |c| == |target| == 40 && AreSymbols(v) && AreSymbols(t) && |t| == 8
    ensures AreSymbols(v + t) && AreSymbols(v + ZeroSymbols(8))
    ensures Fold(c, v + t) == target <==> t == CutSymbols(Xor(Fold(c, v + ZeroSymbols(8)), target), 8)
  {
    FoldAppend(c, v, t);
    FoldAppend(c, v, ZeroSymbols(8));
    var base := Fold(c, v + ZeroSymbols(8));
    FoldEight(Fold(c, v), t);
    XorSolve(base, Flatten(t), target);
    var want := Xor(base, target);
    FlattenCut(want, 8);
    if Flatten(t) == want {
      FlattenInjective(t, CutSymbols(want, 8));
    }
  }

  /** Reading eight symbols adds their bits to what reading eight zeros gives. */
  lemma FoldEight(f: seq<bool>, t: seq<seq<bool>>)
    requires |f| == 40 && AreSymbols(t) && |t| == 8
    ensures Fold(f, t) == Xor(Fold(f, ZeroSymbols(8)), Flatten(t))
  {
    FoldLinear(f, Zeros(40), ZeroSymbols(8), t);
    assert Xor(f, Zeros(40)) == f;
    XorZeroSymbols(t);
    FoldFromZero(t);
    assert Zeros(0) + Flatten(t) == Flatten(t);
  }

  lemma XorZeroSymbols(t: seq<seq<bool>>)
    requires AreSymbols(t)
    ensures XorAll(ZeroSymbols(|t|), t) == t
  {
    forall i | 0 <= i < |t|
      ensures XorAll(ZeroSymbols(|t|), t)[i] == t[i]
    {
      assert Xor(Zeros(5), t[i]) == t[i];
    }
  }

  lemma XorSolve(a: seq<bool>, b: seq<bool>, c: seq<bool>)
    requires |a| == |b| == |c|
    ensures Xor(a, b) == c <==> b == Xor(a, c)
  {
  }

  /** Changing symbols inside one window of eight consecutive symbols always changes the register. */
  lemma BurstDetected(c: seq<bool>, a: seq<seq<bool>>, x: seq<seq<bool>>, x': seq<seq<bool>>, b: seq<seq<bool>>)
    requires |c| == 40 && AreSymbols(a) && AreSymbols(x) && AreSymbols(x') && AreSymbols(b)
    requires |x| == |x'| <= 8 && x != x'
    ensures AreSymbols(a + x + b) && AreSymbols(a + x' + b)
    ensures Fold(c, a + x + b) != Fold(c, a + x' + b)
  {
    FoldAppend(c, a + x, b);
    FoldAppend(c, a, x);
    FoldAppend(c, a + x', b);
    FoldAppend(c, a, x');
    var f := Fold(c, a);
    var r, r' := Fold(f, x), Fold(f, x');
    if Fold(r, b) == Fold(r', b) {
      FoldLinear(r, r', b, b);
      XorZero(Fold(r, b), Fold(r', b));
      SelfXor(b);
      FoldKernel(Xor(r, r'), |b|);
      XorZero(r, r');
      FoldLinear(f, f, x, x');
      XorZero(f, f);
      XorZero(r, r');
      FoldFromZero(XorAll(x, x'));
      SameSymbols(x, x');
    }
  }

  lemma SelfXor(b: seq<seq<bool>>)
    requires AreSymbols(b)
    ensures XorAll(b, b) == ZeroSymbols(|b|)
  {
    forall i | 0 <= i < |b|
      ensures XorAll(b, b)[i] == Zeros(5)
    {
      XorZero(b[i], b[i]);
    }
  }

  lemma SameSymbols(x: seq<seq<bool>>, x': seq<seq<bool>>)
    requires |x| == |x'| <= 8 && AreSymbols(x) && AreSymbols(x')
    requires Zeros(40 - 5 * |x|) + Flatten(XorAll(x, x')) == Zeros(40)
    ensures x == x'
  {
    var e, n := XorAll(x, x'), |x|;
    assert Zeros(40) == Zeros(40 - 5 * n) + Zeros(5 * n);
    AppendInjective(Zeros(40 - 5 * n), Flatten(e), Zeros(40 - 5 * n), Zeros(5 * n));
    FlattenZeros(n);
    FlattenInjective(e, ZeroSymbols(n));
    forall i | 0 <= i < n
      ensures x[i] == x'[i]
    {
      assert e[i] == Zeros(5);
      XorZero(x[i], x'[i]);
    }
  }

  lemma {:induction false} FlattenZeros(n: nat)
    ensures Flatten(ZeroSymbols(n)) == Zeros(5 * n)
  {
    if n != 0 {
      FlattenZeros(n - 1);
      assert ZeroSymbols(n)[..n - 1] == ZeroSymbols(n - 1);
    }
  }

  // ---------------------------------------------------------------------------------------
  // Symbols as numbers
  // ---------------------------------------------------------------------------------------

  /** The register holding the number one. */
  function One(): (c: seq<bool>)
    ensures |c| == 40
  {
    Zeros(39) + [true]
  }

  /** The bits of each 5-bit symbol. */
  function SymbolBits(data: seq<nat>): (v: seq<seq<bool>>)
    requires Symbols(data, 5)
    ensures |v| == |data| && AreSymbols(v)
    ensures forall i | 0 <= i < |v| :: v[i] == ToBits(data[i], 5)
  {
    seq(|data|, i requires 0 <= i < |data| => ToBits(data[i], 5))
  }

  /** What `polymod` returns, as a register. */
  function Polymod(data: seq<nat>): (c: seq<bool>)
    requires Symbols(data, 5)
    ensures |c| == 40
  {
    Xor(Fold(One(), SymbolBits(data)), One())
  }

  /** The loop of `polymod`. */
  method ComputePolymod(data: seq<nat>) returns (c: seq<bool>)
    requires Symbols(data, 5)
    ensures c == Polymod(data)
  {
    c := One();
    for i := 0 to |data|
      invariant |c| == 40 && c == Fold(One(), SymbolBits(data)[..i])
    {
      c := Update(c, ToBits(data[i], 5));
      assert SymbolBits(data)[..i + 1][..i] == SymbolBits(data)[..i];
    }
    assert SymbolBits(data)[..|data|] == SymbolBits(data);
    c := Xor(c, One());
  }

  /** The body of the loop. */
  method Update(c: seq<bool>, d: seq<bool>) returns (r: seq<bool>)
    requires |c| == 40 && |d| == 5
    ensures r == Step(c, d)
  {
    var c0 := c[..5];
    r := c[5..] + d;
    ghost var shifted := r;
    // The five conditional additions, one generator for each bit from the lowest up.
    for k := 0 to 5
      invariant |r| == 40 && r == AddTaps(c0, shifted, k)
    {
      if c0[4 - k] {
        r := Xor(r, Generator(k));
      }
    }
  }

  /** The eight symbols a register is printed as, most significant first. */
  function ChecksumSymbols(c: seq<bool>): (t: seq<nat>)
    requires |c| == 40
    ensures |t| == 8 && Symbols(t, 5)
  {
    seq(8, i requires 0 <= i < 8 => FromBits(c[5 * i..5 * i + 5]))
  }

  function EightZeros(): (z: seq<nat>)
    ensures |z| == 8 && Symbols(z, 5)
  {
    seq(8, _ => 0)
  }

  /** The eight symbols appended by the encoder make `polymod` zero, and no other eight do. */
  lemma ChecksumUnique(data: seq<nat>, t: seq<nat>)
    requires Symbols(data, 5) && Symbols(t, 5) && |t| == 8
    ensures Polymod(data + t) == Zeros(40) <==> t == ChecksumSymbols(Polymod(data + EightZeros()))
  {
    SymbolBitsAppend(data, t);
    SymbolBitsAppend(data, EightZeros());
    ZeroSymbolBits();
    XorZero(Fold(One(), SymbolBits(data + t)), One());
    CompletionUnique(One(), SymbolBits(data), SymbolBits(t), One());
    SymbolsOfCut(Polymod(data + EightZeros()), t);
  }

  lemma SymbolBitsAppend(a: seq<nat>, b: seq<nat>)
    requires Symbols(a, 5) && Symbols(b, 5)
    ensures Symbols(a + b, 5) && SymbolBits(a + b) == SymbolBits(a) + SymbolBits(b)
  {
  }

  lemma ZeroSymbolBits()
    ensures SymbolBits(EightZeros()) == ZeroSymbols(8)
  {
    ZeroBits(5);
  }

  lemma SymbolsOfCut(c: seq<bool>, t: seq<nat>)
    requires |c| == 40 && |t| == 8 && Symbols(t, 5)
    ensures SymbolBits(t) == CutSymbols(c, 8) <==> t == ChecksumSymbols(c)
  {
    forall i | 0 <= i < 8
      ensures ToBits(t[i], 5) == c[5 * i..5 * i + 5] <==> t[i] == FromBits(c[5 * i..5 * i + 5])
    {
      FromToBits(t[i], 5);
      ToFromBits(c[5 * i..5 * i + 5]);
    }
    if SymbolBits(t) == CutSymbols(c, 8) {
      assert forall i | 0 <= i < 8 :: SymbolBits(t)[i] == CutSymbols(c, 8)[i];
    }
    if t == ChecksumSymbols(c) {
      assert forall i | 0 <= i < 8 :: SymbolBits(t)[i] == CutSymbols(c, 8)[i];
    }
  }

  /** Two sequences that differ only inside a window of eight symbols have different checksums. */
  lemma BurstChangesChecksum(a: seq<nat>, x: seq<nat>, x': seq<nat>, b: seq<nat>)
    requires Symbols(a, 5) && Symbols(x, 5) && Symbols(x', 5) && Symbols(b, 5)
    requires |x| == |x'| <= 8 && x != x'
    ensures Polymod(a + x + b) != Polymod(a + x' + b)
  {
    SymbolBitsAppend(a, x);
    SymbolBitsAppend(a + x, b);
    SymbolBitsAppend(a, x');
    SymbolBitsAppend(a + x', b);
    SymbolBitsInjective(x, x');
    BurstDetected(One(), SymbolBits(a), SymbolBits(x), SymbolBits(x'), SymbolBits(b));
    if Polymod(a + x + b) == Polymod(a + x' + b) {
      XorCancel(Fold(One(), SymbolBits(a + x + b)), Fold(One(), SymbolBits(a + x' + b)), One());
    }
  }

  lemma SymbolBitsInjective(x: seq<nat>, x': seq<nat>)
    requires Symbols(x, 5) && Symbols(x', 5) && |x| == |x'| && x != x'
    ensures SymbolBits(x) != SymbolBits(x')
  {
    var i :| 0 <= i < |x| && x[i] != x'[i];
    FromToBits(x[i], 5);
    FromToBits(x'[i], 5);
    assert SymbolBits(x)[i] != SymbolBits(x')[i];
  }

  lemma XorCancel(a: seq<bool>, b: seq<bool>, c: seq<bool>)
    requires |a| == |b| == |c| && Xor(a, c) == Xor(b, c)
    ensures a == b
  {
    forall i | 0 <= i < |a|
      ensures a[i] == b[i]
    {
      assert Xor(a, c)[i] == Xor(b, c)[i];
    }
  }
}
