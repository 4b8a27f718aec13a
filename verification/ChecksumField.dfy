/**
 The field with 32 elements, in which the checksum is a remainder. An element is the bit string of
 its polynomial in x over the two-element field, leading coefficient first, modulo x^5 + x^3 + 1.
 */
module ChecksumField {
  import opened Powers
  import opened BitStrings
  import opened Checksum

  // ---------------------------------------------------------------------------------------
  // Multiplication
  // ---------------------------------------------------------------------------------------

  /** Multiplication by x. */
  function TimesX(a: seq<bool>): (r: seq<bool>)
    requires |a| == 5
    ensures |r| == 5
  {
    var shifted := a[1..] + [false];
    if a[0] then Xor(shifted, [false, true, false, false, true]) else shifted
  }

  /** Multiplication by shifting and adding, from the leading coefficient of `a` on. */
  function Times(a: seq<bool>, b: seq<bool>): (r: seq<bool>)
    requires |b| == 5
    ensures |r| == 5
  {
    if a == [] then Zeros(5) else AddIf(a[|a| - 1], TimesX(Times(a[..|a| - 1], b)), b)
  }

  /** x^i times `b`. */
  function PowerX(b: seq<bool>, i: nat): (r: seq<bool>)
    requires |b| == 5
    ensures |r| == 5
  {
    if i == 0 then b else TimesX(PowerX(b, i - 1))
  }

  /** The sum of the powers of x below `k` times `b` that `a` selects from its constant term up. */
  function Selected(a: seq<bool>, b: seq<bool>, k: nat): (r: seq<bool>)
    requires |b| == 5 && k <= |a|
    ensures |r| == 5
  {
    if k == 0 then Zeros(5) else AddIf(a[|a| - k], Selected(a, b, k - 1), PowerX(b, k - 1))
  }

  lemma TimesXLinear(on: bool, p: seq<bool>, q: seq<bool>)
    requires |p| == |q| == 5
    ensures TimesX(AddIf(on, p, q)) == AddIf(on, TimesX(p), TimesX(q))
  {
  }

  lemma AddIfCommutes(x: bool, y: bool, p: seq<bool>, q: seq<bool>, r: seq<bool>)
    requires |p| == |q| == |r|
    ensures AddIf(x, AddIf(y, p, q), r) == AddIf(y, AddIf(x, p, r), q)
  {
  }

  lemma {:induction false} SelectedShift(a: seq<bool>, b: seq<bool>, k: nat)
    requires |b| == 5 && k + 1 <= |a|
    ensures Selected(a, b, k + 1) == AddIf(a[|a| - 1], TimesX(Selected(a[..|a| - 1], b, k)), b)
  {
    var init, last := a[..|a| - 1], a[|a| - 1];
    if k == 0 {
      assert TimesX(Zeros(5)) == Zeros(5);
    } else {
      SelectedShift(a, b, k - 1);
      var on, p, q := init[|init| - k], Selected(init, b, k - 1), PowerX(b, k - 1);
      TimesXLinear(on, p, q);
      AddIfCommutes(on, last, TimesX(p), b, TimesX(q));
    }
  }

  /** Both orders of adding give the product. */
  lemma {:induction false} TimesIsSelected(a: seq<bool>, b: seq<bool>)
    requires |b| == 5
    ensures Times(a, b) == Selected(a, b, |a|)
  {
    if a != [] {
      TimesIsSelected(a[..|a| - 1], b);
      SelectedShift(a, b, |a| - 1);
    }
  }

  // ---------------------------------------------------------------------------------------
  // The generator polynomial
  // ---------------------------------------------------------------------------------------

  /** x^8 + 19x^7 + 3x^6 + 25x^5 + 11x^4 + 25x^3 + 3x^2 + 19x + 1 without its leading term. */
  const COEFFICIENTS: seq<nat> := [19, 3, 25, 11, 25, 3, 19, 1]

  function Coefficient(j: nat): (g: seq<bool>)
    requires j < 8
    ensures |g| == 5
  {
    assert Pow2(5) == 32;
    ToBits(COEFFICIENTS[j], 5)
  }

  /** Multiplication by x on numbers. */
  function XValue(v: nat): (r: nat)
    requires v < 32
    ensures r < 32
  {
    if v < 16 then 2 * v else if v / 4 % 2 == 0 then 2 * v - 23 else 2 * v - 39
  }

  function Weight(on: bool, w: nat): nat {
    if on then w else 0
  }

  lemma FromFive(b: seq<bool>)
    requires |b| == 5
    ensures FromBits(b) == Weight(b[0], 16) + Weight(b[1], 8) + Weight(b[2], 4) + Weight(b[3], 2) + Weight(b[4], 1)
  {
    assert b[..4][..3] == b[..3] && b[..3][..2] == b[..2] && b[..2][..1] == b[..1] && b[..1][..0] == [];
    assert FromBits(b[..1]) == Weight(b[0], 1);
    assert FromBits(b[..2]) == Weight(b[0], 2) + Weight(b[1], 1);
    assert FromBits(b[..3]) == Weight(b[0], 4) + Weight(b[1], 2) + Weight(b[2], 1);
    assert FromBits(b[..4]) == Weight(b[0], 8) + Weight(b[1], 4) + Weight(b[2], 2) + Weight(b[3], 1);
  }

  lemma XOfWeights(a: bool, b: bool, c: bool, d: bool, e: bool)
    ensures var v := Weight(a, 16) + Weight(b, 8) + Weight(c, 4) + Weight(d, 2) + Weight(e, 1);
            && v < 32
            && XValue(v) == Weight(b, 16) + Weight(c != a, 8) + Weight(d, 4) + Weight(e, 2) + Weight(a, 1)
  {
  }

  lemma XOfBits(b: seq<bool>, t: seq<bool>)
    requires |b| == |t| == 5
    requires t[0] == b[1] && t[1] == (b[2] != b[0]) && t[2] == b[3] && t[3] == b[4] && t[4] == b[0]
    ensures FromBits(b) < 32 && FromBits(t) == XValue(FromBits(b))
  {
    FromFive(b);
    FromFive(t);
    XOfWeights(b[0], b[1], b[2], b[3], b[4]);
  }

  lemma TimesXOfValue(v: nat)
    requires v < 32
    ensures Pow2(5) == 32 && TimesX(ToBits(v, 5)) == ToBits(XValue(v), 5)
  {
    assert Pow2(5) == 32;
    FromToBits(v, 5);
    XOfBits(ToBits(v, 5), TimesX(ToBits(v, 5)));
    ToFromBits(TimesX(ToBits(v, 5)));
  }

  /** The number with the first `n` of these 5-bit digits. */
  function Packed(v: seq<nat>, n: nat): nat
    requires n <= |v|
  {
    if n == 0 then 0 else 32 * Packed(v, n - 1) + v[n - 1]
  }

  lemma PackedStep(high: nat, m: nat, d: nat)
    requires high < Pow2(m) && d < Pow2(5)
    ensures 32 * high + d < Pow2(m + 5) && ToBits(32 * high + d, m + 5) == ToBits(high, m) + ToBits(d, 5)
  {
    ToBitsConcat(high, m, d, 5);
    ShlIsProduct(high, 5);
    assert Pow2(5) == 32;
  }

  lemma {:induction false} PackedBits(v: seq<nat>, n: nat)
    requires Symbols(v, 5) && n <= |v|
    ensures Packed(v, n) < Pow2(5 * n) && ToBits(Packed(v, n), 5 * n) == Flatten(SymbolBits(v)[..n])
  {
    if n != 0 {
      PackedBits(v, n - 1);
      PackedStep(Packed(v, n - 1), 5 * (n - 1), v[n - 1]);
      assert 5 * (n - 1) + 5 == 5 * n;
      assert SymbolBits(v)[..n][..n - 1] == SymbolBits(v)[..n - 1];
    }
  }

  lemma PackedDigits(v: seq<nat>, a: nat, b: nat, c: nat, d: nat, e: nat, f: nat, g: nat, h: nat)
    requires v == [a, b, c, d, e, f, g, h]
    ensures Packed(v, 8) == 0x8_0000_0000 * a + 0x4000_0000 * b + 0x200_0000 * c + 0x10_0000 * d
                          + 0x8000 * e + 0x400 * f + 32 * g + h
  {
    assert Packed(v, 1) == a;
    assert Packed(v, 2) == 32 * Packed(v, 1) + b;
    assert Packed(v, 3) == 32 * Packed(v, 2) + c;
    assert Packed(v, 4) == 32 * Packed(v, 3) + d;
    assert Packed(v, 5) == 32 * Packed(v, 4) + e;
    assert Packed(v, 6) == 32 * Packed(v, 5) + f;
    assert Packed(v, 7) == 32 * Packed(v, 6) + g;
  }

  /** x^i times each coefficient. */
  function Row(i: nat): (r: seq<nat>)
    ensures |r| == 8 && forall j | 0 <= j < 8 :: r[j] < 32
  {
    if i == 0 then COEFFICIENTS else var prev := Row(i - 1); seq(8, j requires 0 <= j < 8 => XValue(prev[j]))
  }

  lemma {:induction false} RowBits(i: nat, j: nat)
    requires j < 8
    ensures Pow2(5) == 32 && ToBits(Row(i)[j], 5) == PowerX(Coefficient(j), i)
  {
    assert Pow2(5) == 32;
    if i != 0 {
      RowBits(i - 1, j);
      TimesXOfValue(Row(i - 1)[j]);
    }
  }

  lemma RowLiteral(i: nat, row: seq<nat>)
    requires i < 5 && row == Row(i)
    ensures i == 0 ==> row == [19, 3, 25, 11, 25, 3, 19, 1]
    ensures i == 1 ==> row == [15, 6, 27, 22, 27, 6, 15, 2]
    ensures i == 2 ==> row == [30, 12, 31, 5, 31, 12, 30, 4]
    ensures i == 3 ==> row == [21, 24, 23, 10, 23, 24, 21, 8]
    ensures i == 4 ==> row == [3, 25, 7, 20, 7, 25, 3, 16]
  {
    RowLiterals();
  }

  lemma RowLiterals()
    ensures Row(0) == [19, 3, 25, 11, 25, 3, 19, 1] && Row(1) == [15, 6, 27, 22, 27, 6, 15, 2]
    ensures Row(2) == [30, 12, 31, 5, 31, 12, 30, 4] && Row(3) == [21, 24, 23, 10, 23, 24, 21, 8]
    ensures Row(4) == [3, 25, 7, 20, 7, 25, 3, 16]
  {
    assert Row(1) == [15, 6, 27, 22, 27, 6, 15, 2];
    assert Row(2) == [30, 12, 31, 5, 31, 12, 30, 4];
    assert Row(3) == [21, 24, 23, 10, 23, 24, 21, 8];
  }

  /** The five constants are the generator times x^0 to x^4. */
  lemma RowIsGenerator(i: nat, row: seq<nat>)
    requires i < 5 && row == Row(i)
    ensures Packed(row, 8) == GeneratorValue(i)
  {
    RowLiteral(i, row);
    if i == 0 {
      PackedDigits(row, 19, 3, 25, 11, 25, 3, 19, 1);
    } else if i == 1 {
      PackedDigits(row, 15, 6, 27, 22, 27, 6, 15, 2);
    } else if i == 2 {
      PackedDigits(row, 30, 12, 31, 5, 31, 12, 30, 4);
    } else if i == 3 {
      PackedDigits(row, 21, 24, 23, 10, 23, 24, 21, 8);
    } else {
      PackedDigits(row, 3, 25, 7, 20, 7, 25, 3, 16);
    }
  }

  /** The bits of a symbol in a string of symbols. */
  lemma {:induction false} FlattenAt(v: seq<seq<bool>>, j: nat)
    requires AreSymbols(v) && j < |v|
    ensures Flatten(v)[5 * j..5 * j + 5] == v[j]
  {
    var n := |v| - 1;
    if j < n {
      FlattenAt(v[..n], j);
      assert Flatten(v)[5 * j..5 * j + 5] == Flatten(v[..n])[5 * j..5 * j + 5];
    }
  }

  lemma GeneratorSymbol(i: nat, j: nat)
    requires i < 5 && j < 8
    ensures Generator(i)[5 * j..5 * j + 5] == PowerX(Coefficient(j), i)
  {
    assert Pow2(5) == 32;
    RowIsGenerator(i, Row(i));
    PackedBits(Row(i), 8);
    assert SymbolBits(Row(i))[..8] == SymbolBits(Row(i));
    FlattenAt(SymbolBits(Row(i)), j);
    RowBits(i, j);
  }

  // ---------------------------------------------------------------------------------------
  // One step of the register
  // ---------------------------------------------------------------------------------------

  /** Symbol `j` of a register. */
  function Symbol(c: seq<bool>, j: nat): (s: seq<bool>)
    requires |c| == 40 && j < 8
    ensures |s| == 5
  {
    c[5 * j..5 * j + 5]
  }

  lemma AddIfSymbol(on: bool, c: seq<bool>, g: seq<bool>, j: nat)
    requires |c| == |g| == 40 && j < 8
    ensures Symbol(AddIf(on, c, g), j) == AddIf(on, Symbol(c, j), Symbol(g, j))
  {
  }

  lemma AddIfSum(on: bool, c: seq<bool>, p: seq<bool>, q: seq<bool>)
    requires |c| == |p| == |q|
    ensures AddIf(on, Xor(c, p), q) == Xor(c, AddIf(on, p, q))
  {
  }

  lemma {:induction false} AddTapsSymbol(c0: seq<bool>, c: seq<bool>, n: nat, j: nat)
    requires |c0| == 5 && |c| == 40 && n <= 5 && j < 8
    ensures Symbol(AddTaps(c0, c, n), j) == Xor(Symbol(c, j), Selected(c0, Coefficient(j), n))
  {
    if n == 0 {
      assert Xor(Symbol(c, j), Zeros(5)) == Symbol(c, j);
    } else {
      AddTapsSymbol(c0, c, n - 1, j);
      AddIfSymbol(c0[5 - n], AddTaps(c0, c, n - 1), Generator(n - 1), j);
      GeneratorSymbol(n - 1, j);
      AddIfSum(c0[5 - n], Symbol(c, j), Selected(c0, Coefficient(j), n - 1), PowerX(Coefficient(j), n - 1));
    }
  }

  /** The register times x plus the symbol read, modulo the generator: symbol by symbol. */
  lemma StepSymbol(c: seq<bool>, d: seq<bool>, j: nat)
    requires |c| == 40 && |d| == 5 && j < 8
    ensures Symbol(Step(c, d), j)
         == Xor(if j < 7 then Symbol(c, j + 1) else d, Times(Symbol(c, 0), Coefficient(j)))
  {
    AddTapsSymbol(c[..5], c[5..] + d, 5, j);
    TimesIsSelected(c[..5], Coefficient(j));
    assert Symbol(c[5..] + d, j) == if j < 7 then Symbol(c, j + 1) else d;
  }

  // ---------------------------------------------------------------------------------------
  // Polynomials over the field, leading coefficient first
  // ---------------------------------------------------------------------------------------

  /** The generator without its leading term, times an element. */
  function Scaled(a: seq<bool>): (g: seq<seq<bool>>)
    requires |a| == 5
    ensures |g| == 8 && AreSymbols(g)
  {
    seq(8, j requires 0 <= j < 8 => Times(a, Coefficient(j)))
  }

  /** Long division: the leading term is cancelled until eight coefficients are left. */
  function Reduced(p: seq<seq<bool>>): (r: seq<seq<bool>>)
    requires AreSymbols(p) && |p| >= 8
    ensures |r| == 8 && AreSymbols(r)
    decreases |p|
  {
    if |p| == 8 then p else Reduced(Cancelled(p))
  }

  lemma StepCut(c: seq<bool>, d: seq<bool>)
    requires |c| == 40 && |d| == 5
    ensures CutSymbols(Step(c, d), 8) == XorAll(CutSymbols(c, 8)[1..] + [d], Scaled(CutSymbols(c, 8)[0]))
  {
    forall j | 0 <= j < 8
      ensures CutSymbols(Step(c, d), 8)[j] == XorAll(CutSymbols(c, 8)[1..] + [d], Scaled(CutSymbols(c, 8)[0]))[j]
    {
      StepSymbol(c, d, j);
    }
  }

  /** Folding divides the register followed by the symbols read. */
  lemma {:induction false} FoldReduces(c: seq<bool>, v: seq<seq<bool>>)
    requires |c| == 40 && AreSymbols(v)
    ensures CutSymbols(Fold(c, v), 8) == Reduced(CutSymbols(c, 8) + v)
    decreases |v|
  {
    var s := CutSymbols(c, 8);
    if v == [] {
      assert s + v == s;
    } else {
      var c1 := Step(c, v[0]);
      FoldFirst(c, v);
      FoldReduces(c1, v[1..]);
      StepCut(c, v[0]);
      var p := s + v;
      assert p[1..9] == s[1..] + [v[0]] && p[9..] == v[1..] && p[0] == s[0];
    }
  }

  lemma FoldFirst(c: seq<bool>, v: seq<seq<bool>>)
    requires |c| == 40 && AreSymbols(v) && v != []
    ensures Fold(c, v) == Fold(Step(c, v[0]), v[1..])
  {
    FoldAppend(c, [v[0]], v[1..]);
    assert v == [v[0]] + v[1..];
    assert Fold(c, [v[0]]) == Step(c, v[0]) by {
      assert [v[0]][..0] == [];
    }
  }

  /**
   The product of a polynomial and the generator: its leading term times the generator, which is
   monic, plus the product of the rest.
   */
  function TimesGenerator(q: seq<seq<bool>>): (p: seq<seq<bool>>)
    requires AreSymbols(q)
    ensures |p| == |q| + 8 && AreSymbols(p)
  {
    if q == [] then ZeroSymbols(8)
    else [q[0]] + XorAll(Scaled(q[0]) + ZeroSymbols(|q| - 1), TimesGenerator(q[1..]))
  }

  /** `p` is the generator times `q`, plus `r`. */
  ghost predicate Divides(p: seq<seq<bool>>, q: seq<seq<bool>>, r: seq<seq<bool>>)
    requires AreSymbols(p) && |p| >= 8 && AreSymbols(r) && |r| == 8
  {
    AreSymbols(q) && |q| == |p| - 8 && p == XorAll(TimesGenerator(q), ZeroSymbols(|q|) + r)
  }

  ghost predicate IsRemainder(p: seq<seq<bool>>, r: seq<seq<bool>>)
    requires AreSymbols(p) && |p| >= 8 && AreSymbols(r) && |r| == 8
  {
    exists q :: Divides(p, q, r)
  }

  lemma XorAssociative(a: seq<bool>, b: seq<bool>, c: seq<bool>)
    requires |a| == |b| == |c|
    ensures Xor(Xor(a, b), c) == Xor(a, Xor(b, c)) && Xor(Xor(a, b), b) == a && Xor(a, Xor(a, b)) == b
  {
  }

  /** Adding `s` twice is adding nothing. */
  lemma SumMoves(p: seq<seq<bool>>, s: seq<seq<bool>>, t: seq<seq<bool>>, u: seq<seq<bool>>)
    requires |p| == |s| == |t| == |u| && AreSymbols(p) && AreSymbols(s) && AreSymbols(t) && AreSymbols(u)
    ensures p == XorAll(XorAll(s, t), u) <==> XorAll(p, s) == XorAll(t, u)
  {
    forall i | 0 <= i < |p|
      ensures p[i] == XorAll(XorAll(s, t), u)[i] <==> XorAll(p, s)[i] == XorAll(t, u)[i]
    {
      SumMovesAt(p[i], s[i], t[i], u[i]);
    }
  }

  lemma SumMovesAt(p: seq<bool>, s: seq<bool>, t: seq<bool>, u: seq<bool>)
    requires |p| == |s| == |t| == |u|
    ensures p == Xor(Xor(s, t), u) <==> Xor(p, s) == Xor(t, u)
  {
    XorAssociative(s, t, u);
    XorAssociative(p, s, s);
    XorAssociative(s, Xor(t, u), u);
    assert Xor(p, s) == Xor(s, p);
  }

  /** The polynomial with its leading term cancelled. */
  function Cancelled(p: seq<seq<bool>>): (p1: seq<seq<bool>>)
    requires AreSymbols(p) && |p| > 8
    ensures |p1| == |p| - 1 && AreSymbols(p1)
  {
    XorAll(p[1..9], Scaled(p[0])) + p[9..]
  }

  lemma CancelledIsSum(p: seq<seq<bool>>)
    requires AreSymbols(p) && |p| > 8
    ensures Cancelled(p) == XorAll(p[1..], Scaled(p[0]) + ZeroSymbols(|p| - 9))
  {
    forall i | 0 <= i < |p| - 1
      ensures Cancelled(p)[i] == XorAll(p[1..], Scaled(p[0]) + ZeroSymbols(|p| - 9))[i]
    {
      assert Xor(p[i + 1], Zeros(5)) == p[i + 1];
    }
  }

  lemma XorAllCons(a: seq<bool>, s: seq<seq<bool>>, b: seq<bool>, t: seq<seq<bool>>)
    requires |a| == |b| == 5 && |s| == |t| && AreSymbols(s) && AreSymbols(t)
    ensures XorAll([a] + s, [b] + t) == [Xor(a, b)] + XorAll(s, t)
  {
  }

  lemma XorZeros(a: seq<bool>)
    requires |a| == 5
    ensures Xor(a, Zeros(5)) == a
  {
  }

  lemma SumCons(a: seq<bool>, t: seq<seq<bool>>, n: nat, r: seq<seq<bool>>)
    requires |a| == 5 && AreSymbols(t) && AreSymbols(r) && |t| == n + |r|
    ensures XorAll([a] + t, ZeroSymbols(n + 1) + r) == [a] + XorAll(t, ZeroSymbols(n) + r)
  {
    XorZeros(a);
    assert ZeroSymbols(n + 1) + r == [Zeros(5)] + (ZeroSymbols(n) + r);
    XorAllCons(a, t, Zeros(5), ZeroSymbols(n) + r);
  }

  lemma ConsEqual(p: seq<seq<bool>>, a: seq<bool>, s: seq<seq<bool>>)
    requires p != []
    ensures p == [a] + s <==> p[0] == a && p[1..] == s
  {
    assert p == [p[0]] + p[1..];
  }

  /** The first term of the quotient is the leading term, and the rest divides what is left. */
  lemma DividesStep(p: seq<seq<bool>>, q: seq<seq<bool>>, r: seq<seq<bool>>)
    requires AreSymbols(p) && |p| > 8 && AreSymbols(r) && |r| == 8 && AreSymbols(q) && |q| == |p| - 8
    ensures Divides(p, q, r) <==> q[0] == p[0] && Divides(Cancelled(p), q[1..], r)
  {
    var s := Scaled(q[0]) + ZeroSymbols(|q| - 1);
    var t, u := TimesGenerator(q[1..]), ZeroSymbols(|q| - 1) + r;
    SumCons(q[0], XorAll(s, t), |q| - 1, r);
    ConsEqual(p, q[0], XorAll(XorAll(s, t), u));
    SumMoves(p[1..], s, t, u);
    CancelledIsSum(p);
  }

  /** The remainder of a division is unique, and long division finds it. */
  lemma {:induction false} RemainderUnique(p: seq<seq<bool>>, q: seq<seq<bool>>, r: seq<seq<bool>>)
    requires AreSymbols(p) && |p| >= 8 && AreSymbols(r) && |r| == 8 && Divides(p, q, r)
    ensures r == Reduced(p)
    decreases |p|
  {
    if |p| == 8 {
      SumOfZeros(r);
    } else {
      DividesStep(p, q, r);
      RemainderUnique(Cancelled(p), q[1..], r);
    }
  }

  lemma {:induction false} RemainderExists(p: seq<seq<bool>>) returns (q: seq<seq<bool>>)
    requires AreSymbols(p) && |p| >= 8
    ensures Divides(p, q, Reduced(p))
    decreases |p|
  {
    if |p| == 8 {
      q := [];
      SumOfZeros(p);
    } else {
      var rest := RemainderExists(Cancelled(p));
      q := [p[0]] + rest;
      assert q[1..] == rest;
      DividesStep(p, q, Reduced(p));
    }
  }

  lemma SumOfZeros(r: seq<seq<bool>>)
    requires AreSymbols(r) && |r| == 8
    ensures XorAll(ZeroSymbols(8), ZeroSymbols(0) + r) == r
  {
    assert ZeroSymbols(0) + r == r;
    XorZeroSymbols(r);
  }

  lemma RemainderIff(p: seq<seq<bool>>, r: seq<seq<bool>>)
    requires AreSymbols(p) && |p| >= 8 && AreSymbols(r) && |r| == 8
    ensures IsRemainder(p, r) <==> r == Reduced(p)
  {
    if IsRemainder(p, r) {
      var q :| Divides(p, q, r);
      RemainderUnique(p, q, r);
    }
    var q := RemainderExists(p);
    assert r == Reduced(p) ==> Divides(p, q, r);
  }

  // ---------------------------------------------------------------------------------------
  // The checksum
  // ---------------------------------------------------------------------------------------

  /** The constant one as a remainder. */
  function OneSymbols(): (s: seq<seq<bool>>)
    ensures |s| == 8 && AreSymbols(s)
  {
    ZeroSymbols(7) + [Zeros(4) + [true]]
  }

  lemma CutOne()
    ensures CutSymbols(One(), 8) == OneSymbols()
  {
    assert One()[35..40] == Zeros(4) + [true];
    forall j | 0 <= j < 7
      ensures CutSymbols(One(), 8)[j] == Zeros(5)
    {
      assert One()[5 * j..5 * j + 5] == Zeros(5);
    }
  }

  lemma CutXor(c: seq<bool>, c': seq<bool>)
    requires |c| == |c'| == 40
    ensures CutSymbols(Xor(c, c'), 8) == XorAll(CutSymbols(c, 8), CutSymbols(c', 8))
  {
    forall j | 0 <= j < 8
      ensures CutSymbols(Xor(c, c'), 8)[j] == XorAll(CutSymbols(c, 8), CutSymbols(c', 8))[j]
    {
      assert Xor(c, c')[5 * j..5 * j + 5] == Xor(c[5 * j..5 * j + 5], c'[5 * j..5 * j + 5]);
    }
  }

  /**
   `polymod` is one plus the remainder of the polynomial whose coefficients are a one and the
   symbols, modulo the generator polynomial.
   */
  lemma PolymodIsRemainder(data: seq<nat>, r: seq<seq<bool>>)
    requires Symbols(data, 5) && AreSymbols(r) && |r| == 8
    ensures CutSymbols(Polymod(data), 8) == XorAll(r, OneSymbols())
       <==> IsRemainder(OneSymbols() + SymbolBits(data), r)
  {
    var c, v := Fold(One(), SymbolBits(data)), SymbolBits(data);
    CutOne();
    CutXor(c, One());
    FoldReduces(One(), v);
    RemainderIff(OneSymbols() + v, r);
    SameSum(CutSymbols(c, 8), r, OneSymbols());
  }

  lemma SameSum(a: seq<seq<bool>>, b: seq<seq<bool>>, c: seq<seq<bool>>)
    requires |a| == |b| == |c| && AreSymbols(a) && AreSymbols(b) && AreSymbols(c)
    ensures XorAll(a, c) == XorAll(b, c) <==> a == b
  {
    if XorAll(a, c) == XorAll(b, c) {
      forall i | 0 <= i < |a|
        ensures a[i] == b[i]
      {
        assert XorAll(a, c)[i] == XorAll(b, c)[i];
        XorCancel(a[i], b[i], c[i]);
      }
    }
  }
}
