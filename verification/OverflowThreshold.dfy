/**
 Exactly when `power_two_fractional` going up leaves the domain of the square root.

 The value held before round `k` depends only on the low `k` bits of the ratio and grows with
 them, and shifting the ratio left only adds rounds that do nothing. So one comparison decides
 every round, once the run is known on the two neighbouring 63-bit ratios at the threshold.
 */
module OverflowThreshold {
  import opened Powers
  import opened FixedPoint
  import opened FractionalPower

  /** How far below 2^64 a shifted ratio must stay. */
  const SLACK: nat := 0x1_7154_7653

  /** Round `k` going up hands `sqrt_u256` a number on which it overflows. */
  ghost predicate Overflows(ratio: nat, k: nat) {
    Input(ratio, true, k) / TWO_192 >= TOP_WORD
  }

  /** Some left shift of the ratio, kept to 64 bits, comes within `SLACK` of 2^64. */
  predicate NearTop(ratio: nat) {
    exists s: nat :: s < 64 && ShiftedLeft(ratio, s) >= TWO_64 - SLACK
  }

  /** `ratio << s` in sixty-four bits. */
  function ShiftedLeft(ratio: nat, s: nat): nat {
    LowBits(Shl(ratio, s), 64)
  }

  // ---------------------------------------------------------------------------------------
  // Order and shift
  // ---------------------------------------------------------------------------------------

  /** The held value is monotone in the bits of the ratio read so far. */
  lemma {:induction false} Monotone(a: nat, b: nat, k: nat)
    requires LowBits(a, k) <= LowBits(b, k)
    ensures BaseAfter(a, true, k) <= BaseAfter(b, true, k)
  {
    if k != 0 {
      LowBitsOrder(a, b, k - 1);
      if Bit(a, k - 1) == Bit(b, k - 1) {
        Monotone(a, b, k - 1);
      }
      BaseInRange(a, true, k - 1);
      BaseInRange(b, true, k - 1);
      RoundOrder(BaseAfter(a, true, k - 1), Bit(a, k - 1), FloorSqrt(Input(a, true, k - 1)),
                 BaseAfter(b, true, k - 1), Bit(b, k - 1), FloorSqrt(Input(b, true, k - 1)));
    }
  }

  lemma LowBitsOrder(a: nat, b: nat, k: nat)
    requires LowBits(a, k + 1) <= LowBits(b, k + 1)
    ensures Bit(a, k) ==> Bit(b, k)
    ensures Bit(a, k) == Bit(b, k) ==> LowBits(a, k) <= LowBits(b, k)
  {
    LowBitsStep(a, k);
    LowBitsStep(b, k);
  }

  lemma RoundOrder(x: nat, xBit: bool, xRoot: nat, y: nat, yBit: bool, yRoot: nat)
    requires InRange(x, true) && InRange(y, true)
    requires IsRoot(xRoot, Shifted(x, xBit, true)) && IsRoot(yRoot, Shifted(y, yBit, true))
    requires xBit ==> yBit
    requires xBit == yBit ==> x <= y
    ensures xRoot * TWO_127 <= yRoot * TWO_127
  {
    RootOrder(xRoot, yRoot, Shifted(x, xBit, true), Shifted(y, yBit, true));
  }

  /** Doubling the ratio adds a first round that leaves the held value at one. */
  lemma {:induction false} DoubledRatio(ratio: nat, k: nat)
    ensures BaseAfter(2 * ratio, true, k + 1) == BaseAfter(ratio, true, k)
  {
    if k == 0 {
      assert !Bit(2 * ratio, 0);
      assert Input(2 * ratio, true, 0) == TWO_254;
      FloorSqrtUnique(TWO_254, TWO_127);
    } else {
      DoubledRatio(ratio, k - 1);
      BitOfDouble(ratio, k - 1);
      assert Input(2 * ratio, true, k) == Input(ratio, true, k - 1);
    }
  }

  lemma BitOfDouble(n: nat, k: nat)
    ensures Bit(2 * n, k + 1) == Bit(n, k)
  {
    assert Shr(2 * n, k + 1) == Shr((2 * n) / 2, k);
  }

  lemma {:induction false} ShiftedRatio(ratio: nat, k: nat, s: nat)
    ensures BaseAfter(Shl(ratio, s), true, k + s) == BaseAfter(ratio, true, k)
    ensures Bit(Shl(ratio, s), k + s) == Bit(ratio, k)
  {
    if s != 0 {
      ShiftedRatio(ratio, k, s - 1);
      DoubledRatio(Shl(ratio, s - 1), k + s - 1);
      BitOfDouble(Shl(ratio, s - 1), k + s - 1);
    }
  }

  // ---------------------------------------------------------------------------------------
  // The two runs at the threshold
  // ---------------------------------------------------------------------------------------

  /** The held value after `n` more rounds going up, reading `ratio` from its lowest bit. */
  ghost function Run(scale: nat, base: nat, ratio: nat, n: nat): nat
    decreases n, base
  {
    if n == 0 then base
    else Run(scale, FloorSqrt(Shifted(base, ratio % 2 == 1, true)) * scale, ratio / 2, n - 1)
  }

  lemma {:induction false} RunIsBase(ratio: nat, j: nat, n: nat)
    ensures Run(TWO_127, BaseAfter(ratio, true, j), Shr(ratio, j), n) == BaseAfter(ratio, true, j + n)
    decreases n
  {
    if n != 0 {
      RunIsBase(ratio, j + 1, n - 1);
      ShrHalves(ratio, j);
    }
  }

  /** `next` is the root taken in a round that starts from `root` and reads the lowest bit of `ratio`. */
  predicate IsRound(scale: nat, root: nat, ratio: nat, next: nat) {
    IsRoot(next, (if ratio % 2 == 1 then 2 else 1) * (root * scale))
  }

  lemma Round(scale: nat, root: nat, ratio: nat, n: nat, next: nat)
    requires n > 0 && IsRound(scale, root, ratio, next)
    ensures Run(scale, root * scale, ratio, n) == Run(scale, next * scale, ratio / 2, n - 1)
  {
    FloorSqrtUnique(Shifted(root * scale, ratio % 2 == 1, true), next);
  }

  /** The roots of a run, one after the other. */
  datatype Roots = Done | Then(root: nat, more: Roots)

  /** They are the `n` roots of the run that starts from `root` and reads `ratio`, and end with `last`. */
  predicate Chain(scale: nat, root: nat, ratio: nat, roots: Roots, n: nat, last: nat)
    decreases roots
  {
    match roots
    case Done => n == 0 && root == last
    case Then(next, more) =>
      n > 0 && IsRound(scale, root, ratio, next) && Chain(scale, next, ratio / 2, more, n - 1, last)
  }

  lemma {:induction false} ChainRuns(scale: nat, root: nat, ratio: nat, roots: Roots, n: nat, last: nat)
    requires Chain(scale, root, ratio, roots, n, last)
    ensures Run(scale, root * scale, ratio, n) == last * scale
    decreases roots
  {
    match roots
    case Done =>
    case Then(next, more) =>
      Round(scale, root, ratio, n, next);
      ChainRuns(scale, next, ratio / 2, more, n - 1, last);
  }

  lemma Put(scale: nat, root: nat, ratio: nat, next: nat, rest: nat, more: Roots, n: nat, last: nat)
    requires IsRound(scale, root, ratio, next) && rest == ratio / 2 && Chain(scale, next, rest, more, n, last)
    ensures Chain(scale, root, ratio, Then(next, more), n + 1, last)
  {
  }

  lemma Halves(ratio: nat)
    ensures ratio / 2 / 2 == ratio / 4 && ratio / 4 / 2 == ratio / 8
  {
  }

  /** Three roots put before a chain. */
  lemma Before(scale: nat, r0: nat, ratio: nat, roots: Roots, n: nat, last: nat, r1: nat, r2: nat, r3: nat)
    returns (longer: Roots)
    requires IsRound(scale, r0, ratio, r1)
    requires IsRound(scale, r1, ratio / 2, r2)
    requires IsRound(scale, r2, ratio / 4, r3)
    requires Chain(scale, r3, ratio / 8, roots, n, last)
    ensures Chain(scale, r0, ratio, longer, n + 3, last)
  {
    longer := Then(r1, Then(r2, Then(r3, roots)));
    Halves(ratio);
    Put(scale, r2, ratio / 4, r3, ratio / 8, roots, n, last);
    Put(scale, r1, ratio / 2, r2, ratio / 4, Then(r3, roots), n + 1, last);
    Put(scale, r0, ratio, r1, ratio / 2, Then(r2, Then(r3, roots)), n + 2, last);
  }

  lemma RootsAtLast() returns (roots: Roots)
    ensures Chain(TWO_127, 0xFFC007FF555390D9E73DA1F4D80F3927, 0x1FFFFF, roots, 21,
                  0xFFFFFFFE000000019C7232F90C54180A)
  {
    roots := Done;
    roots := Before(TWO_127, 0xFFFFFFF00000007CE3919553F0AA7C41, 0x7, roots, 0,
      0xFFFFFFFE000000019C7232F90C54180A, 0xFFFFFFF80000001E71C8CB9D869B993D,
      0xFFFFFFFC0000000738E465EBA6DF6433, 0xFFFFFFFE000000019C7232F90C54180A);
    roots := Before(TWO_127, 0xFFFFFF8000001FE71C8775830867DB8F, 0x3F, roots, 3,
      0xFFFFFFFE000000019C7232F90C54180A, 0xFFFFFFC0000007F38E45B7A515823A4D,
      0xFFFFFFE0000001F9C7231B0B6F228AF2, 0xFFFFFFF00000007CE3919553F0AA7C41);
    roots := Before(TWO_127, 0xFFFFFC000007FF38D9BE65037DA139D9, 0x1FF, roots, 6,
      0xFFFFFFFE000000019C7232F90C54180A, 0xFFFFFE000001FF9C70DE6B617C6E6ACC,
      0xFFFFFF0000007FCE38EF03E98D53FDA4, 0xFFFFFF8000001FE71C8775830867DB8F);
    roots := Before(TWO_127, 0xFFFFE00001FFF9B1CEA20A8BC96B6646, 0xFFF, roots, 9,
      0xFFFFFFFE000000019C7232F90C54180A, 0xFFFFF000007FFCE0E71EF3B96378DAB2,
      0xFFFFF800001FFE7173830378FBA88E99, 0xFFFFFC000007FF38D9BE65037DA139D9);
    roots := Before(TWO_127, 0xFFFF00007FFFA38EAB4398C4947C94DC, 0x7FFF, roots, 12,
      0xFFFFFFFE000000019C7232F90C54180A, 0xFFFF80001FFFE1C74485726C191AFC6C,
      0xFFFFC00007FFF2E39EDBA155D796248F, 0xFFFFE00001FFF9B1CEA20A8BC96B6646);
    roots := Before(TWO_127, 0xFFF8001FFFA91D2A91B28A53C37ADBCF, 0x3FFFF, roots, 15,
      0xFFFFFFFE000000019C7232F90C54180A, 0xFFFC0007FFF48E478252DBF7C2D6011D,
      0xFFFE0001FFFE471E4F697E90C4154098, 0xFFFF00007FFFA38EAB4398C4947C94DC);
    roots := Before(TWO_127, 0xFFC007FF555390D9E73DA1F4D80F3927, 0x1FFFFF, roots, 18,
      0xFFFFFFFE000000019C7232F90C54180A, 0xFFE001FFEAA51D3B4FEA52E8B470BB6E,
      0xFFF0007FFD5243C33B0361A07EBFB99F, 0xFFF8001FFFA91D2A91B28A53C37ADBCF);
  }

  lemma RootsAtMiddle() returns (roots: Roots)
    ensures Chain(TWO_127, 0xA45783A8194AC7C6386699E15E31A243, 0x3FFFFFFF475, roots, 42,
                  0xFFFFFFFE000000019C7232F90C54180A)
  {
    roots := RootsAtLast();
    roots := Before(TWO_127, 0xFE01FEAB54AE6053FAE7B6138F00F344, 0xFFFFFF, roots, 21,
      0xFFFFFFFE000000019C7232F90C54180A, 0xFF007FD55FCC49005EB604297DA270A0,
      0xFF801FFAAB3C6D410C5EBB50B427316D, 0xFFC007FF555390D9E73DA1F4D80F3927);
    roots := Before(TWO_127, 0xF07D5FDE3528F0E5186BC43743DCFE76, 0x7FFFFFF, roots, 24,
      0xFFFFFFFE000000019C7232F90C54180A, 0xF81FAB54442CC5CCADF8098C6FD9B3D4,
      0xFC07F55FF6B91F37AAA9FF316DD948D8, 0xFE01FEAB54AE6053FAE7B6138F00F344);
    roots := Before(TWO_127, 0x9B4597E36D97D518C7DDEB09B15EC54A, 0x3FFFFFFF, roots, 27,
      0xFFFFFFFE000000019C7232F90C54180A, 0xC75F7CF55A5F4BB05C33DB51A5467177,
      0xE1EB5127669359FD6E59B8E69A2292E1, 0xF07D5FDE3528F0E5186BC43743DCFE76);
    roots := Before(TWO_127, 0x960AADC09535294424DA0F01D3315CB3, 0x1FFFFFFFA, roots, 30,
      0xFFFFFFFE000000019C7232F90C54180A, 0x8A95551DC629D9D760A0D6B92287B4B3,
      0xBC5AB1B142DA0A7311E886F9BB4F46B8, 0x9B4597E36D97D518C7DDEB09B15EC54A);
    roots := Before(TWO_127, 0xE42327B57FA3DA017702D02866346547, 0xFFFFFFFD1, roots, 33,
      0xFFFFFFFE000000019C7232F90C54180A, 0xF1AADDD48456D344C91E78AB79FC84F6,
      0xAFE1081F6FA79E1A29FAAF717D8AA0BE, 0x960AADC09535294424DA0F01D3315CB3);
    roots := Before(TWO_127, 0xCBAACA8DD0869A61EE3CC87A10D19EB6, 0x7FFFFFFE8E, roots, 36,
      0xFFFFFFFE000000019C7232F90C54180A, 0xA175CF8D2558B9EF973EE19632864ADF,
      0xCB4EA38F2D2590B1E226410ED218C5D0, 0xE42327B57FA3DA017702D02866346547);
    roots := Before(TWO_127, 0xA45783A8194AC7C6386699E15E31A243, 0x3FFFFFFF475, roots, 39,
      0xFFFFFFFE000000019C7232F90C54180A, 0xCD1D08F7EC86180B50933022CD2E597F,
      0xA2084F2E8D52874023A86C2952E2669D, 0xCBAACA8DD0869A61EE3CC87A10D19EB6);
  }

  lemma RootsAtFirst() returns (roots: Roots)
    ensures Chain(TWO_127, 0x80000000000000000000000000000000, 0x7FFFFFFE8EAB89AD, roots, 63,
                  0xFFFFFFFE000000019C7232F90C54180A)
  {
    roots := RootsAtMiddle();
    roots := Before(TWO_127, 0xEC4BACFA0597047440A47B374418E701, 0x1FFFFFFFA3AA, roots, 42,
      0xFFFFFFFE000000019C7232F90C54180A, 0xADE9CE645FF388FB5D48ACBD0293A4DE,
      0xD3007D3440BCF21AFC311B4A630D4CBD, 0xA45783A8194AC7C6386699E15E31A243);
    roots := Before(TWO_127, 0x86E2B3B2256DC17562DDE5FC6950B3B2, 0xFFFFFFFD1D57, roots, 45,
      0xFFFFFFFE000000019C7232F90C54180A, 0xB9D30ADFA2200339EBB87E3C47D2E914,
      0xDA1B9D4BC9AEA264CC5D4CBC2A81419E, 0xEC4BACFA0597047440A47B374418E701);
    roots := Before(TWO_127, 0xC2A652E424A71361C12C25E831A5D31E, 0x7FFFFFFE8EAB8, roots, 48,
      0xFFFFFFFE000000019C7232F90C54180A, 0x9DD86A63C37966C8A9552EFA879E13E6,
      0x8E2439C087B731400ACDEA10B5B38E78, 0x86E2B3B2256DC17562DDE5FC6950B3B2);
    roots := Before(TWO_127, 0xE4CAA9EFD4189A9604ABEAE4CE928256, 0x3FFFFFFF4755C4, roots, 51,
      0xFFFFFFFE000000019C7232F90C54180A, 0xAB212BEAB6A51219CFBC44AFA3CC9A4C,
      0x940081B16243B4D9A2D1FF133CA216B2, 0xC2A652E424A71361C12C25E831A5D31E);
    roots := Before(TWO_127, 0xD06333DAEF2B2594D6D45C6559A4D501, 0x1FFFFFFFA3AAE26, roots, 54,
      0xFFFFFFFE000000019C7232F90C54180A, 0xA3520F68E802BB92897A2C914ECBEF9F,
      0xCC799F23D11510E55ED51263C7641A26, 0xE4CAA9EFD4189A9604ABEAE4CE928256);
    roots := Before(TWO_127, 0xC5672A115506DADD3E2AD0C964DD9F37, 0xFFFFFFFD1D57135, roots, 57,
      0xFFFFFFFE000000019C7232F90C54180A, 0xE0CCDEEC2A94E111065895048DD333C9,
      0xA9A15AB4EA7C0EF8541E24EC3531FA72, 0xD06333DAEF2B2594D6D45C6559A4D501);
    roots := Before(TWO_127, 0x80000000000000000000000000000000, 0x7FFFFFFE8EAB89AD, roots, 60,
      0xFFFFFFFE000000019C7232F90C54180A, 0xB504F333F9DE6484597D89B3754ABE9F,
      0x9837F0518DB8A96F46AD23182E42F6F6, 0xC5672A115506DADD3E2AD0C964DD9F37);
  }

  /** The run on the ratio 2^63 - SLACK, by its 63 roots. */
  lemma RunAtThreshold(n: nat)
    requires n == 63
    ensures Run(TWO_127, TWO_127 * TWO_127, TWO_64 / 2 - SLACK, n) == 0xFFFFFFFE000000019C7232F90C54180A * TWO_127
  {
    var roots := RootsAtFirst();
    ChainRuns(TWO_127, 0x80000000000000000000000000000000, 0x7FFFFFFE8EAB89AD, roots, n,
              0xFFFFFFFE000000019C7232F90C54180A);
  }

  lemma RootsBelowLast() returns (roots: Roots)
    ensures Chain(TWO_127, 0xFFC007FF55273F69A802126D2A5C5B96, 0x1FFFFF, roots, 21,
                  0xFFFFFFFE00000000398E030C2E7D8490)
  {
    roots := Done;
    roots := Before(TWO_127, 0xFFFFFFF000000071CC70168845CAD42B, 0x7, roots, 0,
      0xFFFFFFFE00000000398E030C2E7D8490, 0xFFFFFFF800000018E6380C0B54A5C93A,
      0xFFFFFFFC00000004731C061776C2FCF0, 0xFFFFFFFE00000000398E030C2E7D8490);
    roots := Before(TWO_127, 0xFFFFFF8000001F8E637BA5F6A69DFAFD, 0x3F, roots, 3,
      0xFFFFFFFE00000000398E030C2E7D8490, 0xFFFFFFC0000007C731BFC4C7C321EF93,
      0xFFFFFFE0000001E398E01ED6FD9309E4, 0xFFFFFFF000000071CC70168845CAD42B);
    roots := Before(TWO_127, 0xFFFFFC000007FC7311699CDDA90F64CB, 0x1FF, roots, 6,
      0xFFFFFFFE00000000398E030C2E7D8490, 0xFFFFFE000001FE398CB141863A961219,
      0xFFFFFF0000007F1CC6D7BD89D579CA9E, 0xFFFFFF8000001F8E637BA5F6A69DFAFD);
    roots := Before(TWO_127, 0xFFFFE00001FFE3838E68D8855E7906BE, 0xFFF, roots, 9,
      0xFFFFFFFE00000000398E030C2E7D8490, 0xFFFFF000007FF1C9C650E8AED87F4B8C,
      0xFFFFF800001FF8E5E2EFA16FCC758E15, 0xFFFFFC000007FC7311699CDDA90F64CB);
    roots := Before(TWO_127, 0xFFFF00007FFEF21D44BD86345E3728F2, 0x7FFF, roots, 12,
      0xFFFFFFFE00000000398E030C2E7D8490, 0xFFFF80001FFF890E64E6046B4912A8F4,
      0xFFFFC00007FFC68723F4CCFE9835CE99, 0xFFFFE00001FFE3838E68D8855E7906BE);
    roots := Before(TWO_127, 0xFFF8001FFFA391C62DC889A59E02E13F, 0x3FFFF, roots, 15,
      0xFFFFFFFE00000000398E030C2E7D8490, 0xFFFC0007FFF1C88A397EE6178CF5AFED,
      0xFFFE0001FFFCE43CE53F750C11496204, 0xFFFF00007FFEF21D44BD86345E3728F2);
    roots := Before(TWO_127, 0xFFC007FF55273F69A802126D2A5C5B96, 0x1FFFFF, roots, 18,
      0xFFFFFFFE00000000398E030C2E7D8490, 0xFFE001FFEA8EF1BDECF54CE40FF6767E,
      0xFFF0007FFD472D532812C9AD7CD3214C, 0xFFF8001FFFA391C62DC889A59E02E13F);
  }

  lemma RootsBelowMiddle() returns (roots: Roots)
    ensures Chain(TWO_127, 0xA4578018CB519000190EB79C33C8B71B, 0x3FFFFFFF475, roots, 42,
                  0xFFFFFFFE00000000398E030C2E7D8490)
  {
    roots := RootsBelowLast();
    roots := Before(TWO_127, 0xFE01FEAB534E3F287B09026896C4A739, 0xFFFFFF, roots, 21,
      0xFFFFFFFE00000000398E030C2E7D8490, 0xFF007FD55F1B8801E35C0AEEB5630E83,
      0xFF801FFAAAE3E086812B559E7ABDF3F6, 0xFFC007FF55273F69A802126D2A5C5B96);
    roots := Before(TWO_127, 0xF07D5FDE2ABDD30B024F5E9B56CFC403, 0x7FFFFFF, roots, 24,
      0xFFFFFFFE00000000398E030C2E7D8490, 0xF81FAB543ECCE1F6593F373714175CDE,
      0xFC07F55FF3FE57E87D6F5FF29AD7F049, 0xFE01FEAB534E3F287B09026896C4A739);
    roots := Before(TWO_127, 0x9B4597E337C7AC5318246F5E5BF62D78, 0x3FFFFFFF, roots, 27,
      0xFFFFFFFE00000000398E030C2E7D8490, 0xC75F7CF537D2D38AE7D21A06A963E5AE,
      0xE1EB512753004D9BC8141BB5795650C9, 0xF07D5FDE2ABDD30B024F5E9B56CFC403);
    roots := Before(TWO_127, 0x960AADBEF534258776546817F9CCBB6D, 0x1FFFFFFFA, roots, 30,
      0xFFFFFFFE00000000398E030C2E7D8490, 0x8A95551D060BD331C6A2CCE635EFC2B7,
      0xBC5AB1B0C04B639213285842538EE702, 0x9B4597E337C7AC5318246F5E5BF62D78);
    roots := Before(TWO_127, 0xE42327A1BB646BD6FDC9747ED6B42137, 0xFFFFFFFD1, roots, 33,
      0xFFFFFFFE00000000398E030C2E7D8490, 0xF1AADDCA0C29520E9757089CF7F35F70,
      0xAFE1081BA05FD3CE187B9C150338D887, 0x960AADBEF534258776546817F9CCBB6D);
    roots := Before(TWO_127, 0xCBAACA00A4AB9F8DD13D31C04C9079BD, 0x7FFFFFFE8E, roots, 36,
      0xFFFFFFFE00000000398E030C2E7D8490, 0xA175CF553023B92ECCCAFEE912023719,
      0xCB4EA36BF226CAD2472F3F46E62ABFA8, 0xE42327A1BB646BD6FDC9747ED6B42137);
    roots := Before(TWO_127, 0xA4578018CB519000190EB79C33C8B71B, 0x3FFFFFFF475, roots, 39,
      0xFFFFFFFE00000000398E030C2E7D8490, 0xCD1D06BF3A93D61CD8571F67591324EE,
      0xA2084E4DED67E6DA13E917DDDE53B1C2, 0xCBAACA00A4AB9F8DD13D31C04C9079BD);
  }

  lemma RootsBelowFirst() returns (roots: Roots)
    ensures Chain(TWO_127, 0x80000000000000000000000000000000, 0x7FFFFFFE8EAB89AC, roots, 63,
                  0xFFFFFFFE00000000398E030C2E7D8490)
  {
    roots := RootsBelowMiddle();
    roots := Before(TWO_127, 0xEC4B8407A0886368498EFDFA0E4D74C4, 0x1FFFFFFFA3AA, roots, 42,
      0xFFFFFFFE00000000398E030C2E7D8490, 0xADE9BF52DB5770C5A64D98876E113107,
      0xD30074102AE6FF50A1E2E161E3609999, 0xA4578018CB519000190EB79C33C8B71B);
    roots := Before(TWO_127, 0x86E1F8B4EF6402C394D6B06C4544D645, 0xFFFFFFFD1D57, roots, 45,
      0xFFFFFFFE00000000398E030C2E7D8490, 0xB9D28A1212DE7CA0EC798961F3C631ED,
      0xDA1B51B4B08B64F9595E7E8977F9ABE0, 0xEC4B8407A0886368498EFDFA0E4D74C4);
    roots := Before(TWO_127, 0xC29DE456ECEA5DB683F2797BAD672016, 0x7FFFFFFE8EAB8, roots, 48,
      0xFFFFFFFE00000000398E030C2E7D8490, 0x9DD4FF256886216E4DA4AB36BBDEB6A7,
      0x8E22AFA9149120C9CAEE33702698F558, 0x86E1F8B4EF6402C394D6B06C4544D645);
    roots := Before(TWO_127, 0xE47B6CA0373DA88D65E24402E2216EDA, 0x3FFFFFFF4755C4, roots, 51,
      0xFFFFFFFE00000000398E030C2E7D8490, 0xAB0386EF48868DE0923D2E22820C8894,
      0x93F3AF759D5CC105117E5C88FB0F4E58, 0xC29DE456ECEA5DB683F2797BAD672016);
    roots := Before(TWO_127, 0xCE248C151F8480E3E235838F95F2C6ED, 0x1FFFFFFFA3AAE26, roots, 54,
      0xFFFFFFFE00000000398E030C2E7D8490, 0xA27043030C4968189B7A04EF80CFDEA7,
      0xCBEC14FEF2727C5CF4907C8F45EBF6DC, 0xE47B6CA0373DA88D65E24402E2216EDA);
    roots := Before(TWO_127, 0xB504F333F9DE6484597D89B3754ABE9F, 0xFFFFFFFD1D57135, roots, 57,
      0xFFFFFFFE00000000398E030C2E7D8490, 0xD744FCCAD69D6AF439A68BB9902D3FDE,
      0xA5FED6A9B15138EA1CBD7F621710701B, 0xCE248C151F8480E3E235838F95F2C6ED);
    roots := Before(TWO_127, 0x80000000000000000000000000000000, 0x7FFFFFFE8EAB89AC, roots, 60,
      0xFFFFFFFE00000000398E030C2E7D8490, 0x80000000000000000000000000000000,
      0x80000000000000000000000000000000, 0xB504F333F9DE6484597D89B3754ABE9F);
  }

  /** The run on the ratio 2^63 - SLACK - 1, by its 63 roots. */
  lemma RunBelowThreshold(n: nat)
    requires n == 63
    ensures Run(TWO_127, TWO_127 * TWO_127, TWO_64 / 2 - SLACK - 1, n) == 0xFFFFFFFE00000000398E030C2E7D8490 * TWO_127
  {
    var roots := RootsBelowFirst();
    ChainRuns(TWO_127, 0x80000000000000000000000000000000, 0x7FFFFFFE8EAB89AC, roots, n,
              0xFFFFFFFE00000000398E030C2E7D8490);
  }

  // ---------------------------------------------------------------------------------------
  // The condition
  // ---------------------------------------------------------------------------------------

  lemma BaseAtThreshold(k: nat)
    requires k == 63
    ensures 2 * BaseAfter(TWO_64 / 2 - SLACK, true, k) / TWO_192 >= TOP_WORD
  {
    RunIsBase(TWO_64 / 2 - SLACK, 0, k);
    RunAtThreshold(k);
  }

  lemma BaseBelowThreshold(k: nat)
    requires k == 63
    ensures 2 * BaseAfter(TWO_64 / 2 - SLACK - 1, true, k) / TWO_192 < TOP_WORD
  {
    RunIsBase(TWO_64 / 2 - SLACK - 1, 0, k);
    RunBelowThreshold(k);
  }

  /** For 63-bit ratios the doubled value leaves the domain exactly from the threshold on. */
  lemma WholeWord(w: nat, k: nat)
    requires k == 63
    ensures 2 * BaseAfter(w, true, k) / TWO_192 >= TOP_WORD <==> LowBits(w, k) >= TWO_64 / 2 - SLACK
  {
    if LowBits(w, k) >= TWO_64 / 2 - SLACK {
      FromThreshold(w, k);
    } else {
      UpToThreshold(w, k);
    }
  }

  lemma FromThreshold(w: nat, k: nat)
    requires k == 63 && LowBits(w, k) >= TWO_64 / 2 - SLACK
    ensures 2 * BaseAfter(w, true, k) / TWO_192 >= TOP_WORD
  {
    BaseAtThreshold(k);
    SmallPowers();
    LowBitsSmall(TWO_64 / 2 - SLACK, k);
    Monotone(TWO_64 / 2 - SLACK, w, k);
  }

  lemma UpToThreshold(w: nat, k: nat)
    requires k == 63 && LowBits(w, k) < TWO_64 / 2 - SLACK
    ensures 2 * BaseAfter(w, true, k) / TWO_192 < TOP_WORD
  {
    BaseBelowThreshold(k);
    SmallPowers();
    LowBitsSmall(TWO_64 / 2 - SLACK - 1, k);
    Monotone(w, TWO_64 / 2 - SLACK - 1, k);
  }

  /** Round `k` overflows exactly when the ratio shifted left by `63 - k` is near 2^64. */
  lemma OverflowsIff(ratio: nat, k: nat)
    requires k < 64
    ensures Overflows(ratio, k) <==> ShiftedLeft(ratio, 63 - k) >= TWO_64 - SLACK
  {
    var s: nat := 63 - k;
    var w := Shl(ratio, s);
    ShiftedRatio(ratio, k, s);
    WholeWord(w, k + s);
    LowBitsStep(w, k + s);
    BaseInRange(ratio, true, k);
    SmallPowers();
  }
}
