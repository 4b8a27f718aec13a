/** `convert_bits`: regrouping a bit string from symbols of one width into symbols of another. */
module ConvertBits {
  import opened Powers
  import opened BitStrings
  import opened Wrappers

  datatype Regrouped =
    | Regrouped(symbols: seq<nat>)
    | InvalidPadding(fromBits: nat, paddingBits: nat, padding: nat)

  /** As many whole `w`-bit symbols as the bit string holds. */
  function Chunks(bits: seq<bool>, w: nat): (c: seq<nat>)
    requires w > 0
  {
    if |bits| < w then [] else [FromBits(bits[..w])] + Chunks(bits[w..], w)
  }

  /** The bits left over after the whole symbols. */
  function Leftover(bits: seq<bool>, w: nat): (rest: seq<bool>)
    requires w > 0
    ensures |rest| < w
  {
    if |bits| < w then bits else Leftover(bits[w..], w)
  }

  /** The regrouping stated on the bit string: what `convert_bits` returns. */
  function Regroup(data: seq<nat>, inbits: nat, outbits: nat, pad: bool): Regrouped
    requires outbits > 0 && Symbols(data, inbits)
  {
    var bits := Bits(data, inbits);
    var whole, rest := Chunks(bits, outbits), Leftover(bits, outbits);
    if pad then
      if rest == [] then Regrouped(whole)
      else Regrouped(whole + [FromBits(rest + Zeros(outbits - |rest|))])
    else if |rest| >= inbits || FromBits(rest) != 0 then
      InvalidPadding(inbits, |data| * inbits % outbits, FromBits(rest))
    else
      Regrouped(whole)
  }

  /** The value of `(acc << n) | d` in sixteen bits, for a `d` that fits in the `n` bits freed. */
  function PushBits(acc: nat, n: nat, d: nat): nat
    requires d < Pow2(n)
  {
    Shl(acc, n) % 65536 + d
  }

  /** The value of `acc & !(mask << k)` for a mask of `w` ones. */
  function ClearBits(acc: nat, k: nat, w: nat): nat {
    ShlShr(acc, LowBits(Shr(acc, k), w), k);
    acc - Shl(LowBits(Shr(acc, k), w), k)
  }

  /** The symbols cut so far and the accumulator together hold exactly the bits read so far. */
  ghost predicate Holds(ret: seq<nat>, outbits: nat, acc: nat, num: nat, bits: seq<bool>) {
    && Symbols(ret, outbits)
    && acc < Pow2(num)
    && Bits(ret, outbits) + ToBits(acc, num) == bits
  }

  lemma PushHolds(ret: seq<nat>, outbits: nat, acc: nat, num: nat, data: seq<nat>, i: nat, inbits: nat, acc': nat)
    requires i < |data| && Symbols(data, inbits) && inbits <= 8 && num <= 7
    requires Holds(ret, outbits, acc, num, Bits(data[..i], inbits))
    requires acc' == PushBits(acc, inbits, data[i])
    ensures acc' < 65536 && Holds(ret, outbits, acc', num + inbits, Bits(data[..i + 1], inbits))
  {
    var d := data[i];
    PushFits(acc, num, inbits, d);
    ToBitsConcat(acc, num, d, inbits);
    assert data[..i + 1] == data[..i] + [d];
    BitsAppend(data[..i], d, inbits);
    AppendAssociative(Bits(ret, outbits), ToBits(acc, num), ToBits(d, inbits));
  }

  lemma PushFits(acc: nat, num: nat, n: nat, d: nat)
    requires num <= 7 && n <= 8 && acc < Pow2(num) && d < Pow2(n)
    ensures PushBits(acc, n, d) == Shl(acc, n) + d < 65536
  {
    ToBitsConcat(acc, num, d, n);
    AccumulatorCast(Shl(acc, n), d, num + n);
  }

  /** Sixteen bits hold everything up to fifteen bits. */
  lemma AccumulatorCast(v: nat, d: nat, n: nat)
    requires n <= 15 && v + d < Pow2(n)
    ensures v % 65536 == v && v + d < 65536
  {
    Pow2Monotone(n, 15);
    assert Pow2(8) == 256;
    assert Pow2(15) == 32768;
  }

  lemma CutHolds(ret: seq<nat>, outbits: nat, acc: nat, num: nat, bits: seq<bool>, hi: nat, acc': nat)
    requires outbits <= num && outbits <= 8 && Holds(ret, outbits, acc, num, bits)
    requires hi == Shr(acc, num - outbits) % 256 && acc' == ClearBits(acc, num - outbits, outbits)
    ensures acc' <= acc && Holds(ret + [hi], outbits, acc', num - outbits, bits)
  {
    CutFits(acc, num, outbits, hi, acc');
    CutBits(ret, outbits, acc, num, hi, acc');
  }

  lemma CutBits(ret: seq<nat>, outbits: nat, acc: nat, num: nat, hi: nat, acc': nat)
    requires outbits <= num && Symbols(ret, outbits) && acc < Pow2(num)
    requires hi < Pow2(outbits) && acc' < Pow2(num - outbits) && acc == Shl(hi, num - outbits) + acc'
    ensures Symbols(ret + [hi], outbits)
    ensures Bits(ret + [hi], outbits) + ToBits(acc', num - outbits) == Bits(ret, outbits) + ToBits(acc, num)
  {
    ToBitsConcat(hi, outbits, acc', num - outbits);
    BitsAppend(ret, hi, outbits);
    AppendAssociative(Bits(ret, outbits), ToBits(hi, outbits), ToBits(acc', num - outbits));
  }

  lemma CutFits(acc: nat, num: nat, outbits: nat, hi: nat, acc': nat)
    requires outbits <= num && outbits <= 8 && acc < Pow2(num)
    requires hi == Shr(acc, num - outbits) % 256 && acc' == ClearBits(acc, num - outbits, outbits)
    ensures hi < Pow2(outbits) && acc' < Pow2(num - outbits) && acc == Shl(hi, num - outbits) + acc'
  {
    var k: nat := num - outbits;
    SplitBits(acc, outbits, k);
    LowBitsSmall(Shr(acc, k), outbits);
    ByteCast(Shr(acc, k), outbits);
  }

  /** Casting a symbol to a byte keeps it. */
  lemma ByteCast(v: nat, w: nat)
    requires w <= 8 && v < Pow2(w)
    ensures v % 256 == v
  {
    Pow2Monotone(w, 8);
    assert Pow2(8) == 256;
  }

  /** Shifting the leftover to the top of a symbol pads it with zeros. */
  lemma PadFits(acc: nat, num: nat, w: nat)
    requires num <= w <= 8 && acc < Pow2(num)
    ensures Shl(acc, w - num) % 256 == FromBits(ToBits(acc, num) + Zeros(w - num))
  {
    var k: nat := w - num;
    var v := Shl(acc, k);
    ToBitsConcat(acc, num, 0, k);
    ZeroBits(k);
    ByteCast(v, w);
    assert v < Pow2(w) && ToBits(v, w) == ToBits(acc, num) + Zeros(k);
    FromToBits(v, w);
  }

  /** Cutting symbols off until fewer than a symbol's bits are left finds exactly the whole symbols. */
  lemma {:induction false} ChunksUnique(ret: seq<nat>, rest: seq<bool>, w: nat)
    requires w > 0 && |rest| < w && Symbols(ret, w)
    ensures Chunks(Bits(ret, w) + rest, w) == ret && Leftover(Bits(ret, w) + rest, w) == rest
  {
    if ret == [] {
      assert Bits(ret, w) + rest == rest;
    } else {
      var tail := Bits(ret[1..], w) + rest;
      BitsCons(ret, w);
      AppendAssociative(ToBits(ret[0], w), Bits(ret[1..], w), rest);
      FirstChunk(ret[0], tail, w);
      ChunksUnique(ret[1..], rest, w);
      assert ret == [ret[0]] + ret[1..];
    }
  }

  lemma FirstChunk(d: nat, tail: seq<bool>, w: nat)
    requires w > 0 && d < Pow2(w)
    ensures Chunks(ToBits(d, w) + tail, w) == [d] + Chunks(tail, w)
    ensures Leftover(ToBits(d, w) + tail, w) == Leftover(tail, w)
  {
    var bits := ToBits(d, w) + tail;
    assert bits[..w] == ToBits(d, w) && bits[w..] == tail;
    FromToBits(d, w);
  }

  lemma {:induction false} BitsCons(data: seq<nat>, w: nat)
    requires data != [] && Symbols(data, w)
    ensures Bits(data, w) == ToBits(data[0], w) + Bits(data[1..], w)
  {
    var n := |data| - 1;
    if n == 0 {
      assert data[..n] == [] && data[1..] == [];
    } else {
      BitsCons(data[..n], w);
      assert data[..n][1..] == data[1..][..n - 1];
      assert data[1..][n - 1] == data[n];
    }
  }

  /** The inner loop of `convert_bits`: extract all the output groups the accumulator holds. */
  method Extract(ret: seq<nat>, acc: nat, num: nat, outbits: nat, ghost bits: seq<bool>)
    returns (ret': seq<nat>, acc': nat, num': nat)
    requires 1 <= outbits <= 8 && Holds(ret, outbits, acc, num, bits)
    ensures num' < outbits && acc' <= acc && Holds(ret', outbits, acc', num', bits)
  {
    ret', acc', num' := ret, acc, num;
    while num' >= outbits
      invariant acc' <= acc && Holds(ret', outbits, acc', num', bits)
    {
      // Store only the highest bits, then clear them.
      var hi: nat := Shr(acc', num' - outbits) % 256;
      var low := ClearBits(acc', num' - outbits, outbits);
      CutHolds(ret', outbits, acc', num', bits, hi, low);
      ret', acc', num' := ret' + [hi], low, num' - outbits;
    }
  }

  /**
   `convert_bits`, as written: a 16-bit accumulator that input symbols are shifted into and
   output symbols are cut from. It never holds more than fifteen bits.
   */
  method Convert(data: seq<nat>, inbits: nat, outbits: nat, pad: bool) returns (result: Regrouped)
    requires inbits <= 8 && 1 <= outbits <= 8
    requires Symbols(data, inbits)
    ensures result == Regroup(data, inbits, outbits, pad)
  {
    var ret: seq<nat>, acc: nat, num: nat := [], 0, 0;
    for i := 0 to |data|
      invariant num < outbits && acc < 65536
      invariant Holds(ret, outbits, acc, num, Bits(data[..i], inbits))
    {
      var pushed := PushBits(acc, inbits, data[i]);
      PushHolds(ret, outbits, acc, num, data, i, inbits, pushed);
      ret, acc, num := Extract(ret, pushed, num + inbits, outbits, Bits(data[..i + 1], inbits));
    }
    FinalHolds(ret, outbits, acc, num, data, inbits, pad);
    if pad {
      if num > 0 {
        ret := ret + [Shl(acc, outbits - num) % 256];
      }
    } else if num >= inbits || acc != 0 {
      return InvalidPadding(inbits, |data| * inbits % outbits, acc);
    }
    result := Regrouped(ret);
  }

  lemma FinalHolds(ret: seq<nat>, outbits: nat, acc: nat, num: nat, data: seq<nat>, inbits: nat, pad: bool)
    requires num < outbits <= 8 && Symbols(data, inbits)
    requires Holds(ret, outbits, acc, num, Bits(data[..|data|], inbits))
    ensures Regroup(data, inbits, outbits, pad) ==
            if pad then Regrouped(if num > 0 then ret + [Shl(acc, outbits - num) % 256] else ret)
            else if num >= inbits || acc != 0 then InvalidPadding(inbits, |data| * inbits % outbits, acc)
            else Regrouped(ret)
  {
    var bits := Bits(data, inbits);
    assert Chunks(bits, outbits) == ret && Leftover(bits, outbits) == ToBits(acc, num) by {
      assert data[..|data|] == data;
      ChunksUnique(ret, ToBits(acc, num), outbits);
    }
    assert FromBits(ToBits(acc, num)) == acc by { FromToBits(acc, num); }
    assert num > 0 ==> ToBits(acc, num) != [];
    PadFits(acc, num, outbits);
  }

  // ---------------------------------------------------------------------------------------
  // What regrouping keeps
  // ---------------------------------------------------------------------------------------

  lemma {:induction false} ChunksAndLeftover(bits: seq<bool>, w: nat)
    requires w > 0
    ensures Symbols(Chunks(bits, w), w) && Bits(Chunks(bits, w), w) + Leftover(bits, w) == bits
  {
    if |bits| >= w {
      var first, after := bits[..w], bits[w..];
      ChunksAndLeftover(after, w);
      PrependChunk(first, Chunks(after, w), w);
      Reassembled(bits, w, Bits(Chunks(after, w), w), Leftover(after, w));
    } else {
      assert [] + bits == bits;
    }
  }

  lemma Reassembled(bits: seq<bool>, w: nat, chunks: seq<bool>, rest: seq<bool>)
    requires w <= |bits| && chunks + rest == bits[w..]
    ensures (bits[..w] + chunks) + rest == bits
  {
    AppendAssociative(bits[..w], chunks, rest);
  }

  lemma PrependChunk(first: seq<bool>, tail: seq<nat>, w: nat)
    requires |first| == w && Symbols(tail, w)
    ensures var c := [FromBits(first)] + tail; Symbols(c, w) && Bits(c, w) == first + Bits(tail, w)
  {
    var c := [FromBits(first)] + tail;
    BitsCons(c, w);
    assert c[1..] == tail;
    ToFromBits(first);
  }

  /** Padded regrouping always succeeds, and appends fewer than `outbits` zero bits. */
  lemma PaddedKeepsBits(data: seq<nat>, inbits: nat, outbits: nat) returns (zeros: nat)
    requires 0 < outbits <= 8 && Symbols(data, inbits)
    ensures zeros < outbits
    ensures var r := Regroup(data, inbits, outbits, true);
            r.Regrouped? && Symbols(r.symbols, outbits) &&
            Bits(r.symbols, outbits) == Bits(data, inbits) + Zeros(zeros)
  {
    var bits := Bits(data, inbits);
    var whole, rest := Chunks(bits, outbits), Leftover(bits, outbits);
    ChunksAndLeftover(bits, outbits);
    if rest == [] {
      zeros := 0;
      assert bits + Zeros(0) == bits && Bits(whole, outbits) + rest == Bits(whole, outbits);
    } else {
      zeros := outbits - |rest|;
      PadLast(whole, rest, zeros, outbits);
    }
  }

  lemma PadLast(whole: seq<nat>, rest: seq<bool>, zeros: nat, w: nat)
    requires Symbols(whole, w) && |rest| + zeros == w
    ensures var padded := whole + [FromBits(rest + Zeros(zeros))];
            Symbols(padded, w) && Bits(padded, w) == (Bits(whole, w) + rest) + Zeros(zeros)
  {
    var last := rest + Zeros(zeros);
    ToFromBits(last);
    BitsAppend(whole, FromBits(last), w);
    AppendAssociative(Bits(whole, w), rest, Zeros(zeros));
  }

  lemma PaddedAreSymbols(data: seq<nat>, inbits: nat, outbits: nat)
    requires 0 < outbits <= 8 && Symbols(data, inbits)
    ensures var r := Regroup(data, inbits, outbits, true); r.Regrouped? && Symbols(r.symbols, outbits)
  {
    var _ := PaddedKeepsBits(data, inbits, outbits);
  }

  /**
   Unpadded regrouping succeeds exactly when fewer than `inbits` bits are left over and all are
   zero, and then it drops exactly those.
   */
  lemma UnpaddedKeepsBits(data: seq<nat>, inbits: nat, outbits: nat)
    requires outbits > 0 && Symbols(data, inbits)
    ensures var r := Regroup(data, inbits, outbits, false);
            var rest := Leftover(Bits(data, inbits), outbits);
            && (r.Regrouped? <==> |rest| < inbits && rest == Zeros(|rest|))
            && (r.Regrouped? ==>
                  Symbols(r.symbols, outbits) && Bits(r.symbols, outbits) + rest == Bits(data, inbits))
  {
    var rest := Leftover(Bits(data, inbits), outbits);
    ChunksAndLeftover(Bits(data, inbits), outbits);
    ZeroBits(|rest|);
    ToFromBits(rest);
    FromToBits(0, |rest|);
  }

  /** Regrouping to a width that is not larger and back gives the data again. */
  lemma RegroupBack(data: seq<nat>, inbits: nat, outbits: nat)
    requires 0 < outbits <= inbits && outbits <= 8 && Symbols(data, inbits)
    ensures var r := Regroup(data, inbits, outbits, true);
            r.Regrouped? && Symbols(r.symbols, outbits) &&
            Regroup(r.symbols, outbits, inbits, false) == Regrouped(data)
  {
    var zeros := PaddedKeepsBits(data, inbits, outbits);
    var symbols := Regroup(data, inbits, outbits, true).symbols;
    ChunksUnique(data, Zeros(zeros), inbits);
    UnpaddedKeepsBits(symbols, outbits, inbits);
  }

  /** Symbols accepted without padding are the only ones that padded regrouping gives back. */
  lemma RegroupUnique(symbols: seq<nat>, inbits: nat, outbits: nat)
    requires 0 < inbits <= 8 && outbits > 0 && Symbols(symbols, inbits)
    requires Regroup(symbols, inbits, outbits, false).Regrouped?
    ensures var data := Regroup(symbols, inbits, outbits, false).symbols;
            Symbols(data, outbits) && Regroup(data, outbits, inbits, true) == Regrouped(symbols)
  {
    UnpaddedKeepsBits(symbols, inbits, outbits);
    var data := Regroup(symbols, inbits, outbits, false).symbols;
    var rest := Leftover(Bits(symbols, inbits), outbits);
    var zeros := PaddedKeepsBits(data, outbits, inbits);
    var again := Regroup(data, outbits, inbits, true).symbols;
    SameMultiple(|symbols|, |again|, inbits, |rest|, zeros);
    BitsInjective(symbols, again, inbits);
  }

  lemma SameMultiple(a: nat, b: nat, w: nat, x: nat, y: nat)
    requires x < w && y < w && a * w - x == b * w - y
    ensures a == b && x == y
  {
    if a < b {
      MulOrder(w, a + 1, b);
    } else if b < a {
      MulOrder(w, b + 1, a);
    }
  }
}
