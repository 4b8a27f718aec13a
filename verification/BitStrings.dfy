/** Bit strings, most significant bit first, and sequences of fixed-width symbols read as bit strings. */
module BitStrings {
  import opened Powers

  /** The `n` bits of `v`. */
  function ToBits(v: nat, n: nat): (b: seq<bool>)
    requires v < Pow2(n)
    ensures |b| == n
  {
    if n == 0 then [] else ToBits(v / 2, n - 1) + [v % 2 == 1]
  }

  /** The number a bit string stands for. */
  function FromBits(b: seq<bool>): (v: nat)
    ensures v < Pow2(|b|)
  {
    if b == [] then 0
    else 2 * FromBits(b[..|b| - 1]) + (if b[|b| - 1] then 1 else 0)
  }

  lemma {:induction false} FromToBits(v: nat, n: nat)
    requires v < Pow2(n)
    ensures FromBits(ToBits(v, n)) == v
  {
    if n != 0 {
      FromToBits(v / 2, n - 1);
      assert ToBits(v, n)[..n - 1] == ToBits(v / 2, n - 1);
    }
  }

  lemma {:induction false} ToFromBits(b: seq<bool>)
    ensures ToBits(FromBits(b), |b|) == b
  {
    if b != [] {
      ToFromBits(b[..|b| - 1]);
      assert b == b[..|b| - 1] + [b[|b| - 1]];
    }
  }

  /** Shifting `hi` left by `m` and filling in `lo` concatenates their bits. */
  lemma {:induction false} ToBitsConcat(hi: nat, n: nat, lo: nat, m: nat)
    requires hi < Pow2(n) && lo < Pow2(m)
    ensures Shl(hi, m) + lo < Pow2(n + m)
    ensures ToBits(Shl(hi, m) + lo, n + m) == ToBits(hi, n) + ToBits(lo, m)
  {
    if m == 0 {
      assert ToBits(hi, n) + [] == ToBits(hi, n);
    } else {
      ToBitsConcat(hi, n, lo / 2, m - 1);
      assert (Shl(hi, m) + lo) / 2 == Shl(hi, m - 1) + lo / 2;
      assert ToBits(hi, n) + ToBits(lo, m) == (ToBits(hi, n) + ToBits(lo / 2, m - 1)) + [lo % 2 == 1];
    }
  }

  /** Keeping only some of the bits from `k` up never gives more than the number itself. */
  lemma {:induction false} ShlShr(v: nat, u: nat, k: nat)
    requires u <= Shr(v, k)
    ensures Shl(u, k) <= v
    decreases k
  {
    if k != 0 {
      ShlShr(v / 2, u, k - 1);
    }
  }

  /** Counted from the right, bit `j` of a number. */
  lemma {:induction false} ToBitsAt(v: nat, n: nat, j: nat)
    requires v < Pow2(n) && j < n
    ensures ToBits(v, n)[n - 1 - j] == (Shr(v, j) % 2 == 1)
  {
    if j != 0 {
      ToBitsAt(v / 2, n - 1, j - 1);
    }
  }

  /** A string of `n` zero bits. */
  function Zeros(n: nat): (z: seq<bool>)
    ensures |z| == n
  {
    seq(n, _ => false)
  }

  lemma {:induction false} ZeroBits(n: nat)
    ensures Pow2(n) > 0 && ToBits(0, n) == Zeros(n)
  {
    if n != 0 {
      ZeroBits(n - 1);
    }
  }

  /** Every symbol fits in `w` bits. */
  predicate Symbols(data: seq<nat>, w: nat) {
    forall i | 0 <= i < |data| :: data[i] < Pow2(w)
  }

  /** The bit string of a symbol sequence. */
  function Bits(data: seq<nat>, w: nat): (b: seq<bool>)
    requires Symbols(data, w)
    ensures |b| == |data| * w
  {
    if data == [] then [] else Bits(data[..|data| - 1], w) + ToBits(data[|data| - 1], w)
  }

  lemma BitsAppend(data: seq<nat>, d: nat, w: nat)
    requires Symbols(data, w) && d < Pow2(w)
    ensures Symbols(data + [d], w) && Bits(data + [d], w) == Bits(data, w) + ToBits(d, w)
  {
  }

  lemma AppendInjective<T>(a: seq<T>, b: seq<T>, c: seq<T>, d: seq<T>)
    requires a + b == c + d && |a| == |c|
    ensures a == c && b == d
  {
    assert a == (a + b)[..|a|] && c == (c + d)[..|a|];
    assert b == (a + b)[|a|..] && d == (c + d)[|a|..];
  }

  /** Symbol sequences of one length are determined by their bits. */
  lemma {:induction false} BitsInjective(a: seq<nat>, b: seq<nat>, w: nat)
    requires Symbols(a, w) && Symbols(b, w) && |a| == |b| && Bits(a, w) == Bits(b, w)
    ensures a == b
  {
    if a != [] {
      var n := |a| - 1;
      AppendInjective(Bits(a[..n], w), ToBits(a[n], w), Bits(b[..n], w), ToBits(b[n], w));
      BitsInjective(a[..n], b[..n], w);
      FromToBits(a[n], w);
      FromToBits(b[n], w);
      assert a == a[..n] + [a[n]] && b == b[..n] + [b[n]];
    }
  }
}
