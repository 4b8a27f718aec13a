/** The enumeration of every phrase that can be made from a table of candidate words. */
module Phrases {
  import opened Powers
  import Text
  import opened Wrappers

  type Table = seq<seq<string>>

  // ---------------------------------------------------------------------------------------
  // Index vectors as numbers
  // ---------------------------------------------------------------------------------------

  /** The number of phrases. */
  function Product(words: Table): nat {
    if words == [] then 1 else Product(words[..|words| - 1]) * |words[|words| - 1]|
  }

  /** The product as it is computed, in 64 bits from the left; nothing when it overflows. */
  function Combinations(words: Table): Option<nat> {
    if words == [] then Some(1)
    else
      var c := Combinations(words[..|words| - 1]);
      if c.None? || c.value * |words[|words| - 1]| >= TWO_64 then None
      else Some(c.value * |words[|words| - 1]|)
  }

  lemma {:induction false} CombinationsIsProduct(words: Table)
    requires Combinations(words).Some?
    ensures Combinations(words).value == Product(words) < TWO_64
  {
    if words != [] {
      CombinationsIsProduct(words[..|words| - 1]);
    }
  }

  ghost predicate IsVector(words: Table, v: seq<nat>) {
    |v| == |words| && forall i | 0 <= i < |v| :: v[i] < |words[i]|
  }

  /** The number with the vector's entries as its digits, the last one the least significant. */
  ghost function Rank(words: Table, v: seq<nat>): nat
    requires IsVector(words, v)
  {
    if words == [] then 0
    else
      var n := |words| - 1;
      Rank(words[..n], v[..n]) * |words[n]| + v[n]
  }

  /** The next vector, and whether there is one; after the last comes the first. */
  function Successor(words: Table, v: seq<nat>): (r: (seq<nat>, bool))
    requires |v| == |words|
    ensures |r.0| == |v|
  {
    if words == [] then ([], false)
    else
      var n := |words| - 1;
      if v[n] + 1 < |words[n]| then (v[..n] + [v[n] + 1], true)
      else
        var (prefix, more) := Successor(words[..n], v[..n]);
        (prefix + [0], more)
  }

  /** One step of the carry: the last of the first `pos` entries goes up, or back to zero with a carry. */
  lemma PrefixSuccessor(words: Table, v: seq<nat>, pos: nat)
    requires 0 < pos <= |words| == |v|
    ensures var r, n := Successor(words[..pos], v[..pos]), pos - 1;
            if v[n] + 1 < |words[n]| then r == (v[..n] + [v[n] + 1], true)
            else r == (Successor(words[..n], v[..n]).0 + [0], Successor(words[..n], v[..n]).1)
  {
    assert words[..pos][..pos - 1] == words[..pos - 1] && v[..pos][..pos - 1] == v[..pos - 1];
  }

  function Zeros(n: nat): (v: seq<nat>)
    ensures |v| == n && forall i | 0 <= i < n :: v[i] == 0
  {
    seq(n, _ => 0)
  }

  lemma SetBefore(v: seq<nat>, pos: nat, k: nat, x: nat)
    requires 0 < pos <= |v|
    ensures var raised := (v[..pos] + Zeros(k))[pos - 1 := x];
            && raised == v[..pos - 1] + [x] + Zeros(k)
            && raised[pos - 1 := 0] == v[..pos - 1] + [0] + Zeros(k)
  {
  }

  lemma ZeroBefore(v: seq<nat>, k: nat)
    ensures v + [0] + Zeros(k) == v + Zeros(k + 1)
  {
  }

  lemma DigitBounds(r: nat, p: nat, m: nat, d: nat)
    requires r < p && d < m
    ensures r * m + d < p * m
  {
    assert (r + 1) * m <= p * m;
  }

  lemma {:induction false} RankBound(words: Table, v: seq<nat>)
    requires IsVector(words, v)
    ensures Rank(words, v) < Product(words)
  {
    if words != [] {
      var n := |words| - 1;
      RankBound(words[..n], v[..n]);
      DigitBounds(Rank(words[..n], v[..n]), Product(words[..n]), |words[n]|, v[n]);
    }
  }

  /** Going to the next vector adds one, and there is no next exactly after the last. */
  lemma {:induction false} SuccessorAddsOne(words: Table, v: seq<nat>)
    requires IsVector(words, v)
    ensures IsVector(words, Successor(words, v).0)
    ensures Successor(words, v).1 <==> Rank(words, v) + 1 < Product(words)
    ensures Rank(words, Successor(words, v).0) == if Successor(words, v).1 then Rank(words, v) + 1 else 0
  {
    RankBound(words, v);
    if words != [] {
      var n := |words| - 1;
      var w := Successor(words, v).0;
      SuccessorAddsOne(words[..n], v[..n]);
      RankBound(words[..n], v[..n]);
      if v[n] + 1 < |words[n]| {
        assert w[..n] == v[..n];
        DigitBounds(Rank(words[..n], v[..n]), Product(words[..n]), |words[n]|, v[n] + 1);
      } else {
        assert w[..n] == Successor(words[..n], v[..n]).0;
        Carry(Rank(words[..n], v[..n]), Product(words[..n]), |words[n]|);
      }
    }
  }

  lemma Carry(r: nat, p: nat, m: nat)
    requires r < p && m > 0
    ensures r * m + m == (r + 1) * m
    ensures r + 1 < p <==> (r + 1) * m < p * m
  {
    if r + 1 < p {
      DigitBounds(r + 1, p, m, 0);
    } else {
      assert r + 1 == p;
    }
  }

  // ---------------------------------------------------------------------------------------
  // Order
  // ---------------------------------------------------------------------------------------

  /** Lexicographic order: smaller at the first difference. */
  ghost predicate Before(v: seq<nat>, w: seq<nat>)
    requires |v| == |w|
  {
    exists k :: 0 <= k < |v| && v[..k] == w[..k] && v[k] < w[k]
  }

  lemma {:induction false} BeforeIsLess(words: Table, v: seq<nat>, w: seq<nat>)
    requires IsVector(words, v) && IsVector(words, w) && Before(v, w)
    ensures Rank(words, v) < Rank(words, w)
  {
    var k :| 0 <= k < |v| && v[..k] == w[..k] && v[k] < w[k];
    var n := |words| - 1;
    if k == n {
      assert v[..n] == w[..n];
    } else {
      assert v[..n][..k] == v[..k] && w[..n][..k] == w[..k];
      BeforeIsLess(words[..n], v[..n], w[..n]);
      DigitBounds(Rank(words[..n], v[..n]), Rank(words[..n], w[..n]), |words[n]|, v[n]);
    }
  }

  lemma {:induction false} Trichotomy(v: seq<nat>, w: seq<nat>)
    requires |v| == |w|
    ensures v == w || Before(v, w) || Before(w, v)
  {
    if v != [] {
      var n := |v| - 1;
      Trichotomy(v[..n], w[..n]);
      if v[..n] == w[..n] {
        assert v == v[..n] + [v[n]] && w == w[..n] + [w[n]];
      } else if Before(v[..n], w[..n]) {
        var k :| 0 <= k < n && v[..n][..k] == w[..n][..k] && v[..n][k] < w[..n][k];
        assert v[..k] == v[..n][..k] && w[..k] == w[..n][..k];
      } else {
        var k :| 0 <= k < n && w[..n][..k] == v[..n][..k] && w[..n][k] < v[..n][k];
        assert v[..k] == v[..n][..k] && w[..k] == w[..n][..k];
      }
    }
  }

  /** Rank is the position in lexicographic order. */
  lemma RankOrder(words: Table, v: seq<nat>, w: seq<nat>)
    requires IsVector(words, v) && IsVector(words, w)
    ensures Rank(words, v) < Rank(words, w) <==> Before(v, w)
    ensures Rank(words, v) == Rank(words, w) <==> v == w
  {
    Trichotomy(v, w);
    if Before(v, w) {
      BeforeIsLess(words, v, w);
    }
    if Before(w, v) {
      BeforeIsLess(words, w, v);
    }
  }

  // ---------------------------------------------------------------------------------------
  // The iterator
  // ---------------------------------------------------------------------------------------

  /** The chosen words with a space between them. */
  function Phrase(words: Table, v: seq<nat>): string
    requires |v| == |words| > 0 && forall i | 0 <= i < |v| :: v[i] < |words[i]|
  {
    var n := |words| - 1;
    if n == 0 then words[0][v[0]]
    else Phrase(words[..n], v[..n]) + " " + words[n][v[n]]
  }

  /** Words without spaces can be told from the phrase: split at its spaces, it is the words chosen, in order. */
  lemma {:induction false} PhraseSplits(words: Table, v: seq<nat>)
    requires |v| == |words| > 0 && forall i | 0 <= i < |v| :: v[i] < |words[i]| && ' ' !in words[i][v[i]]
    ensures var pieces := Text.Split(Phrase(words, v), ' ');
            |pieces| == |words| && forall i | 0 <= i < |words| :: pieces[i] == words[i][v[i]]
  {
    var n := |words| - 1;
    if n == 0 {
      Text.SplitWhole(words[0][v[0]], ' ');
    } else {
      PhraseSplits(words[..n], v[..n]);
      Text.SplitLast(Phrase(words[..n], v[..n]), words[n][v[n]], ' ');
    }
  }

  datatype State = State(indexes: seq<nat>, hasNext: bool)

  ghost predicate StateOk(words: Table, s: State) {
    |s.indexes| == |words| && (s.hasNext ==> IsVector(words, s.indexes))
  }

  ghost function Initial(words: Table): State {
    State(Zeros(|words|), Product(words) > 0)
  }

  ghost function NextState(words: Table, s: State): State
    requires |s.indexes| == |words|
  {
    if !s.hasNext then s
    else
      var (next, more) := Successor(words, s.indexes);
      State(next, more)
  }

  ghost function Yielded(words: Table, s: State): Option<string>
    requires words != [] && StateOk(words, s)
  {
    if s.hasNext then Some(Phrase(words, s.indexes)) else None
  }

  /** The state after `calls` calls of `next`. */
  ghost function After(words: Table, calls: nat): (s: State)
    ensures |s.indexes| == |words|
  {
    if calls == 0 then Initial(words) else NextState(words, After(words, calls - 1))
  }

  lemma {:induction false} ProductPositive(words: Table)
    ensures Product(words) > 0 <==> forall i | 0 <= i < |words| :: words[i] != []
  {
    if words != [] {
      var n := |words| - 1;
      ProductPositive(words[..n]);
      assert forall i | 0 <= i < n :: words[..n][i] == words[i];
      if Product(words) > 0 {
        forall i | 0 <= i < |words|
          ensures words[i] != []
        {
          assert i < n ==> words[..n][i] == words[i];
        }
      }
    }
  }

  lemma {:induction false} RankOfZeros(words: Table)
    requires forall i | 0 <= i < |words| :: words[i] != []
    ensures Rank(words, Zeros(|words|)) == 0
  {
    if words != [] {
      var n := |words| - 1;
      assert Zeros(|words|)[..n] == Zeros(n);
      RankOfZeros(words[..n]);
    }
  }

  /** Call number `k`, from zero, yields the vector of rank `k`; there are as many as the product. */
  lemma {:induction false} CallYieldsRank(words: Table, k: nat)
    ensures var s := After(words, k);
            && s.hasNext == (k < Product(words))
            && (s.hasNext ==> IsVector(words, s.indexes) && Rank(words, s.indexes) == k)
  {
    if k == 0 {
      ProductPositive(words);
      if Product(words) > 0 {
        RankOfZeros(words);
      }
    } else {
      CallYieldsRank(words, k - 1);
      var s := After(words, k - 1);
      if s.hasNext {
        SuccessorAddsOne(words, s.indexes);
      }
    }
  }

  /**
   Every vector is visited exactly once, at the call of its rank; the visits are in lexicographic
   order; and from call number `Product` on nothing is yielded.
   */
  lemma VisitsEachOnce(words: Table, v: seq<nat>, calls: nat)
    requires IsVector(words, v)
    ensures After(words, calls).hasNext && After(words, calls).indexes == v <==> calls == Rank(words, v)
    ensures After(words, calls).hasNext ==> (Before(After(words, calls).indexes, v) <==> calls < Rank(words, v))
    ensures calls >= Product(words) ==> !After(words, calls).hasNext
  {
    CallYieldsRank(words, calls);
    RankBound(words, v);
    if After(words, calls).hasNext {
      RankOrder(words, After(words, calls).indexes, v);
    }
  }

  class PhrasesIterator {
    const words: Table
    const combinations: nat
    var indexes: seq<nat>
    var hasNext: bool

    ghost function View(): State
      reads this
    {
      State(indexes, hasNext)
    }

    /** Any table whose product, taken from the left, stays within 64 bits. */
    constructor (words: Table)
      requires Combinations(words).Some?
      ensures this.words == words && combinations == Product(words)
      ensures View() == Initial(words)
    {
      CombinationsIsProduct(words);
      this.words := words;
      var product := 1;
      for k := 0 to |words|
        invariant Combinations(words[..k]) == Some(product)
      {
        assert words[..k + 1][..k] == words[..k];
        CombinationsPrefix(words, k + 1);
        product := product * |words[k]|;
      }
      assert words[..|words|] == words;
      combinations := product;
      indexes := seq(|words|, _ => 0);
      hasNext := product > 0;
    }

    method Current() returns (s: string)
      requires words != [] && IsVector(words, indexes)
      ensures s == Phrase(words, indexes)
    {
      s := words[0][indexes[0]];
      for i := 1 to |indexes|
        invariant s == Phrase(words[..i], indexes[..i])
      {
        assert words[..i + 1][..i] == words[..i] && indexes[..i + 1][..i] == indexes[..i];
        s := s + " ";
        s := s + words[i][indexes[i]];
      }
      assert words[..|words|] == words && indexes[..|words|] == indexes;
    }

    method NextIndex() returns (more: bool)
      requires |indexes| == |words|
      modifies this`indexes
      ensures (indexes, more) == Successor(words, old(indexes))
    {
      var pos := |indexes|;
      assert words[..pos] == words && indexes[..pos] == indexes;
      while pos > 0
        invariant 0 <= pos <= |indexes| == |words|
        invariant indexes == old(indexes)[..pos] + Zeros(|words| - pos)
        invariant var r := Successor(words[..pos], old(indexes)[..pos]);
                  && Successor(words, old(indexes)).0 == r.0 + Zeros(|words| - pos)
                  && Successor(words, old(indexes)).1 == r.1
      {
        PrefixSuccessor(words, old(indexes), pos);
        SetBefore(old(indexes), pos, |words| - pos, old(indexes)[pos - 1] + 1);
        ZeroBefore(old(indexes)[..pos - 1], |words| - pos);
        ZeroBefore(Successor(words[..pos - 1], old(indexes)[..pos - 1]).0, |words| - pos);
        pos := pos - 1;
        indexes := indexes[pos := indexes[pos] + 1];
        if indexes[pos] >= |words[pos]| {
          indexes := indexes[pos := 0];
        } else {
          return true;
        }
      }
      return false;
    }

    method Next() returns (phrase: Option<string>)
      requires words != [] && StateOk(words, View())
      modifies this`indexes, this`hasNext
      ensures phrase == Yielded(words, old(View()))
      ensures View() == NextState(words, old(View())) && StateOk(words, View())
    {
      if !hasNext {
        return None;
      }
      var current := Current();
      SuccessorAddsOne(words, indexes);
      hasNext := NextIndex();
      return Some(current);
    }
  }

  lemma {:induction false} CombinationsPrefix(words: Table, k: nat)
    requires k <= |words| && Combinations(words).Some?
    ensures Combinations(words[..k]).Some?
  {
    if k == |words| {
      assert words[..k] == words;
    } else {
      CombinationsPrefix(words[..|words| - 1], k);
      assert words[..|words| - 1][..k] == words[..k];
    }
  }
}
