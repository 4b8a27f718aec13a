/** The loop of `power_two_fractional`. */
module PowerTwo {
  import opened Powers
  import opened FixedPoint
  import opened FractionalPower
  import opened OverflowThreshold

  /** The body of the loop: shift by one bit of the ratio, take the root, scale back. */
  method Round(ratio: nat, increase: bool, i: nat, base: nat) returns (next: Checked)
    requires base == BaseAfter(ratio, increase, i)
    ensures next.Overflow? <==> increase && Overflows(ratio, i)
    ensures next.Value? ==> next.value == BaseAfter(ratio, increase, i + 1)
  {
    BaseInRange(ratio, increase, i);
    var input := Shifted(base, Bit(ratio, i), increase);
    var root, _ := SqrtU256(input);
    if root.Overflow? {
      return Overflow;
    }
    FloorSqrtUnique(input, root.value);
    next := Value(root.value * TWO_127);
  }

  /**
   `power_two_fractional`: with `precision` fractional bits, an approximation from below of
   2^(ratio / 2^64), or of its inverse when not increasing. Going down never overflows. Going up
   overflows exactly on the ratios that come near the top under some left shift.
   */
  method PowerTwoFractional(ratio: nat, increase: bool, precision: nat) returns (result: Checked)
    requires ratio < TWO_64 && precision <= 127
    ensures result.Overflow? <==> increase && NearTop(ratio)
    ensures result.Value? ==> Approximates(result.value, ratio, increase, precision)
  {
    var base := TWO_254;
    for i := 0 to 64
      invariant base == BaseAfter(ratio, increase, i)
      invariant increase ==> forall k: nat | k < i :: !Overflows(ratio, k)
    {
      var next := Round(ratio, increase, i, base);
      if next.Overflow? {
        OverflowAt(ratio, i);
        return Overflow;
      }
      base := next.value;
    }
    NeverNearTop(ratio);
    var shifted := Shr(base, 254 - precision);
    FinalShift(ratio, increase, precision, 64, base, shifted);
    result := Value(shifted);
  }

  lemma OverflowAt(ratio: nat, k: nat)
    requires k < 64 && Overflows(ratio, k)
    ensures NearTop(ratio)
  {
    OverflowsIff(ratio, k);
  }

  lemma NeverNearTop(ratio: nat)
    ensures (forall k: nat | k < 64 :: !Overflows(ratio, k)) ==> !NearTop(ratio)
  {
    if NearTop(ratio) {
      var s: nat :| s < 64 && ShiftedLeft(ratio, s) >= TWO_64 - SLACK;
      OverflowsIff(ratio, 63 - s);
    }
  }

  /** The largest ratio is one of them, so going up is not total. */
  lemma AllOnesIsNearTop()
    ensures NearTop(TWO_64 - 1)
  {
    SmallPowers();
    LowBitsSmall(TWO_64 - 1, 64);
    assert ShiftedLeft(TWO_64 - 1, 0) >= TWO_64 - SLACK;
  }
}
