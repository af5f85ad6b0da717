/** Numeric helper of the joystick-to-MIDI bridge: linear interpolation. */
module Util {

  /** Linear interpolation from `left` to `right`, computed as
      `amount * (right - left) + left`. It does not clamp: with distinct end
      points, an `amount` outside [0, 1] lands outside the interval between
      them. */
  function Lerp(left: real, right: real, amount: real): (r: real)
    ensures amount == 0.0 ==> r == left
    ensures amount == 1.0 ==> r == right
  {
    amount * (right - left) + left
  }

  /** Lerp is affine in `amount`: moving the amount by `d` moves the
      result by `d` times the width of the interval. */
  lemma LerpAffine(left: real, right: real, amount: real, d: real)
    ensures Lerp(left, right, amount + d) == Lerp(left, right, amount) + d * (right - left)
  {
  }

  /** With ordered end points, Lerp is non-decreasing in `amount`. */
  lemma LerpMonotone(left: real, right: real, a: real, b: real)
    requires left <= right && a <= b
    ensures Lerp(left, right, a) <= Lerp(left, right, b)
  {
    LerpAffine(left, right, a, b - a);
    assert (b - a) * (right - left) >= 0.0;
  }

  /** For an amount in [0, 1] and ordered end points the result lies
      between the end points. */
  lemma LerpWithin(left: real, right: real, amount: real)
    requires left <= right && 0.0 <= amount <= 1.0
    ensures left <= Lerp(left, right, amount) <= right
  {
    LerpMonotone(left, right, 0.0, amount);
    LerpMonotone(left, right, amount, 1.0);
  }

  /** There is no clamping inside Lerp: with distinct ordered end points
      a negative amount lands below `left` ... */
  lemma LerpUnclampedBelow(left: real, right: real, amount: real)
    requires left < right && amount < 0.0
    ensures Lerp(left, right, amount) < left
  {
    var w := right - left;
    var p := amount * w;
    assert p < 0.0;
    assert Lerp(left, right, amount) == p + left;
  }

  /** ... and an amount above 1 lands above `right`. */
  lemma LerpUnclampedAbove(left: real, right: real, amount: real)
    requires left < right && amount > 1.0
    ensures Lerp(left, right, amount) > right
  {
    var d, w := amount - 1.0, right - left;
    var p := d * w;
    assert p > 0.0;
    assert Lerp(left, right, amount) == p + right;
  }

  /** The pitch-wheel end points used by the axis-0 mapping. */
  lemma LerpPitchEnds()
    ensures Lerp(0.0, 8192.0, -1.0) == -8192.0
    ensures Lerp(0.0, 8192.0, 1.0) == 8192.0
    ensures Lerp(0.0, 127.0, 0.0) == 0.0
  {
  }
}
