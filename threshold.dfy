/** The shadow-price threshold formula `compute_adjusted_threshold`: a
    normalised price becomes a scale factor in [0.1, 5.0], and the scale
    times MIR's call-inlining threshold of 50 becomes an instruction budget
    in [5, 200].  Prices are reals; the source's doubles are not modelled. */
module Threshold {

  /** `MIR_CALL_INLINE_THRESHOLD`, the base the scale multiplies. */
  const CallInlineThreshold: int := 50
  /** `MIR_INLINE_THRESHOLD`, the ceiling of the adjusted threshold. */
  const InlineThreshold: int := 200
  const ScaleFloor: real := 0.1
  const ScaleCeil: real := 5.0
  const ThresholdFloor: int := 5

  /** The price the formula works on: `1 - price` for the inverted control. */
  function Lambda(shadowPrice: real, inverted: bool): real {
    if inverted then 1.0 - shadowPrice else shadowPrice
  }

  /** The scale factor: a linear map of the price onto [0.1, 5.0], clamped
      at both ends. */
  function ScaleFactor(shadowPrice: real, inverted: bool): (s: real)
    ensures ScaleFloor <= s <= ScaleCeil
  {
    var lambda := Lambda(shadowPrice, inverted);
    var s0 := ScaleFloor + lambda * (ScaleCeil - ScaleFloor);
    var s1 := if s0 < ScaleFloor then ScaleFloor else s0;
    if s1 > ScaleCeil then ScaleCeil else s1
  }

  /** `compute_adjusted_threshold`.  The C cast `(int)` truncates toward
      zero; the product is at least 5, so truncation is `Floor` here. */
  function AdjustedThreshold(shadowPrice: real, inverted: bool): (t: int)
    ensures ThresholdFloor <= t <= InlineThreshold
  {
    var adjusted := (CallInlineThreshold as real * ScaleFactor(shadowPrice, inverted)).Floor;
    var floored := if adjusted < ThresholdFloor then ThresholdFloor else adjusted;
    if floored > InlineThreshold then InlineThreshold else floored
  }

  /** Closed form of the uninverted formula on [0, 1]: `min(200, ⌊5 + 245p⌋)`. */
  lemma ThresholdClosedForm(p: real)
    requires 0.0 <= p <= 1.0
    ensures var v := (5.0 + 245.0 * p).Floor;
            AdjustedThreshold(p, false) == if v > InlineThreshold then InlineThreshold else v
  {
    assert ScaleFactor(p, false) == 0.1 + p * 4.9;
    assert 50.0 * (0.1 + p * 4.9) == 5.0 + 245.0 * p;
    assert (5.0 + 245.0 * p).Floor >= 5;
  }

  /** The end points: the hottest callee gets 250 clamped to 200, the
      coldest 5; the inverted control swaps them. */
  lemma ThresholdEndPoints()
    ensures AdjustedThreshold(1.0, false) == 200
    ensures AdjustedThreshold(0.0, false) == 5
    ensures AdjustedThreshold(1.0, true) == 5
    ensures AdjustedThreshold(0.0, true) == 200
  {
    assert ScaleFactor(1.0, false) == 5.0;
    assert ScaleFactor(0.0, false) == 0.1;
    assert ScaleFactor(1.0, true) == 0.1;
    assert ScaleFactor(0.0, true) == 5.0;
  }

  /** The inverted control is the uninverted formula applied to `1 - p`. */
  lemma ThresholdInverted(p: real)
    ensures AdjustedThreshold(p, true) == AdjustedThreshold(1.0 - p, false)
  {
  }

  lemma ScaleMonotone(p: real, q: real)
    requires p <= q
    ensures ScaleFactor(p, false) <= ScaleFactor(q, false)
  {
  }

  lemma FloorMonotone(x: real, y: real)
    requires x <= y
    ensures x.Floor <= y.Floor
  {
  }

  /** Hotter callees never get a smaller budget; under the inverted control
      they never get a larger one. */
  lemma ThresholdMonotone(p: real, q: real)
    requires p <= q
    ensures AdjustedThreshold(p, false) <= AdjustedThreshold(q, false)
    ensures AdjustedThreshold(q, true) <= AdjustedThreshold(p, true)
  {
    ScaleMonotone(p, q);
    FloorMonotone(50.0 * ScaleFactor(p, false), 50.0 * ScaleFactor(q, false));
    ScaleMonotone(1.0 - q, 1.0 - p);
    FloorMonotone(50.0 * ScaleFactor(1.0 - q, false), 50.0 * ScaleFactor(1.0 - p, false));
  }

  /** The budget saturates at 200 from price 39/49 on, and is 5 for every
      non-positive price. */
  lemma ThresholdSaturation(p: real)
    ensures p >= 39.0 / 49.0 ==> AdjustedThreshold(p, false) == 200
    ensures p <= 0.0 ==> AdjustedThreshold(p, false) == 5
  {
    if p >= 39.0 / 49.0 {
      assert ScaleFactor(p, false) >= 4.0;
    }
  }
}
