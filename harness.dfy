/** The stratified experiment driver `src/test-num-experiment.c`: the
    per-optimisation-level decision rule, the price each condition assigns
    to a synthetic function, and the validation of the condition name on
    the command line.  Prices are reals; `rand()` results are parameters. */
module Harness {
  import opened Threshold

  /** `baseline_thresholds`: the budget at -O0, -O1 and -O2. */
  const BaselineThresholds: seq<int> := [20, 50, 100]
  /** `NUM_OPT_LEVELS`. */
  const NumOptLevels: nat := 3

  /** The price over 100, clamped to [0.1, 5]. */
  function LambdaScale(shadowPrice: real): (s: real)
    ensures 0.1 <= s <= 5.0
    ensures 10.0 <= shadowPrice <= 500.0 ==> s == shadowPrice / 100.0
  {
    var lambda := shadowPrice / 100.0;
    var l1 := if lambda < 0.1 then 0.1 else lambda;
    if l1 > 5.0 then 5.0 else l1
  }

  /** The adjusted threshold at `optLevel`: base times scale, truncated
      (the product is positive, so truncation is `Floor`), clamped to
      [5, 1000]. */
  function ThresholdV2(shadowPrice: real, optLevel: nat): (t: int)
    requires optLevel < NumOptLevels
    ensures 5 <= t <= 1000
  {
    var base := BaselineThresholds[optLevel];
    var adjusted := (base as real * LambdaScale(shadowPrice)).Floor;
    var a1 := if adjusted < 5 then 5 else adjusted;
    if a1 > 1000 then 1000 else a1
  }

  /** `should_inline_with_num_v2` without its log line: inline exactly when
      the function is smaller than the adjusted threshold. */
  function ShouldInlineV2(irCount: int, shadowPrice: real, optLevel: nat): (inlined: bool)
    requires optLevel < NumOptLevels
    ensures inlined <==> irCount < ThresholdV2(shadowPrice, optLevel)
    ensures irCount < 5 ==> inlined
    ensures irCount >= 500 ==> !inlined
  {
    ThresholdV2NeverAtCeiling(shadowPrice, optLevel);
    irCount < ThresholdV2(shadowPrice, optLevel)
  }

  /** The largest product is 100 * 5, so the ceiling of 1000 is never
      reached: every threshold is at most 500. */
  lemma ThresholdV2NeverAtCeiling(shadowPrice: real, optLevel: nat)
    requires optLevel < NumOptLevels
    ensures ThresholdV2(shadowPrice, optLevel) <= 500
  {
    var base := BaselineThresholds[optLevel];
    assert base <= 100;
    FloorMonotone(base as real * LambdaScale(shadowPrice), 500.0);
  }

  /** Between prices 10 and 500 the threshold is `max(5, ⌊base * price / 100⌋)`. */
  lemma ThresholdV2ClosedForm(shadowPrice: real, optLevel: nat)
    requires optLevel < NumOptLevels && 10.0 <= shadowPrice <= 500.0
    ensures var v := (BaselineThresholds[optLevel] as real * shadowPrice / 100.0).Floor;
            ThresholdV2(shadowPrice, optLevel) == if v < 5 then 5 else v
  {
    var base := BaselineThresholds[optLevel] as real;
    assert base * (shadowPrice / 100.0) == base * shadowPrice / 100.0;
    ThresholdV2NeverAtCeiling(shadowPrice, optLevel);
  }

  lemma LambdaScaleMonotone(p: real, q: real)
    requires p <= q
    ensures LambdaScale(p) <= LambdaScale(q)
  {
  }

  /** A higher price never lowers the threshold. */
  lemma ThresholdV2MonotoneInPrice(p: real, q: real, optLevel: nat)
    requires optLevel < NumOptLevels && p <= q
    ensures ThresholdV2(p, optLevel) <= ThresholdV2(q, optLevel)
  {
    var base := BaselineThresholds[optLevel] as real;
    LambdaScaleMonotone(p, q);
    assert base * LambdaScale(p) <= base * LambdaScale(q);
    FloorMonotone(base * LambdaScale(p), base * LambdaScale(q));
  }

  /** A higher optimisation level never lowers the threshold. */
  lemma ThresholdV2MonotoneInLevel(shadowPrice: real, o1: nat, o2: nat)
    requires o1 <= o2 < NumOptLevels
    ensures ThresholdV2(shadowPrice, o1) <= ThresholdV2(shadowPrice, o2)
  {
    var s := LambdaScale(shadowPrice);
    var b1, b2 := BaselineThresholds[o1] as real, BaselineThresholds[o2] as real;
    assert b1 <= b2;
    assert b1 * s <= b2 * s;
    FloorMonotone(b1 * s, b2 * s);
  }

  /** A function inlined at some price is inlined at every higher price, at
      every higher optimisation level, and so is every smaller function. */
  lemma InlineMonotone(irCount: int, smaller: int, p: real, q: real, o1: nat, o2: nat)
    requires o1 <= o2 < NumOptLevels && p <= q && smaller <= irCount
    requires ShouldInlineV2(irCount, p, o1)
    ensures ShouldInlineV2(irCount, q, o1)
    ensures ShouldInlineV2(irCount, p, o2)
    ensures ShouldInlineV2(smaller, q, o2)
  {
    ThresholdV2MonotoneInPrice(p, q, o1);
    ThresholdV2MonotoneInLevel(p, o1, o2);
    ThresholdV2MonotoneInPrice(p, q, o2);
  }

  // ---------------------------------------------------------------------
  // Prices per condition.

  /** A price and the number of `rand()` results it consumed. */
  datatype PriceDraw = PriceDraw(price: real, draws: nat)

  /** `get_shadow_price`.  `rand1` and `rand2` stand for the next two
      `rand()` results (non-negative, as `rand()`'s are); only the perturbed
      condition uses them, one for an even index, both for an odd one.  The
      size index is ignored, as in the source. */
  function GetShadowPrice(condition: string, funcIdx: int, rand1: nat, rand2: nat): (r: PriceDraw)
    ensures r.draws <= 2
    ensures condition != "perturbed" ==> r.draws == 0
  {
    if condition == "baseline" then PriceDraw(100.0, 0)
    else if condition == "uniform" then PriceDraw(100.0, 0)
    else if condition == "skewed" then
      if funcIdx % 2 == 0 then PriceDraw(1000.0, 0) else PriceDraw(10.0, 0)
    else if condition == "perturbed" then
      var noise := (rand1 % 401) as real - 200.0;
      var drawn :=
        if funcIdx % 2 == 0 then PriceDraw(1000.0 + noise, 1)
        else PriceDraw(10.0 + ((rand2 % 11) as real - 5.0), 2);
      var b1 := if drawn.price < 1.0 then 1.0 else drawn.price;
      PriceDraw(if b1 > 2000.0 then 2000.0 else b1, drawn.draws)
    else PriceDraw(100.0, 0)
  }

  /** The deterministic conditions: 100 for baseline and uniform, 1000 for
      even and 10 for odd indices under skewed, 100 for any other name. */
  lemma DeterministicPrices(funcIdx: int, rand1: nat, rand2: nat)
    ensures GetShadowPrice("baseline", funcIdx, rand1, rand2) == PriceDraw(100.0, 0)
    ensures GetShadowPrice("uniform", funcIdx, rand1, rand2) == PriceDraw(100.0, 0)
    ensures GetShadowPrice("skewed", funcIdx, rand1, rand2)
         == PriceDraw(if funcIdx % 2 == 0 then 1000.0 else 10.0, 0)
    ensures forall c :: !IsCondition(c) ==> GetShadowPrice(c, funcIdx, rand1, rand2) == PriceDraw(100.0, 0)
  {
  }

  /** Whatever the noise, a perturbed price lies in [1, 2000]; in fact the
      clamps never act: a hot (even) price lies in [800, 1200], a cold
      (odd) one in [5, 15], so the hot/cold split of skewed is kept. */
  lemma PerturbedBounds(funcIdx: int, rand1: nat, rand2: nat)
    ensures 1.0 <= GetShadowPrice("perturbed", funcIdx, rand1, rand2).price <= 2000.0
    ensures funcIdx % 2 == 0 ==>
      GetShadowPrice("perturbed", funcIdx, rand1, rand2) == PriceDraw(800.0 + (rand1 % 401) as real, 1)
    ensures funcIdx % 2 != 0 ==>
      GetShadowPrice("perturbed", funcIdx, rand1, rand2) == PriceDraw(5.0 + (rand2 % 11) as real, 2)
  {
    assert 0 <= rand1 % 401 <= 400 && 0 <= rand2 % 11 <= 10;
  }

  /** Every perturbed hot price exceeds every perturbed cold price. */
  lemma PerturbedKeepsSplit(hot: int, cold: int, a1: nat, a2: nat, b1: nat, b2: nat)
    requires hot % 2 == 0 && cold % 2 != 0
    ensures GetShadowPrice("perturbed", cold, b1, b2).price < GetShadowPrice("perturbed", hot, a1, a2).price
  {
    PerturbedBounds(hot, a1, a2);
    PerturbedBounds(cold, b1, b2);
  }

  /** The harness's sizes `{10, 50, 100, 200, 500}` under skewed prices: a
      cold function never inlines at any level, and a hot one inlines iff
      it is smaller than five times the level's base (100, 250, 500). */
  lemma SkewedOutcomes(irCount: int, optLevel: nat)
    requires optLevel < NumOptLevels && irCount in [10, 50, 100, 200, 500]
    ensures !ShouldInlineV2(irCount, 10.0, optLevel)
    ensures ShouldInlineV2(irCount, 1000.0, optLevel) <==> irCount < 5 * BaselineThresholds[optLevel]
  {
    assert LambdaScale(10.0) == 0.1;
    assert LambdaScale(1000.0) == 5.0;
    var base := BaselineThresholds[optLevel];
    assert (base as real * 0.1).Floor <= 10 by {
      FloorMonotone(base as real * 0.1, 10.0);
    }
    assert (base as real * 5.0).Floor == 5 * base;
  }

  // ---------------------------------------------------------------------
  // The command line.

  /** The four condition names `main` accepts. */
  predicate IsCondition(c: string) {
    c == "baseline" || c == "uniform" || c == "skewed" || c == "perturbed"
  }

  /** What `main` does with its arguments before any work: print the usage
      and fail, reject an unknown condition and fail, or run with it. */
  datatype Launch = Usage | UnknownCondition(name: string) | Run(condition: string)

  /** The argument check of `main`; `argv[0]` is the program name. */
  function ParseArgs(argv: seq<string>): (r: Launch)
    ensures r == Usage <==> |argv| < 2
    ensures r.Run? <==> |argv| >= 2 && IsCondition(argv[1])
    ensures r.Run? ==> r.condition == argv[1]
    ensures r.UnknownCondition? ==> r.name == argv[1] && !IsCondition(r.name)
  {
    if |argv| < 2 then Usage
    else if argv[1] != "baseline" && argv[1] != "uniform" && argv[1] != "skewed" && argv[1] != "perturbed"
    then UnknownCondition(argv[1])
    else Run(argv[1])
  }

  /** What `run_experiment` returns: 1 when `MIR_init()` fails, 0
      otherwise.  Whether the foreign call succeeds is a parameter. */
  function RunStatus(mirInitOk: bool): (rc: int)
    ensures rc == 0 <==> mirInitOk
    ensures rc == 1 <==> !mirInitOk
  {
    if mirInitOk then 0 else 1
  }

  /** The exit status of `main`: 1 for a launch that stops before any
      work, otherwise the status of the run, passed on unchanged. */
  function ExitCode(l: Launch, mirInitOk: bool): (code: int)
    ensures !l.Run? ==> code == 1
    ensures code == 0 <==> l.Run? && mirInitOk
    ensures code == 0 || code == 1
  {
    if !l.Run? then 1
    else
      var rc := RunStatus(mirInitOk);
      if rc != 0 then rc else 0
  }

  /** Only baseline, uniform, skewed or perturbed reach the run: no
      argument or any other name exits with status 1 whatever happens
      later, and status 0 means one of the four names was given and the
      run went through. */
  lemma AcceptedConditions(argv: seq<string>, mirInitOk: bool)
    ensures |argv| < 2 || !IsCondition(argv[1]) ==> ExitCode(ParseArgs(argv), mirInitOk) == 1
    ensures ExitCode(ParseArgs(argv), mirInitOk) == 0 <==> |argv| >= 2 && IsCondition(argv[1]) && mirInitOk
  {
  }
}
