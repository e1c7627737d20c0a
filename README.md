# Shadow-price inlining experiment: a verified model of its decision engine

The experiment decides which call sites of a MIR module to promote from
`MIR_CALL` to `MIR_INLINE` before the module is linked. There are three
steps:

- A profile table holds a call count per callee name. Normalisation turns
  the counts into shadow prices in [0, 1] by dividing each by the largest.
  The code defines a static profiling pass, `profile_module`
  (phase-2-poc/num_experiment.c:181-213), which counts each callee's call
  sites. `main` never calls that pass. It fills the table by hand instead:
  1000 increments for each of `f_hot1` to `f_hot4`, 100 for each of
  `f_warm1` and `f_warm2`, and 1 for each of `f_cold1` and `f_cold2`
  (lines 1482-1489). It then normalises the table (line 1491). The model
  covers the table operations that `main` uses. It also covers the
  profiling pass as the code defines it.
- A mutation pass walks the module's calls in order and promotes
  some of them under one of five experimental conditions:
  - never inline;
  - inline everything;
  - an XorShift32 coin;
  - a price-guided budget;
  - the inverted price-guided control.

  A bounded inline chain stops any callee name from being promoted twice
  while fewer than 64 names are on it.
- A separate stratified driver applies a per-optimisation-level rule
  (`price / 100` as a scale on a base budget of 20, 50 or 100
  instructions). It assigns prices per condition and accepts four
  condition names on its command line.

The Dafny modules follow that structure:

| module | file | contents |
|---|---|---|
| `Wrappers` | wrappers.dfy | `Option` |
| `Profile` | profile.dfy | the profile table as a value (`seq<ProfileEntry>`) and as the class `ProfileMap` over a 256-row array that `Increment` and `Normalize` update in place |
| `Threshold` | threshold.dfy | `compute_adjusted_threshold` |
| `Chain` | chain.dfy | the class `InlineChain` over a 64-slot array |
| `Ir` | ir.dfy | functions, instructions, callee references, the class `Module` whose `funcs` field the pass rewrites, and `count_func_insns` |
| `Mutation` | mutation.dfy | the mutation pass |
| `Profiling` | profiling.dfy | `profile_module` |
| `Harness` | harness.dfy | the decision rule, prices and argument check of `src/test-num-experiment.c` |

The mutation pass is specified as a function, `Mutation.Mutate`:

- It is a fold over the functions and then over their instructions, in the
  source's loop order.
- The in-place method `Mutation.MutateModule` is proved to leave the
  module, the count and the random state exactly as `Mutate` says.
- The lemmas about `Mutate` state what the pass guarantees.

`profile_module` is treated the same way. `Profiling.CallSiteNames` is the
sequence of names the pass records, and `Profiling.ProfileModule` is proved
to leave the table equal to `Normalized(IncrementAll(old table, CallSiteNames))`.

Modelling choices:

- Prices are `real`.
- C's truncating `(int)` cast is `Floor`: every product it is applied to
  is positive.
- The random state is a `bv32`, so XorShift keeps its 32-bit wrap-around.

## Model

| member | source | states |
|---|---|---|
| Profile.Lookup | phase-2-poc/num_experiment.c:90-96 | the result is the first row whose name equals the argument; it is `None` exactly when no row has that name |
| Profile.ProfileMap.Get | phase-2-poc/num_experiment.c:90-96 | on the live table: the index of a row in use with that name, or `None` exactly when no row in use has it |
| Profile.PriceOf | phase-2-poc/num_experiment.c:370-372 | the price the mutation pass reads: within [0, 1] on a well-formed table; 0.0 for a name that has no row |
| Profile.IncrementExisting | phase-2-poc/num_experiment.c:98-101 | incrementing a name that is present raises its row's count by exactly 1; every other row and the number of rows stay the same |
| Profile.IncrementNew | phase-2-poc/num_experiment.c:102-107 | incrementing an unseen name when there is room appends `(name, 1, 0.0)`; the name is then found at the new last index with count 1 |
| Profile.IncrementFull | phase-2-poc/num_experiment.c:102-107 | with all 256 rows taken, an unseen name is dropped: the table stays the same and the name's count stays 0 |
| Profile.IncrementWellFormed | phase-2-poc/num_experiment.c:98-108 | incrementing keeps names unique, counts at least 1, prices in [0, 1] and at most 256 rows; the table grows by at most one row |
| Profile.CountOf | phase-2-poc/num_experiment.c:90-96 | a name's count: the `calls` of its row, or 0 when it has none; the increment lemmas below state how it changes |
| Profile.Incremented | phase-2-poc/num_experiment.c:98-108 | `profile_map_increment` on the rows: bump the row, append a row, or drop the name when all 256 rows are taken; `IncrementExisting`, `IncrementNew`, `IncrementFull`, `IncrementWellFormed` and `IncrementedCountOf` state its properties |
| Profile.IncrementedCountOf | phase-2-poc/num_experiment.c:98-108 | when the name has a row or there is room for one (so also on the increment that fills row 256), one increment adds 1 to that name's count and leaves every other name's count unchanged |
| Profile.IncrementedRows | phase-2-poc/num_experiment.c:98-108 | an increment never removes a name's row, adds a row for no name other than its own, and leaves the name without a row only when all 256 rows were taken and the table is unchanged |
| Profile.IncrementAll | phase-2-poc/num_experiment.c:98-108 | repeated `profile_map_increment`, in order; `IncrementAllCounts`, `DroppedMeansFull`, `RecordedBelowCapacity`, `AtMost256Recorded`, `IncrementAllUnpriced` and `BeforeNormalisation` state its properties |
| Profile.DroppedMeansFull | phase-2-poc/num_experiment.c:102-107 | if some incremented name ends without a row, the table ended with all 256 rows taken |
| Profile.RecordedBelowCapacity | phase-2-poc/num_experiment.c:102-107 | if the table ends with fewer than 256 rows, every incremented name has a row |
| Profile.RowNamesFromIncrements | phase-2-poc/num_experiment.c:98-108 | starting from an empty table, every row belongs to a name that was incremented |
| Profile.RowNamesCount | phase-2-poc/num_experiment.c:90-107 | because a name gets a row only when the lookup misses, a well-formed table has as many distinct names as rows |
| Profile.ExactProfile | phase-2-poc/num_experiment.c:98-124 | starting from an empty table, when no incremented name is dropped, each name's count before and after normalisation is its number of occurrences, and the normalised table is well-formed |
| Profile.AtMost256Recorded | phase-2-poc/num_experiment.c:98-108 | starting from an empty table, when at most 256 distinct names are incremented, none is dropped: every one ends with a row |
| Profile.Unpriced | phase-2-poc/num_experiment.c:74-78 | no row has been priced: every `shadow_price` is still 0.0, as it is until normalisation runs |
| Profile.IncrementedUnpriced | phase-2-poc/num_experiment.c:98-108 | an increment never sets a price: a bumped row keeps its price and a new row gets 0.0 (line 105), so an unpriced table stays unpriced |
| Profile.IncrementAllUnpriced | phase-2-poc/num_experiment.c:98-108 | any sequence of increments keeps an unpriced table unpriced |
| Profile.BeforeNormalisation | phase-2-poc/num_experiment.c:77-108 | starting from an empty table, before normalisation every row's price is 0.0, so the price read for any name, recorded or not, is 0.0 |
| Profile.IncrementAllCounts | phase-2-poc/num_experiment.c:98-108 | when every incremented name ends with a row (none was dropped; this includes a run that fills exactly 256 rows), each name's count rises by its number of occurrences in the sequence |
| Profile.ProfileMap.constructor | phase-2-poc/num_experiment.c:86-88 | a fresh table: no rows in use, `max_count` 0 |
| Profile.ProfileMap.Increment | phase-2-poc/num_experiment.c:98-108 | the rows in use become `Incremented` of the old rows (bump, append or drop); the table stays well-formed; `max_count` is unchanged |
| Profile.MaxCount | phase-2-poc/num_experiment.c:112-116 | the result is at least every row's count; it is some row's count when there are rows, and 0 when there are none |
| Profile.ProfileMap.LargestCount | phase-2-poc/num_experiment.c:112-116 | the first loop of normalisation returns the largest count in use; the result is positive exactly when some row is in use |
| Profile.ProfileMap.DividePrices | phase-2-poc/num_experiment.c:118-123 | the second loop sets every price in use to `calls / max_count`, so the rows become the normalised table |
| Profile.ProfileMap.Normalize | phase-2-poc/num_experiment.c:110-124 | the rows become `Normalized` of the old rows and stay well-formed; `max_count` becomes the largest count |
| Profile.Normalized | phase-2-poc/num_experiment.c:110-124 | `profile_map_normalize` on the rows: every price becomes `calls / max`, or nothing changes when the largest count is 0; `NormalizedPrices`, `NormalizedEmpty`, `NormalizedWellFormed`, `NormalizedKeepsCounts` and `NormalizedIdempotent` state its properties |
| Profile.NormalizedPrices | phase-2-poc/num_experiment.c:110-124 | on a non-empty table, normalisation keeps names and counts, sets every price to `count / max` within [0, 1], and gives every row with the maximal count price exactly 1 |
| Profile.NormalizedEmpty | phase-2-poc/num_experiment.c:118-123 | with no rows, normalisation changes nothing |
| Profile.NormalizedWellFormed | phase-2-poc/num_experiment.c:110-124 | normalisation keeps the table well-formed and its length |
| Profile.NormalizedKeepsCounts | phase-2-poc/num_experiment.c:119-122 | after normalisation, every name's recorded count is unchanged |
| Profile.NormalizedIdempotent | phase-2-poc/num_experiment.c:110-124 | normalising twice gives the same table as normalising once |
| Threshold.Lambda | phase-2-poc/num_experiment.c:261-265 | the price after the inversion flag is applied: `1 − p` for the inverted control, otherwise `p`; `ThresholdInverted` states what the flag does to the budget |
| Threshold.ScaleFactor | phase-2-poc/num_experiment.c:267-271 | the scale factor lies in [0.1, 5.0] for every price |
| Threshold.AdjustedThreshold | phase-2-poc/num_experiment.c:260-278 | for every price and either inversion flag, the threshold lies in [5, 200] |
| Threshold.ThresholdClosedForm | phase-2-poc/num_experiment.c:267-275 | for prices in [0, 1], the uninverted threshold is `min(200, ⌊5 + 245·p⌋)` |
| Threshold.ThresholdEndPoints | phase-2-poc/num_experiment.c:260-278 | price 1.0 gives 200 (250 clamped) and price 0.0 gives 5; the inverted control swaps the two |
| Threshold.ThresholdInverted | phase-2-poc/num_experiment.c:261-265 | `threshold(p, inverted) == threshold(1 − p, not inverted)` |
| Threshold.ThresholdMonotone | phase-2-poc/num_experiment.c:261-273 | the threshold is non-decreasing in the price when not inverted, and non-increasing when inverted |
| Threshold.ThresholdSaturation | phase-2-poc/num_experiment.c:269-275 | the budget is 200 from price 39/49 up, and 5 for every non-positive price |
| Chain.Occurs | phase-2-poc/num_experiment.c:296-301 | the front-to-back scan is true exactly when the name is in the sequence |
| Chain.Pushed | phase-2-poc/num_experiment.c:303-307 | `chain_push` on the names: append while the depth is below 64, otherwise keep the names; `InlineChain.Push` is proved against it |
| Chain.InlineChain.constructor | phase-2-poc/num_experiment.c:292-294 | a fresh chain: 64 slots and no names |
| Chain.InlineChain.Contains | phase-2-poc/num_experiment.c:296-301 | true exactly when the name is among the first `depth` entries |
| Chain.InlineChain.Push | phase-2-poc/num_experiment.c:303-307 | returns true exactly when the depth was below 64; then the name is appended, otherwise the chain is unchanged |
| Ir.CountFuncInsns | phase-2-poc/num_experiment.c:157-165 | the walk over the instruction list returns its length |
| Mutation.XorShift32 | phase-2-poc/num_experiment.c:363-366 | the three shift-xor updates of the random state on 32 bits; `XorShift32NonZero` states its property |
| Mutation.XorShift32NonZero | phase-2-poc/num_experiment.c:363-366 | from a non-zero state, an XorShift32 step never reaches the all-zero state |
| Mutation.Decide | phase-2-poc/num_experiment.c:350-389 | the `switch (condition)`: never-inline never promotes and blind inline-all always does; only the random condition moves the random state, by one XorShift32 step, and promotes exactly when the new state is even; both price conditions promote every callee under 5 instructions and none of 200 or more |
| Mutation.Step | phase-2-poc/num_experiment.c:335-395 | one inner-loop iteration as a function of the instruction and the pass state; `StepFacts` states what it can change |
| Mutation.RunInsns | phase-2-poc/num_experiment.c:331-396 | the inner loop as a fold of `Step` over one function's instructions; `RunInsnsFrame` states its frame and count |
| Mutation.RunFuncs | phase-2-poc/num_experiment.c:324-397 | the outer loop as a fold of `RunInsns` over the functions, carrying the chain, random state and counter from one function to the next |
| Mutation.Mutate | phase-2-poc/num_experiment.c:316-400 | `mutate_module` as a function: `RunFuncs` from an empty chain and a zero count; `MutateModule` is proved against it and the `Mutate…` lemmas state its properties |
| Mutation.StepFacts | phase-2-poc/num_experiment.c:335-395 | one iteration either leaves the instruction alone or rewrites a `Call` to a resolved function whose name is not on the chain to `Inline`; in the second case it pushes that name and adds 1 to the counter; outside the random condition the random state does not move |
| Mutation.RunInsnsFrame | phase-2-poc/num_experiment.c:331-396 | over one function, the only changes are `Call`-to-`Inline` rewrites of calls to functions of the module, and the counter grows by their number |
| Mutation.MutateCountsPromotions | phase-2-poc/num_experiment.c:335-395 | the returned count equals the number of instructions changed from `Call` to `Inline`; only the opcodes of calls to resolved functions of the module change (references outside it or to non-functions never do), and names and lengths stay; outside the random condition the random state is unchanged |
| Mutation.MutateFirstPromotionsDistinct | phase-2-poc/num_experiment.c:342-394 | there is one promoted callee name per mutation; the first 64 of them are pairwise distinct, so with at most 64 promotions no callee name is promoted twice in one pass |
| Mutation.MutateOneFunctionAtMostOnce | phase-2-poc/num_experiment.c:345-346 | in a module of a single function (so every resolved call is to itself), at most one call is promoted, whatever the condition |
| Mutation.MutateNeverInline | phase-2-poc/num_experiment.c:351-354 | never-inline returns 0 and leaves the module and the random state as they were |
| Mutation.BlindAllSecondPassPromotesAgain | phase-2-poc/num_experiment.c:345-358 | on a function that calls itself twice, blind inline-all promotes one call; a second pass over the result promotes the other |
| Mutation.ScenarioProfile | phase-2-poc/num_experiment.c:110-124 | the counts 1000 and 1 normalise to prices 1 and 0.001, which give budgets of 200 and 5 instructions |
| Mutation.PriceGuidedScenario | phase-2-poc/num_experiment.c:369-376 | a driver calling a hot and a cold 10-instruction callee: under the price-guided condition, only the hot call is promoted, there is 1 mutation and the random state is unchanged |
| Mutation.ShouldPromote | phase-2-poc/num_experiment.c:348-389 | the `switch (condition)` returns the decision and the random state of `Decide`: no, yes, an even XorShift32 output, or size below the (inverted) budget for the callee's price |
| Mutation.ConsiderCall | phase-2-poc/num_experiment.c:335-393 | for one instruction: skips a non-call, an unresolved callee and a callee on the chain; otherwise decides and, on promotion, pushes the callee; the result equals `Step`; a promotion is always of a `Call` |
| Mutation.MutateInsn | phase-2-poc/num_experiment.c:331-395 | one iteration of the inner loop extends the rewritten prefix of the function by one instruction, as `RunInsns` does |
| Mutation.MutateFunc | phase-2-poc/num_experiment.c:331-396 | the inner loop rewrites exactly the function being visited, to `RunInsns` of its original instructions, and leaves the chain, counter and random state where `RunInsns` ends |
| Mutation.MutateModule | phase-2-poc/num_experiment.c:316-400 | the in-place pass leaves the module, the returned count and the random state equal to `Mutate` of the module it started from |
| Profiling.SiteName | phase-2-poc/num_experiment.c:193-209 | the name that one instruction records: a `Call` or `Inline` to a function records that function's name, anything else records nothing; `SiteNamesAreCallees` and `SiteNamesCount` state what is recorded |
| Profiling.CallSiteNames | phase-2-poc/num_experiment.c:182-211 | the names that the counting loops of `profile_module` record, function by function and instruction by instruction; `ProfileModule` is proved against it |
| Profiling.SiteNamesAreCallees | phase-2-poc/num_experiment.c:189-210 | every recorded name is the name of a function reached by a `Call` or `Inline` instruction; a function records at most one name per instruction |
| Profiling.SiteNamesCount | phase-2-poc/num_experiment.c:189-210 | the converse of `SiteNamesAreCallees`: each name occurs among a function's recorded names exactly as often as there are `Call` or `Inline` instructions referring to a function of that name |
| Profiling.SitesOfSnoc | phase-2-poc/num_experiment.c:189-210 | the call sites naming a function grow by one exactly when the next instruction is such a call site |
| Profiling.ProfileStableUnderMutation | phase-2-poc/num_experiment.c:193 | because `Inline` counts like `Call`, profiling a module after any mutation pass records exactly the names it recorded before |
| Profiling.ProfileOfModule | phase-2-poc/num_experiment.c:181-213 | starting from an empty table, when no callee is dropped, every name's count is its number of call sites; the normalised table is well-formed and keeps those counts |
| Profiling.ProfileOfSmallModule | phase-2-poc/num_experiment.c:181-213 | for a module whose calls name at most 256 distinct functions, starting from an empty table, no callee is dropped and every name's normalised-table count is its number of call sites |
| Profiling.ProfileInsn | phase-2-poc/num_experiment.c:193-209 | one instruction applies the increment its `SiteName` names, or none |
| Profiling.ProfileFunc | phase-2-poc/num_experiment.c:189-210 | the inner loop applies the increments for the function's call sites, in order, and leaves `max_count` alone |
| Profiling.ProfileModule | phase-2-poc/num_experiment.c:181-213 | the table ends as the normalisation of the old table with every call site of the module counted in order; `max_count` becomes the largest count |
| Harness.LambdaScale | src/test-num-experiment.c:92-94 | the scale lies in [0.1, 5]; it equals `price / 100` for prices in [10, 500] |
| Harness.ThresholdV2 | src/test-num-experiment.c:90-98 | the adjusted threshold lies in [5, 1000] |
| Harness.ShouldInlineV2 | src/test-num-experiment.c:88-110 | inlines exactly when `ir_count` is below the adjusted threshold; a function under 5 instructions always inlines; one of 500 or more never does |
| Harness.ThresholdV2NeverAtCeiling | src/test-num-experiment.c:96-98 | the threshold never exceeds 500, so the clamp at 1000 never acts |
| Harness.ThresholdV2ClosedForm | src/test-num-experiment.c:90-98 | for prices in [10, 500], the threshold is `max(5, ⌊base · price / 100⌋)` |
| Harness.ThresholdV2MonotoneInPrice | src/test-num-experiment.c:90-100 | at a fixed level, a higher price never lowers the threshold |
| Harness.ThresholdV2MonotoneInLevel | src/test-num-experiment.c:56 | at a fixed price, a higher optimisation level never lowers the threshold (bases 20 ≤ 50 ≤ 100) |
| Harness.InlineMonotone | src/test-num-experiment.c:88-110 | a function that inlines at price p and level o also inlines at every higher price and level, and so does every smaller function |
| Harness.GetShadowPrice | src/test-num-experiment.c:114-146 | uses at most two random draws, and none outside the perturbed condition |
| Harness.DeterministicPrices | src/test-num-experiment.c:117-145 | baseline and uniform give 100; skewed gives 1000 for even and 10 for odd indices; any other name gives 100 |
| Harness.PerturbedBounds | src/test-num-experiment.c:133-143 | whatever is drawn, the perturbed price lies in [1, 2000]; an even index gives `800 + r1 mod 401` from one draw and an odd index `5 + r2 mod 11` from two |
| Harness.PerturbedKeepsSplit | src/test-num-experiment.c:126-143 | every perturbed hot (even) price exceeds every perturbed cold (odd) price |
| Harness.SkewedOutcomes | src/test-num-experiment.c:121-125 | for the sizes 10–500, a cold skewed function never inlines, and a hot one inlines exactly when it is smaller than five times the level's base |
| Harness.ParseArgs | src/test-num-experiment.c:250-267 | no argument gives the usage; a run starts exactly when the first argument is one of the four names, and with that name; any other name is rejected |
| Harness.RunStatus | src/test-num-experiment.c:192-196 | `run_experiment` returns 1 when `MIR_init` fails and 0 when it succeeds |
| Harness.ExitCode | src/test-num-experiment.c:250-281 | a launch that does not run exits with status 1; one that runs exits with `run_experiment`'s status; the exit status is 0 exactly when the launch runs and `MIR_init` succeeds, and 1 otherwise |
| Harness.AcceptedConditions | src/test-num-experiment.c:250-281 | no argument or a name other than baseline, uniform, skewed or perturbed exits with status 1; the exit status is 0 exactly when the first argument is one of those four and `MIR_init` succeeds |

### Where the documentation and the code differ

The comments in phase-2-poc/num_experiment.c say that under blind
inline-all every call is promoted: "All MIR_CALL -> MIR_INLINE" at line 16,
and the same for `COND_BLIND_ALL` at line 233. If that held, a second pass
over an already mutated module would find nothing left to promote, because
the pass only looks at `MIR_CALL` instructions (line 335).

The code does not promote every call. Each pass starts with a fresh chain
(lines 321-322). A call whose callee is already on the chain is skipped
(line 346) and stays `MIR_CALL`. A second pass starts with an empty chain
again, so it promotes that remaining call. The model follows the code.
`Mutation.BlindAllSecondPassPromotesAgain` shows the case on a function
that calls itself twice.

## Left out

- The hand-filled profile in `main` (phase-2-poc/num_experiment.c:1482-1491)
  is modelled only through the table operations it calls.
  `Mutation.ScenarioProfile` states the prices that its hot and cold
  counts give.
- `run_condition`, `cohen_d`, `main`, the benchmark IR text and
  `profile_map_print` in phase-2-poc/num_experiment.c are not part of this
  model. They cover MIR context creation, linking, JIT calls,
  wall-clock timing, floating-point statistics and printing.
- phase-2-poc/poc.c and src/analyze-num.py are not part of this model.
  They are a JIT timing driver and a plotting/statistics script.
- In src/test-num-experiment.c, the following are not modelled: the
  synthetic MIR functions (`create_synthetic_func`), the CSV log writes,
  `run_experiment`'s counting and summary printing, and the glibc `rand()`
  sequence. `Harness.GetShadowPrice` takes the next two `rand()` results as
  parameters.
- Harness.GetShadowPrice: `rand()` is not called when the price is
  computed. The caller passes both draws, and the `draws` field says how
  many of them the C code would have consumed.
- IEEE doubles are modelled as exact reals. Rounding in `calls / max`,
  `1.0 - lambda` and the scale products is not captured.
- `uint64_t` call counts and the `int` mutation counter are unbounded
  naturals. Wrap-around would need 2^64 call sites or 2^31 promotions, so
  it is not modelled.
- Module items are functions only, so non-function items in the module's
  list are not modelled. A callee reference that names something other
  than a function is `NonFuncItem` or `NoItem`, and both passes skip it,
  as the code does.
- The instruction lists are modelled as sequences inside
  `Ir.Module.funcs`. A promotion replaces the rewritten instruction in
  that sequence. The linked-list pointers and aliasing between items are
  not modelled.
- Mutation.MutateModule and Profiling.ProfileModule require every
  function reference to name a function of the module (`Ir.Resolved`).
  This is what a loaded MIR module's item pointers give. The
  specification functions `Mutate` and `CallSiteNames` do not require it:
  there, an out-of-module reference is skipped like a non-function item.
- Mutation.MutateInsn: the chain push happens before the opcode write,
  while the C code writes `insn->code` first. Nothing reads either in
  between, so the final state is the same.
- Mutation.ShouldPromote: the `default: break;` branch is not modelled,
  because `Condition` has exactly the five cases.
- Profiling.ProfileOfModule: the exact-count statement needs every callee
  to end with a row (`Profile.Recorded`). With more than 256 distinct
  callees some are dropped. `Profiling.ProfileOfSmallModule` meets the
  condition for at most 256 distinct callees. Dropped names are covered
  separately:
  `Profile.IncrementFull` states that such a name is dropped, and
  `Profile.ProfileMap.Increment` is exact in every case.
- Harness.ExitCode: whether `MIR_init` succeeds is a parameter, because
  MIR context creation is not part of this model. The exit status of code
  that runs after the context is created is not modelled, apart from the
  final `return 0` (src/test-num-experiment.c:245).
- Mutation.MutateFirstPromotionsDistinct: distinctness is stated only for
  the first 64 promoted names. Once the chain is full, the code stops
  recording names and can promote a callee again.
