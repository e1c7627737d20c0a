/** The mutation pass `mutate_module`: walk the functions in order, then
    each function's `Call` instructions in order, and promote a call to
    `Inline` when its callee resolves to a function, is not yet on the
    inline chain, and the experimental condition says so.

    `Mutate` is the pass as a function of the module before it; the in-place
    method `MutateModule` is proved to compute it, and the lemmas state what
    the pass guarantees. */
module Mutation {
  import opened Ir
  import opened Profile
  import opened Threshold
  import opened Chain
  import opened Wrappers

  /** `experiment_condition_t`. */
  datatype Condition = NoInline | BlindAll | Random50 | ShadowPrice | InvertedPrice

  /** One XorShift32 step on the 32-bit state (`unsigned int`): three
      xor-shifts, by 13 to the left, 17 to the right and 5 to the left. */
  function XorShift32(x: bv32): bv32 {
    XorShiftLeft5(XorShiftRight17(XorShiftLeft13(x)))
  }

  function XorShiftLeft13(x: bv32): bv32 { x ^ (x << 13) }
  function XorShiftRight17(x: bv32): bv32 { x ^ (x >> 17) }
  function XorShiftLeft5(x: bv32): bv32 { x ^ (x << 5) }

  /** XorShift32 never reaches the all-zero state from another one, so the
      random condition's stream, seeded with 42, never degenerates. */
  lemma XorShift32NonZero(x: bv32)
    requires x != 0
    ensures XorShift32(x) != 0
  {
    XorShiftLeft13NonZero(x);
    XorShiftRight17NonZero(XorShiftLeft13(x));
    XorShiftLeft5NonZero(XorShiftRight17(XorShiftLeft13(x)));
  }

  /** Each step xors a non-zero state with a shift of itself, which cannot
      cancel every bit. */
  lemma XorShiftLeft13NonZero(x: bv32)
    requires x != 0
    ensures XorShiftLeft13(x) != 0
  {
  }

  lemma XorShiftRight17NonZero(x: bv32)
    requires x != 0
    ensures XorShiftRight17(x) != 0
  {
  }

  lemma XorShiftLeft5NonZero(x: bv32)
    requires x != 0
    ensures XorShiftLeft5(x) != 0
  {
  }

  /** What stays fixed during one pass: the condition, the profile's rows
      and the module as it was when the pass began (names and instruction
      counts, which the pass never changes). */
  datatype Env = Env(cond: Condition, profile: seq<ProfileEntry>, funcs: seq<Func>)

  /** What the pass carries from one instruction to the next. */
  datatype PassState = PassState(chain: seq<string>, rng: bv32, mutations: nat)

  datatype Decision = Decision(promote: bool, rng: bv32)

  /** The `switch (condition)` of `mutate_module` for a callee named `name`
      with `size` instructions. */
  function Decide(cond: Condition, profile: seq<ProfileEntry>, name: string, size: nat, rng: bv32): (d: Decision)
    ensures cond == NoInline ==> !d.promote
    ensures cond == BlindAll ==> d.promote
    ensures cond != Random50 ==> d.rng == rng
    ensures cond == Random50 ==> d.rng == XorShift32(rng) && (d.promote <==> d.rng % 2 == 0)
    ensures cond == ShadowPrice || cond == InvertedPrice ==> (size < 5 ==> d.promote) && (size >= 200 ==> !d.promote)
  {
    match cond
    case NoInline => Decision(false, rng)
    case BlindAll => Decision(true, rng)
    case Random50 =>
      var r := XorShift32(rng);
      Decision(r % 2 == 0, r)
    case ShadowPrice => Decision(size < AdjustedThreshold(PriceOf(profile, name), false), rng)
    case InvertedPrice => Decision(size < AdjustedThreshold(PriceOf(profile, name), true), rng)
  }

  datatype InsnStep = InsnStep(insn: Insn, st: PassState)

  /** One iteration of the inner loop. */
  function Step(env: Env, insn: Insn, st: PassState): InsnStep {
    if insn.code != Call || !IsFuncRef(insn.callee, |env.funcs|) then InsnStep(insn, st)
    else
      var callee := env.funcs[insn.callee.index];
      if callee.name in st.chain then InsnStep(insn, st)
      else
        var d := Decide(env.cond, env.profile, callee.name, |callee.insns|, st.rng);
        if d.promote then
          InsnStep(insn.(code := Inline), PassState(Pushed(st.chain, callee.name), d.rng, st.mutations + 1))
        else InsnStep(insn, st.(rng := d.rng))
  }

  datatype InsnsOut = InsnsOut(insns: seq<Insn>, st: PassState)

  /** The inner loop over one function's instructions, front to back. */
  function RunInsns(env: Env, insns: seq<Insn>, st: PassState): InsnsOut
    decreases |insns|
  {
    if insns == [] then InsnsOut([], st)
    else
      var prev := RunInsns(env, insns[..|insns| - 1], st);
      var last := Step(env, insns[|insns| - 1], prev.st);
      InsnsOut(prev.insns + [last.insn], last.st)
  }

  datatype FuncsOut = FuncsOut(funcs: seq<Func>, st: PassState)

  /** The outer loop over the functions, front to back. */
  function RunFuncs(env: Env, fs: seq<Func>, st: PassState): FuncsOut
    decreases |fs|
  {
    if fs == [] then FuncsOut([], st)
    else
      var prev := RunFuncs(env, fs[..|fs| - 1], st);
      var f := fs[|fs| - 1];
      var body := RunInsns(env, f.insns, prev.st);
      FuncsOut(prev.funcs + [Func(f.name, body.insns)], body.st)
  }

  datatype MutateResult = MutateResult(funcs: seq<Func>, mutations: nat, rng: bv32)

  /** `mutate_module`: the rewritten module, the returned count and the
      final random state, starting from an empty chain. */
  function Mutate(cond: Condition, profile: seq<ProfileEntry>, fs: seq<Func>, rng: bv32): MutateResult {
    var out := RunFuncs(Env(cond, profile, fs), fs, PassState([], rng, 0));
    MutateResult(out.funcs, out.st.mutations, out.st.rng)
  }

  // ---------------------------------------------------------------------
  // What changed: promotions, counted and named.

  /** `b[j]` is `a[j]`, or `a[j]` was a call to one of the module's `n`
      functions and `b[j]` is the same instruction with opcode `Inline`. */
  ghost predicate OnlyPromotions(a: seq<Insn>, b: seq<Insn>, n: nat) {
    && |a| == |b|
    && forall j :: 0 <= j < |a| ==>
         b[j] == a[j] || (a[j].code == Call && IsFuncRef(a[j].callee, n) && b[j] == a[j].(code := Inline))
  }

  ghost predicate ModuleOnlyPromotions(fa: seq<Func>, fb: seq<Func>, n: nat) {
    && |fa| == |fb|
    && forall i :: 0 <= i < |fa| ==> fa[i].name == fb[i].name && OnlyPromotions(fa[i].insns, fb[i].insns, n)
  }

  predicate Promoted(a: Insn, b: Insn) {
    a.code == Call && b.code == Inline
  }

  /** The number of instructions changed from `Call` to `Inline`. */
  function Promotions(a: seq<Insn>, b: seq<Insn>): nat
    requires |a| == |b|
    decreases |a|
  {
    if a == [] then 0
    else
      Promotions(a[..|a| - 1], b[..|b| - 1]) + if Promoted(a[|a| - 1], b[|b| - 1]) then 1 else 0
  }

  function ModulePromotions(fa: seq<Func>, fb: seq<Func>): nat
    requires |fa| == |fb| && forall i :: 0 <= i < |fa| ==> |fa[i].insns| == |fb[i].insns|
    decreases |fa|
  {
    if fa == [] then 0
    else
      ModulePromotions(fa[..|fa| - 1], fb[..|fb| - 1])
        + Promotions(fa[|fa| - 1].insns, fb[|fb| - 1].insns)
  }

  /** The callee names of the promoted instructions, in traversal order. */
  function PromotedNames(prog: seq<Func>, a: seq<Insn>, b: seq<Insn>): seq<string>
    requires |a| == |b|
    decreases |a|
  {
    if a == [] then []
    else
      var x, y := a[|a| - 1], b[|b| - 1];
      PromotedNames(prog, a[..|a| - 1], b[..|b| - 1])
        + if Promoted(x, y) && IsFuncRef(x.callee, |prog|) then [prog[x.callee.index].name] else []
  }

  function ModulePromotedNames(prog: seq<Func>, fa: seq<Func>, fb: seq<Func>): seq<string>
    requires |fa| == |fb| && forall i :: 0 <= i < |fa| ==> |fa[i].insns| == |fb[i].insns|
    decreases |fa|
  {
    if fa == [] then []
    else
      ModulePromotedNames(prog, fa[..|fa| - 1], fb[..|fb| - 1])
        + PromotedNames(prog, fa[|fa| - 1].insns, fb[|fb| - 1].insns)
  }

  ghost predicate NoDup(s: seq<string>) {
    forall i, j :: 0 <= i < j < |s| ==> s[i] != s[j]
  }

  /** The first `MaxInlineChain` elements (all of them when there are fewer). */
  function FirstChain(p: seq<string>): seq<string> {
    if |p| <= MaxInlineChain then p else p[..MaxInlineChain]
  }

  /** The chain holds the first 64 promoted names, without repetition, and
      the counter equals the number of promotions. */
  ghost predicate Tracks(st: PassState, p: seq<string>) {
    && st.chain == FirstChain(p)
    && NoDup(st.chain)
    && st.mutations == |p|
  }

  ghost function ModuleNames(fs: seq<Func>): set<string> {
    set i | 0 <= i < |fs| :: fs[i].name
  }

  // ---------------------------------------------------------------------
  // The traversal, lemma by lemma.

  /** What one iteration of the inner loop does: it leaves the instruction
      alone or promotes a call to a function that was not on the chain,
      pushing its name and counting it. */
  lemma StepFacts(env: Env, x: Insn, st: PassState)
    ensures var s := Step(env, x, st);
      && (s.insn == x || (x.code == Call && x.callee.FuncItem? && s.insn == x.(code := Inline)))
      && s.st.mutations == st.mutations + (if Promoted(x, s.insn) then 1 else 0)
      && (env.cond != Random50 ==> s.st.rng == st.rng)
      && (Promoted(x, s.insn) ==>
            && IsFuncRef(x.callee, |env.funcs|)
            && env.funcs[x.callee.index].name !in st.chain
            && s.st.chain == Pushed(st.chain, env.funcs[x.callee.index].name))
      && (!Promoted(x, s.insn) ==> s.st.chain == st.chain)
  {
  }

  /** Appending one instruction and its rewrite to a rewritten prefix. */
  lemma AppendInsn(a: seq<Insn>, b: seq<Insn>, x: Insn, y: Insn, n: nat)
    requires OnlyPromotions(a, b, n)
    requires y == x || (x.code == Call && IsFuncRef(x.callee, n) && y == x.(code := Inline))
    ensures OnlyPromotions(a + [x], b + [y], n)
    ensures Promotions(a + [x], b + [y]) == Promotions(a, b) + if Promoted(x, y) then 1 else 0
  {
    assert (a + [x])[..|a|] == a;
    assert (b + [y])[..|b|] == b;
  }

  lemma {:induction false} RunInsnsFrame(env: Env, insns: seq<Insn>, st: PassState)
    ensures OnlyPromotions(insns, RunInsns(env, insns, st).insns, |env.funcs|)
    ensures RunInsns(env, insns, st).st.mutations == st.mutations + Promotions(insns, RunInsns(env, insns, st).insns)
    ensures env.cond != Random50 ==> RunInsns(env, insns, st).st.rng == st.rng
    decreases |insns|
  {
    if insns != [] {
      var n := |insns| - 1;
      var front := insns[..n];
      RunInsnsFrame(env, front, st);
      var prev := RunInsns(env, front, st);
      StepFacts(env, insns[n], prev.st);
      AppendInsn(front, prev.insns, insns[n], Step(env, insns[n], prev.st).insn, |env.funcs|);
      Snoc(insns);
    }
  }

  lemma {:induction false} RunInsnsTracks(env: Env, insns: seq<Insn>, st: PassState, p: seq<string>)
    requires Tracks(st, p)
    ensures |RunInsns(env, insns, st).insns| == |insns|
    ensures Tracks(RunInsns(env, insns, st).st, p + PromotedNames(env.funcs, insns, RunInsns(env, insns, st).insns))
    decreases |insns|
  {
    if insns != [] {
      var n := |insns| - 1;
      var front := insns[..n];
      RunInsnsTracks(env, front, st, p);
      var prev := RunInsns(env, front, st);
      var x := insns[n];
      var last := Step(env, x, prev.st);
      StepFacts(env, x, prev.st);
      var out := RunInsns(env, insns, st);
      var q := p + PromotedNames(env.funcs, front, prev.insns);
      assert out.insns == prev.insns + [last.insn];
      assert out.insns[..n] == prev.insns;
      assert PromotedNames(env.funcs, insns, out.insns)
          == PromotedNames(env.funcs, front, prev.insns)
             + if Promoted(x, last.insn) && IsFuncRef(x.callee, |env.funcs|) then [env.funcs[x.callee.index].name] else [];
      if Promoted(x, last.insn) {
        var name := env.funcs[x.callee.index].name;
        assert p + PromotedNames(env.funcs, insns, out.insns) == q + [name];
        ChainAppend(prev.st.chain, q, name);
      } else {
        assert p + PromotedNames(env.funcs, insns, out.insns) == q;
      }
    }
  }

  /** Pushing a name not on the chain keeps the chain the first 64 of the
      promoted names, without repetition. */
  lemma ChainAppend(chain: seq<string>, q: seq<string>, name: string)
    requires chain == FirstChain(q) && NoDup(chain) && name !in chain
    ensures Pushed(chain, name) == FirstChain(q + [name]) && NoDup(Pushed(chain, name))
  {
    if |q| >= MaxInlineChain {
      assert (q + [name])[..MaxInlineChain] == q[..MaxInlineChain];
    }
  }

  /** Appending one rewritten function to the rewritten prefix. */
  lemma AppendFunc(fa: seq<Func>, fb: seq<Func>, f: Func, b: seq<Insn>, n: nat)
    requires ModuleOnlyPromotions(fa, fb, n) && OnlyPromotions(f.insns, b, n)
    ensures ModuleOnlyPromotions(fa + [f], fb + [Func(f.name, b)], n)
    ensures ModulePromotions(fa + [f], fb + [Func(f.name, b)]) == ModulePromotions(fa, fb) + Promotions(f.insns, b)
  {
    assert (fa + [f])[..|fa|] == fa;
    assert (fb + [Func(f.name, b)])[..|fb|] == fb;
  }

  lemma AppendFuncNames(prog: seq<Func>, fa: seq<Func>, fb: seq<Func>, f: Func, b: seq<Insn>)
    requires ModuleOnlyPromotions(fa, fb, |prog|) && OnlyPromotions(f.insns, b, |prog|)
    ensures ModuleOnlyPromotions(fa + [f], fb + [Func(f.name, b)], |prog|)
    ensures ModulePromotedNames(prog, fa + [f], fb + [Func(f.name, b)])
         == ModulePromotedNames(prog, fa, fb) + PromotedNames(prog, f.insns, b)
  {
    AppendFunc(fa, fb, f, b, |prog|);
    assert (fa + [f])[..|fa|] == fa;
    assert (fb + [Func(f.name, b)])[..|fb|] == fb;
  }

  lemma {:induction false} RunFuncsFrame(env: Env, fs: seq<Func>, st: PassState)
    ensures ModuleOnlyPromotions(fs, RunFuncs(env, fs, st).funcs, |env.funcs|)
    ensures RunFuncs(env, fs, st).st.mutations == st.mutations + ModulePromotions(fs, RunFuncs(env, fs, st).funcs)
    ensures env.cond != Random50 ==> RunFuncs(env, fs, st).st.rng == st.rng
    decreases |fs|
  {
    if fs != [] {
      var n := |fs| - 1;
      var front := fs[..n];
      RunFuncsFrame(env, front, st);
      var prev := RunFuncs(env, front, st);
      var f := fs[n];
      var body := RunInsns(env, f.insns, prev.st);
      RunInsnsFrame(env, f.insns, prev.st);
      AppendFunc(front, prev.funcs, f, body.insns, |env.funcs|);
      Snoc(fs);
    }
  }

  lemma {:induction false} RunFuncsTracks(env: Env, fs: seq<Func>, st: PassState, p: seq<string>)
    requires Tracks(st, p)
    ensures ModuleOnlyPromotions(fs, RunFuncs(env, fs, st).funcs, |env.funcs|)
    ensures Tracks(RunFuncs(env, fs, st).st, p + ModulePromotedNames(env.funcs, fs, RunFuncs(env, fs, st).funcs))
    decreases |fs|
  {
    RunFuncsFrame(env, fs, st);
    if fs != [] {
      var n := |fs| - 1;
      var front := fs[..n];
      RunFuncsTracks(env, front, st, p);
      RunFuncsFrame(env, front, st);
      var prev := RunFuncs(env, front, st);
      var f := fs[n];
      var q := p + ModulePromotedNames(env.funcs, front, prev.funcs);
      var body := RunInsns(env, f.insns, prev.st);
      RunInsnsFrame(env, f.insns, prev.st);
      RunInsnsTracks(env, f.insns, prev.st, q);
      AppendFuncNames(env.funcs, front, prev.funcs, f, body.insns);
      Snoc(fs);
      ConcatAssoc(p, ModulePromotedNames(env.funcs, front, prev.funcs), PromotedNames(env.funcs, f.insns, body.insns));
    }
  }

  lemma Snoc<T>(s: seq<T>)
    requires s != []
    ensures s == s[..|s| - 1] + [s[|s| - 1]]
  {
  }

  lemma ConcatAssoc<T>(a: seq<T>, b: seq<T>, c: seq<T>)
    ensures a + (b + c) == (a + b) + c
  {
  }

  lemma {:induction false} PromotedNamesIn(prog: seq<Func>, a: seq<Insn>, b: seq<Insn>)
    requires |a| == |b|
    ensures forall x :: x in PromotedNames(prog, a, b) ==> x in ModuleNames(prog)
    decreases |a|
  {
    if a != [] {
      PromotedNamesIn(prog, a[..|a| - 1], b[..|b| - 1]);
      var last := a[|a| - 1];
      if Promoted(last, b[|b| - 1]) && IsFuncRef(last.callee, |prog|) {
        assert prog[last.callee.index].name in ModuleNames(prog);
      }
    }
  }

  lemma {:induction false} ModulePromotedNamesIn(prog: seq<Func>, fa: seq<Func>, fb: seq<Func>)
    requires |fa| == |fb| && forall i :: 0 <= i < |fa| ==> |fa[i].insns| == |fb[i].insns|
    ensures forall x :: x in ModulePromotedNames(prog, fa, fb) ==> x in ModuleNames(prog)
    decreases |fa|
  {
    if fa != [] {
      ModulePromotedNamesIn(prog, fa[..|fa| - 1], fb[..|fb| - 1]);
      PromotedNamesIn(prog, fa[|fa| - 1].insns, fb[|fb| - 1].insns);
    }
  }

  // ---------------------------------------------------------------------
  // What the pass guarantees.

  /** The returned count is exactly the number of instructions changed from
      `Call` to `Inline`, and nothing else changes: function names and
      lengths stay, and an instruction either stays as it was or was a call
      to one of the module's functions and now has opcode `Inline`.  Outside the random
      condition the random state is untouched. */
  lemma MutateCountsPromotions(cond: Condition, profile: seq<ProfileEntry>, fs: seq<Func>, rng: bv32)
    ensures ModuleOnlyPromotions(fs, Mutate(cond, profile, fs, rng).funcs, |fs|)
    ensures Mutate(cond, profile, fs, rng).mutations == ModulePromotions(fs, Mutate(cond, profile, fs, rng).funcs)
    ensures cond != Random50 ==> Mutate(cond, profile, fs, rng).rng == rng
  {
    RunFuncsFrame(Env(cond, profile, fs), fs, PassState([], rng, 0));
  }

  /** The first 64 promoted callee names are pairwise distinct; in
      particular, while no more than 64 calls are promoted, no callee name is
      promoted twice in one pass. */
  lemma MutateFirstPromotionsDistinct(cond: Condition, profile: seq<ProfileEntry>, fs: seq<Func>, rng: bv32)
    ensures |Mutate(cond, profile, fs, rng).funcs| == |fs|
    ensures forall i :: 0 <= i < |fs| ==> |Mutate(cond, profile, fs, rng).funcs[i].insns| == |fs[i].insns|
    ensures |ModulePromotedNames(fs, fs, Mutate(cond, profile, fs, rng).funcs)| == Mutate(cond, profile, fs, rng).mutations
    ensures NoDup(FirstChain(ModulePromotedNames(fs, fs, Mutate(cond, profile, fs, rng).funcs)))
    ensures Mutate(cond, profile, fs, rng).mutations <= MaxInlineChain ==>
      NoDup(ModulePromotedNames(fs, fs, Mutate(cond, profile, fs, rng).funcs))
  {
    var env := Env(cond, profile, fs);
    var st := PassState([], rng, 0);
    assert Tracks(st, []);
    RunFuncsFrame(env, fs, st);
    RunFuncsTracks(env, fs, st, []);
    var out := RunFuncs(env, fs, st);
    assert [] + ModulePromotedNames(fs, fs, out.funcs) == ModulePromotedNames(fs, fs, out.funcs);
  }

  /** The recursion guard: in a module of one function, whatever it calls
      (itself, necessarily, when the call resolves), at most one call is
      promoted. */
  lemma MutateOneFunctionAtMostOnce(cond: Condition, profile: seq<ProfileEntry>, f: Func, rng: bv32)
    ensures Mutate(cond, profile, [f], rng).mutations <= 1
  {
    var r := Mutate(cond, profile, [f], rng);
    MutateFirstPromotionsDistinct(cond, profile, [f], rng);
    var p := ModulePromotedNames([f], [f], r.funcs);
    ModulePromotedNamesIn([f], [f], r.funcs);
    assert ModuleNames([f]) == {f.name};
    if |p| >= 2 {
      FirstChainHead(p);
      assert false;
    }
  }

  lemma FirstChainHead(p: seq<string>)
    requires |p| >= 2
    ensures p[0] in p && p[1] in p
    ensures FirstChain(p)[0] == p[0] && FirstChain(p)[1] == p[1]
  {
  }

  lemma {:induction false} RunInsnsNever(env: Env, insns: seq<Insn>, st: PassState)
    requires env.cond == NoInline
    ensures RunInsns(env, insns, st) == InsnsOut(insns, st)
    decreases |insns|
  {
    if insns != [] {
      RunInsnsNever(env, insns[..|insns| - 1], st);
      assert insns[..|insns| - 1] + [insns[|insns| - 1]] == insns;
    }
  }

  lemma {:induction false} RunFuncsNever(env: Env, fs: seq<Func>, st: PassState)
    requires env.cond == NoInline
    ensures RunFuncs(env, fs, st) == FuncsOut(fs, st)
    decreases |fs|
  {
    if fs != [] {
      RunFuncsNever(env, fs[..|fs| - 1], st);
      RunInsnsNever(env, fs[|fs| - 1].insns, RunFuncs(env, fs[..|fs| - 1], st).st);
      assert fs[..|fs| - 1] + [fs[|fs| - 1]] == fs;
    }
  }

  /** Never-inline returns 0 and leaves the module and the random state as
      they were, so a second never-inline pass also finds nothing to do. */
  lemma MutateNeverInline(profile: seq<ProfileEntry>, fs: seq<Func>, rng: bv32)
    ensures Mutate(NoInline, profile, fs, rng) == MutateResult(fs, 0, rng)
  {
    RunFuncsNever(Env(NoInline, profile, fs), fs, PassState([], rng, 0));
  }

  lemma {:induction false} RunInsnsNoCalls(env: Env, insns: seq<Insn>, st: PassState)
    requires forall j :: 0 <= j < |insns| ==> insns[j].code != Call
    ensures RunInsns(env, insns, st) == InsnsOut(insns, st)
    decreases |insns|
  {
    if insns != [] {
      RunInsnsNoCalls(env, insns[..|insns| - 1], st);
      assert insns[..|insns| - 1] + [insns[|insns| - 1]] == insns;
    }
  }

  /** Blind inline-all is documented as turning every `MIR_CALL` into
      `MIR_INLINE` (the comments on the condition list and on
      `COND_BLIND_ALL`).  It does not: the chain makes the first pass skip
      a repeated call to an already promoted callee, and a second pass,
      with a fresh chain, promotes that call. */
  lemma BlindAllSecondPassPromotesAgain()
    ensures var fs := [Func("f", [Insn(Call, FuncItem(0)), Insn(Call, FuncItem(0))])];
            var first := Mutate(BlindAll, [], fs, 42);
            && first.mutations == 1
            && first.funcs == [Func("f", [Insn(Inline, FuncItem(0)), Insn(Call, FuncItem(0))])]
            && Mutate(BlindAll, [], first.funcs, 42).mutations == 1
  {
    var a, b := Insn(Call, FuncItem(0)), Insn(Inline, FuncItem(0));
    var fs := [Func("f", [a, a])];
    var env := Env(BlindAll, [], fs);
    var st0 := PassState([], 42, 0);
    assert [a, a][..1] == [a];
    assert [a][..0] == [];
    assert RunInsns(env, [a], st0) == InsnsOut([b], PassState(["f"], 42, 1));
    assert RunInsns(env, [a, a], st0) == InsnsOut([b, a], PassState(["f"], 42, 1));
    assert fs[..0] == [];
    var gs := [Func("f", [b, a])];
    var env2 := Env(BlindAll, [], gs);
    assert [b, a][..1] == [b];
    assert [b][..0] == [];
    assert RunInsns(env2, [b], st0) == InsnsOut([b], st0);
    assert RunInsns(env2, [b, a], st0) == InsnsOut([b, b], PassState(["f"], 42, 1));
    assert gs[..0] == [];
  }

  /** A two-callee scenario: a driver calling A and then B, both of 10
      instructions, with A recorded 1000 times and B once. */
  const ScenarioRaw: seq<ProfileEntry> := [ProfileEntry("A", 1000, 0.0), ProfileEntry("B", 1, 0.0)]
  const ScenarioBody: seq<Insn> := seq(10, _ => Insn(Other, NoItem))
  const ScenarioDriver: Func := Func("driver", [Insn(Call, FuncItem(1)), Insn(Call, FuncItem(2))])
  const ScenarioModule: seq<Func> := [ScenarioDriver, Func("A", ScenarioBody), Func("B", ScenarioBody)]

  /** Normalisation gives A price 1 and B price 0.001, hence budgets of 200
      and 5 instructions. */
  lemma ScenarioProfile()
    ensures Normalized(ScenarioRaw) == [ProfileEntry("A", 1000, 1.0), ProfileEntry("B", 1, 0.001)]
    ensures PriceOf(Normalized(ScenarioRaw), "A") == 1.0
    ensures PriceOf(Normalized(ScenarioRaw), "B") == 0.001
    ensures AdjustedThreshold(PriceOf(Normalized(ScenarioRaw), "A"), false) == 200
    ensures AdjustedThreshold(PriceOf(Normalized(ScenarioRaw), "B"), false) == 5
  {
    var raw := ScenarioRaw;
    assert raw[..1] == [raw[0]] && raw[..1][..0] == [];
    assert MaxCount(raw) == 1000;
    var profile := [ProfileEntry("A", 1000, 1.0), ProfileEntry("B", 1, 0.001)];
    assert Normalized(raw) == profile;
    assert Lookup(profile, "A") == Some(0);
    assert "B" != "A";
    assert Lookup(profile, "B") == Some(1);
    ThresholdEndPoints();
    assert ScaleFactor(0.001, false) == 0.1049;
    assert (50.0 * 0.1049).Floor == 5;
  }

  lemma ScenarioResolved()
    ensures Resolved(ScenarioModule)
  {
    assert InsnsResolved(ScenarioBody, 3);
  }

  /** In the driver, the call to A is promoted and the call to B is not. */
  lemma ScenarioDriverRun()
    ensures RunInsns(Env(ShadowPrice, Normalized(ScenarioRaw), ScenarioModule), ScenarioDriver.insns, PassState([], 42, 0))
         == InsnsOut([Insn(Inline, FuncItem(1)), Insn(Call, FuncItem(2))], PassState(["A"], 42, 1))
  {
    ScenarioProfile();
    var env := Env(ShadowPrice, Normalized(ScenarioRaw), ScenarioModule);
    var c1, c2 := ScenarioDriver.insns[0], ScenarioDriver.insns[1];
    var st0 := PassState([], 42, 0);
    var st1 := PassState(["A"], 42, 1);
    assert ScenarioDriver.insns[..1] == [c1] && [c1][..0] == [];
    assert "B" !in ["A"];
    assert Step(env, c1, st0) == InsnStep(c1.(code := Inline), st1);
    assert Step(env, c2, st1) == InsnStep(c2, st1);
    assert RunInsns(env, [c1], st0) == InsnsOut([c1.(code := Inline)], st1);
  }

  /** The whole pass under the price-guided condition: one mutation, the
      call to A, and the random state untouched. */
  lemma PriceGuidedScenario()
    ensures Resolved(ScenarioModule)
    ensures Mutate(ShadowPrice, Normalized(ScenarioRaw), ScenarioModule, 42)
         == MutateResult([Func("driver", [Insn(Inline, FuncItem(1)), Insn(Call, FuncItem(2))]),
                          Func("A", ScenarioBody), Func("B", ScenarioBody)], 1, 42)
  {
    ScenarioResolved();
    ScenarioDriverRun();
    var fs := ScenarioModule;
    var env := Env(ShadowPrice, Normalized(ScenarioRaw), fs);
    var st0 := PassState([], 42, 0);
    var st1 := PassState(["A"], 42, 1);
    RunInsnsNoCalls(env, ScenarioBody, st1);
    var d := Func("driver", [Insn(Inline, FuncItem(1)), Insn(Call, FuncItem(2))]);
    assert fs[..1][..0] == [];
    assert RunFuncs(env, fs[..1], st0) == FuncsOut([d], st1);
    assert fs[..2][..1] == fs[..1];
    assert RunFuncs(env, fs[..2], st0) == FuncsOut([d, Func("A", ScenarioBody)], st1);
    assert fs[..2] == fs[..|fs| - 1];
  }

  // ---------------------------------------------------------------------
  // The in-place pass.

  /** The functions of `a` and `b` agree in name and length, as they do
      before and after any number of promotions. */
  ghost predicate SameShape(a: seq<Func>, b: seq<Func>) {
    && |a| == |b|
    && forall k :: 0 <= k < |a| ==> a[k].name == b[k].name && |a[k].insns| == |b[k].insns|
  }

  /** The `switch (condition)` of `mutate_module` for one callee: whether
      to promote the call, and the random state after the decision. */
  method ShouldPromote(cond: Condition, profile: ProfileMap, calleeName: string, calleeInsns: nat, rngIn: bv32)
    returns (promote: bool, rng: bv32)
    requires profile.Valid()
    ensures Decision(promote, rng) == Decide(cond, profile.Contents(), calleeName, calleeInsns, rngIn)
  {
    rng := rngIn;
    match cond {
      case NoInline =>
        promote := false;
      case BlindAll =>
        promote := true;
      case Random50 =>
        rng := XorShift32(rng);
        promote := rng % 2 == 0;
      case ShadowPrice =>
        var pe := profile.Get(calleeName);
        var lambda := if pe.Some? then profile.entries[pe.value].price else 0.0;
        var threshold := AdjustedThreshold(lambda, false);
        promote := calleeInsns < threshold;
      case InvertedPrice =>
        var pe := profile.Get(calleeName);
        var lambda := if pe.Some? then profile.entries[pe.value].price else 0.0;
        var threshold := AdjustedThreshold(lambda, true);
        promote := calleeInsns < threshold;
    }
  }

  /** The body of the inner loop of `mutate_module` for one instruction,
      up to the rewrite: skip anything but a call to a function, skip a
      callee on the chain, otherwise decide, and push the callee when the
      decision is to promote.  `mutations` is the count so far, used only
      to state the result against `Step`. */
  method ConsiderCall(m: Module, insn: Insn, cond: Condition, profile: ProfileMap, chain: InlineChain,
                      ghost orig: seq<Func>, rngIn: bv32, ghost mutations: nat)
    returns (promote: bool, rng: bv32)
    requires profile.Valid() && chain.Valid()
    requires SameShape(m.funcs, orig) && TargetIn(insn.callee, |orig|)
    modifies chain, chain.names
    ensures chain.Valid()
    ensures promote ==> insn.code == Call
    ensures Step(Env(cond, profile.Contents(), orig), insn, PassState(old(chain.Names()), rngIn, mutations))
         == InsnStep(if promote then insn.(code := Inline) else insn,
                     PassState(chain.Names(), rng, if promote then mutations + 1 else mutations))
  {
    promote, rng := false, rngIn;
    if insn.code == Call && insn.callee.FuncItem? {
      var callee := m.funcs[insn.callee.index];
      var calleeName := callee.name;
      var calleeInsns := CountFuncInsns(callee);
      var inChain := chain.Contains(calleeName);
      if !inChain {
        promote, rng := ShouldPromote(cond, profile, calleeName, calleeInsns, rng);
        if promote {
          var pushed := chain.Push(calleeName);
        }
      }
    }
  }

  /** The inner loop of `mutate_module` over the instructions of function
      `i`, rewriting them in place; `orig` is the module as the pass found
      it. */
  method MutateFunc(m: Module, i: nat, cond: Condition, profile: ProfileMap, chain: InlineChain,
                    ghost orig: seq<Func>, rngIn: bv32, mutationsIn: nat)
    returns (rng: bv32, mutations: nat)
    requires profile.Valid() && chain.Valid() && Resolved(orig)
    requires i < |orig| && SameShape(m.funcs, orig) && m.funcs[i] == orig[i]
    modifies m, chain, chain.names
    ensures chain.Valid() && |m.funcs| == |orig|
    ensures m.funcs == old(m.funcs)[i := Func(orig[i].name, m.funcs[i].insns)]
    ensures RunInsns(Env(cond, profile.Contents(), orig), orig[i].insns, PassState(old(chain.Names()), rngIn, mutationsIn))
         == InsnsOut(m.funcs[i].insns, PassState(chain.Names(), rng, mutations))
  {
    ghost var env := Env(cond, profile.Contents(), orig);
    ghost var stF := PassState(chain.Names(), rngIn, mutationsIn);
    ghost var others := m.funcs;
    rng, mutations := rngIn, mutationsIn;
    assert orig[i].insns[..0] == [];
    var j := 0;
    while j < |m.funcs[i].insns|
      invariant chain.Valid()
      invariant InsnsDone(env, stF, others, i, m.funcs, j, PassState(chain.Names(), rng, mutations))
    {
      rng, mutations := MutateInsn(m, i, j, cond, profile, chain, orig, others, stF, rng, mutations);
      j := j + 1;
    }
    SameShapeUpdate(others, orig, i, m.funcs[i].insns);
    assert orig[i].insns[..|orig[i].insns|] == orig[i].insns;
    assert m.funcs[i].insns[..|orig[i].insns|] == m.funcs[i].insns;
  }

  /** Function `i` of `fs` has its first `j` instructions rewritten as the
      pass does from state `stF`, holds the original ones from `j` on, and
      the other functions are those of `others`. */
  ghost predicate InsnsDone(env: Env, stF: PassState, others: seq<Func>, i: nat, fs: seq<Func>, j: nat, st: PassState) {
    && i < |others| == |fs| && i < |env.funcs|
    && j <= |env.funcs[i].insns| == |fs[i].insns|
    && fs == others[i := Func(env.funcs[i].name, fs[i].insns)]
    && fs[i].insns[j..] == env.funcs[i].insns[j..]
    && RunInsns(env, env.funcs[i].insns[..j], stF) == InsnsOut(fs[i].insns[..j], st)
  }

  /** One iteration of the inner loop of `mutate_module`: consider
      instruction `j` of function `i` and rewrite it to `MIR_INLINE` when
      the callee is promoted. */
  method MutateInsn(m: Module, i: nat, j: nat, cond: Condition, profile: ProfileMap, chain: InlineChain,
                    ghost orig: seq<Func>, ghost others: seq<Func>, ghost stF: PassState, rngIn: bv32, mutationsIn: nat)
    returns (rng: bv32, mutations: nat)
    requires profile.Valid() && chain.Valid() && Resolved(orig) && SameShape(others, orig)
    requires InsnsDone(Env(cond, profile.Contents(), orig), stF, others, i, m.funcs, j, PassState(chain.Names(), rngIn, mutationsIn))
    requires j < |orig[i].insns|
    modifies m, chain, chain.names
    ensures chain.Valid()
    ensures InsnsDone(Env(cond, profile.Contents(), orig), stF, others, i, m.funcs, j + 1, PassState(chain.Names(), rng, mutations))
  {
    ghost var o := orig[i];
    ghost var before := m.funcs[i].insns;
    var insn := m.funcs[i].insns[j];
    assert insn == o.insns[j] by { assert before[j..][0] == o.insns[j..][0]; }
    assert InsnsResolved(o.insns, |orig|);
    SameShapeUpdate(others, orig, i, before);
    var promote;
    mutations := mutationsIn;
    promote, rng := ConsiderCall(m, insn, cond, profile, chain, orig, rngIn, mutations);
    if promote {
      m.funcs := m.funcs[i := m.funcs[i].(insns := m.funcs[i].insns[j := insn.(code := Inline)])];
      mutations := mutations + 1;
    }
    PrefixStep(o.insns, before, m.funcs[i].insns, j);
  }

  /** Rewriting the instructions of function `i` keeps the module's shape
      when it keeps their number. */
  lemma SameShapeUpdate(fs: seq<Func>, orig: seq<Func>, i: nat, insns: seq<Insn>)
    requires SameShape(fs, orig) && i < |fs| && |insns| == |orig[i].insns|
    ensures SameShape(fs[i := Func(orig[i].name, insns)], orig)
  {
  }

  /** Rewriting position `j` of a sequence that agrees with `o` from `j` on
      extends the rewritten prefix by one and keeps the agreement past it. */
  lemma PrefixStep(o: seq<Insn>, before: seq<Insn>, after: seq<Insn>, j: nat)
    requires j < |o| == |before| == |after| && before[j..] == o[j..]
    requires after == before[j := after[j]]
    ensures o[..j + 1][..j] == o[..j] && o[..j + 1][j] == o[j]
    ensures after[..j + 1] == before[..j] + [after[j]]
    ensures after[j + 1..] == o[j + 1..]
  {
    assert before[j + 1..] == before[j..][1..];
    assert o[j + 1..] == o[j..][1..];
  }

  /** One more function of the outer loop. */
  lemma RunFuncsPrefix(env: Env, fs: seq<Func>, i: nat, st: PassState)
    requires i < |fs|
    ensures var prev := RunFuncs(env, fs[..i], st);
            var body := RunInsns(env, fs[i].insns, prev.st);
            RunFuncs(env, fs[..i + 1], st) == FuncsOut(prev.funcs + [Func(fs[i].name, body.insns)], body.st)
  {
    assert fs[..i + 1][..i] == fs[..i];
  }

  /** Replacing element `i` extends the prefix before it by the new element
      and keeps everything after it. */
  lemma UpdatePrefix(before: seq<Func>, after: seq<Func>, i: nat)
    requires i < |before| == |after| && after == before[i := after[i]]
    ensures after[..i] == before[..i] && after[..i + 1] == before[..i] + [after[i]]
    ensures forall k :: i < k < |before| ==> after[k] == before[k]
  {
  }

  /** `mutate_module`: rewrites the opcodes of `m` in place, advancing the
      random state `rngState` (the C `*rng_state`) and returning the number
      of promotions together with the final random state. */
  method MutateModule(m: Module, cond: Condition, profile: ProfileMap, rngState: bv32)
    returns (mutations: nat, rng: bv32)
    requires profile.Valid() && Resolved(m.funcs)
    modifies m
    ensures Mutate(cond, profile.Contents(), old(m.funcs), rngState) == MutateResult(m.funcs, mutations, rng)
  {
    ghost var orig := m.funcs;
    ghost var env := Env(cond, profile.Contents(), orig);
    ghost var st0 := PassState([], rngState, 0);
    mutations := 0;
    rng := rngState;
    var chain := new InlineChain();
    assert orig[..0] == [];
    var i := 0;
    while i < |m.funcs|
      invariant chain.Valid() && fresh(chain) && fresh(chain.names)
      invariant FuncsDone(env, st0, m.funcs, i, PassState(chain.Names(), rng, mutations))
    {
      ghost var before := m.funcs;
      ghost var stMid := PassState(chain.Names(), rng, mutations);
      rng, mutations := MutateFunc(m, i, cond, profile, chain, orig, rng, mutations);
      FuncsDoneStep(env, st0, before, m.funcs, i, stMid, PassState(chain.Names(), rng, mutations));
      i := i + 1;
    }
    assert orig[..|orig|] == orig;
    assert m.funcs[..|orig|] == m.funcs;
  }

  /** The first `i` functions of `fs` are those the pass produces from
      state `st0`, ending in state `st`; the rest are as the pass found
      them. */
  ghost predicate FuncsDone(env: Env, st0: PassState, fs: seq<Func>, i: nat, st: PassState) {
    && i <= |env.funcs|
    && SameShape(fs, env.funcs)
    && (forall k :: i <= k < |fs| ==> fs[k] == env.funcs[k])
    && RunFuncs(env, env.funcs[..i], st0) == FuncsOut(fs[..i], st)
  }

  /** Rewriting function `i` as the inner loop does extends `FuncsDone`
      by one function. */
  lemma FuncsDoneStep(env: Env, st0: PassState, before: seq<Func>, after: seq<Func>, i: nat, stMid: PassState, st: PassState)
    requires FuncsDone(env, st0, before, i, stMid) && i < |env.funcs| && |after| == |before|
    requires after == before[i := Func(env.funcs[i].name, after[i].insns)]
    requires RunInsns(env, env.funcs[i].insns, stMid) == InsnsOut(after[i].insns, st)
    ensures FuncsDone(env, st0, after, i + 1, st)
  {
    RunFuncsPrefix(env, env.funcs, i, st0);
    UpdatePrefix(before, after, i);
    RunInsnsFrame(env, env.funcs[i].insns, stMid);
    SameShapeUpdate(before, env.funcs, i, after[i].insns);
  }
}
