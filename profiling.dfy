/** The static profiling pass `profile_module`: every `Call` or `Inline`
    instruction whose callee resolves to a function records one hit for the
    callee's name, in traversal order; the table is normalised at the end.

    `CallSiteNames` is the sequence of names the pass records; the in-place
    method `ProfileModule` is proved to apply exactly those increments. */
module Profiling {
  import opened Ir
  import opened Profile
  import Mutation

  /** The name one instruction records, if any. */
  function SiteName(fs: seq<Func>, x: Insn): seq<string> {
    if (x.code == Call || x.code == Inline) && IsFuncRef(x.callee, |fs|) then [fs[x.callee.index].name] else []
  }

  /** The names recorded by a function's instructions, front to back. */
  function SiteNames(fs: seq<Func>, insns: seq<Insn>): seq<string>
    decreases |insns|
  {
    if insns == [] then []
    else SiteNames(fs, insns[..|insns| - 1]) + SiteName(fs, insns[|insns| - 1])
  }

  /** The names recorded by the functions `prefix` of module `fs`, in order. */
  function ModuleSiteNames(fs: seq<Func>, prefix: seq<Func>): seq<string>
    decreases |prefix|
  {
    if prefix == [] then []
    else ModuleSiteNames(fs, prefix[..|prefix| - 1]) + SiteNames(fs, prefix[|prefix| - 1].insns)
  }

  /** Every name `profile_module` records for module `fs`, in order. */
  function CallSiteNames(fs: seq<Func>): seq<string> {
    ModuleSiteNames(fs, fs)
  }

  /** Every recorded name is the name of a function reached by a `Call` or
      `Inline` instruction. */
  lemma {:induction false} SiteNamesAreCallees(fs: seq<Func>, insns: seq<Insn>)
    ensures forall n :: n in SiteNames(fs, insns) ==>
      exists j :: 0 <= j < |insns| && insns[j].code != Other && IsFuncRef(insns[j].callee, |fs|)
                  && fs[insns[j].callee.index].name == n
    ensures |SiteNames(fs, insns)| <= |insns|
    decreases |insns|
  {
    if insns != [] {
      var k := |insns| - 1;
      SiteNamesAreCallees(fs, insns[..k]);
      forall n | n in SiteNames(fs, insns)
        ensures exists j :: 0 <= j < |insns| && insns[j].code != Other && IsFuncRef(insns[j].callee, |fs|)
                            && fs[insns[j].callee.index].name == n
      {
        if n in SiteNames(fs, insns[..k]) {
          var j :| 0 <= j < k && insns[..k][j].code != Other && IsFuncRef(insns[..k][j].callee, |fs|)
                   && fs[insns[..k][j].callee.index].name == n;
          assert insns[j] == insns[..k][j];
        } else {
          assert n in SiteName(fs, insns[k]);
        }
      }
    }
  }

  /** Instruction `x` is a `Call` or `Inline` to the function named `n`. */
  predicate SiteOf(fs: seq<Func>, x: Insn, n: string) {
    x.code != Other && IsFuncRef(x.callee, |fs|) && fs[x.callee.index].name == n
  }

  /** The positions of the call sites naming `n`. */
  ghost function SitesOf(fs: seq<Func>, insns: seq<Insn>, n: string): set<nat> {
    set j: nat | j < |insns| && SiteOf(fs, insns[j], n)
  }

  /** Conversely, every `Call` or `Inline` to a function records its
      callee's name exactly once: a name occurs in the record as many
      times as there are call sites naming it. */
  lemma {:induction false} SiteNamesCount(fs: seq<Func>, insns: seq<Insn>, n: string)
    ensures multiset(SiteNames(fs, insns))[n] == |SitesOf(fs, insns, n)|
    decreases |insns|
  {
    if insns == [] {
      assert SitesOf(fs, insns, n) == {};
    } else {
      var k := |insns| - 1;
      SiteNamesCount(fs, insns[..k], n);
      SitesOfSnoc(fs, insns, n);
      assert multiset(SiteNames(fs, insns)) == multiset(SiteNames(fs, insns[..k])) + multiset(SiteName(fs, insns[k]));
    }
  }

  /** The call sites of a non-empty list: those of its front, and the last
      position when it is one. */
  lemma SitesOfSnoc(fs: seq<Func>, insns: seq<Insn>, n: string)
    requires insns != []
    ensures var k := |insns| - 1;
            |SitesOf(fs, insns, n)| == |SitesOf(fs, insns[..k], n)| + if SiteOf(fs, insns[k], n) then 1 else 0
  {
    var k := |insns| - 1;
    var a := SitesOf(fs, insns[..k], n);
    var last: set<nat> := if SiteOf(fs, insns[k], n) then {k} else {};
    forall j | j in SitesOf(fs, insns, n) ensures j in a + last {
      if j < k {
        assert insns[..k][j] == insns[j];
      }
    }
    forall j | j in a + last ensures j in SitesOf(fs, insns, n) {
      if j in a {
        assert insns[..k][j] == insns[j];
      }
    }
    assert SitesOf(fs, insns, n) == a + last;
    assert k !in a;
  }

  /** Promotion does not change what profiling records: `Inline` counts
      like `Call`, so re-profiling a mutated module records the same names. */
  lemma {:induction false} SiteNamesIgnorePromotion(fs: seq<Func>, gs: seq<Func>, a: seq<Insn>, b: seq<Insn>)
    requires Mutation.SameShape(fs, gs)
    requires Mutation.OnlyPromotions(a, b, |fs|)
    ensures SiteNames(gs, b) == SiteNames(fs, a)
    decreases |a|
  {
    var k := |a| - 1;
    if a != [] {
      assert Mutation.OnlyPromotions(a[..k], b[..k], |fs|);
      SiteNamesIgnorePromotion(fs, gs, a[..k], b[..k]);
      assert b[k].callee == a[k].callee;
    }
    assert forall j :: 0 <= j < |b| ==> b[j].callee == a[j].callee;
  }

  lemma {:induction false} ModuleSiteNamesIgnorePromotion(fs: seq<Func>, gs: seq<Func>, fa: seq<Func>, fb: seq<Func>)
    requires Mutation.SameShape(fs, gs)
    requires Mutation.ModuleOnlyPromotions(fa, fb, |fs|)
    ensures ModuleSiteNames(gs, fb) == ModuleSiteNames(fs, fa)
    decreases |fa|
  {
    if fa != [] {
      var k := |fa| - 1;
      assert Mutation.ModuleOnlyPromotions(fa[..k], fb[..k], |fs|);
      ModuleSiteNamesIgnorePromotion(fs, gs, fa[..k], fb[..k]);
      SiteNamesIgnorePromotion(fs, gs, fa[k].insns, fb[k].insns);
    }
  }

  /** Profiling the module a mutation pass produced records exactly what
      profiling the module before it recorded, whatever the condition. */
  lemma ProfileStableUnderMutation(cond: Mutation.Condition, profile: seq<ProfileEntry>, fs: seq<Func>, rng: bv32)
    ensures CallSiteNames(Mutation.Mutate(cond, profile, fs, rng).funcs) == CallSiteNames(fs)
  {
    var gs := Mutation.Mutate(cond, profile, fs, rng).funcs;
    Mutation.MutateCountsPromotions(cond, profile, fs, rng);
    ModuleSiteNamesIgnorePromotion(fs, gs, fs, gs);
  }

  /** On an empty table and when no callee is dropped, the profile records
      for every name exactly the number of call sites naming it, and
      normalisation keeps the table well-formed and those counts.
      `ProfileOfSmallModule` gives the same for at most 256 distinct
      callees. */
  lemma ProfileOfModule(fs: seq<Func>, n: string)
    requires Recorded(IncrementAll([], CallSiteNames(fs)), CallSiteNames(fs))
    ensures CountOf(IncrementAll([], CallSiteNames(fs)), n) == multiset(CallSiteNames(fs))[n]
    ensures WellFormed(Normalized(IncrementAll([], CallSiteNames(fs))))
    ensures CountOf(Normalized(IncrementAll([], CallSiteNames(fs))), n) == multiset(CallSiteNames(fs))[n]
  {
    ExactProfile(CallSiteNames(fs), n);
  }

  /** A module whose calls name at most 256 distinct functions is
      profiled exactly: no callee is dropped, so every name's count, before
      and after normalisation, is its number of call sites. */
  lemma ProfileOfSmallModule(fs: seq<Func>, n: string)
    requires |NameSet(CallSiteNames(fs))| <= ProfileMapSize
    ensures Recorded(IncrementAll([], CallSiteNames(fs)), CallSiteNames(fs))
    ensures WellFormed(Normalized(IncrementAll([], CallSiteNames(fs))))
    ensures CountOf(Normalized(IncrementAll([], CallSiteNames(fs))), n) == multiset(CallSiteNames(fs))[n]
  {
    AtMost256Recorded(CallSiteNames(fs));
    ProfileOfModule(fs, n);
  }

  lemma SiteNamesStep(fs: seq<Func>, insns: seq<Insn>, j: nat)
    requires j < |insns|
    ensures SiteNames(fs, insns[..j + 1]) == SiteNames(fs, insns[..j]) + SiteName(fs, insns[j])
  {
    assert insns[..j + 1][..j] == insns[..j];
  }

  lemma ModuleSiteNamesStep(fs: seq<Func>, i: nat)
    requires i < |fs|
    ensures ModuleSiteNames(fs, fs[..i + 1]) == ModuleSiteNames(fs, fs[..i]) + SiteNames(fs, fs[i].insns)
  {
    assert fs[..i + 1][..i] == fs[..i];
  }

  /** One instruction of the inner loop: a `Call` or `Inline` whose callee
      is a function records one hit for the callee's name. */
  method ProfileInsn(fs: seq<Func>, insn: Insn, profile: ProfileMap)
    requires profile.Valid() && TargetIn(insn.callee, |fs|)
    modifies profile, profile.entries
    ensures profile.Valid()
    ensures profile.Contents() == IncrementAll(old(profile.Contents()), SiteName(fs, insn))
    ensures profile.maxCount == old(profile.maxCount)
  {
    if insn.code == Call || insn.code == Inline {
      if insn.callee.FuncItem? {
        profile.Increment(fs[insn.callee.index].name);
      }
    }
  }

  /** The inner loop of `profile_module` over the instructions of one
      function of the module whose functions are `fs`. */
  method ProfileFunc(fs: seq<Func>, insns: seq<Insn>, profile: ProfileMap)
    requires profile.Valid() && InsnsResolved(insns, |fs|)
    modifies profile, profile.entries
    ensures profile.Valid()
    ensures profile.Contents() == IncrementAll(old(profile.Contents()), SiteNames(fs, insns))
    ensures profile.maxCount == old(profile.maxCount)
  {
    ghost var start := profile.Contents();
    assert insns[..0] == [];
    var j := 0;
    while j < |insns|
      invariant 0 <= j <= |insns|
      invariant profile.Valid() && profile.maxCount == old(profile.maxCount)
      invariant profile.Contents() == IncrementAll(start, SiteNames(fs, insns[..j]))
    {
      ProfileInsn(fs, insns[j], profile);
      SiteNamesStep(fs, insns, j);
      IncrementAllAppend(start, SiteNames(fs, insns[..j]), SiteName(fs, insns[j]));
      j := j + 1;
    }
    assert insns[..|insns|] == insns;
  }

  /** `profile_module`: record every call site of `m`, then normalise. */
  method ProfileModule(m: Module, profile: ProfileMap)
    requires profile.Valid() && Resolved(m.funcs)
    modifies profile, profile.entries
    ensures profile.Valid()
    ensures profile.Contents() == Normalized(IncrementAll(old(profile.Contents()), CallSiteNames(m.funcs)))
    ensures profile.maxCount == MaxCount(IncrementAll(old(profile.Contents()), CallSiteNames(m.funcs))) as real
  {
    ghost var start := profile.Contents();
    var fs := m.funcs;
    var i := 0;
    while i < |fs|
      invariant 0 <= i <= |fs|
      invariant profile.Valid()
      invariant profile.Contents() == IncrementAll(start, ModuleSiteNames(fs, fs[..i]))
    {
      assert InsnsResolved(fs[i].insns, |fs|);
      ProfileFunc(fs, fs[i].insns, profile);
      ModuleSiteNamesStep(fs, i);
      IncrementAllAppend(start, ModuleSiteNames(fs, fs[..i]), SiteNames(fs, fs[i].insns));
      i := i + 1;
    }
    assert fs[..|fs|] == fs;
    profile.Normalize();
  }
}
