/** The part of a MIR module the experiment reads and writes: functions in
    declaration order, each a name and a list of instructions; an
    instruction is an opcode and, for the call family, a callee reference. */
module Ir {

  /** `MIR_CALL`, `MIR_INLINE`, and every other opcode. */
  datatype Opcode = Call | Inline | Other

  /** What `insn->ops[1].u.ref` refers to: nothing, an item that is not a
      function, or the function at `index` in the module. */
  datatype Target = NoItem | NonFuncItem | FuncItem(index: nat)

  datatype Insn = Insn(code: Opcode, callee: Target)

  datatype Func = Func(name: string, insns: seq<Insn>)

  /** A function reference names a function of a module with `n` functions. */
  predicate TargetIn(t: Target, n: nat) {
    t.FuncItem? ==> t.index < n
  }

  /** The reference names one of the `n` functions of a module. */
  predicate IsFuncRef(t: Target, n: nat) {
    t.FuncItem? && t.index < n
  }

  ghost predicate InsnsResolved(insns: seq<Insn>, n: nat) {
    forall j :: 0 <= j < |insns| ==> TargetIn(insns[j].callee, n)
  }

  ghost predicate FuncsResolved(fs: seq<Func>, n: nat) {
    forall i :: 0 <= i < |fs| ==> InsnsResolved(fs[i].insns, n)
  }

  /** Every function reference of the module points into the module, as a
      loaded MIR module's item pointers do. */
  ghost predicate Resolved(fs: seq<Func>) {
    FuncsResolved(fs, |fs|)
  }

  /** The module whose instruction opcodes the mutation pass rewrites. */
  class Module {
    var funcs: seq<Func>

    constructor (fs: seq<Func>)
      ensures funcs == fs
    {
      funcs := fs;
    }
  }

  /** `count_func_insns`: walk the instruction list and count it. */
  method CountFuncInsns(f: Func) returns (n: nat)
    ensures n == |f.insns|
  {
    n := 0;
    var rest := f.insns;
    while rest != []
      invariant n + |rest| == |f.insns|
    {
      n := n + 1;
      rest := rest[1..];
    }
  }
}
