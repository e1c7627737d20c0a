/** The inline-chain guard: a bounded list of the callee names promoted so
    far in one mutation pass. */
module Chain {

  /** `MAX_INLINE_CHAIN`. */
  const MaxInlineChain: nat := 64

  /** Linear scan for `name`, front to back. */
  function Occurs(s: seq<string>, name: string): (r: bool)
    ensures r <==> name in s
  {
    |s| > 0 && (s[0] == name || Occurs(s[1..], name))
  }

  /** What `chain_push` does to the list of names: append while below
      capacity, otherwise keep it as it is. */
  function Pushed(s: seq<string>, name: string): seq<string> {
    if |s| < MaxInlineChain then s + [name] else s
  }

  /** `inline_chain_t`: a fixed array of names and the number in use. */
  class InlineChain {
    const names: array<string>
    var depth: nat

    ghost predicate Valid()
      reads this
    {
      names.Length == MaxInlineChain && depth <= MaxInlineChain
    }

    /** The names pushed so far, in order. */
    ghost function Names(): seq<string>
      reads this, names
      requires Valid()
    {
      names[..depth]
    }

    /** `chain_init`: an empty chain. */
    constructor ()
      ensures Valid() && fresh(names) && Names() == []
    {
      names := new string[MaxInlineChain](_ => "");
      depth := 0;
    }

    /** `chain_contains`: whether `name` is among the first `depth` entries. */
    function Contains(name: string): (r: bool)
      reads this, names
      requires Valid()
      ensures r <==> name in Names()
    {
      Occurs(names[..depth], name)
    }

    /** `chain_push`: store `name` and return true while below capacity;
        return false and change nothing once full. */
    method Push(name: string) returns (ok: bool)
      requires Valid()
      modifies this, names
      ensures Valid()
      ensures ok == (old(depth) < MaxInlineChain)
      ensures Names() == Pushed(old(Names()), name)
    {
      if depth >= MaxInlineChain {
        return false;
      }
      ghost var before := names[..depth];
      names[depth] := name;
      depth := depth + 1;
      assert names[..depth] == before + [name];
      return true;
    }
  }
}
