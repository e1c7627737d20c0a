/** The profile map: a fixed-capacity table from callee name to a static
    call-site count and a normalised shadow price.  The functions on
    `seq<ProfileEntry>` describe the table's contents; the class `ProfileMap`
    is the array the experiment updates in place. */
module Profile {
  import opened Wrappers

  /** `PROFILE_MAP_SIZE`: the number of rows the table can hold. */
  const ProfileMapSize: nat := 256

  /** One row: the callee's name, its raw call count and its shadow price
      (0.0 until the table is normalised). */
  datatype ProfileEntry = ProfileEntry(name: string, calls: nat, price: real)

  ghost predicate UniqueNames(s: seq<ProfileEntry>) {
    forall i, j :: 0 <= i < j < |s| ==> s[i].name != s[j].name
  }

  /** What every table built by `Incremented` and `Normalized` satisfies:
      within capacity, one row per name, every row seen at least once and
      every price in [0, 1]. */
  ghost predicate WellFormed(s: seq<ProfileEntry>) {
    && |s| <= ProfileMapSize
    && UniqueNames(s)
    && forall i :: 0 <= i < |s| ==> s[i].calls >= 1 && 0.0 <= s[i].price <= 1.0
  }

  /** `profile_map_get`: the index of the first row named `name`, scanning
      from the front, or `None`. */
  function Lookup(s: seq<ProfileEntry>, name: string): (r: Option<nat>)
    ensures r.Some? ==> r.value < |s| && s[r.value].name == name
    ensures r.Some? ==> forall j :: 0 <= j < r.value ==> s[j].name != name
    ensures r.None? <==> forall j :: 0 <= j < |s| ==> s[j].name != name
  {
    if s == [] then None
    else if s[0].name == name then Some(0)
    else match Lookup(s[1..], name)
      case None => None
      case Some(k) => Some(k + 1)
  }

  /** The shadow price the mutation pass reads for `name`: the row's price,
      or 0.0 (maximally cold) when there is no row. */
  function PriceOf(s: seq<ProfileEntry>, name: string): (p: real)
    ensures WellFormed(s) ==> 0.0 <= p <= 1.0
    ensures (forall j :: 0 <= j < |s| ==> s[j].name != name) ==> p == 0.0
  {
    match Lookup(s, name)
    case None => 0.0
    case Some(i) => s[i].price
  }

  /** The raw count recorded for `name`, 0 when there is no row. */
  function CountOf(s: seq<ProfileEntry>, name: string): nat {
    match Lookup(s, name)
    case None => 0
    case Some(i) => s[i].calls
  }

  /** `profile_map_increment` on the table's contents: bump an existing row,
      append a fresh row while there is room, or drop the name. */
  function Incremented(s: seq<ProfileEntry>, name: string): seq<ProfileEntry> {
    match Lookup(s, name)
    case Some(i) => s[i := s[i].(calls := s[i].calls + 1)]
    case None =>
      if |s| < ProfileMapSize then s + [ProfileEntry(name, 1, 0.0)] else s
  }

  /** Incrementing a name already present raises its count by one and
      changes nothing else, not even the number of rows. */
  lemma IncrementExisting(s: seq<ProfileEntry>, name: string, i: nat)
    requires WellFormed(s) && i < |s| && s[i].name == name
    ensures |Incremented(s, name)| == |s|
    ensures Incremented(s, name)[i] == s[i].(calls := s[i].calls + 1)
    ensures forall j :: 0 <= j < |s| && j != i ==> Incremented(s, name)[j] == s[j]
  {
    assert forall j :: 0 <= j < |s| && j != i ==> s[j].name != name by {
      assert UniqueNames(s);
    }
  }

  /** Incrementing an unseen name while there is room appends the row
      `(name, 1, 0.0)`. */
  lemma IncrementNew(s: seq<ProfileEntry>, name: string)
    requires WellFormed(s) && |s| < ProfileMapSize
    requires forall j :: 0 <= j < |s| ==> s[j].name != name
    ensures Incremented(s, name) == s + [ProfileEntry(name, 1, 0.0)]
    ensures Lookup(Incremented(s, name), name) == Some(|s|)
    ensures CountOf(Incremented(s, name), name) == 1
  {
    var r := s + [ProfileEntry(name, 1, 0.0)];
    assert r[|s|].name == name;
  }

  /** With every row taken, an unseen name is silently dropped. */
  lemma IncrementFull(s: seq<ProfileEntry>, name: string)
    requires WellFormed(s) && |s| == ProfileMapSize
    requires forall j :: 0 <= j < |s| ==> s[j].name != name
    ensures Incremented(s, name) == s
    ensures CountOf(Incremented(s, name), name) == 0
  {
  }

  /** Incrementing keeps names unique and the table within capacity; the
      table never shrinks and grows by at most one row. */
  lemma IncrementWellFormed(s: seq<ProfileEntry>, name: string)
    requires WellFormed(s)
    ensures WellFormed(Incremented(s, name))
    ensures |s| <= |Incremented(s, name)| <= |s| + 1
  {
    var r := Incremented(s, name);
    match Lookup(s, name)
    case Some(i) =>
      forall a, b | 0 <= a < b < |r| ensures r[a].name != r[b].name {
        assert r[a].name == s[a].name && r[b].name == s[b].name;
      }
    case None =>
  }

  /** One increment changes the recorded count of `name` by one when it was
      not dropped, and leaves every other name's count alone. */
  lemma IncrementedCountOf(s: seq<ProfileEntry>, x: string, n: string)
    requires WellFormed(s) && (Lookup(s, x).Some? || |s| < ProfileMapSize)
    ensures CountOf(Incremented(s, x), n) == CountOf(s, n) + (if n == x then 1 else 0)
  {
    var r := Incremented(s, x);
    IncrementWellFormed(s, x);
    match Lookup(s, x) {
      case Some(i) =>
        IncrementExisting(s, x, i);
        assert forall j :: 0 <= j < |r| ==> r[j].name == s[j].name;
        match Lookup(s, n) {
          case Some(k) =>
            assert Lookup(r, n) == Some(k) by {
              assert forall j :: 0 <= j < |r| && j != k ==> r[j].name != n by {
                assert UniqueNames(r);
              }
            }
          case None =>
        }
      case None =>
        assert r == s + [ProfileEntry(x, 1, 0.0)];
        assert r[|s|].name == x;
        match Lookup(s, n) {
          case Some(k) =>
            assert r[k] == s[k];
            assert Lookup(r, n) == Some(k) by {
              assert forall j :: 0 <= j < |r| && j != k ==> r[j].name != n by {
                assert UniqueNames(r);
              }
            }
          case None =>
            if n == x {
              assert Lookup(r, n) == Some(|s|);
            } else {
              assert forall j :: 0 <= j < |r| ==> r[j].name != n;
            }
        }
    }
  }

  /** The increments of `profile_module`, applied in order. */
  function IncrementAll(s: seq<ProfileEntry>, names: seq<string>): seq<ProfileEntry>
    decreases |names|
  {
    if names == [] then s
    else Incremented(IncrementAll(s, names[..|names| - 1]), names[|names| - 1])
  }

  /** Increments applied in two runs are the increments of both, in order. */
  lemma {:induction false} IncrementAllAppend(s: seq<ProfileEntry>, a: seq<string>, b: seq<string>)
    ensures IncrementAll(s, a + b) == IncrementAll(IncrementAll(s, a), b)
    decreases |b|
  {
    if b == [] {
      assert a + b == a;
    } else {
      IncrementAllAppend(s, a, b[..|b| - 1]);
      assert (a + b)[..|a + b| - 1] == a + b[..|b| - 1];
    }
  }

  lemma {:induction false} IncrementAllWellFormed(s: seq<ProfileEntry>, names: seq<string>)
    requires WellFormed(s)
    ensures WellFormed(IncrementAll(s, names))
    ensures |s| <= |IncrementAll(s, names)|
    decreases |names|
  {
    if names != [] {
      IncrementAllWellFormed(s, names[..|names| - 1]);
      IncrementWellFormed(IncrementAll(s, names[..|names| - 1]), names[|names| - 1]);
    }
  }

  /** Every name of `names` has a row in `t`: none of them was dropped. */
  ghost predicate Recorded(t: seq<ProfileEntry>, names: seq<string>) {
    forall k :: 0 <= k < |names| ==> Lookup(t, names[k]).Some?
  }

  /** An increment never removes a row, adds at most a row for `x`, and
      leaves `x` without a row only by dropping it from a full table. */
  lemma IncrementedRows(t: seq<ProfileEntry>, x: string, n: string)
    requires WellFormed(t)
    ensures Lookup(t, n).Some? ==> Lookup(Incremented(t, x), n).Some?
    ensures Lookup(Incremented(t, x), n).Some? ==> Lookup(t, n).Some? || n == x
    ensures Lookup(Incremented(t, x), x).None? ==> Incremented(t, x) == t && |t| == ProfileMapSize
  {
    var r := Incremented(t, x);
    match Lookup(t, x) {
      case Some(i) =>
        assert forall j :: 0 <= j < |t| ==> r[j].name == t[j].name;
      case None =>
        if |t| < ProfileMapSize {
          assert r == t + [ProfileEntry(x, 1, 0.0)];
          assert r[|t|].name == x;
          assert forall j :: 0 <= j < |t| ==> r[j].name == t[j].name;
        }
    }
  }

  /** A name that occurs among the increments but has no row was dropped,
      and a table that drops a name is full and stays full. */
  lemma {:induction false} DroppedMeansFull(s: seq<ProfileEntry>, names: seq<string>, n: string)
    requires WellFormed(s) && n in names && Lookup(IncrementAll(s, names), n).None?
    ensures |IncrementAll(s, names)| == ProfileMapSize
    decreases |names|
  {
    var front, y := names[..|names| - 1], names[|names| - 1];
    assert names == front + [y];
    var t := IncrementAll(s, front);
    IncrementAllWellFormed(s, front);
    IncrementWellFormed(t, y);
    IncrementedRows(t, y, n);
    if n != y {
      assert n in front;
      DroppedMeansFull(s, front, n);
    }
  }

  /** While the table stays below capacity, nothing is dropped. */
  lemma RecordedBelowCapacity(s: seq<ProfileEntry>, names: seq<string>)
    requires WellFormed(s) && |IncrementAll(s, names)| < ProfileMapSize
    ensures Recorded(IncrementAll(s, names), names)
  {
    forall k | 0 <= k < |names| ensures Lookup(IncrementAll(s, names), names[k]).Some? {
      if Lookup(IncrementAll(s, names), names[k]).None? {
        DroppedMeansFull(s, names, names[k]);
      }
    }
  }

  /** The distinct names among `names`. */
  ghost function NameSet(names: seq<string>): set<string> {
    set k | 0 <= k < |names| :: names[k]
  }

  /** The names that have a row in `t`. */
  ghost function RowNames(t: seq<ProfileEntry>): set<string> {
    set j | 0 <= j < |t| :: t[j].name
  }

  /** Starting from an empty table, every row belongs to a name that was
      incremented. */
  lemma {:induction false} RowNamesFromIncrements(names: seq<string>)
    ensures RowNames(IncrementAll([], names)) <= NameSet(names)
    decreases |names|
  {
    if names != [] {
      var front, y := names[..|names| - 1], names[|names| - 1];
      var t := IncrementAll([], front);
      RowNamesFromIncrements(front);
      assert NameSet(front) <= NameSet(names) by {
        forall k | 0 <= k < |front| ensures front[k] in NameSet(names) {
          assert front[k] == names[k];
        }
      }
      assert y in NameSet(names) by {
        assert names[|names| - 1] == y;
      }
      var r := Incremented(t, y);
      forall j | 0 <= j < |r| ensures r[j].name in NameSet(names) {
        if j < |t| {
          assert r[j].name == t[j].name;
          assert t[j].name in RowNames(t);
        } else {
          assert r[j].name == y;
        }
      }
    }
  }

  /** The row names of a table are those of all but its last row, plus the
      last row's name. */
  lemma RowNamesSnoc(t: seq<ProfileEntry>)
    requires t != []
    ensures RowNames(t) == RowNames(t[..|t| - 1]) + {t[|t| - 1].name}
  {
    var k := |t| - 1;
    var front := t[..k];
    forall n | n in RowNames(t) ensures n in RowNames(front) + {t[k].name} {
      var j :| 0 <= j < |t| && t[j].name == n;
      if j < k {
        assert front[j] == t[j];
      }
    }
    forall n | n in RowNames(front) ensures n in RowNames(t) {
      var j :| 0 <= j < |front| && front[j].name == n;
      assert t[j] == front[j];
    }
  }

  /** Dropping the last row of a table with one row per name keeps one row
      per name, and the last row's name is not among the rest. */
  lemma UniqueFront(t: seq<ProfileEntry>)
    requires t != [] && UniqueNames(t)
    ensures UniqueNames(t[..|t| - 1])
    ensures t[|t| - 1].name !in RowNames(t[..|t| - 1])
  {
    var front := t[..|t| - 1];
    forall i, j | 0 <= i < j < |front| ensures front[i].name != front[j].name {
      assert front[i] == t[i] && front[j] == t[j];
    }
    forall j | 0 <= j < |front| ensures front[j].name != t[|t| - 1].name {
      assert front[j] == t[j];
    }
  }

  /** With one row per name, a table has as many distinct names as rows. */
  lemma {:induction false} RowNamesCount(t: seq<ProfileEntry>)
    requires UniqueNames(t)
    ensures |RowNames(t)| == |t|
    decreases |t|
  {
    if t != [] {
      UniqueFront(t);
      RowNamesCount(t[..|t| - 1]);
      RowNamesSnoc(t);
    }
  }

  lemma {:induction false} SubsetCard<T>(a: set<T>, b: set<T>)
    requires a <= b
    ensures |a| <= |b|
    decreases |a|
  {
    if a != {} {
      var x :| x in a;
      SubsetCard(a - {x}, b - {x});
    }
  }

  /** Starting from an empty table, at most 256 distinct names are never
      dropped: every one of them ends with a row. */
  lemma AtMost256Recorded(names: seq<string>)
    requires |NameSet(names)| <= ProfileMapSize
    ensures Recorded(IncrementAll([], names), names)
  {
    var t := IncrementAll([], names);
    IncrementAllWellFormed([], names);
    forall k | 0 <= k < |names| ensures Lookup(t, names[k]).Some? {
      if Lookup(t, names[k]).None? {
        DroppedMeansFull([], names, names[k]);
        RowNamesFromIncrements(names);
        RowNamesCount(t);
        assert names[k] !in RowNames(t);
        assert names[k] in NameSet(names);
        SubsetCard(RowNames(t) + {names[k]}, NameSet(names));
        assert false;
      }
    }
  }

  /** No row has been priced yet: every shadow price is still 0.0. */
  ghost predicate Unpriced(s: seq<ProfileEntry>) {
    forall i :: 0 <= i < |s| ==> s[i].price == 0.0
  }

  /** An increment never sets a price: a bumped row keeps its price and a
      new row starts at 0.0. */
  lemma IncrementedUnpriced(s: seq<ProfileEntry>, x: string)
    requires Unpriced(s)
    ensures Unpriced(Incremented(s, x))
  {
  }

  /** Any run of increments leaves an unpriced table unpriced. */
  lemma {:induction false} IncrementAllUnpriced(s: seq<ProfileEntry>, names: seq<string>)
    requires Unpriced(s)
    ensures Unpriced(IncrementAll(s, names))
    decreases |names|
  {
    if names != [] {
      IncrementAllUnpriced(s, names[..|names| - 1]);
      IncrementedUnpriced(IncrementAll(s, names[..|names| - 1]), names[|names| - 1]);
    }
  }

  /** Before normalisation, reading the shadow price of any name, recorded
      or not, gives 0.0. */
  lemma BeforeNormalisation(names: seq<string>, n: string)
    ensures Unpriced(IncrementAll([], names))
    ensures PriceOf(IncrementAll([], names), n) == 0.0
  {
    IncrementAllUnpriced([], names);
  }

  /** When no name was dropped, profiling counts exactly: each name's
      recorded count grows by the number of times it occurs in `names`. */
  lemma {:induction false} IncrementAllCounts(s: seq<ProfileEntry>, names: seq<string>, n: string)
    requires WellFormed(s) && Recorded(IncrementAll(s, names), names)
    ensures CountOf(IncrementAll(s, names), n) == CountOf(s, n) + multiset(names)[n]
    decreases |names|
  {
    if names != [] {
      var front, x := names[..|names| - 1], names[|names| - 1];
      assert names == front + [x];
      var t := IncrementAll(s, front);
      IncrementAllWellFormed(s, front);
      assert Lookup(Incremented(t, x), x).Some?;
      IncrementedRows(t, x, x);
      forall k | 0 <= k < |front| ensures Lookup(t, front[k]).Some? {
        assert front[k] == names[k];
        IncrementedRows(t, x, front[k]);
        if Lookup(t, front[k]).None? {
          DroppedMeansFull(s, front, front[k]);
        }
      }
      IncrementAllCounts(s, front, n);
      IncrementedCountOf(t, x, n);
    }
  }

  /** From an empty table, when no name is dropped, each name's count in
      the table and in its normalisation is its number of occurrences, and
      the normalised table is well-formed. */
  lemma ExactProfile(names: seq<string>, n: string)
    requires Recorded(IncrementAll([], names), names)
    ensures CountOf(IncrementAll([], names), n) == multiset(names)[n]
    ensures WellFormed(Normalized(IncrementAll([], names)))
    ensures CountOf(Normalized(IncrementAll([], names)), n) == multiset(names)[n]
  {
    var s := IncrementAll([], names);
    IncrementAllCounts([], names, n);
    IncrementAllWellFormed([], names);
    NormalizedWellFormed(s);
    NormalizedKeepsCounts(s, n);
  }

  /** The largest raw count, found the way `profile_map_normalize` finds it
      (0 for an empty table). */
  function MaxCount(s: seq<ProfileEntry>): (m: nat)
    ensures forall i :: 0 <= i < |s| ==> s[i].calls <= m
    ensures s == [] ==> m == 0
    ensures s != [] ==> exists i :: 0 <= i < |s| && s[i].calls == m
  {
    if s == [] then 0
    else
      var m0 := MaxCount(s[..|s| - 1]);
      if s[|s| - 1].calls > m0 then s[|s| - 1].calls else m0
  }

  /** One more row of the scan for the maximum. */
  lemma MaxCountStep(s: seq<ProfileEntry>, i: nat)
    requires i < |s|
    ensures MaxCount(s[..i + 1]) == if s[i].calls > MaxCount(s[..i]) then s[i].calls else MaxCount(s[..i])
  {
    assert s[..i + 1][..i] == s[..i];
  }

  /** The same step on the running maximum as the `double` the loop keeps. */
  lemma MaxCountStepReal(s: seq<ProfileEntry>, i: nat, mx: real, c: nat)
    requires i < |s| && c == s[i].calls && mx == MaxCount(s[..i]) as real
    ensures MaxCount(s[..i + 1]) as real == if c as real > mx then c as real else mx
  {
    MaxCountStep(s, i);
  }

  /** A count as a fraction of the maximum count. */
  function Share(calls: nat, max: nat): real
    requires max > 0
  {
    calls as real / max as real
  }

  /** `profile_map_normalize` on the table's contents: every price becomes
      `calls / max`; with a zero maximum (no rows) nothing changes. */
  function Normalized(s: seq<ProfileEntry>): seq<ProfileEntry> {
    var m := MaxCount(s);
    if m > 0 then
      seq(|s|, i requires 0 <= i < |s| => s[i].(price := Share(s[i].calls, m)))
    else s
  }

  /** A table that holds `calls / max` in every price is the normalised one. */
  lemma NormalizedFrom(s: seq<ProfileEntry>, t: seq<ProfileEntry>)
    requires MaxCount(s) > 0 && |t| == |s|
    requires forall k :: 0 <= k < |s| ==> t[k] == s[k].(price := Share(s[k].calls, MaxCount(s)))
    ensures t == Normalized(s)
  {
  }

  /** After normalisation of a non-empty table every price is `calls / max`
      and lies in [0, 1], and a row with the maximal count has price 1. */
  lemma NormalizedPrices(s: seq<ProfileEntry>)
    requires WellFormed(s) && s != []
    ensures |Normalized(s)| == |s|
    ensures forall i :: 0 <= i < |s| ==>
      && Normalized(s)[i].name == s[i].name
      && Normalized(s)[i].calls == s[i].calls
      && Normalized(s)[i].price == s[i].calls as real / MaxCount(s) as real
      && 0.0 <= Normalized(s)[i].price <= 1.0
    ensures forall i :: 0 <= i < |s| && s[i].calls == MaxCount(s) ==> Normalized(s)[i].price == 1.0
    ensures exists i :: 0 <= i < |s| && Normalized(s)[i].price == 1.0
  {
    var m := MaxCount(s);
    assert m >= 1 by { assert s[0].calls >= 1; }
    var r := Normalized(s);
    assert r == seq(|s|, i requires 0 <= i < |s| => s[i].(price := s[i].calls as real / m as real));
    forall i | 0 <= i < |s|
      ensures r[i].price == s[i].calls as real / m as real
      ensures 0.0 <= r[i].price <= 1.0
    {
      DivAtMostOne(s[i].calls as real, m as real);
    }
    forall i | 0 <= i < |s| && s[i].calls == m ensures r[i].price == 1.0 {
      DivSelf(m as real);
    }
    var w :| 0 <= w < |s| && s[w].calls == m;
    assert r[w].price == 1.0;
  }

  lemma DivSelf(b: real)
    requires b > 0.0
    ensures b / b == 1.0
  {
  }

  lemma DivAtMostOne(a: real, b: real)
    requires 0.0 <= a <= b && b > 0.0
    ensures 0.0 <= a / b <= 1.0
  {
  }

  /** With no rows, normalisation leaves the table as it is. */
  lemma NormalizedEmpty()
    ensures Normalized([]) == []
  {
  }

  lemma NormalizedWellFormed(s: seq<ProfileEntry>)
    requires WellFormed(s)
    ensures WellFormed(Normalized(s))
    ensures |Normalized(s)| == |s|
  {
    if s != [] {
      NormalizedPrices(s);
      assert forall i :: 0 <= i < |s| ==> Normalized(s)[i].name == s[i].name;
    }
  }

  /** Two tables with the same counts have the same maximum. */
  lemma {:induction false} MaxCountSameCalls(a: seq<ProfileEntry>, b: seq<ProfileEntry>)
    requires |a| == |b| && forall i :: 0 <= i < |a| ==> a[i].calls == b[i].calls
    ensures MaxCount(a) == MaxCount(b)
    decreases |a|
  {
    if a != [] {
      MaxCountSameCalls(a[..|a| - 1], b[..|b| - 1]);
    }
  }

  /** Normalisation keeps every count, so the maximum it divides by. */
  lemma NormalizedMaxCount(s: seq<ProfileEntry>)
    ensures MaxCount(Normalized(s)) == MaxCount(s)
  {
    MaxCountSameCalls(Normalized(s), s);
  }

  /** Lookup looks only at names. */
  lemma LookupSameNames(a: seq<ProfileEntry>, b: seq<ProfileEntry>, name: string)
    requires |a| == |b| && forall i :: 0 <= i < |a| ==> a[i].name == b[i].name
    ensures Lookup(a, name) == Lookup(b, name)
  {
    var x, y := Lookup(a, name), Lookup(b, name);
    if x.Some? && y.Some? {
      assert !(x.value < y.value) && !(y.value < x.value);
    }
  }

  /** Normalisation keeps every row's name and count, so what the table
      records for any name. */
  lemma NormalizedKeepsCounts(s: seq<ProfileEntry>, n: string)
    ensures CountOf(Normalized(s), n) == CountOf(s, n)
  {
    var t := Normalized(s);
    assert |t| == |s| && forall i :: 0 <= i < |s| ==> t[i].name == s[i].name && t[i].calls == s[i].calls;
    LookupSameNames(s, t, n);
  }

  /** Re-running normalisation recomputes the same table. */
  lemma NormalizedIdempotent(s: seq<ProfileEntry>)
    ensures Normalized(Normalized(s)) == Normalized(s)
  {
    NormalizedMaxCount(s);
  }

  /** The table `profile_map_t`: a fixed array of rows, the number of rows in
      use and the maximum found by the last normalisation. */
  class ProfileMap {
    const entries: array<ProfileEntry>
    var count: nat
    var maxCount: real

    ghost predicate Valid()
      reads this`count, entries
    {
      && entries.Length == ProfileMapSize
      && count <= ProfileMapSize
      && WellFormed(entries[..count])
    }

    /** The rows in use. */
    function Contents(): seq<ProfileEntry>
      reads this`count, entries
      requires Valid()
    {
      entries[..count]
    }

    /** `profile_map_init`: an empty, zeroed table. */
    constructor ()
      ensures Valid() && fresh(entries)
      ensures Contents() == [] && maxCount == 0.0
    {
      entries := new ProfileEntry[ProfileMapSize](_ => ProfileEntry("", 0, 0.0));
      count := 0;
      maxCount := 0.0;
    }

    /** `profile_map_get`. */
    function Get(name: string): (r: Option<nat>)
      reads this, entries
      requires Valid()
      ensures r.Some? ==> r.value < count && entries[r.value].name == name
      ensures r.None? <==> forall j :: 0 <= j < count ==> entries[j].name != name
    {
      Lookup(entries[..count], name)
    }

    /** `profile_map_increment`. */
    method Increment(name: string)
      requires Valid()
      modifies this, entries
      ensures Valid()
      ensures Contents() == Incremented(old(Contents()), name)
      ensures maxCount == old(maxCount)
    {
      IncrementWellFormed(entries[..count], name);
      var e := Get(name);
      match e
      case Some(i) =>
        entries[i] := entries[i].(calls := entries[i].calls + 1);
      case None =>
        if count < ProfileMapSize {
          entries[count] := ProfileEntry(name, 1, 0.0);
          count := count + 1;
          assert entries[..count] == old(entries[..count]) + [ProfileEntry(name, 1, 0.0)];
        }
    }

    /** `profile_map_normalize`: find the maximum count, then, if it is
        positive, set every price to `calls / max`. */
    method Normalize()
      requires Valid()
      modifies this`maxCount, entries
      ensures Valid()
      ensures Contents() == Normalized(old(Contents()))
      ensures maxCount == MaxCount(old(Contents())) as real
    {
      ghost var s := entries[..count];
      maxCount := LargestCount();
      if maxCount > 0.0 {
        DividePrices(s);
        NormalizedWellFormed(s);
      }
    }

    /** The first loop of `profile_map_normalize`: the largest count in use,
        0 for an empty table. */
    method LargestCount() returns (mx: real)
      requires Valid()
      ensures mx == MaxCount(Contents()) as real
      ensures mx > 0.0 <==> count > 0
    {
      ghost var s := entries[..count];
      mx := 0.0;
      var i := 0;
      while i < count
        invariant 0 <= i <= count
        invariant mx == MaxCount(s[..i]) as real
      {
        var c := entries[i].calls;
        MaxCountStepReal(s, i, mx, c);
        if c as real > mx {
          mx := c as real;
        }
        i := i + 1;
      }
      assert s[..count] == s;
      if count > 0 {
        assert s[0].calls >= 1;
      }
    }

    /** The second loop of `profile_map_normalize`: divide every count in
        use by the positive `maxCount`. */
    method DividePrices(ghost s: seq<ProfileEntry>)
      requires count <= entries.Length && s == entries[..count]
      requires maxCount > 0.0 && maxCount == MaxCount(s) as real
      modifies entries
      ensures entries[..count] == Normalized(s)
    {
      ghost var m := MaxCount(s);
      var i := 0;
      while i < count
        invariant 0 <= i <= count
        invariant forall k :: 0 <= k < i ==> entries[k] == s[k].(price := Share(s[k].calls, m))
        invariant forall k :: i <= k < count ==> entries[k] == s[k]
      {
        entries[i] := entries[i].(price := entries[i].calls as real / maxCount);
        i := i + 1;
      }
      NormalizedFrom(s, entries[..count]);
    }
  }
}
