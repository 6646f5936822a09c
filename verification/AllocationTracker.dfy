/** The capture tool's record of live allocations, and the snapshots it takes of them. */
module AllocationTracker {

  const WORD: nat := 0x1_0000_0000_0000_0000

  datatype Record = Record(name: string, space: string, pData: nat, size: nat, reportedSize: nat,
                           sizeKnown: bool)
  {
    /** One past the data, as the tool computes it in 64-bit arithmetic. */
    function End(): nat { (pData + size) % WORD }
    /** The upper bound is inclusive, so that an empty view selects its allocation. */
    predicate Uses(p: nat) { pData <= p <= End() }
  }

  datatype ActiveAllocation = ActiveAllocation(ptr: nat, record: Record)

  datatype Snapshot = Snapshot(activeBytes: nat, allocations: seq<ActiveAllocation>)

  // ---------- sorting and searching pointers ----------

  ghost predicate Sorted(s: seq<nat>) {
    forall i, j :: 0 <= i < j < |s| ==> s[i] <= s[j]
  }

  function InsertPointer(s: seq<nat>, p: nat): (r: seq<nat>)
    requires Sorted(s)
    ensures Sorted(r) && multiset(r) == multiset(s) + multiset{p}
  {
    if s == [] || p <= s[0] then [p] + s
    else
      var t := InsertPointer(s[1..], p);
      InsertBehind(s, p, t);
      [s[0]] + t
  }

  lemma InsertBehind(s: seq<nat>, p: nat, t: seq<nat>)
    requires s != [] && Sorted(s) && s[0] < p
    requires Sorted(t) && multiset(t) == multiset(s[1..]) + multiset{p}
    ensures Sorted([s[0]] + t) && multiset([s[0]] + t) == multiset(s) + multiset{p}
  {
    assert s == [s[0]] + s[1..];
    forall i | 0 <= i < |t| ensures s[0] <= t[i] {
      assert t[i] in multiset(t);
      assert t[i] == p || t[i] in s[1..];
    }
  }

  /** Stands for std::sort on the used pointers. */
  function SortPointers(s: seq<nat>): (r: seq<nat>)
    ensures Sorted(r) && multiset(r) == multiset(s)
  {
    if s == [] then []
    else
      assert s == [s[0]] + s[1..];
      InsertPointer(SortPointers(s[1..]), s[0])
  }

  /** Stands for std::lower_bound: the first position whose pointer is not below x. */
  method LowerBound(s: seq<nat>, x: nat) returns (k: nat)
    requires Sorted(s)
    ensures k <= |s|
    ensures forall i :: 0 <= i < k ==> s[i] < x
    ensures forall i :: k <= i < |s| ==> x <= s[i]
  {
    var hi := |s|;
    k := 0;
    while k < hi
      invariant 0 <= k <= hi <= |s|
      invariant forall i :: 0 <= i < k ==> s[i] < x
      invariant forall i :: hi <= i < |s| ==> x <= s[i]
    {
      var mid := (k + hi) / 2;
      if s[mid] < x {
        k := mid + 1;
      } else {
        hi := mid;
      }
    }
  }

  /** Sorting and binary search decide whether some used pointer lies in the allocation. */
  method UsesSome(sorted: seq<nat>, r: Record) returns (b: bool)
    requires Sorted(sorted)
    ensures b <==> exists p :: p in sorted && r.Uses(p)
    ensures b <==> exists p :: p in sorted && r.pData <= p <= (r.pData + r.size) % 0x1_0000_0000_0000_0000
  {
    var k := LowerBound(sorted, r.pData);
    b := k < |sorted| && sorted[k] <= r.End();
    if b {
      assert r.Uses(sorted[k]);
    } else {
      forall p | p in sorted ensures !r.Uses(p) {
        var i :| 0 <= i < |sorted| && sorted[i] == p;
        assert k <= i ==> sorted[k] <= sorted[i];
      }
    }
  }

  // ---------- what a snapshot must contain ----------

  function SumSizes(xs: seq<ActiveAllocation>): nat {
    if xs == [] then 0 else SumSizes(xs[..|xs| - 1]) + xs[|xs| - 1].record.size
  }

  /** Two entries never stand for the same allocation. */
  ghost predicate Distinct(xs: seq<ActiveAllocation>) {
    forall i, j :: 0 <= i < j < |xs| ==> xs[i].ptr != xs[j].ptr || xs[i].record.space != xs[j].record.space
  }

  type Active = map<string, map<nat, Record>>
  type Used = map<string, seq<nat>>

  predicate IsActive(active: Active, x: ActiveAllocation) {
    && x.record.space in active && x.ptr in active[x.record.space]
    && active[x.record.space][x.ptr] == x.record
  }

  /** With compiler plugins, only allocations that a used pointer of the same space falls into. */
  ghost predicate Selected(plugins: bool, used: Used, r: Record) {
    plugins ==> r.space in used && exists p :: p in used[r.space] && r.Uses(p)
  }

  ghost predicate IsSnapshot(s: Snapshot, plugins: bool, active: Active, used: Used) {
    && s.activeBytes == SumSizes(s.allocations) % WORD
    && Distinct(s.allocations)
    && forall x :: x in s.allocations <==> IsActive(active, x) && Selected(plugins, used, x.record)
  }

  ghost predicate SameAllocations(a: Active, b: Active) {
    forall x :: IsActive(a, x) <==> IsActive(b, x)
  }

  /** The same pointers are used for each space, in any order. */
  ghost predicate SamePointers(u: Used, v: Used) {
    u.Keys == v.Keys && forall space :: space in u ==> multiset(u[space]) == multiset(v[space])
  }

  lemma NothingChanged(active: Active, used: Used)
    ensures SameAllocations(active, active) && SamePointers(used, used)
  {
  }

  lemma SameAsBefore(a: Active, b: Active, c: Active, u: Used, v: Used, w: Used)
    requires SameAllocations(a, b) && SameAllocations(b, c) && SamePointers(u, v) && SamePointers(v, w)
    ensures SameAllocations(a, c) && SamePointers(u, w)
  {
  }

  lemma SortingKeepsPointers(used: Used, space: string)
    requires space in used
    ensures SamePointers(used, used[space := SortPointers(used[space])])
  {
  }

  lemma EmptyMapKeepsAllocations(active: Active, space: string)
    requires space !in active
    ensures SameAllocations(active, active[space := map[]])
  {
  }

  lemma SameSelection(a: Active, b: Active, plugins: bool, u: Used, v: Used)
    requires SameAllocations(a, b) && SamePointers(u, v)
    ensures forall x :: IsActive(a, x) <==> IsActive(b, x)
    ensures forall r :: Selected(plugins, u, r) <==> Selected(plugins, v, r)
  {
    forall r ensures Selected(plugins, u, r) <==> Selected(plugins, v, r) {
      if r.space in u {
        assert forall p :: p in u[r.space] <==> p in multiset(u[r.space]);
        assert forall p :: p in v[r.space] <==> p in multiset(v[r.space]);
      }
    }
  }

  /** A selected active allocation is in one of the spaces the snapshot visits. */
  lemma AllSpaces(plugins: bool, active: Active, used: Used)
    ensures forall x :: IsActive(active, x) && Selected(plugins, used, x.record) ==>
              x.record.space in (if plugins then used.Keys else active.Keys)
  {
  }

  /** What a snapshot contains, in terms of the two maps. */
  lemma ContentsOfSnapshot(s: Snapshot, plugins: bool, active: Active, used: Used)
    requires IsSnapshot(s, plugins, active, used)
    ensures forall x :: x in s.allocations <==>
              && x.record.space in active && x.ptr in active[x.record.space]
              && active[x.record.space][x.ptr] == x.record
              && (plugins ==>
                    && x.record.space in used
                    && exists p :: p in used[x.record.space]
                         && x.record.pData <= p <= (x.record.pData + x.record.size) % 0x1_0000_0000_0000_0000)
  {
    forall x
      ensures x in s.allocations <==>
              && x.record.space in active && x.ptr in active[x.record.space]
              && active[x.record.space][x.ptr] == x.record
              && (plugins ==>
                    && x.record.space in used
                    && exists p :: p in used[x.record.space]
                         && x.record.pData <= p <= (x.record.pData + x.record.size) % 0x1_0000_0000_0000_0000)
    {
      assert forall p: nat :: x.record.Uses(p) <==>
               x.record.pData <= p <= (x.record.pData + x.record.size) % 0x1_0000_0000_0000_0000;
    }
  }

  /**
   * The upper bound is inclusive: below the wrap-around a pointer selects an allocation from its first byte to
   * one past its last, and so an allocation of no bytes is selected by its own data pointer.
   */
  lemma EndIsInclusive(s: Snapshot, active: Active, used: Used, x: ActiveAllocation)
    requires IsSnapshot(s, true, active, used) && IsActive(active, x) && x.record.space in used
    requires x.record.pData + x.record.size < 0x1_0000_0000_0000_0000
    ensures x in s.allocations <==>
            exists p :: p in used[x.record.space] && x.record.pData <= p <= x.record.pData + x.record.size
    ensures x.record.size == 0 && x.record.pData in used[x.record.space] ==> x in s.allocations
  {
    ContentsOfSnapshot(s, true, active, used);
  }

  /** The byte count is the sum of the recorded sizes, modulo 2^64. */
  lemma {:induction false} ActiveBytesAreSummed(xs: seq<ActiveAllocation>, a: ActiveAllocation)
    ensures SumSizes([]) == 0 && SumSizes([a] + xs) == a.record.size + SumSizes(xs)
    ensures forall s, plugins, active, used | IsSnapshot(s, plugins, active, used) ::
              s.activeBytes == SumSizes(s.allocations) % 0x1_0000_0000_0000_0000
  {
    if xs != [] {
      var last := |xs| - 1;
      ActiveBytesAreSummed(xs[..last], a);
      assert ([a] + xs)[..|xs|] == [a] + xs[..last];
    } else {
      assert ([a] + xs)[..0] == [];
    }
  }

  // ---------- the tracker ----------

  class Tracker {
    const plugins: bool
    var used: Used
    var active: Active

    ghost predicate Valid()
      reads this
    {
      forall space, ptr :: space in active && ptr in active[space] ==> active[space][ptr].space == space
    }

    constructor (plugins: bool)
      ensures Valid() && this.plugins == plugins && used == map[] && active == map[]
    {
      this.plugins := plugins;
      used, active := map[], map[];
    }

    method RecordAllocation(ptr: nat, r: Record)
      requires Valid()
      modifies this`active
      ensures Valid()
      ensures ptr == 0 ==> active == old(active)
      ensures ptr != 0 ==> forall x :: IsActive(active, x) <==>
                x == ActiveAllocation(ptr, r)
                || (IsActive(old(active), x) && (x.ptr != ptr || x.record.space != r.space))
    {
      if ptr == 0 {
        return;
      }
      var inner := if r.space in active then active[r.space] else map[];
      active := active[r.space := inner[ptr := r]];
    }

    /** The space's map is dropped with its last allocation. */
    method RecordDeallocation(space: string, ptr: nat)
      requires Valid()
      modifies this`active
      ensures Valid()
      ensures forall x :: IsActive(active, x) <==>
                IsActive(old(active), x) && (ptr == 0 || x.ptr != ptr || x.record.space != space)
    {
      if ptr == 0 || space !in active {
        return;
      }
      var inner := map p | p in active[space] && p != ptr :: active[space][p];
      assert forall p :: p in old(active)[space] && p != ptr ==> p in inner;
      if inner == map[] {
        active := map s | s in active && s != space :: active[s];
      } else {
        active := active[space := inner];
      }
    }

    /** Whatever the pointer falls into is selected from now on, beside what was selected before. */
    method RecordUsedAllocation(space: string, ptr: nat)
      modifies this`used
      ensures forall r :: Selected(true, used, r) <==>
                Selected(true, old(used), r) || (r.space == space && r.Uses(ptr))
      ensures used == old(used)[space := (if space in old(used) then old(used)[space] else []) + [ptr]]
    {
      var pointers := if space in used then used[space] else [];
      used := used[space := pointers + [ptr]];
      forall r
        ensures Selected(true, used, r) <==> Selected(true, old(used), r) || (r.space == space && r.Uses(ptr))
      {
        assert forall p :: p in used[space] <==> p in pointers || p == ptr;
      }
    }

    /** Nothing is selected afterwards; the spaces stay, without pointers. */
    method ClearUsedAllocations()
      modifies this`used
      ensures forall r :: !Selected(true, used, r)
      ensures used == map s | s in old(used) :: []
    {
      used := map s | s in used :: [];
    }

    /**
     * Besides the snapshot, sorts the used pointers in place and may add empty maps for spaces that have used
     * pointers but no allocation; neither changes what is active or used.
     */
    method TakeSnapshot() returns (s: Snapshot)
      requires Valid()
      modifies this
      ensures Valid() && IsSnapshot(s, plugins, old(active), old(used))
      ensures forall x :: x in s.allocations <==>
                && x.record.space in old(active) && x.ptr in old(active)[x.record.space]
                && old(active)[x.record.space][x.ptr] == x.record
                && (plugins ==>
                      && x.record.space in old(used)
                      && exists p :: p in old(used)[x.record.space]
                           && x.record.pData <= p <= (x.record.pData + x.record.size) % 0x1_0000_0000_0000_0000)
      ensures SameAllocations(old(active), active) && SamePointers(old(used), used)
    {
      hide SameAllocations, SamePointers, Selected;
      var todo := if plugins then used.Keys else active.Keys;
      ghost var all := todo;
      s := Snapshot(0, []);
      NothingChanged(active, used);
      while todo != {}
        invariant Valid() && todo <= all <= (if plugins then used.Keys else active.Keys)
        invariant s.activeBytes == SumSizes(s.allocations) % WORD && Distinct(s.allocations)
        invariant forall x :: x in s.allocations <==>
                    x.record.space in all - todo && IsActive(old(active), x)
                    && Selected(plugins, old(used), x.record)
        invariant SameAllocations(old(active), active) && SamePointers(old(used), used)
        decreases todo
      {
        var space :| space in todo;
        todo := todo - {space};
        ghost var active0, used0 := active, used;
        PrepareSpace(space);
        SameAsBefore(old(active), active0, active, old(used), used0, used);
        s := SnapshotSpace(space, s);
        SameSelection(old(active), active, plugins, old(used), used);
      }
      AllSpaces(plugins, old(active), old(used));
      ContentsOfSnapshot(s, plugins, old(active), old(used));
    }

    /** Sorts the space's used pointers and makes sure the space has a map of allocations. */
    method PrepareSpace(space: string)
      requires Valid() && (if plugins then space in used else space in active)
      modifies this
      ensures Valid() && space in active && (plugins ==> space in used && Sorted(used[space]))
      ensures SameAllocations(old(active), active) && SamePointers(old(used), used)
      ensures old(active).Keys <= active.Keys && used.Keys == old(used).Keys
    {
      hide SameAllocations, SamePointers;
      NothingChanged(active, used);
      if plugins {
        SortingKeepsPointers(used, space);
        used := used[space := SortPointers(used[space])];
        if space !in active {
          EmptyMapKeepsAllocations(active, space);
          active := active[space := map[]];
        }
      }
    }

    /** The inner loop: the allocations of one space, in any order. */
    method SnapshotSpace(space: string, before: Snapshot) returns (s: Snapshot)
      requires Valid() && space in active && (plugins ==> space in used && Sorted(used[space]))
      requires before.activeBytes == SumSizes(before.allocations) % WORD && Distinct(before.allocations)
      requires forall x :: x in before.allocations ==> x.record.space != space
      ensures s.activeBytes == SumSizes(s.allocations) % WORD && Distinct(s.allocations)
      ensures forall x :: x in s.allocations <==>
                x in before.allocations
                || (x.record.space == space && IsActive(active, x) && Selected(plugins, used, x.record))
    {
      s := before;
      var todo := active[space].Keys;
      while todo != {}
        invariant todo <= active[space].Keys
        invariant s.activeBytes == SumSizes(s.allocations) % WORD && Distinct(s.allocations)
        invariant forall x :: x in s.allocations <==>
                    x in before.allocations
                    || (x.record.space == space && x.ptr !in todo && IsActive(active, x)
                        && Selected(plugins, used, x.record))
        decreases todo
      {
        var ptr :| ptr in todo;
        todo := todo - {ptr};
        var record := active[space][ptr];
        var take := true;
        if plugins {
          take := UsesSome(used[space], record);
        }
        if take {
          var a := ActiveAllocation(ptr, record);
          AppendDistinct(s.allocations, a);
          s := Snapshot((s.activeBytes + record.size) % WORD, s.allocations + [a]);
        }
      }
    }
  }

  lemma AppendDistinct(xs: seq<ActiveAllocation>, a: ActiveAllocation)
    requires Distinct(xs)
    requires forall x :: x in xs ==> x.ptr != a.ptr || x.record.space != a.record.space
    ensures Distinct(xs + [a])
    ensures SumSizes(xs + [a]) % WORD == (SumSizes(xs) % WORD + a.record.size) % WORD
  {
    assert (xs + [a])[..|xs|] == xs;
    assert forall i :: 0 <= i < |xs| ==> xs[i] in xs;
  }

  // ---------- the inclusive bound ----------

  /** Physical blocks start at `ptr`, before the data, end with the data, and do not overlap. */
  ghost predicate BlocksDisjoint(active: Active, space: string) {
    && (forall x :: IsActive(active, x) && x.record.space == space ==>
          x.ptr < x.record.pData && x.record.pData + x.record.size < WORD)
    && forall x, y :: IsActive(active, x) && IsActive(active, y)
                      && x.record.space == space && y.record.space == space && x != y ==>
         x.record.pData + x.record.size <= y.ptr || y.record.pData + y.record.size <= x.ptr
  }

  /**
   * Despite the inclusive upper bound, a used pointer selects one allocation only: the header before the data
   * of the next block keeps the blocks' data apart.
   */
  lemma PointerSelectsOne(active: Active, space: string, p: nat, x: ActiveAllocation, y: ActiveAllocation)
    requires BlocksDisjoint(active, space)
    requires IsActive(active, x) && x.record.space == space && x.record.Uses(p)
    requires IsActive(active, y) && y.record.space == space && y.record.Uses(p)
    ensures x == y
  {
    assert x.record.End() == x.record.pData + x.record.size;
    assert y.record.End() == y.record.pData + y.record.size;
  }
}
