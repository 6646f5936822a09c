/** Page rounding of captured allocations, and the merging of the rounded ranges. */
module RangeMerge {
  import opened Arithmetic

  datatype Range = Range(addr: nat, size: nat) {
    function End(): nat { addr + size }
    predicate Holds(a: nat) { addr <= a < End() }
    predicate Straddles(c: nat) { addr < c < End() }
    predicate Contains(r: Range) { addr <= r.addr && r.End() <= End() }
    predicate AlignedTo(g: Positive) { addr % g == 0 && size % g == 0 }

    /** The order of std::pair, hence of std::set<std::pair<...>>. */
    predicate Less(r: Range) { addr < r.addr || (addr == r.addr && size < r.size) }
  }

  /**
   * get_allocation_address: the smallest run of whole pages around [target, target + size): aligned, covering,
   * and its first and last pages each reach into the allocation.
   */
  function GetAllocationAddress(target: nat, size: nat, granularity: Positive): (r: Range)
    requires 0 < size
    ensures r.AlignedTo(granularity) && granularity <= r.size
    ensures r.Contains(Range(target, size))
    ensures target < r.addr + granularity && r.End() < target + size + granularity
  {
    var aligned := (target / granularity) * granularity;
    RoundDown(target, granularity);
    var total := size + (target - aligned);
    var pages := (total - 1) / granularity + 1;
    RoundDown(total - 1, granularity);
    assert pages * granularity == ((total - 1) / granularity) * granularity + granularity;
    MultipleMod(pages, granularity);
    Range(aligned, pages * granularity)
  }

  lemma RoundDown(x: nat, g: Positive)
    ensures 0 <= (x / g) * g <= x < (x / g) * g + g
    ensures ((x / g) * g) % g == 0
  {
    assert x == (x / g) * g + x % g;
    MultipleMod(x / g, g);
  }

  // ---------- the sorted set of rounded ranges ----------

  ghost predicate SortedSet(s: seq<Range>) {
    forall i, j :: 0 <= i < j < |s| ==> s[i].Less(s[j])
  }

  /** Insertion into a std::set: keeps the order, ignores a range that is already there. */
  function Insert(s: seq<Range>, r: Range): (s': seq<Range>)
    requires SortedSet(s)
    ensures SortedSet(s')
    ensures forall x :: x in s' <==> x in s || x == r
    ensures |s'| <= |s| + 1
    ensures forall i, j | 0 <= i < j < |s'| ::
              s'[i].addr < s'[j].addr || (s'[i].addr == s'[j].addr && s'[i].size < s'[j].size)
  {
    if s == [] || r.Less(s[0]) then
      assert forall x :: x in [r] + s <==> x in s || x == r;
      [r] + s
    else if r == s[0] then s
    else
      var t := Insert(s[1..], r);
      assert forall x :: x in s <==> x == s[0] || x in s[1..];
      assert forall i :: 0 <= i < |t| ==> t[i] in t;
      [s[0]] + t
  }

  // ---------- what merging must achieve ----------

  ghost predicate Covered(rs: seq<Range>, a: nat) {
    exists i :: 0 <= i < |rs| && rs[i].Holds(a)
  }

  ghost predicate Straddled(rs: seq<Range>, c: nat) {
    exists i :: 0 <= i < |rs| && rs[i].Straddles(c)
  }

  ghost predicate WithinOne(rs: seq<Range>, r: Range) {
    exists i :: 0 <= i < |rs| && rs[i].Contains(r)
  }

  ghost predicate NonEmpty(rs: seq<Range>) {
    forall i :: 0 <= i < |rs| ==> 0 < rs[i].size
  }

  /** In increasing order and pairwise disjoint; ranges may touch. */
  ghost predicate Separate(rs: seq<Range>) {
    forall i, j :: 0 <= i < j < |rs| ==> rs[i].End() <= rs[j].addr
  }

  /**
   * `outs` are sorted, disjoint, hold exactly the bytes of `ins`, keep every input in one piece, and are not
   * merged without need: no output could be cut anywhere without cutting an input.
   */
  ghost predicate Merges(ins: seq<Range>, outs: seq<Range>) {
    && NonEmpty(outs) && Separate(outs)
    && (forall a: nat :: Covered(outs, a) <==> Covered(ins, a))
    && (forall k :: 0 <= k < |ins| ==> WithinOne(outs, ins[k]))
    && (forall c: nat :: Straddled(outs, c) ==> Straddled(ins, c))
  }

  /** compute_allocations. */
  method ComputeAllocations(allocations: seq<Range>) returns (allocs: seq<Range>)
    requires SortedSet(allocations) && NonEmpty(allocations)
    ensures Merges(allocations, allocs) && |allocs| <= |allocations|
  {
    hide Merges;
    allocs := [];
    if |allocations| == 0 {
      NothingMerges();
      return;
    }
    var current := allocations[0];
    assert allocations[..1] == [current] && allocs + [current] == [current];
    SingletonMerges(current);
    for i := 1 to |allocations|
      invariant 0 < current.size && |allocs| < i
      invariant Merges(allocations[..i], allocs + [current])
      invariant current.addr <= allocations[i - 1].addr
    {
      var next := allocations[i];
      assert allocations[i - 1].Less(next);
      ghost var done := allocations[..i];
      assert allocations[..i + 1] == done + [next];
      if current.addr + current.size > next.addr {
        var newSize := next.addr + next.size - current.addr;
        ExtendMerges(done, allocs, current, next);
        current := Range(current.addr, if newSize > current.size then newSize else current.size);
      } else {
        AppendMerges(done, allocs + [current], next);
        allocs := allocs + [current];
        current := next;
      }
    }
    assert allocations[..|allocations|] == allocations;
    allocs := allocs + [current];
  }

  lemma NothingMerges()
    ensures Merges([], [])
  {
  }

  lemma SingletonMerges(r: Range)
    requires 0 < r.size
    ensures Merges([r], [r])
  {
    assert [r][0].Contains(r);
  }

  lemma CoveredAppend(xs: seq<Range>, r: Range)
    ensures forall a: nat :: Covered(xs + [r], a) <==> Covered(xs, a) || r.Holds(a)
    ensures forall c: nat :: Straddled(xs + [r], c) <==> Straddled(xs, c) || r.Straddles(c)
    ensures forall x :: WithinOne(xs + [r], x) <==> WithinOne(xs, x) || r.Contains(x)
  {
    var ys := xs + [r];
    assert ys[|xs|] == r;
    forall a: nat | Covered(xs, a) ensures Covered(ys, a) {
      var i :| 0 <= i < |xs| && xs[i].Holds(a);
      assert ys[i].Holds(a);
    }
    forall c: nat | Straddled(xs, c) ensures Straddled(ys, c) {
      var i :| 0 <= i < |xs| && xs[i].Straddles(c);
      assert ys[i].Straddles(c);
    }
    forall x | WithinOne(xs, x) ensures WithinOne(ys, x) {
      var i :| 0 <= i < |xs| && xs[i].Contains(x);
      assert ys[i].Contains(x);
    }
  }

  /** A range that starts at or after the end of the last output becomes an output of its own. */
  lemma AppendMerges(ins: seq<Range>, outs: seq<Range>, next: Range)
    requires Merges(ins, outs) && 0 < next.size
    requires outs != [] && outs[|outs| - 1].End() <= next.addr
    ensures Merges(ins + [next], outs + [next])
  {
    CoveredAppend(ins, next);
    CoveredAppend(outs, next);
    forall k | 0 <= k < |ins + [next]| ensures WithinOne(outs + [next], (ins + [next])[k]) {
      assert k < |ins| ==> WithinOne(outs, ins[k]);
    }
  }

  /** A range that starts inside the last output extends it. */
  lemma ExtendMerges(ins: seq<Range>, allocs: seq<Range>, current: Range, next: Range)
    requires Merges(ins, allocs + [current]) && 0 < next.size
    requires current.addr <= next.addr < current.End()
    ensures var size := next.End() - current.addr;
            Merges(ins + [next], allocs + [Range(current.addr, if size > current.size then size else current.size)])
  {
    var size := next.End() - current.addr;
    var grown := Range(current.addr, if size > current.size then size else current.size);
    CoveredAppend(ins, next);
    CoveredAppend(allocs, current);
    CoveredAppend(allocs, grown);
    var outs, outs' := allocs + [current], allocs + [grown];
    forall i, j | 0 <= i < j < |outs'| ensures outs'[i].End() <= outs'[j].addr {
      assert outs[i].End() <= outs[j].addr;
    }
    assert NonEmpty(outs') by {
      forall i | 0 <= i < |outs'| ensures 0 < outs'[i].size {
        assert 0 < outs[i].size;
      }
    }
    forall k | 0 <= k < |ins + [next]| ensures WithinOne(outs', (ins + [next])[k]) {
      assert k < |ins| ==> WithinOne(outs, ins[k]);
    }
    forall c: nat | Straddled(outs', c) ensures Straddled(ins + [next], c) {
      if grown.Straddles(c) && !next.Straddles(c) {
        if c == next.addr {
          assert current.addr < c ==> current.Straddles(c);
        }
        assert current.Straddles(c);
        assert Straddled(outs, c);
      }
    }
  }

  // ---------- the specification determines the result ----------

  /** Of two results with the same first ranges, the next ranges start at the same address. */
  lemma SameStart(ins: seq<Range>, xs: seq<Range>, ys: seq<Range>, i: nat)
    requires Merges(ins, xs) && Merges(ins, ys)
    requires i < |xs| && i <= |ys| && xs[..i] == ys[..i]
    ensures i < |ys| && ys[i].addr <= xs[i].addr
  {
    var a := xs[i].addr;
    assert Covered(xs, a) by {
      assert xs[i].Holds(a);
    }
    assert Covered(ins, a) && Covered(ys, a);
    forall j | 0 <= j < i ensures !ys[j].Holds(a) {
      assert xs[..i][j] == ys[..i][j];
      assert xs[j].End() <= xs[i].addr;
    }
    var j :| 0 <= j < |ys| && ys[j].Holds(a);
    assert i < j ==> ys[i].End() <= ys[j].addr;
  }

  /** Of two results with the same first ranges, the next range of one reaches no further than the other's. */
  lemma SameEnd(ins: seq<Range>, xs: seq<Range>, ys: seq<Range>, i: nat)
    requires Merges(ins, xs) && Merges(ins, ys)
    requires i < |xs| && i < |ys| && xs[i].addr == ys[i].addr
    ensures ys[i].End() <= xs[i].End()
  {
    var c := xs[i].End();
    EndsUncovered(xs, i);
    forall k | 0 <= k < |ins| ensures !ins[k].Straddles(c) {
      assert WithinOne(xs, ins[k]);
      var j :| 0 <= j < |xs| && xs[j].Contains(ins[k]);
      assert !xs[j].Straddles(c);
    }
    assert !Straddled(ins, c) && !Straddled(ys, c);
    assert !ys[i].Straddles(c);
  }

  /** Any two sequences of ranges that merge the same inputs are equal. */
  lemma {:induction false} MergesUnique(ins: seq<Range>, xs: seq<Range>, ys: seq<Range>)
    requires Merges(ins, xs) && Merges(ins, ys)
    ensures xs == ys
  {
    var i := 0;
    while i < |xs|
      invariant 0 <= i <= |xs| && i <= |ys| && xs[..i] == ys[..i]
    {
      SameStart(ins, xs, ys, i);
      SameStart(ins, ys, xs, i);
      SameEnd(ins, xs, ys, i);
      SameEnd(ins, ys, xs, i);
      assert xs[i] == ys[i];
      assert xs[..i + 1] == xs[..i] + [xs[i]] && ys[..i + 1] == ys[..i] + [ys[i]];
      i := i + 1;
    }
    if |xs| < |ys| {
      SameStart(ins, ys, xs, |xs|);
    }
    assert xs[..|xs|] == xs && ys[..|ys|] == ys;
  }

  // ---------- alignment ----------

  lemma EndsUncovered(rs: seq<Range>, i: nat)
    requires NonEmpty(rs) && Separate(rs) && i < |rs|
    ensures !Straddled(rs, rs[i].addr) && !Straddled(rs, rs[i].End())
  {
    forall j | 0 <= j < |rs| ensures !rs[j].Straddles(rs[i].addr) && !rs[j].Straddles(rs[i].End()) {
      if j < i {
        assert rs[j].End() <= rs[i].addr;
      } else if i < j {
        assert rs[i].End() <= rs[j].addr;
      }
    }
  }

  /** Outputs begin and end where some inputs do, so they are aligned whenever all inputs are. */
  lemma MergesAligned(ins: seq<Range>, outs: seq<Range>, g: Positive, i: nat)
    requires Merges(ins, outs) && i < |outs|
    requires forall k :: 0 <= k < |ins| ==> ins[k].AlignedTo(g)
    ensures outs[i].AlignedTo(g)
  {
    var r := outs[i];
    assert 0 < r.size;
    assert Covered(outs, r.addr) by { assert r.Holds(r.addr); }
    var k :| 0 <= k < |ins| && ins[k].Holds(r.addr);
    InputInside(ins, outs, i, k, r.addr);
    assert ins[k].addr == r.addr;
    var last := r.End() - 1;
    assert Covered(outs, last) by { assert r.Holds(last); }
    var l :| 0 <= l < |ins| && ins[l].Holds(last);
    InputInside(ins, outs, i, l, last);
    assert ins[l].End() == r.End();
    SumAligned(ins[l].addr, ins[l].size, r.addr, r.size, g);
  }

  lemma InputInside(ins: seq<Range>, outs: seq<Range>, i: nat, k: nat, a: nat)
    requires Merges(ins, outs) && i < |outs| && k < |ins|
    requires outs[i].Holds(a) && ins[k].Holds(a)
    ensures outs[i].Contains(ins[k])
  {
    assert WithinOne(outs, ins[k]);
    var j :| 0 <= j < |outs| && outs[j].Contains(ins[k]);
    if j < i {
      assert outs[j].End() <= outs[i].addr;
    } else if i < j {
      assert outs[i].End() <= outs[j].addr;
    }
  }

  lemma SumAligned(a: nat, n: nat, b: nat, k: nat, g: Positive)
    requires a % g == 0 && n % g == 0 && b % g == 0 && a + n == b + k
    ensures k % g == 0
  {
    var qa, qn, qb := a / g, n / g, b / g;
    assert a == qa * g && n == qn * g && b == qb * g;
    var q := qa + qn - qb;
    assert k == q * g;
    assert q >= 0 by {
      if q < 0 {
        MulMonotone(q, -1, g);
        assert false;
      }
    }
    MultipleMod(q, g);
  }
}
