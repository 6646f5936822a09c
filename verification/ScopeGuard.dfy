/** Construction, reset and destruction of the replay guard, on a host-only build. */
module ScopeGuard {
  import opened Arithmetic
  import opened Bytes
  import opened DumpFile
  import opened RangeMerge
  import opened HostMapping
  import opened InputRestore
  import opened OutputMatching
  import PolicyCodec
  import opened Wrappers

  /** What the construction demands of an input view: its bytes are there, and none are device bytes. */
  predicate InputUsable(v: ViewGroup) {
    v.bytesDumped && v.Consistent() && (v.size != 0 ==> v.OnHost())
  }

  ghost predicate AllUsable(views: seq<ViewGroup>) {
    forall i :: 0 <= i < |views| ==> InputUsable(views[i])
  }

  /** Some captured host byte lies on page p. */
  ghost predicate Needed(views: seq<ViewGroup>, page: Positive, p: nat) {
    exists i, a: nat :: 0 <= i < |views| && CapturedByte(views[i], a) && a / page == p
  }

  predicate CapturedByte(v: ViewGroup, a: nat) {
    v.OnHost() && v.pData <= a < v.pData + v.size
  }

  /** The bytes to write back, in the order of the views. */
  function InputWrites(views: seq<ViewGroup>): seq<Write> {
    if views == [] then []
    else
      var v := views[|views| - 1];
      InputWrites(views[..|views| - 1]) + (if v.size != 0 then [Write(v.pData, v.bytes)] else [])
  }

  /** No page that holds a captured byte is mapped yet. */
  ghost predicate Unneeded(mapped: set<nat>, views: seq<ViewGroup>, page: Positive) {
    forall p :: p in mapped ==> !Needed(views, page, p)
  }

  ghost predicate InputsRestorable(views: seq<ViewGroup>) {
    AllUsable(views) && KeysDistinct(views)
  }

  ghost predicate OutputsRestorable(dump: Dump) {
    dump.outViews.Some? ==> OutputsMatch(dump.inViews, dump.outViews.value)
  }

  /** The whole condition under which a dump can be restored in a process with these mapped pages. */
  ghost predicate Restorable(dump: Dump, mapped: set<nat>, page: Positive, backends: PolicyCodec.Backends) {
    && InputsRestorable(dump.inViews) && Unneeded(mapped, dump.inViews, page)
    && PolicyCodec.ReadPolicy(dump.policy, backends).Some?
    && OutputsRestorable(dump)
  }

  /** The same condition in terms of the dump's fields. */
  lemma RestorableInFull(dump: Dump, mapped: set<nat>, page: Positive, backends: PolicyCodec.Backends)
    ensures Restorable(dump, mapped, page, backends) <==>
            var ins := dump.inViews;
            && (forall i | 0 <= i < |ins| ::
                  ins[i].bytesDumped && |ins[i].bytes| == ins[i].size && (ins[i].size != 0 ==> ins[i].space == "Host"))
            && (forall i, j | 0 <= i < j < |ins| :: ins[i].ptr != ins[j].ptr || ins[i].space != ins[j].space)
            && (forall i, a: nat | 0 <= i < |ins| && ins[i].pData <= a < ins[i].pData + ins[i].size ::
                  a / page !in mapped)
            && PolicyCodec.ReadPolicy(dump.policy, backends).Some?
            && (dump.outViews.Some? ==> OutputsInFull(ins, dump.outViews.value))
  {
    hide PolicyCodec.ReadPolicy, Needed, OutputsMatch, OutputsInFull;
    OutputsFull(dump.inViews, if dump.outViews.Some? then dump.outViews.value else []);
    if AllUsable(dump.inViews) {
      NeededInFull(dump.inViews, mapped, page);
    }
    assert forall i | 0 <= i < |dump.inViews| :: InputUsable(dump.inViews[i]) <==>
      && dump.inViews[i].bytesDumped && |dump.inViews[i].bytes| == dump.inViews[i].size
      && (dump.inViews[i].size != 0 ==> dump.inViews[i].space == "Host");
  }

  /** Outputs with distinct keys, each with an input of the same key and label and with host bytes or none. */
  ghost predicate OutputsInFull(ins: seq<ViewGroup>, outs: seq<ViewGroup>) {
    && (forall i, j | 0 <= i < j < |outs| :: outs[i].ptr != outs[j].ptr || outs[i].space != outs[j].space)
    && (forall i | 0 <= i < |outs| ::
          && (outs[i].bytesDumped ==>
                |outs[i].bytes| == outs[i].size && (outs[i].size != 0 ==> outs[i].space == "Host"))
          && exists k :: 0 <= k < |ins| && ins[k].ptr == outs[i].ptr && ins[k].space == outs[i].space
                         && ins[k].name == outs[i].name)
  }

  lemma OutputsFull(ins: seq<ViewGroup>, outs: seq<ViewGroup>)
    ensures OutputsMatch(ins, outs) <==> OutputsInFull(ins, outs)
  {
    forall i | 0 <= i < |outs|
      ensures HasInput(ins, outs[i]) <==>
              exists k :: 0 <= k < |ins| && ins[k].ptr == outs[i].ptr && ins[k].space == outs[i].space
                          && ins[k].name == outs[i].name
    {
    }
  }

  lemma NeededInFull(views: seq<ViewGroup>, mapped: set<nat>, page: Positive)
    requires AllUsable(views)
    ensures Unneeded(mapped, views, page) <==>
            forall i, a: nat | 0 <= i < |views| && views[i].pData <= a < views[i].pData + views[i].size ::
              a / page !in mapped
  {
    forall i, a: nat | 0 <= i < |views| && views[i].pData <= a < views[i].pData + views[i].size
      ensures CapturedByte(views[i], a)
    {
      assert InputUsable(views[i]);
    }
    if Unneeded(mapped, views, page) {
      forall i, a: nat | 0 <= i < |views| && views[i].pData <= a < views[i].pData + views[i].size
        ensures a / page !in mapped
      {
        assert CapturedByte(views[i], a);
        assert Needed(views, page, a / page);
      }
    }
  }

  /** Among captured ranges that overlap, the last one in the order of the views is in memory. */
  lemma {:induction false} LastViewWins(views: seq<ViewGroup>, bytes: nat -> Byte, i: nat, a: nat)
    requires AllUsable(views) && InputsApplied(views, bytes) && i < |views|
    requires views[i].pData <= a < views[i].pData + views[i].size
    requires forall j | i < j < |views| :: !(views[j].pData <= a < views[j].pData + views[j].size)
    ensures bytes(a) == views[i].bytes[a - views[i].pData]
  {
    LastViewWrites(views, i, a);
  }

  lemma {:induction false} LastViewWrites(views: seq<ViewGroup>, i: nat, a: nat)
    requires AllUsable(views) && i < |views|
    requires views[i].pData <= a < views[i].pData + views[i].size
    requires forall j | i < j < |views| :: !(views[j].pData <= a < views[j].pData + views[j].size)
    ensures LastWrite(InputWrites(views), a) == Some(views[i].bytes[a - views[i].pData])
  {
    var front, v := views[..|views| - 1], views[|views| - 1];
    assert InputUsable(views[i]) && InputUsable(v);
    LastWriteAppend(InputWrites(front), Write(v.pData, v.bytes), a);
    assert InputWrites(front) + [] == InputWrites(front);
    if i < |views| - 1 {
      LastViewWrites(front, i, a);
    }
  }

  ghost predicate ViewsApart(views: seq<ViewGroup>) {
    forall x, y :: 0 <= x < y < |views| ==>
      Apart(views[x].pData, views[x].size, views[y].pData, views[y].size)
  }

  /** Each byte that some view captured is the one that the last such view holds. */
  ghost predicate InputsApplied(views: seq<ViewGroup>, bytes: nat -> Byte) {
    forall a: nat :: LastWrite(InputWrites(views), a).Some? ==>
      bytes(a) == LastWrite(InputWrites(views), a).value
  }

  /** The view's memory is the captured one. */
  ghost predicate ViewRestored(v: ViewGroup, bytes: nat -> Byte) {
    |v.bytes| == v.size && forall a: nat :: v.pData <= a < v.pData + v.size ==> bytes(a) == v.bytes[a - v.pData]
  }

  ghost predicate AllRestored(views: seq<ViewGroup>, bytes: nat -> Byte) {
    forall i :: 0 <= i < |views| ==> ViewRestored(views[i], bytes)
  }

  // ---------- which ranges are mapped ----------

  ghost predicate HostUsable(views: seq<ViewGroup>) {
    forall i :: 0 <= i < |views| && views[i].OnHost() ==> views[i].bytesDumped && views[i].Consistent()
  }

  /** The rounded ranges of the host views that have bytes. */
  ghost predicate Locations(views: seq<ViewGroup>, page: Positive, locs: seq<Range>) {
    forall r :: r in locs <==>
      exists i :: 0 <= i < |views| && views[i].OnHost() && views[i].size != 0
                  && r == GetAllocationAddress(views[i].pData, views[i].size, page)
  }

  /** First pass over the input views. */
  method CollectHostLocations(views: seq<ViewGroup>, page: Positive) returns (ok: bool, locs: seq<Range>)
    ensures ok <==> HostUsable(views)
    ensures ok ==> SortedSet(locs) && Locations(views, page, locs) && |locs| <= |views|
  {
    locs := [];
    for i := 0 to |views|
      invariant HostUsable(views[..i])
      invariant SortedSet(locs) && Locations(views[..i], page, locs) && |locs| <= i
    {
      var v := views[i];
      assert views[..i + 1] == views[..i] + [v];
      if v.OnHost() {
        if !v.bytesDumped || |v.bytes| != v.size {
          return false, [];
        }
        if v.size != 0 {
          ghost var before := locs;
          locs := Insert(locs, GetAllocationAddress(v.pData, v.size, page));
          AddLocation(views[..i], v, page, before, locs);
        }
      }
      if !v.OnHost() || v.size == 0 {
        SkipLocation(views[..i], v, page, locs);
      }
    }
    assert views[..|views|] == views;
    ok := true;
  }

  lemma AddLocation(views: seq<ViewGroup>, v: ViewGroup, page: Positive, before: seq<Range>, after: seq<Range>)
    requires Locations(views, page, before) && v.OnHost() && v.size != 0
    requires forall x :: x in after <==> x in before || x == GetAllocationAddress(v.pData, v.size, page)
    ensures Locations(views + [v], page, after)
  {
    var more := views + [v];
    assert more[|views|] == v;
    assert forall i :: 0 <= i < |views| ==> more[i] == views[i];
  }

  lemma SkipLocation(views: seq<ViewGroup>, v: ViewGroup, page: Positive, locs: seq<Range>)
    requires Locations(views, page, locs) && (!v.OnHost() || v.size == 0)
    ensures Locations(views + [v], page, locs)
  {
    var more := views + [v];
    assert forall i :: 0 <= i < |views| ==> more[i] == views[i];
  }

  lemma LocationsAligned(views: seq<ViewGroup>, page: Positive, locs: seq<Range>)
    requires Locations(views, page, locs)
    ensures NonEmpty(locs) && AllAligned(locs, page)
  {
    forall k | 0 <= k < |locs| ensures locs[k].AlignedTo(page) && 0 < locs[k].size {
      assert locs[k] in locs;
    }
  }

  /** The merged regions are aligned, and their pages are exactly those that hold a captured byte. */
  lemma RegionsAreNeededPages(views: seq<ViewGroup>, page: Positive, locs: seq<Range>, regions: seq<Range>)
    requires Locations(views, page, locs) && Merges(locs, regions)
    ensures AllAligned(regions, page)
    ensures forall p: nat :: p in AllPages(regions, page) <==> Needed(views, page, p)
  {
    hide Merges, Locations, Needed, Covered, AllPages, AllAligned;
    RegionsAligned(views, page, locs, regions);
    forall p: nat ensures p in AllPages(regions, page) <==> Needed(views, page, p) {
      PageIsCovered(regions, page, p);
      SameCover(locs, regions, p * page);
      CoveredIsNeeded(views, page, locs, p);
    }
  }

  lemma RegionsAligned(views: seq<ViewGroup>, page: Positive, locs: seq<Range>, regions: seq<Range>)
    requires Locations(views, page, locs) && Merges(locs, regions)
    ensures AllAligned(regions, page)
  {
    hide Locations;
    LocationsAligned(views, page, locs);
    forall i | 0 <= i < |regions| ensures regions[i].AlignedTo(page) && 0 < regions[i].size {
      MergesAligned(locs, regions, page, i);
    }
  }

  lemma SameCover(locs: seq<Range>, regions: seq<Range>, a: nat)
    requires Merges(locs, regions)
    ensures Covered(regions, a) <==> Covered(locs, a)
  {
  }

  lemma PageIsCovered(regions: seq<Range>, page: Positive, p: nat)
    requires AllAligned(regions, page)
    ensures p in AllPages(regions, page) <==> Covered(regions, p * page)
  {
    AllPagesMember(regions, page, p);
    FirstByteOfPage(p, page);
    forall i | 0 <= i < |regions| ensures p in Pages(regions[i], page) <==> regions[i].Holds(p * page) {
      PageOfByte(regions[i], page, p * page);
    }
  }

  lemma CoveredIsNeeded(views: seq<ViewGroup>, page: Positive, locs: seq<Range>, p: nat)
    requires Locations(views, page, locs)
    ensures Covered(locs, p * page) <==> Needed(views, page, p)
  {
    hide Locations, Covered, Needed;
    if Covered(locs, p * page) {
      PageIsNeeded(views, page, locs, p);
    }
    if Needed(views, page, p) {
      NeededIsCovered(views, page, locs, p);
    }
  }

  lemma PageIsNeeded(views: seq<ViewGroup>, page: Positive, locs: seq<Range>, p: nat)
    requires Locations(views, page, locs) && Covered(locs, p * page)
    ensures Needed(views, page, p)
  {
    var k :| 0 <= k < |locs| && locs[k].Holds(p * page);
    assert locs[k] in locs;
    hide Covered;
    var i :| 0 <= i < |views| && views[i].OnHost() && views[i].size != 0
             && locs[k] == GetAllocationAddress(views[i].pData, views[i].size, page);
    var a := PageMeetsAllocation(views[i].pData, views[i].size, page, p);
    assert CapturedByte(views[i], a);
  }

  lemma NeededIsCovered(views: seq<ViewGroup>, page: Positive, locs: seq<Range>, p: nat)
    requires Locations(views, page, locs) && Needed(views, page, p)
    ensures Covered(locs, p * page)
  {
    var i, a: nat :| 0 <= i < |views| && CapturedByte(views[i], a) && a / page == p;
    hide Needed;
    var r := GetAllocationAddress(views[i].pData, views[i].size, page);
    assert r in locs;
    hide Locations;
    FirstByteIsHeld(r, page, p, a);
    var k :| 0 <= k < |locs| && locs[k] == r;
  }

  /** An aligned range that holds a byte holds the first byte of its page. */
  lemma FirstByteIsHeld(r: Range, page: Positive, p: nat, a: nat)
    requires r.AlignedTo(page) && r.Holds(a) && a / page == p
    ensures r.Holds(p * page)
  {
    hide Pages;
    PageOfByte(r, page, a);
    FirstByteOfPage(p, page);
    PageOfByte(r, page, p * page);
  }

  /** Every page of a rounded allocation holds one of its bytes. */
  lemma PageMeetsAllocation(target: nat, size: nat, page: Positive, p: nat) returns (a: nat)
    requires 0 < size && GetAllocationAddress(target, size, page).Holds(p * page)
    ensures target <= a < target + size && a / page == p
  {
    var r := GetAllocationAddress(target, size, page);
    a := if target <= p * page then p * page else target;
    FirstByteOfPage(p, page);
    PageOfByte(r, page, p * page);
    var lo, n := r.addr / page, r.size / page;
    RunEnd(r, page);
    MulMonotone(lo, p, page);
    MulMonotone(p + 1, lo + n, page);
    assert (p + 1) * page == p * page + page;
    DivUnique(a, page, p, a - p * page);
  }

  /** Every restored allocation lies inside one mapped region. */
  lemma CopyStaysInOneRegion(views: seq<ViewGroup>, page: Positive, locs: seq<Range>, regions: seq<Range>, i: nat)
    requires Locations(views, page, locs) && Merges(locs, regions)
    requires i < |views| && views[i].OnHost() && views[i].size != 0
    ensures exists k :: 0 <= k < |regions| && regions[k].Contains(Range(views[i].pData, views[i].size))
  {
    var r := GetAllocationAddress(views[i].pData, views[i].size, page);
    assert r in locs;
    var j :| 0 <= j < |locs| && locs[j] == r;
    assert WithinOne(regions, locs[j]);
  }

  lemma {:induction false} WriteOfView(views: seq<ViewGroup>, i: nat)
    requires i < |views| && views[i].size != 0
    ensures Write(views[i].pData, views[i].bytes) in InputWrites(views)
  {
    if i < |views| - 1 {
      WriteOfView(views[..|views| - 1], i);
    }
  }

  lemma {:induction false} WriteComesFromView(views: seq<ViewGroup>, j: nat)
    requires j < |InputWrites(views)|
    ensures exists i :: 0 <= i < |views| && views[i].size != 0
                        && InputWrites(views)[j] == Write(views[i].pData, views[i].bytes)
  {
    if views != [] {
      var front := views[..|views| - 1];
      if j < |InputWrites(front)| {
        WriteComesFromView(front, j);
        var i :| 0 <= i < |front| && front[i].size != 0
                 && InputWrites(front)[j] == Write(front[i].pData, front[i].bytes);
        assert views[i] == front[i];
      }
    }
  }

  /** When captured ranges do not overlap, no write hides another. */
  lemma {:induction false} CapturedBytesRestored(views: seq<ViewGroup>, i: nat, k: nat)
    requires AllUsable(views) && i < |views| && k < views[i].size
    requires ViewsApart(views)
    ensures LastWrite(InputWrites(views), views[i].pData + k) == Some(views[i].bytes[k])
  {
    var front, v := views[..|views| - 1], views[|views| - 1];
    var a := views[i].pData + k;
    assert InputUsable(views[i]) && InputUsable(v);
    LastWriteAppend(InputWrites(front), Write(v.pData, v.bytes), a);
    assert InputWrites(front) + [] == InputWrites(front);
    if i < |views| - 1 {
      assert Apart(views[i].pData, views[i].size, v.pData, v.size);
      CapturedBytesRestored(front, i, k);
    }
  }

  lemma DisjointViewsRestored(views: seq<ViewGroup>, bytes: nat -> Byte)
    requires AllUsable(views) && InputsApplied(views, bytes) && ViewsApart(views)
    ensures AllRestored(views, bytes)
  {
    forall i | 0 <= i < |views| ensures ViewRestored(views[i], bytes) {
      assert InputUsable(views[i]);
      forall a: nat | views[i].pData <= a < views[i].pData + views[i].size
        ensures bytes(a) == views[i].bytes[a - views[i].pData]
      {
        CapturedBytesRestored(views, i, a - views[i].pData);
      }
    }
  }
}
