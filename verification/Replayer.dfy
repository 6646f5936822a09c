/** The replay guard as an object, and the process-wide state that krepe::initialize and friends keep. */
module Replayer {
  import opened Arithmetic
  import opened Bytes
  import opened DumpFile
  import opened RangeMerge
  import opened HostMapping
  import opened InputRestore
  import opened OutputMatching
  import PolicyCodec
  import opened ScopeGuard
  import opened Wrappers

  /** The replayer's process-wide copies of the dump's functor and policy. */
  class ReplayData {
    var functor: StoredFunctor
    var policy: Option<PolicyCodec.Stored>

    constructor ()
      ensures functor == StoredFunctor([], []) && policy == None
    {
      functor, policy := StoredFunctor([], []), None;
    }

    /** The functor's bytes, then the policy; a policy that cannot be read leaves none behind. */
    method Read(dump: Dump, backends: PolicyCodec.Backends) returns (ok: bool)
      modifies this
      ensures ok == PolicyCodec.ReadPolicy(dump.policy, backends).Some? && Holds(dump, backends)
    {
      functor := dump.functor;
      policy := Some(PolicyCodec.NoPolicy);
      var read := PolicyCodec.ReadPolicy(dump.policy, backends);
      ok := read.Some?;
      if ok {
        policy := read;
      }
    }

    ghost predicate Holds(dump: Dump, backends: PolicyCodec.Backends)
      reads this
    {
      var read := PolicyCodec.ReadPolicy(dump.policy, backends);
      functor == dump.functor && policy == if read.Some? then read else Some(PolicyCodec.NoPolicy)
    }
  }

  class Guard {
    var inputSnapshots: seq<Write>
    var stored: seq<StoredAllocation>
    var hostRawAllocations: seq<Range>

    constructor ()
      ensures inputSnapshots == [] && stored == [] && hostRawAllocations == []
    {
      inputSnapshots, stored, hostRawAllocations := [], [], [];
    }

    /** The guard's regions are mapped, and its input snapshots lie in them. */
    ghost predicate Valid(space: AddressSpace)
      reads this, space
    {
      && AllAligned(hostRawAllocations, space.page) && Separate(hostRawAllocations)
      && AllPages(hostRawAllocations, space.page) <= space.mapped
      && WritesOn(inputSnapshots, AllPages(hostRawAllocations, space.page), space.page)
    }

    /**
     * The constructor's body. Apart from refused mapping calls it succeeds exactly for restorable dumps. A
     * failure anywhere unmaps everything again; pages mapped before are never touched.
     */
    method Build(space: AddressSpace, data: ReplayData, dump: Dump, backends: PolicyCodec.Backends,
                 resetEnabled: bool, replies: nat -> Reply) returns (ok: bool)
      requires inputSnapshots == [] && stored == [] && hostRawAllocations == []
      modifies this, space, data
      ensures ok ==> Restorable(dump, old(space.mapped), space.page, backends)
      ensures (Restorable(dump, old(space.mapped), space.page, backends)
               && NoneRefused(replies, |dump.inViews|)) ==> ok
      ensures !ok ==> space.mapped == old(space.mapped)
      ensures !ok ==> data.Holds(dump, backends)
                      || (data.functor == old(data.functor) && data.policy == old(data.policy))
      ensures forall a: nat :: a / space.page in old(space.mapped) ==> space.bytes(a) == old(space.bytes)(a)
      ensures ok ==> RestoredState(space, dump, old(space.mapped), resetEnabled) && data.Holds(dump, backends)
      ensures ok ==> forall a: nat | a / space.page in AllPages(hostRawAllocations, space.page) ::
                NotCaptured(dump.inViews, a) ==> space.bytes(a) == 0
      ensures ok && ViewsApart(dump.inViews) ==> AllRestored(dump.inViews, space.bytes)
      ensures ok ==> |stored| == |dump.inViews| && forall k | 0 <= k < |stored| ::
                && stored[k].id == dump.inViews[k].ptr && stored[k].name == dump.inViews[k].name
                && stored[k].space == dump.inViews[k].space && stored[k].size == dump.inViews[k].size
                && stored[k].data == (if dump.inViews[k].size != 0 then dump.inViews[k].pData else 0)
    {
      hide Separate, AllAligned, InputsRestorable, OutputsRestorable, Unneeded;
      hide PolicyCodec.ReadPolicy, data.Holds, InputsApplied, Attached, Needed;
      ok := MapHostViews(space, dump.inViews, replies);
      if !ok {
        if !HostUsable(dump.inViews) {
          NotUsable(dump.inViews);
        }
        return;
      }
      MappedNotCaptured(dump.inViews, space.page, old(space.mapped));
      ghost var pages := AllPages(hostRawAllocations, space.page);
      if AllUsable(dump.inViews) {
        WritesOnMore(InputWrites(dump.inViews), pages, space.mapped, space.page);
      }
      ok := Populate(space, data, dump, backends, resetEnabled);
      if ok {
        TableFields(stored, dump.inViews, if dump.outViews.Some? then dump.outViews.value else []);
      }
      if !ok {
        ReleaseAll(space, hostRawAllocations);
      } else if ViewsApart(dump.inViews) {
        DisjointViewsRestored(dump.inViews, space.bytes);
      }
    }

    /** First pass: checks the host views and maps the merged regions around them. */
    method MapHostViews(space: AddressSpace, views: seq<ViewGroup>, replies: nat -> Reply) returns (ok: bool)
      requires hostRawAllocations == []
      modifies this`hostRawAllocations, space
      ensures ok ==> HostUsable(views) && Unneeded(old(space.mapped), views, space.page)
      ensures (HostUsable(views) && Unneeded(old(space.mapped), views, space.page)
               && NoneRefused(replies, |views|)) ==> ok
      ensures !ok ==> space.mapped == old(space.mapped) && hostRawAllocations == []
      ensures ok ==> Mapped(space, views, old(space.mapped))
      ensures ok ==> forall a: nat :: a / space.page in AllPages(hostRawAllocations, space.page) ==> space.bytes(a) == 0
      ensures ok && AllUsable(views) ==>
                WritesOn(InputWrites(views), AllPages(hostRawAllocations, space.page), space.page)
      ensures forall a: nat :: a / space.page in old(space.mapped) ==> space.bytes(a) == old(space.bytes)(a)
    {
      hide Merges, Separate, Locations, AllUsable, Needed;
      var collected, locs := CollectHostLocations(views, space.page);
      if !collected {
        return false;
      }
      LocationsAligned(views, space.page, locs);
      var regions := ComputeAllocations(locs);
      MergesSeparate(locs, regions);
      RegionsAreNeededPages(views, space.page, locs, regions);
      ok := AllocateAll(space, regions, replies);
      PagesFree(views, space.page, regions, old(space.mapped));
      if ok {
        hostRawAllocations := regions;
        forall a: nat | a / space.page in AllPages(regions, space.page) ensures space.bytes(a) == 0 {
          MappedIsCovered(regions, space.page, a);
        }
        if AllUsable(views) {
          ViewsMapped(views, space.page, locs, regions);
        }
      }
    }

    /** Everything after the mapping: device views, input bytes, functor, policy and outputs. */
    method Populate(space: AddressSpace, data: ReplayData, dump: Dump, backends: PolicyCodec.Backends,
                    resetEnabled: bool) returns (ok: bool)
      requires inputSnapshots == [] && stored == [] && HostUsable(dump.inViews)
      requires AllUsable(dump.inViews) ==> WritesMapped(InputWrites(dump.inViews), space)
      modifies this`inputSnapshots, this`stored, space`bytes, data
      ensures ok <==> InputsRestorable(dump.inViews) && PolicyCodec.ReadPolicy(dump.policy, backends).Some?
                      && OutputsRestorable(dump)
      ensures if InputsRestorable(dump.inViews) then data.Holds(dump, backends)
              else data.functor == old(data.functor) && data.policy == old(data.policy)
      ensures forall a: nat :: NotCaptured(dump.inViews, a) ==> space.bytes(a) == old(space.bytes)(a)
      ensures ok ==> AllUsable(dump.inViews) && InputsApplied(dump.inViews, space.bytes)
                     && inputSnapshots == (if resetEnabled then InputWrites(dump.inViews) else [])
                     && Attached(stored, dump.inViews, if dump.outViews.Some? then dump.outViews.value else [])
    {
      hide AllUsable, HostUsable, OutputsMatch, Attached, KeysDistinct, WritesOn, NotCaptured;
      hide PolicyCodec.ReadPolicy, data.Holds;
      ok := CheckDeviceViews(dump.inViews);
      if !ok {
        return;
      }
      var index;
      ok, index := RestoreInputs(space, dump.inViews, resetEnabled);
      if !ok {
        return;
      }
      AppliedInputs(old(space.bytes), dump.inViews, space.bytes);
      ok := data.Read(dump, backends);
      if ok && dump.outViews.Some? {
        ok, stored := MatchOutputs(dump.inViews, index, stored, dump.outViews.value);
      }
    }

    /** What a successful construction leaves behind. */
    ghost predicate RestoredState(space: AddressSpace, dump: Dump, before: set<nat>, resetEnabled: bool)
      reads this, space
    {
      && Valid(space)
      && Mapped(space, dump.inViews, before)
      && AllUsable(dump.inViews) && InputsApplied(dump.inViews, space.bytes)
      && inputSnapshots == (if resetEnabled then InputWrites(dump.inViews) else [])
      && Attached(stored, dump.inViews, if dump.outViews.Some? then dump.outViews.value else [])
    }

    /** The guard's regions are new, and their pages are exactly those that hold a captured host byte. */
    ghost predicate Mapped(space: AddressSpace, views: seq<ViewGroup>, before: set<nat>)
      reads this, space
    {
      var pages := AllPages(hostRawAllocations, space.page);
      && AllAligned(hostRawAllocations, space.page) && Separate(hostRawAllocations)
      && pages !! before && space.mapped == before + pages
      && forall p: nat :: p in pages <==> Needed(views, space.page, p)
    }

    /** The destructor of the guard's members: its regions are unmapped. */
    method Destroy(space: AddressSpace)
      requires Valid(space)
      modifies space`mapped
      ensures space.mapped == old(space.mapped) - AllPages(hostRawAllocations, space.page)
    {
      ReleaseAll(space, hostRawAllocations);
    }

    /** Second pass over the input views: any device view with bytes makes construction fail. */
    method CheckDeviceViews(views: seq<ViewGroup>) returns (ok: bool)
      requires HostUsable(views)
      ensures ok <==> AllUsable(views)
    {
      for i := 0 to |views|
        invariant forall j :: 0 <= j < i ==> InputUsable(views[j])
      {
        var v := views[i];
        if !v.OnHost() && (!v.bytesDumped || |v.bytes| != v.size || v.size != 0) {
          return false;
        }
      }
      ok := true;
    }

    /** Third pass: writes every input view's bytes back and indexes the views by key. */
    method RestoreInputs(space: AddressSpace, views: seq<ViewGroup>, resetEnabled: bool)
      returns (ok: bool, index: map<Key, nat>)
      requires AllUsable(views) && inputSnapshots == [] && stored == []
      requires WritesMapped(InputWrites(views), space)
      modifies this`inputSnapshots, this`stored, space`bytes
      ensures ok <==> KeysDistinct(views)
      ensures forall a: nat :: NotCaptured(views, a) ==> space.bytes(a) == old(space.bytes)(a)
      ensures ok ==> Applied(old(space.bytes), InputWrites(views), space.bytes)
                     && inputSnapshots == (if resetEnabled then InputWrites(views) else [])
                     && Indexes(index, views) && Attached(stored, views, [])
      ensures ok <==> forall i, j | 0 <= i < j < |views| ::
                        views[i].ptr != views[j].ptr || views[i].space != views[j].space
      ensures ok ==> |stored| == |views| && forall k | 0 <= k < |stored| ::
                && stored[k].id == views[k].ptr && stored[k].name == views[k].name
                && stored[k].space == views[k].space && stored[k].size == views[k].size
                && stored[k].data == (if views[k].size != 0 then views[k].pData else 0)
                && !stored[k].outputSeen && !stored[k].hasReference && stored[k].referenceSize == 0
    {
      hide Indexes, Attached, Applied, WritesMapped, NotCaptured, KeysDistinct, AllUsable, InputWrites;
      index := map[];
      DistinctKeys(views);
      NothingRestored(space.bytes);
      for i := 0 to |views|
        invariant KeysDistinct(views[..i])
        invariant Applied(old(space.bytes), InputWrites(views[..i]), space.bytes)
        invariant forall a: nat :: NotCaptured(views, a) ==> space.bytes(a) == old(space.bytes)(a)
        invariant inputSnapshots == if resetEnabled then InputWrites(views[..i]) else []
        invariant Indexes(index, views[..i]) && Attached(stored, views[..i], [])
        invariant WritesMapped(InputWrites(views), space)
      {
        var v := views[i];
        assert views[..i + 1] == views[..i] + [v] && views[..i + 1][..i] == views[..i];
        KeyTaken(index, views, i);
        if v.GetKey() in index {
          return false, index;
        }
        IndexOne(index, views[..i], v);
        index := index[v.GetKey() := i];
        NextWrites(views, i);
        RestoreOne(space, views, i, resetEnabled, old(space.bytes));
        StoreOne(stored, views[..i], v);
        stored := stored + [Restored(v)];
      }
      assert views[..|views|] == views;
      TableFields(stored, views, []);
      ok := true;
    }

    /** Copies one view's bytes and, when inputs may be reset, keeps a copy of them. */
    method RestoreOne(space: AddressSpace, views: seq<ViewGroup>, i: nat, resetEnabled: bool,
                      ghost initial: nat -> Byte)
      requires AllUsable(views) && i < |views|
      requires WritesMapped(InputWrites(views), space)
      requires Applied(initial, InputWrites(views[..i]), space.bytes)
      requires forall a: nat :: NotCaptured(views, a) ==> space.bytes(a) == initial(a)
      modifies this`inputSnapshots, space`bytes
      ensures WritesMapped(InputWrites(views), space)
      ensures Applied(initial, InputWrites(views[..i + 1]), space.bytes)
      ensures forall a: nat :: NotCaptured(views, a) ==> space.bytes(a) == initial(a)
      ensures inputSnapshots == old(inputSnapshots)
                + (if resetEnabled && views[i].size != 0 then [Write(views[i].pData, views[i].bytes)] else [])
    {
      var v := views[i];
      assert views[..i + 1][..i] == views[..i] && views[..i + 1][i] == v;
      assert InputWrites(views[..i]) + [] == InputWrites(views[..i]);
      if v.size != 0 {
        ghost var middle := space.bytes;
        var w := Write(v.pData, v.bytes);
        WriteOfView(views, i);
        assert forall a: nat :: v.pData <= a < v.pData + |v.bytes| ==> w.Holds(a);
        space.HostCopyData(v.pData, v.bytes);
        ApplyOne(initial, InputWrites(views[..i]), middle, w, space.bytes);
        if resetEnabled {
          inputSnapshots := inputSnapshots + [w];
        }
      }
    }

    /**
     * reset_inputs: every byte of every input is again what it was right after construction, whatever the
     * kernels wrote; no other byte changes.
     */
    method ResetInputs(space: AddressSpace, ghost initial: nat -> Byte, ghost constructed: nat -> Byte)
      requires Valid(space)
      requires Applied(initial, inputSnapshots, constructed)
      modifies space`bytes
      ensures Applied(old(space.bytes), inputSnapshots, space.bytes)
      ensures forall a: nat :: space.bytes(a) ==
                if exists i :: 0 <= i < |inputSnapshots| && inputSnapshots[i].Holds(a) then constructed(a)
                else old(space.bytes)(a)
    {
      WritesOnMore(inputSnapshots, AllPages(hostRawAllocations, space.page), space.mapped, space.page);
      CopyAll(space, inputSnapshots);
      forall a: nat
        ensures space.bytes(a) ==
                if exists i :: 0 <= i < |inputSnapshots| && inputSnapshots[i].Holds(a) then constructed(a)
                else old(space.bytes)(a)
      {
        ResetRestores(initial, inputSnapshots, constructed, old(space.bytes), space.bytes, a);
      }
    }
  }

  /** A guard that is built and destroyed leaves the page table as it was before. */
  lemma GuardLeavesNoTrace(guard: Guard, space: AddressSpace, dump: Dump, before: set<nat>, resetEnabled: bool)
    requires guard.RestoredState(space, dump, before, resetEnabled)
    ensures space.mapped - AllPages(guard.hostRawAllocations, space.page) == before
  {
  }

  // ---------- steps of the construction ----------

  lemma MergesSeparate(ins: seq<Range>, outs: seq<Range>)
    requires Merges(ins, outs)
    ensures Separate(outs)
  {
  }

  lemma NotUsable(views: seq<ViewGroup>)
    requires !HostUsable(views)
    ensures !InputsRestorable(views)
  {
  }

  /** The system refuses none of the first n mapping calls. */
  ghost predicate NoneRefused(replies: nat -> Reply, n: nat) {
    forall i: nat | i < n :: !replies(i).Refuses?
  }

  lemma PagesFree(views: seq<ViewGroup>, page: Positive, regions: seq<Range>, mapped: set<nat>)
    requires forall p: nat :: p in AllPages(regions, page) <==> Needed(views, page, p)
    ensures AllPages(regions, page) !! mapped <==> Unneeded(mapped, views, page)
  {
  }

  lemma AppliedInputs(before: nat -> Byte, views: seq<ViewGroup>, after: nat -> Byte)
    requires Applied(before, InputWrites(views), after)
    ensures InputsApplied(views, after)
  {
  }

  ghost predicate NotCaptured(views: seq<ViewGroup>, a: nat) {
    forall i :: 0 <= i < |views| ==> !CapturedByte(views[i], a)
  }

  lemma MappedNotCaptured(views: seq<ViewGroup>, page: Positive, mapped: set<nat>)
    requires Unneeded(mapped, views, page)
    ensures forall a: nat :: a / page in mapped ==> NotCaptured(views, a)
  {
    forall a: nat, i | a / page in mapped && 0 <= i < |views| ensures !CapturedByte(views[i], a) {
      assert !Needed(views, page, a / page);
    }
  }

  lemma NothingRestored(bytes: nat -> Byte)
    ensures Applied(bytes, InputWrites([]), bytes)
    ensures Indexes(map[], []) && Attached([], [], []) && KeysDistinct([]) && InputWrites([]) == []
  {
  }

  lemma KeyTaken(index: map<Key, nat>, views: seq<ViewGroup>, i: nat)
    requires i < |views| && Indexes(index, views[..i]) && KeysDistinct(views[..i])
    ensures views[i].GetKey() in index ==> !KeysDistinct(views)
    ensures views[i].GetKey() !in index ==> KeysDistinct(views[..i + 1])
  {
    var key := views[i].GetKey();
    if key in index {
      assert views[..i][index[key]] == views[index[key]];
    } else {
      assert forall j :: 0 <= j < i ==> views[..i][j] == views[j];
      assert forall j :: 0 <= j < i ==> views[..i][j].GetKey() in index;
    }
  }

  lemma IndexOne(index: map<Key, nat>, views: seq<ViewGroup>, v: ViewGroup)
    requires Indexes(index, views) && v.GetKey() !in index
    ensures Indexes(index[v.GetKey() := |views|], views + [v])
  {
    var more := index[v.GetKey() := |views|];
    forall key | key in more ensures more[key] < |views + [v]| && (views + [v])[more[key]].GetKey() == key {
      if key != v.GetKey() {
        assert (views + [v])[index[key]] == views[index[key]];
      }
    }
    forall k | 0 <= k < |views + [v]|
      ensures (views + [v])[k].GetKey() in more && more[(views + [v])[k].GetKey()] == k
    {
      if k < |views| {
        assert (views + [v])[k] == views[k];
      }
    }
  }

  lemma DistinctKeys(views: seq<ViewGroup>)
    ensures KeysDistinct(views) <==>
            forall i, j | 0 <= i < j < |views| :: views[i].ptr != views[j].ptr || views[i].space != views[j].space
  {
  }

  lemma TableFields(stored: seq<StoredAllocation>, ins: seq<ViewGroup>, outs: seq<ViewGroup>)
    requires Attached(stored, ins, outs)
    ensures |stored| == |ins|
    ensures forall k | 0 <= k < |stored| ::
              && stored[k].id == ins[k].ptr && stored[k].name == ins[k].name
              && stored[k].space == ins[k].space && stored[k].size == ins[k].size
              && stored[k].data == (if ins[k].size != 0 then ins[k].pData else 0)
    ensures outs == [] ==> forall k | 0 <= k < |stored| ::
              !stored[k].outputSeen && !stored[k].hasReference && stored[k].referenceSize == 0
  {
  }

  lemma NextWrites(views: seq<ViewGroup>, i: nat)
    requires i < |views|
    ensures InputWrites(views[..i + 1]) ==
            InputWrites(views[..i])
            + (if views[i].size != 0 then [Write(views[i].pData, views[i].bytes)] else [])
  {
    assert views[..i + 1][..i] == views[..i];
  }

  lemma StoreOne(stored: seq<StoredAllocation>, views: seq<ViewGroup>, v: ViewGroup)
    requires Attached(stored, views, [])
    ensures Attached(stored + [Restored(v)], views + [v], [])
  {
  }

  /** Every byte that will be written back lies in a mapped region. */
  lemma ViewsMapped(views: seq<ViewGroup>, page: Positive, locs: seq<Range>, regions: seq<Range>)
    requires AllUsable(views)
    requires Locations(views, page, locs) && Merges(locs, regions) && AllAligned(regions, page)
    ensures WritesOn(InputWrites(views), AllPages(regions, page), page)
  {
    var ws := InputWrites(views);
    forall j, a: nat | 0 <= j < |ws| && ws[j].Holds(a) ensures a / page in AllPages(regions, page) {
      WriteComesFromView(views, j);
      var i :| 0 <= i < |views| && views[i].size != 0 && ws[j] == Write(views[i].pData, views[i].bytes);
      assert InputUsable(views[i]);
      CopyStaysInOneRegion(views, page, locs, regions, i);
      var k :| 0 <= k < |regions| && regions[k].Contains(Range(views[i].pData, views[i].size));
      assert regions[k].Holds(a);
      CoveredIsMapped(regions, page, a);
    }
  }
}
