/** From snapshots of the tracker to the view groups of a dump, and what the replayer makes of them. */
module DumpedSnapshots {
  import opened Bytes
  import opened DumpFile
  import opened DumpNames
  import opened AllocationTracker
  import opened InputRestore
  import opened ScopeGuard
  import opened OutputMatching
  import opened Wrappers

  // ---------- writing a snapshot ----------

  predicate HostAccessible(space: string) {
    space in ["Host", "CudaHostPinned", "CudaUVM", "HIPHostPinned", "HIPManaged", "SYCLHostUSM", "SYCLSharedUSM",
              "NextSiliconSharedSpace"]
  }

  /** copy_allocation_bytes in a build without CUDA and HIP; None stands for a reason to skip the bytes. */
  function CopyAllocationBytes(r: Record, memory: Mem): Option<seq<Byte>> {
    if !r.sizeKnown then None
    else if r.size == 0 then Some([])
    else if !HostAccessible(r.space) || r.pData == 0 then None
    else Some(Load(memory, r.pData, r.size))
  }

  /** write_allocation_group, of an allocation in the memory of the captured process. */
  function GroupOf(a: ActiveAllocation, memory: Mem): ViewGroup {
    var bytes := CopyAllocationBytes(a.record, memory);
    ViewGroup(a.record.name, a.record.space, a.ptr, a.record.pData, a.record.size,
              bytes.Some?, if bytes.Some? then bytes.value else [])
  }

  /** The allocations that a snapshot has to contain. */
  ghost function Chosen(plugins: bool, active: Active, used: Used): iset<ActiveAllocation> {
    iset a | IsActive(active, a) && Selected(plugins, used, a.record)
  }

  /** The groups are those of the chosen allocations, one each, with the bytes they have in memory. */
  ghost predicate Captures(views: seq<ViewGroup>, chosen: iset<ActiveAllocation>, memory: Mem) {
    && KeysDistinct(views)
    && forall v :: v in views <==> exists a :: a in chosen && v == GroupOf(a, memory)
  }

  /** The groups have different names in the file; creating a group whose name is taken would fail. */
  ghost predicate NamesDistinct(views: seq<ViewGroup>) {
    forall i, j :: 0 <= i < j < |views| ==> GroupName(i, views[i].name) != GroupName(j, views[j].name)
  }

  lemma NumberedNamesDistinct(views: seq<ViewGroup>)
    ensures NamesDistinct(views)
  {
    hide GroupName;
    forall i, j | 0 <= i < j < |views| ensures GroupName(i, views[i].name) != GroupName(j, views[j].name) {
      GroupNamesDistinct(i, views[i].name, j, views[j].name);
    }
  }

  /** The group's attributes are those of the allocation. */
  ghost predicate FieldsOf(v: ViewGroup, a: ActiveAllocation) {
    && v.name == a.record.name && v.space == a.record.space && v.ptr == a.ptr
    && v.pData == a.record.pData && v.size == a.record.size
  }

  /**
   * The bytes are dumped exactly when the size is known and either there are none or they are at a non-null
   * address of a space that the host can read; then they are the bytes in memory.
   */
  ghost predicate HasBytes(v: ViewGroup, r: Record, memory: Mem) {
    && (v.bytesDumped <==>
          && r.sizeKnown
          && (r.size == 0
              || (&& r.pData != 0
                  && r.space in {"Host", "CudaHostPinned", "CudaUVM", "HIPHostPinned", "HIPManaged", "SYCLHostUSM",
                                 "SYCLSharedUSM", "NextSiliconSharedSpace"})))
    && |v.bytes| == (if v.bytesDumped then r.size else 0)
    && (forall k :: 0 <= k < |v.bytes| ==> v.bytes[k] == At(memory, r.pData + k))
  }

  /** What a capture holds, field by field: each chosen allocation has a group, and each group is of one. */
  lemma CapturedGroups(views: seq<ViewGroup>, chosen: iset<ActiveAllocation>, memory: Mem)
    requires Captures(views, chosen, memory)
    ensures forall a | a in chosen :: exists v :: v in views && FieldsOf(v, a) && HasBytes(v, a.record, memory)
    ensures forall v | v in views :: exists a :: a in chosen && FieldsOf(v, a) && HasBytes(v, a.record, memory)
  {
    hide KeysDistinct, GroupOf, FieldsOf, HasBytes;
    forall a | a in chosen ensures exists v :: v in views && FieldsOf(v, a) && HasBytes(v, a.record, memory) {
      FieldsAndBytes(a, memory);
      assert GroupOf(a, memory) in views;
    }
    forall v | v in views ensures exists a :: a in chosen && FieldsOf(v, a) && HasBytes(v, a.record, memory) {
      var a :| a in chosen && v == GroupOf(a, memory);
      FieldsAndBytes(a, memory);
    }
  }

  lemma FieldsAndBytes(a: ActiveAllocation, memory: Mem)
    ensures FieldsOf(GroupOf(a, memory), a) && HasBytes(GroupOf(a, memory), a.record, memory)
  {
  }

  lemma GroupAt(views: seq<ViewGroup>, allocations: seq<ActiveAllocation>, memory: Mem, i: nat)
    requires GroupsOf(views, allocations, memory) && i < |views|
    ensures i < |allocations| && views[i] == GroupOf(allocations[i], memory)
  {
  }

  lemma SnapshotLength(views: seq<ViewGroup>, allocations: seq<ActiveAllocation>, memory: Mem)
    requires GroupsOf(views, allocations, memory)
    ensures |views| == |allocations|
  {
  }

  /** write_snapshot: one group for each allocation, numbered in order. */
  method WriteSnapshot(s: Snapshot, memory: Mem, ghost plugins: bool, ghost active: Active, ghost used: Used)
    returns (views: seq<ViewGroup>)
    requires IsSnapshot(s, plugins, active, used)
    ensures Captures(views, Chosen(plugins, active, used), memory)
    ensures NamesDistinct(views)
    ensures |views| == |s.allocations|
    ensures forall i | 0 <= i < |views| ::
              && views[i].name == s.allocations[i].record.name && views[i].space == s.allocations[i].record.space
              && views[i].ptr == s.allocations[i].ptr && views[i].pData == s.allocations[i].record.pData
              && views[i].size == s.allocations[i].record.size
    ensures forall i | 0 <= i < |views| :: HasBytes(views[i], s.allocations[i].record, memory)
  {
    hide GroupsOf, GroupOf, IsSnapshot, GroupName;
    var allocations := s.allocations;
    views := [];
    NoGroups(memory);
    for i := 0 to |allocations|
      invariant GroupsOf(views, allocations[..i], memory)
    {
      NextGroup(views, allocations, i, memory);
      views := views + [GroupOf(allocations[i], memory)];
    }
    assert allocations[..|allocations|] == allocations;
    NumberedNamesDistinct(views);
    SnapshotLength(views, allocations, memory);
    forall i | 0 <= i < |views|
      ensures FieldsOf(views[i], s.allocations[i]) && HasBytes(views[i], s.allocations[i].record, memory)
    {
      GroupAt(views, allocations, memory, i);
      FieldsAndBytes(allocations[i], memory);
    }
    SnapshotDistinct(s, plugins, active, used);
    SnapshotKeysDistinct(views, allocations, memory);
    GroupsAreChosen(views, s, memory, plugins, active, used);
  }

  ghost predicate GroupsOf(views: seq<ViewGroup>, allocations: seq<ActiveAllocation>, memory: Mem) {
    && |views| == |allocations|
    && forall i :: 0 <= i < |views| ==> views[i] == GroupOf(allocations[i], memory)
  }

  lemma NoGroups(memory: Mem)
    ensures forall allocations: seq<ActiveAllocation> :: GroupsOf([], allocations[..0], memory)
  {
  }

  lemma NextGroup(views: seq<ViewGroup>, allocations: seq<ActiveAllocation>, i: nat, memory: Mem)
    requires i < |allocations| && GroupsOf(views, allocations[..i], memory)
    ensures GroupsOf(views + [GroupOf(allocations[i], memory)], allocations[..i + 1], memory)
  {
    hide GroupOf;
  }

  lemma SnapshotDistinct(s: Snapshot, plugins: bool, active: Active, used: Used)
    requires IsSnapshot(s, plugins, active, used)
    ensures Distinct(s.allocations)
  {
  }

  /** Groups of distinct allocations have distinct keys. */
  lemma SnapshotKeysDistinct(views: seq<ViewGroup>, allocations: seq<ActiveAllocation>, memory: Mem)
    requires GroupsOf(views, allocations, memory) && Distinct(allocations)
    ensures KeysDistinct(views)
  {
    hide CopyAllocationBytes;
    forall i, j | 0 <= i < j < |views| ensures views[i].GetKey() != views[j].GetKey() {
      assert allocations[i].ptr != allocations[j].ptr
          || allocations[i].record.space != allocations[j].record.space;
    }
  }

  lemma GroupsAreChosen(views: seq<ViewGroup>, s: Snapshot, memory: Mem,
                        plugins: bool, active: Active, used: Used)
    requires GroupsOf(views, s.allocations, memory) && IsSnapshot(s, plugins, active, used)
    ensures forall v :: v in views <==> exists a :: a in Chosen(plugins, active, used) && v == GroupOf(a, memory)
  {
    hide GroupOf, IsActive, Selected;
    forall v
      ensures v in views <==> exists a :: a in Chosen(plugins, active, used) && v == GroupOf(a, memory)
    {
      if v in views {
        var i :| 0 <= i < |views| && views[i] == v;
        assert s.allocations[i] in s.allocations;
      }
      if a :| a in Chosen(plugins, active, used) && v == GroupOf(a, memory) {
        assert a in s.allocations;
        var i :| 0 <= i < |s.allocations| && s.allocations[i] == a;
        assert views[i] in views;
      }
    }
  }

  // ---------- reading it back ----------

  /** HDF5 iterates over the groups in an order of its own; whatever it is, the capture is the same. */
  lemma ReorderedCaptures(read: seq<ViewGroup>, written: seq<ViewGroup>, chosen: iset<ActiveAllocation>, memory: Mem)
    requires Captures(written, chosen, memory) && multiset(read) == multiset(written)
    ensures Captures(read, chosen, memory)
  {
    hide GroupOf;
    forall v ensures v in read <==> v in written {
      assert v in read <==> v in multiset(read);
      assert v in written <==> v in multiset(written);
    }
    forall i, j | 0 <= i < j < |read| ensures read[i].GetKey() != read[j].GetKey() {
      if read[i] == read[j] {
        TwiceCounted(read, i, j);
        OnceCounted(written, read[i]);
      } else {
        assert read[i] in read && read[j] in read;
        var x :| 0 <= x < |written| && written[x] == read[i];
        var y :| 0 <= y < |written| && written[y] == read[j];
        if x < y {
          assert written[x].GetKey() != written[y].GetKey();
        } else {
          assert written[y].GetKey() != written[x].GetKey();
        }
      }
    }
  }

  lemma TwiceCounted(views: seq<ViewGroup>, i: nat, j: nat)
    requires i < j < |views| && views[i] == views[j]
    ensures multiset(views)[views[i]] >= 2
  {
    assert views == views[..i] + [views[i]] + views[i + 1..j] + [views[j]] + views[j + 1..];
  }

  lemma {:induction false} OnceCounted(views: seq<ViewGroup>, v: ViewGroup)
    requires KeysDistinct(views)
    ensures multiset(views)[v] <= 1
  {
    if views != [] {
      var last := |views| - 1;
      OnceCounted(views[..last], v);
      assert views == views[..last] + [views[last]];
      assert views[last] == v ==> v !in views[..last];
    }
  }

  /** Bytes that the capture can copy and a host-only replayer can write back. */
  predicate Recoverable(r: Record) {
    r.sizeKnown && (r.size != 0 ==> r.space == "Host" && r.pData != 0)
  }

  /** The replayer accepts the captured inputs exactly when it could recover each chosen allocation. */
  lemma CapturedInputsUsable(views: seq<ViewGroup>, chosen: iset<ActiveAllocation>, memory: Mem)
    requires Captures(views, chosen, memory)
    ensures InputsRestorable(views) <==> forall a :: a in chosen ==> Recoverable(a.record)
  {
    hide KeysDistinct;
    forall a | a in chosen ensures InputUsable(GroupOf(a, memory)) <==> Recoverable(a.record) {
    }
    forall a | a in chosen ensures GroupOf(a, memory) in views {
    }
    if AllUsable(views) {
      forall a | a in chosen ensures Recoverable(a.record) {
        assert GroupOf(a, memory) in views;
        var i :| 0 <= i < |views| && views[i] == GroupOf(a, memory);
        assert InputUsable(views[i]);
      }
    }
    if forall a :: a in chosen ==> Recoverable(a.record) {
      forall i | 0 <= i < |views| ensures InputUsable(views[i]) {
        assert views[i] in views;
        var a :| a in chosen && views[i] == GroupOf(a, memory);
      }
    }
  }

  /**
   * After the inputs were written back, each captured byte of the replay's memory is that of the captured
   * process, in whatever order the groups were read and however the captured ranges overlap.
   */
  lemma CapturedMemoryRestored(views: seq<ViewGroup>, chosen: iset<ActiveAllocation>, memory: Mem,
                               bytes: nat -> Byte, a: ActiveAllocation, p: nat)
    requires Captures(views, chosen, memory) && AllUsable(views) && InputsApplied(views, bytes)
    requires a in chosen && a.record.pData <= p < a.record.pData + a.record.size
    ensures bytes(p) == At(memory, p)
  {
    hide KeysDistinct, GroupOf, CopyAllocationBytes;
    var ws := InputWrites(views);
    WrittenSomewhere(views, chosen, memory, a, p);
    LastWriteDefined(ws, p);
    var k := LastWriter(ws, p);
    WriteComesFromView(views, k);
    var x :| 0 <= x < |views| && views[x].size != 0 && ws[k] == Write(views[x].pData, views[x].bytes);
    assert InputUsable(views[x]) && views[x] in views;
    var b :| b in chosen && views[x] == GroupOf(b, memory);
    GroupByte(b, memory, p);
  }

  lemma WrittenSomewhere(views: seq<ViewGroup>, chosen: iset<ActiveAllocation>, memory: Mem,
                         a: ActiveAllocation, p: nat)
    requires Captures(views, chosen, memory) && AllUsable(views)
    requires a in chosen && a.record.pData <= p < a.record.pData + a.record.size
    ensures exists j :: 0 <= j < |InputWrites(views)| && InputWrites(views)[j].Holds(p)
  {
    hide KeysDistinct, CopyAllocationBytes;
    assert GroupOf(a, memory) in views;
    var i :| 0 <= i < |views| && views[i] == GroupOf(a, memory);
    assert InputUsable(views[i]);
    WriteOfView(views, i);
    var ws := InputWrites(views);
    var j :| 0 <= j < |ws| && ws[j] == Write(views[i].pData, views[i].bytes);
    assert ws[j].Holds(p);
  }

  lemma GroupByte(a: ActiveAllocation, memory: Mem, p: nat)
    requires var v := GroupOf(a, memory);
             InputUsable(v) && v.size != 0 && v.pData <= p < v.pData + |v.bytes|
    ensures GroupOf(a, memory).bytes[p - GroupOf(a, memory).pData] == At(memory, p)
  {
  }

  // ---------- outputs ----------

  /**
   * If only deallocations happen between the two snapshots of a kernel and the inputs can be restored, then
   * the outputs are accepted: distinct, each with its input, and with the same labels.
   */
  lemma DeallocationsKeepOutputs(plugins: bool, before: Active, used: Used, after: Active, used': Used,
                                 inViews: seq<ViewGroup>, outViews: seq<ViewGroup>, memory: Mem, memory': Mem)
    requires Captures(inViews, Chosen(plugins, before, used), memory)
    requires Captures(outViews, Chosen(plugins, after, used'), memory')
    requires (forall x :: IsActive(after, x) ==> IsActive(before, x)) && SamePointers(used, used')
    requires AllUsable(inViews)
    ensures KeysDistinct(inViews) && OutputsMatch(inViews, outViews)
  {
    hide IsActive, Selected, SamePointers;
    NothingChanged(after, used);
    SameSelection(after, after, plugins, used, used');
    FewerKeepOutputs(inViews, outViews, Chosen(plugins, before, used), Chosen(plugins, after, used'), memory, memory');
  }

  lemma FewerKeepOutputs(inViews: seq<ViewGroup>, outViews: seq<ViewGroup>, chosen: iset<ActiveAllocation>,
                         chosen': iset<ActiveAllocation>, memory: Mem, memory': Mem)
    requires Captures(inViews, chosen, memory) && Captures(outViews, chosen', memory') && chosen' <= chosen
    requires AllUsable(inViews)
    ensures OutputsMatch(inViews, outViews)
  {
    hide KeysDistinct;
    forall i | 0 <= i < |outViews| ensures OutputUsable(outViews[i]) && HasInput(inViews, outViews[i]) {
      assert outViews[i] in outViews;
      var a :| a in chosen' && outViews[i] == GroupOf(a, memory');
      assert GroupOf(a, memory) in inViews;
      var j :| 0 <= j < |inViews| && inViews[j] == GroupOf(a, memory);
      assert InputUsable(inViews[j]);
      assert inViews[j].GetKey() == outViews[i].GetKey() && inViews[j].name == outViews[i].name;
    }
  }
}
