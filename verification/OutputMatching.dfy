/** Attaching a dump's output views to its input views. */
module OutputMatching {
  import opened Bytes
  import opened DumpFile
  import opened Wrappers

  /** A restored allocation and, once its output was seen, the reference bytes it is compared with. */
  datatype StoredAllocation = StoredAllocation(id: nat, name: string, space: string, data: nat, size: nat,
                                               outputSeen: bool, referenceSize: nat, hasReference: bool,
                                               reference: seq<Byte>)

  function Restored(v: ViewGroup): StoredAllocation {
    StoredAllocation(v.ptr, v.name, v.space, if v.size != 0 then v.pData else 0, v.size, false, 0, false, [])
  }

  /** What a restored allocation becomes when the output with its key, if any, is attached. */
  function Attach(s: StoredAllocation, o: Option<ViewGroup>): StoredAllocation {
    match o
    case None => s
    case Some(v) =>
      s.(outputSeen := true, referenceSize := v.size, hasReference := v.bytesDumped,
         reference := if v.bytesDumped && v.size != 0 then v.bytes else [])
  }

  /** A dumped output has as many bytes as recorded, and only host bytes can be given a reference buffer. */
  predicate OutputUsable(v: ViewGroup) {
    v.bytesDumped ==> v.Consistent() && (v.size != 0 ==> v.OnHost())
  }

  ghost predicate HasInput(ins: seq<ViewGroup>, v: ViewGroup) {
    exists k :: 0 <= k < |ins| && ins[k].GetKey() == v.GetKey() && ins[k].name == v.name
  }

  /** The outputs have distinct keys, each that of an input with the same label. */
  ghost predicate OutputsMatch(ins: seq<ViewGroup>, outs: seq<ViewGroup>) {
    && KeysDistinct(outs)
    && forall i :: 0 <= i < |outs| ==> OutputUsable(outs[i]) && HasInput(ins, outs[i])
  }

  /** The index from keys to restored allocations, as the input pass builds it. */
  ghost predicate Indexes(index: map<Key, nat>, ins: seq<ViewGroup>) {
    && (forall k :: 0 <= k < |ins| ==> ins[k].GetKey() in index && index[ins[k].GetKey()] == k)
    && (forall key :: key in index ==> index[key] < |ins| && ins[index[key]].GetKey() == key)
  }

  ghost predicate Attached(stored: seq<StoredAllocation>, ins: seq<ViewGroup>, outs: seq<ViewGroup>) {
    && |stored| == |ins|
    && forall k :: 0 <= k < |ins| ==> stored[k] == Attach(Restored(ins[k]), FindKey(outs, ins[k].GetKey()))
  }

  /** What attached outputs mean for one allocation: its own fields, and those of the output with its key. */
  lemma TableEntry(stored: seq<StoredAllocation>, ins: seq<ViewGroup>, outs: seq<ViewGroup>, k: nat)
    requires Attached(stored, ins, outs) && k < |ins|
    ensures |stored| == |ins|
    ensures stored[k].id == ins[k].ptr && stored[k].name == ins[k].name && stored[k].space == ins[k].space
    ensures stored[k].data == (if ins[k].size != 0 then ins[k].pData else 0) && stored[k].size == ins[k].size
    ensures stored[k].outputSeen <==>
            exists i :: 0 <= i < |outs| && outs[i].ptr == ins[k].ptr && outs[i].space == ins[k].space
    ensures !stored[k].outputSeen ==>
              !stored[k].hasReference && stored[k].referenceSize == 0 && stored[k].reference == []
    ensures stored[k].outputSeen ==>
              exists i :: && 0 <= i < |outs| && outs[i].ptr == ins[k].ptr && outs[i].space == ins[k].space
                          && stored[k].hasReference == outs[i].bytesDumped
                          && stored[k].referenceSize == outs[i].size
                          && stored[k].reference == (if outs[i].bytesDumped && outs[i].size != 0 then outs[i].bytes
                                                     else [])
  {
    var o := FindKey(outs, ins[k].GetKey());
    if o.Some? {
      var i :| 0 <= i < |outs| && outs[i] == o.value;
      assert outs[i].ptr == ins[k].ptr && outs[i].space == ins[k].space;
    } else {
      assert forall i :: 0 <= i < |outs| ==> outs[i].GetKey() != ins[k].GetKey();
    }
  }

  /** allocate_output, for one output whose key was found. */
  method AllocateOutput(allocation: StoredAllocation, snapshot: ViewGroup)
    returns (ok: bool, updated: StoredAllocation)
    ensures ok <==> !allocation.outputSeen && allocation.name == snapshot.name
                    && (snapshot.bytesDumped && snapshot.size != 0 ==> snapshot.OnHost())
    ensures ok ==> updated == Attach(allocation, Some(snapshot))
  {
    updated := allocation;
    if allocation.outputSeen || allocation.name != snapshot.name {
      return false, updated;
    }
    updated := updated.(outputSeen := true, referenceSize := snapshot.size, hasReference := snapshot.bytesDumped,
                        reference := []);
    if !snapshot.bytesDumped || snapshot.size == 0 {
      return true, updated;
    }
    if snapshot.space != "Host" {
      return false, updated;
    }
    updated := updated.(reference := snapshot.bytes);
    ok := true;
  }

  /** The output pass accepts exactly the outputs that match, and attaches each to the input with its key. */
  method MatchOutputs(ins: seq<ViewGroup>, index: map<Key, nat>, stored: seq<StoredAllocation>,
                      outs: seq<ViewGroup>) returns (ok: bool, matched: seq<StoredAllocation>)
    requires KeysDistinct(ins) && Indexes(index, ins) && Attached(stored, ins, [])
    ensures ok <==> OutputsMatch(ins, outs)
    ensures ok ==> Attached(matched, ins, outs)
  {
    hide OutputsMatch, Attached, KeysDistinct, Indexes, HasInput, SeenBefore;
    NoOutputs(ins);
    assert outs[..0] == [];
    matched := stored;
    for i := 0 to |outs|
      invariant OutputsMatch(ins, outs[..i])
      invariant Attached(matched, ins, outs[..i])
    {
      var v := outs[i];
      assert outs[..i + 1] == outs[..i] + [v];
      NextOutput(ins, outs, i);
      InputOf(ins, index, v);
      if (v.bytesDumped && |v.bytes| != v.size) || v.GetKey() !in index {
        return false, matched;
      }
      var k := index[v.GetKey()];
      AttachedName(matched, ins, outs[..i], k);
      Seen(ins, outs, i, matched, k);
      var updated;
      ok, updated := AllocateOutput(matched[k], v);
      if !ok {
        return;
      }
      AttachOne(ins, outs[..i], v, k, matched, updated);
      matched := matched[k := updated];
    }
    assert outs[..|outs|] == outs;
    ok := true;
  }

  ghost predicate SeenBefore(outs: seq<ViewGroup>, i: nat)
    requires i < |outs|
  {
    exists j :: 0 <= j < i && outs[j].GetKey() == outs[i].GetKey()
  }

  lemma NoOutputs(ins: seq<ViewGroup>)
    ensures OutputsMatch(ins, [])
  {
  }

  /** Whether one more output is acceptable; and no later output repairs one that is not. */
  lemma NextOutput(ins: seq<ViewGroup>, outs: seq<ViewGroup>, i: nat)
    requires i < |outs| && OutputsMatch(ins, outs[..i])
    ensures OutputsMatch(ins, outs[..i + 1]) <==>
            OutputUsable(outs[i]) && HasInput(ins, outs[i]) && !SeenBefore(outs, i)
    ensures OutputsMatch(ins, outs) ==> OutputsMatch(ins, outs[..i + 1])
  {
    hide HasInput, OutputUsable;
    assert forall j :: 0 <= j < i ==> outs[..i][j] == outs[j];
    assert forall j :: 0 <= j <= i ==> outs[..i + 1][j] == outs[j];
    if SeenBefore(outs, i) {
      var j :| 0 <= j < i && outs[j].GetKey() == outs[i].GetKey();
      assert outs[..i + 1][j].GetKey() == outs[..i + 1][i].GetKey();
    }
  }

  lemma InputOf(ins: seq<ViewGroup>, index: map<Key, nat>, v: ViewGroup)
    requires Indexes(index, ins)
    ensures v.GetKey() in index ==> index[v.GetKey()] < |ins| && ins[index[v.GetKey()]].GetKey() == v.GetKey()
    ensures HasInput(ins, v) <==> v.GetKey() in index && ins[index[v.GetKey()]].name == v.name
  {
  }

  lemma AttachedName(stored: seq<StoredAllocation>, ins: seq<ViewGroup>, outs: seq<ViewGroup>, k: nat)
    requires Attached(stored, ins, outs) && k < |ins|
    ensures k < |stored| && stored[k].name == ins[k].name
  {
  }

  /** An allocation was seen exactly when an earlier output has the same key. */
  lemma Seen(ins: seq<ViewGroup>, outs: seq<ViewGroup>, i: nat, stored: seq<StoredAllocation>, k: nat)
    requires i < |outs| && k < |ins| && ins[k].GetKey() == outs[i].GetKey()
    requires Attached(stored, ins, outs[..i])
    ensures |stored| == |ins| && (stored[k].outputSeen <==> SeenBefore(outs, i))
  {
    var key, before := outs[i].GetKey(), outs[..i];
    if FindKey(before, key).Some? {
      var j :| 0 <= j < |before| && before[j] == FindKey(before, key).value;
      assert outs[j].GetKey() == key;
    } else {
      assert forall j :: 0 <= j < i ==> before[j] == outs[j];
    }
  }

  lemma AttachOne(ins: seq<ViewGroup>, outs: seq<ViewGroup>, v: ViewGroup, k: nat,
                  stored: seq<StoredAllocation>, updated: StoredAllocation)
    requires KeysDistinct(ins) && Attached(stored, ins, outs)
    requires k < |ins| && ins[k].GetKey() == v.GetKey()
    requires !stored[k].outputSeen && updated == Attach(stored[k], Some(v))
    ensures |stored| == |ins| && Attached(stored[k := updated], ins, outs + [v])
  {
    forall j | 0 <= j < |ins|
      ensures stored[k := updated][j] == Attach(Restored(ins[j]), FindKey(outs + [v], ins[j].GetKey()))
    {
      FindKeyAppend(outs, v, ins[j].GetKey());
    }
  }

  /** Each reference holds exactly the bytes of the output with the allocation's key. */
  lemma {:induction false} ReferenceIsOutput(stored: seq<StoredAllocation>, ins: seq<ViewGroup>,
                                             outs: seq<ViewGroup>, k: nat, i: nat)
    requires Attached(stored, ins, outs) && OutputsMatch(ins, outs)
    requires k < |ins| && i < |outs| && ins[k].GetKey() == outs[i].GetKey()
    ensures stored[k].hasReference == outs[i].bytesDumped && stored[k].referenceSize == outs[i].size
    ensures outs[i].bytesDumped ==> stored[k].reference == outs[i].bytes
  {
    var v := FindKey(outs, ins[k].GetKey());
    var j :| 0 <= j < |outs| && outs[j] == v.value;
    assert i == j;
  }
}
