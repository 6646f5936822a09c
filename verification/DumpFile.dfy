/** A dump file: its attributes, one group per captured allocation, the functor and the policy. */
module DumpFile {
  import opened Bytes
  import PolicyCodec
  import opened Wrappers

  /** An allocation is identified by its base pointer and the name of its memory space. */
  datatype Key = Key(ptr: nat, space: string)

  datatype ViewGroup = ViewGroup(name: string, space: string, ptr: nat, pData: nat, size: nat,
                                 bytesDumped: bool, bytes: seq<Byte>)
  {
    function GetKey(): Key { Key(ptr, space) }
    predicate OnHost() { space == "Host" }
    /** The byte dataset has the recorded size. */
    predicate Consistent() { |bytes| == size }
  }

  /** The `functor` group. */
  datatype StoredFunctor = StoredFunctor(functor: seq<Byte>, closures: seq<Byte>)

  /** The output group is absent until the kernel's output was appended. */
  datatype Dump = Dump(name: string, kernelId: nat, invocation: nat, inViews: seq<ViewGroup>,
                       functor: StoredFunctor, policy: PolicyCodec.Group, outViews: Option<seq<ViewGroup>>)

  ghost predicate KeysDistinct(views: seq<ViewGroup>) {
    forall i, j :: 0 <= i < j < |views| ==> views[i].GetKey() != views[j].GetKey()
  }

  /** The first view with the given key. */
  function FindKey(views: seq<ViewGroup>, key: Key): (r: Option<ViewGroup>)
    ensures r.Some? ==> r.value in views && r.value.GetKey() == key
    ensures r.None? ==> forall i :: 0 <= i < |views| ==> views[i].GetKey() != key
  {
    if views == [] then None
    else if views[0].GetKey() == key then Some(views[0])
    else FindKey(views[1..], key)
  }

  lemma {:induction false} FindKeyAppend(views: seq<ViewGroup>, v: ViewGroup, key: Key)
    ensures FindKey(views + [v], key) ==
            if FindKey(views, key).Some? then FindKey(views, key)
            else if v.GetKey() == key then Some(v) else None
  {
    if views == [] {
      assert views + [v] == [v];
    } else {
      assert (views + [v])[1..] == views[1..] + [v];
      FindKeyAppend(views[1..], v, key);
    }
  }
}
