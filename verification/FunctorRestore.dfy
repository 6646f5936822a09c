/** The guard that patches a functor with the dump's bytes and puts every byte back afterwards. */
module FunctorRestore {
  import opened Bytes
  import opened Closures
  import opened ClosurePatch
  import opened ClosureBytes
  import opened ClosureVisitors
  import opened DumpFile

  datatype Outcome = Done | FunctorTooSmall | ClosuresMismatch | ClosureOutOfRange

  /** init_functor: the stored functor may be larger than the requested one. */
  method InitFunctor(mem: ProcessMemory, buffer: nat, size: nat, stored: StoredFunctor) returns (o: Outcome)
    requires buffer + size <= |mem.bytes|
    modifies mem
    ensures o == if |stored.functor| < size then FunctorTooSmall else Done
    ensures mem.bytes == if o.Done? then Store(old(mem.bytes), buffer, stored.functor[..size]) else old(mem.bytes)
  {
    if |stored.functor| < size {
      return FunctorTooSmall;
    }
    mem.Memcpy(buffer, stored.functor[..size]);
    o := Done;
  }

  /** init_extended_lambda_host_closure. */
  method InitHostClosure(mem: ProcessMemory, buffer: nat, size: nat, offset: nat, totalSize: nat,
                         stored: StoredFunctor) returns (o: Outcome)
    requires buffer + size <= |mem.bytes|
    modifies mem
    ensures o == if totalSize != |stored.closures| then ClosuresMismatch
                 else if totalSize < offset + size then ClosureOutOfRange else Done
    ensures mem.bytes == if o.Done? then Store(old(mem.bytes), buffer, stored.closures[offset..offset + size])
                         else old(mem.bytes)
  {
    if totalSize != |stored.closures| {
      return ClosuresMismatch;
    }
    if offset > totalSize || size > totalSize - offset {
      return ClosureOutOfRange;
    }
    mem.Memcpy(buffer, stored.closures[offset..offset + size]);
    o := Done;
  }

  function VisitsOf(cs: seq<HostClosure>): (vs: seq<Visit>)
    ensures |vs| == |cs|
    ensures forall i :: 0 <= i < |cs| ==> vs[i] == Visit(cs[i].slot, cs[i].buffer, |cs[i].original|)
  {
    seq(|cs|, i requires 0 <= i < |cs| => Visit(cs[i].slot, cs[i].buffer, |cs[i].original|))
  }

  lemma VisitsOfSaved(m: Mem, vs: seq<Visit>)
    ensures VisitsOf(Saved(m, vs)) == vs
  {
  }

  /** The address belongs to one of the buffers from the lo-th on. */
  ghost predicate InBuffer(vs: seq<Visit>, lo: nat, a: nat) {
    exists j :: lo <= j < |vs| && vs[j].buffer <= a < vs[j].buffer + vs[j].size
  }

  class FunctorRestoreGuard {
    const mem: ProcessMemory
    const storage: nat
    const original: seq<Byte>
    const closures: seq<HostClosure>
    /** The memory when the guard was constructed. */
    ghost const before: Mem

    ghost predicate Valid()
      reads mem
    {
      var vs := VisitsOf(closures);
      && |mem.bytes| == |before|
      && storage + |original| <= |before|
      && original == Load(before, storage, |original|)
      && (forall i :: 0 <= i < |closures| ==>
            closures[i].original == Load(before, closures[i].buffer, |closures[i].original|))
      && InBounds(|before|, vs)
      && SlotsCovered(storage, |original|, vs)
    }

    /** The guard is responsible for this byte: it is the functor's, or a visited host closure's. */
    ghost predicate Owns(a: nat) {
      storage <= a < storage + |original| || InBuffer(VisitsOf(closures), 0, a)
    }

    constructor (mem: ProcessMemory, functor: nat, t: Ty)
      requires Layout(t) && Readable(mem.bytes, functor, t)
      ensures Valid() && fresh(this) && before == mem.bytes
      ensures this.mem == mem && storage == functor && |original| == t.size
      ensures closures == Saved(mem.bytes, Visits(mem.bytes, functor, t))
    {
      this.mem := mem;
      this.storage := functor;
      this.original := Load(mem.bytes, functor, t.size);
      this.before := mem.bytes;
      var visitor := new ClosureVisitor(true);
      if t.Hdl? {
        VisitHostLambdas(mem, functor, t, visitor);
      }
      this.closures := visitor.closures;
      new;
      VisitsOfSaved(mem.bytes, Visits(mem.bytes, functor, t));
      LayoutIsSound(t);
      FunctorSlotsCovered(mem.bytes, functor, t);
    }

    /**
     * Fails exactly when the stored functor is too small, or when there are closures and the stored closure
     * data has another total size; no offset check fails after that. Only owned bytes ever change.
     */
    method Execute(stored: StoredFunctor) returns (o: Outcome)
      requires Valid()
      modifies mem
      ensures Valid()
      ensures o == if |stored.functor| < |original| then FunctorTooSmall
                   else if closures != [] && |stored.closures| != TotalSize(Sizes(VisitsOf(closures)))
                     then ClosuresMismatch
                   else Done
      ensures o.Done? && closures != [] ==>
                mem.bytes == Patch(Store(old(mem.bytes), storage, stored.functor[..|original|]),
                                   VisitsOf(closures), Slices(stored.closures, Sizes(VisitsOf(closures))))
      ensures o.Done? && closures == [] ==>
                mem.bytes == Store(old(mem.bytes), storage, stored.functor[..|original|])
      ensures forall a :: 0 <= a < |mem.bytes| && !Owns(a) ==> mem.bytes[a] == old(mem.bytes)[a]
    {
      hide Patch, Slices, SlotsCovered, InBounds, InBuffer, Store, PatchOne, Load;
      o := InitFunctor(mem, storage, |original|, stored);
      if o != Done {
        return;
      }
      ghost var m0, vs := mem.bytes, VisitsOf(closures);
      ghost var sizes := Sizes(vs);
      var totalSize := ClosureTotal();
      ghost var ds := if |stored.closures| == totalSize then Slices(stored.closures, sizes) else [];
      var offset := 0;
      for i := 0 to |closures|
        invariant |mem.bytes| == |m0|
        invariant o == Done
        invariant offset == TotalSize(sizes[..i])
        invariant i == 0 ==> mem.bytes == m0
        invariant i > 0 ==> |stored.closures| == totalSize && mem.bytes == Patch(m0, vs[..i], ds[..i])
        invariant forall a :: 0 <= a < |mem.bytes| && !Owns(a) ==> mem.bytes[a] == old(mem.bytes)[a]
      {
        TotalSizeStep(sizes, i);
        o := ExecuteClosure(i, offset, totalSize, stored);
        if o != Done {
          return;
        }
        SliceAt(stored.closures, sizes, i);
        PatchStep(m0, vs, ds, i);
        offset := offset + |closures[i].original|;
      }
      assert vs[..|closures|] == vs;
      assert |ds| == |closures| ==> ds[..|closures|] == ds;
    }

    method ClosureTotal() returns (totalSize: nat)
      ensures totalSize == TotalSize(Sizes(VisitsOf(closures)))
    {
      ghost var sizes := Sizes(VisitsOf(closures));
      totalSize := 0;
      for i := 0 to |closures|
        invariant totalSize == TotalSize(sizes[..i])
      {
        TotalSizeStep(sizes, i);
        totalSize := totalSize + |closures[i].original|;
      }
      assert sizes[..|closures|] == sizes;
    }

    /** One round of the patching loop: repair the slot, then fill the buffer. */
    method ExecuteClosure(i: nat, offset: nat, totalSize: nat, stored: StoredFunctor) returns (o: Outcome)
      requires Valid() && i < |closures|
      modifies mem
      ensures |mem.bytes| == |old(mem.bytes)|
      ensures var size := |closures[i].original|;
              && o == (if totalSize != |stored.closures| then ClosuresMismatch
                       else if totalSize < offset + size then ClosureOutOfRange else Done)
              && (o.Done? ==> mem.bytes == PatchOne(old(mem.bytes), VisitsOf(closures)[i],
                                                    stored.closures[offset..offset + size]))
      ensures forall a :: 0 <= a < |mem.bytes| && !Owns(a) ==> mem.bytes[a] == old(mem.bytes)[a]
    {
      var closure := closures[i];
      SlotOwned(i);
      BufferOwned(i);
      mem.Memcpy(closure.slot, PtrBytes(closure.buffer));
      o := InitHostClosure(mem, closure.buffer, |closure.original|, offset, totalSize, stored);
    }

    lemma SlotOwned(i: nat)
      requires Valid() && i < |closures|
      ensures closures[i].slot + PTR_SIZE <= |before|
      ensures forall a :: closures[i].slot <= a < closures[i].slot + PTR_SIZE ==> Owns(a)
    {
      var vs := VisitsOf(closures);
      assert vs[i].slot == closures[i].slot;
      if InSomeBuffer(vs[i].slot, PTR_SIZE, vs) {
        var j :| 0 <= j < |vs| && Within(vs[i].slot, PTR_SIZE, vs[j].buffer, vs[j].size);
        forall a | closures[i].slot <= a < closures[i].slot + PTR_SIZE ensures Owns(a) {
          assert vs[j].buffer <= a < vs[j].buffer + vs[j].size;
        }
      }
    }

    lemma BufferOwned(i: nat)
      requires Valid() && i < |closures|
      ensures closures[i].buffer + |closures[i].original| <= |before|
      ensures forall a :: closures[i].buffer <= a < closures[i].buffer + |closures[i].original| ==> Owns(a)
    {
      var vs := VisitsOf(closures);
      assert vs[i].buffer == closures[i].buffer && vs[i].size == |closures[i].original|;
    }

    /**
     * The destructor. Whatever happened since construction, every owned byte gets back the value it had
     * then, even when saved buffers overlap, and no other byte changes.
     */
    method Destroy()
      requires Valid()
      modifies mem
      ensures |mem.bytes| == |before|
      ensures forall a :: 0 <= a < |before| ==>
                mem.bytes[a] == if Owns(a) then before[a] else old(mem.bytes)[a]
    {
      ghost var vs, m := VisitsOf(closures), mem.bytes;
      var i := |closures|;
      while i > 0
        invariant 0 <= i <= |closures| && |mem.bytes| == |before|
        invariant forall a :: 0 <= a < |before| ==>
                    mem.bytes[a] == if InBuffer(vs, i, a) then before[a] else m[a]
      {
        i := i - 1;
        var it := closures[i];
        assert vs[i] == Visit(it.slot, it.buffer, |it.original|);
        ghost var prev := mem.bytes;
        mem.Memcpy(it.buffer, it.original);
        forall a | 0 <= a < |before|
          ensures mem.bytes[a] == if InBuffer(vs, i, a) then before[a] else m[a]
        {
          if it.buffer <= a < it.buffer + |it.original| {
            assert it.original[a - it.buffer] == At(before, a);
            assert InBuffer(vs, i, a);
          } else {
            assert InBuffer(vs, i, a) <==> InBuffer(vs, i + 1, a);
            assert mem.bytes[a] == prev[a];
          }
        }
      }
      mem.Memcpy(storage, original);
    }
  }

  lemma {:induction false} TotalSizeStep(sizes: seq<nat>, i: nat)
    requires i < |sizes|
    ensures TotalSize(sizes[..i + 1]) == TotalSize(sizes[..i]) + sizes[i]
    ensures TotalSize(sizes[..i + 1]) <= TotalSize(sizes)
  {
    if i == 0 {
      assert sizes[..0] == [] && sizes[..1] == [sizes[0]];
    } else {
      assert sizes[..i][1..] == sizes[1..][..i - 1] && sizes[..i + 1][1..] == sizes[1..][..i];
      TotalSizeStep(sizes[1..], i - 1);
    }
  }

  lemma PatchStep(m: Mem, vs: seq<Visit>, ds: seq<seq<Byte>>, i: nat)
    requires |vs| == |ds| && i < |vs|
    ensures Patch(m, vs[..0], ds[..0]) == m
    ensures Patch(m, vs[..i + 1], ds[..i + 1]) == PatchOne(Patch(m, vs[..i], ds[..i]), vs[i], ds[i])
  {
    assert vs[..i + 1] == vs[..i] + [vs[i]] && ds[..i + 1] == ds[..i] + [ds[i]];
    PatchAppend(m, vs[..i], [vs[i]], ds[..i], [ds[i]]);
    var mi := PatchOne(Patch(m, vs[..i], ds[..i]), vs[i], ds[i]);
    assert Patch(mi, [], []) == mi;
  }
}
