/** replay_functor: a copy of a functor with the captured value, leaving no trace in the working copy. */
module ReplayFunctor {
  import opened Bytes
  import opened Closures
  import opened ClosurePatch
  import opened ClosureBytes
  import opened ClosureVisitors
  import opened DumpFile
  import opened ReplayMeaning
  import opened FunctorRestore

  /** The working copy's bytes and its buffers while it is patched with a dump. */
  function Patched(m: Mem, f: nat, t: Ty, d: StoredFunctor): Mem
    requires t.size <= |d.functor| && (t.Hdl? ==> TotalSize(Sizes(Visits(m, f, t))) <= |d.closures|)
  {
    var m0 := Store(m, f, d.functor[..t.size]);
    if t.Plain? then m0
    else Patch(m0, Visits(m, f, t), Slices(d.closures, Sizes(Visits(m, f, t))))
  }

  /** Outside pointer slots, the functor and the i-th buffer hold the bytes the capture process had. */
  ghost predicate CapturedBytes(m': Mem, m: Mem, f: nat, m1: Mem, f1: nat, t: Ty) {
    var vs, vs1 := Visits(m, f, t), Visits(m1, f1, t);
    && |vs| == |vs1|
    && (forall k :: 0 <= k < t.size && !InSlot(f + k, vs) ==> Load(m', f, t.size)[k] == Load(m1, f1, t.size)[k])
    && (forall i, k :: 0 <= i < |vs| && 0 <= k < vs[i].size && !InSlot(vs[i].buffer + k, vs) ==>
          Load(m', vs[i].buffer, vs[i].size)[k] == Load(m1, vs1[i].buffer, vs[i].size)[k])
  }

  /**
   * Replaying a dump of a functor of the same type, on a heap whose buffers do not overlap, gives back the
   * captured value, reached through the replay's own buffers; all other bytes are the captured ones.
   */
  lemma ReplayPreservesMeaning(d: StoredFunctor, m1: Mem, f1: nat, m: Mem, f: nat, t: Ty)
    requires Layout(t) && IsDumpOf(d, m1, f1, t)
    requires Readable(m, f, t) && Separated(f, t.size, Visits(m, f, t))
    ensures |d.closures| == TotalSize(ClosureSizes(t)) && Sizes(Visits(m, f, t)) == ClosureSizes(t)
    ensures Visits(Patched(m, f, t, d), f, t) == Visits(m, f, t)
    ensures Decode(Patched(m, f, t, d), f, t) == Decode(m1, f1, t)
    ensures Carries(Decode(Patched(m, f, t, d), f, t), m1, f1, t)
    ensures CapturedBytes(Patched(m, f, t, d), m, f, m1, f1, t)
  {
    DumpSize(m1, f1, t);
    VisitSizesFollowType(m, f, t);
    VisitSizesFollowType(m1, f1, t);
    LayoutIsSound(t);
    var vs, ds := Visits(m, f, t), Contents(m1, Visits(m1, f1, t));
    var m0 := Store(m, f, d.functor);
    var m' := Patch(m0, vs, ds);
    assert d.functor[..t.size] == d.functor;
    SliceFlatten(ds);
    assert Patched(m, f, t, d) == m';
    LoadStored(m, f, d.functor);
    PatchFunctor(m1, f1, m, m0, f, t);
    DecodeCarries(m1, f1, t);
    VisitsFit(m1, f1, m, f, t);
    PatchCarriesBytes(m1, f1, m, m0, f, t);
  }

  lemma PatchCarriesBytes(m1: Mem, f1: nat, m: Mem, m0: Mem, f: nat, t: Ty)
    requires f + t.size <= |m0| && Mirrors(m0, f, m1, f1, t.size)
    requires InBounds(|m0|, Visits(m, f, t)) && Separated(f, t.size, Visits(m, f, t))
    requires Fits(Visits(m, f, t), Contents(m1, Visits(m1, f1, t)))
    ensures CapturedBytes(Patch(m0, Visits(m, f, t), Contents(m1, Visits(m1, f1, t))), m, f, m1, f1, t)
  {
    hide Patch, SlotsCovered, InBounds, Store, Visits, ApartFrom, PairwiseApart, Apart, ReadPtr;
    var vs, vs1 := Visits(m, f, t), Visits(m1, f1, t);
    var ds := Contents(m1, vs1);
    var m' := Patch(m0, vs, ds);
    forall k | 0 <= k < t.size && !InSlot(f + k, vs)
      ensures Load(m', f, t.size)[k] == Load(m1, f1, t.size)[k]
    {
      PatchedFunctorByte(m0, f, t.size, vs, ds, k);
      assert Load(m0, f, t.size)[k] == At(m0, f + k);
    }
    forall i, k | 0 <= i < |vs| && 0 <= k < vs[i].size && !InSlot(vs[i].buffer + k, vs)
      ensures Load(m', vs[i].buffer, vs[i].size)[k] == Load(m1, vs1[i].buffer, vs[i].size)[k]
    {
      PatchedBufferByte(m0, vs, ds, i, k);
      assert |ds[i]| == vs1[i].size;
    }
  }

  /**
   * The temporary functor is patched, copied, and restored: whether patching fails or not, no byte of the
   * process changes. The copy has the captured value, for every dump of the same type.
   */
  method Replay(mem: ProcessMemory, f: nat, t: Ty, stored: StoredFunctor) returns (o: Outcome, copied: Val)
    requires Layout(t) && Readable(mem.bytes, f, t)
    modifies mem
    ensures mem.bytes == old(mem.bytes)
    ensures o == if |stored.functor| < t.size then FunctorTooSmall
                 else if t.Hdl? && |stored.closures| != TotalSize(ClosureSizes(t)) then ClosuresMismatch
                 else Done
    ensures forall m1: Mem, f1: nat :: IsDumpOf(stored, m1, f1, t) && Separated(f, t.size, Visits(mem.bytes, f, t))
              ==> o.Done? && copied == Decode(m1, f1, t) && Carries(copied, m1, f1, t)
    ensures o.Done? && t.Plain? ==> copied == Raw(stored.functor[..t.size])
  {
    ghost var m := mem.bytes;
    var restore := new FunctorRestoreGuard(mem, f, t);
    VisitsOfSaved(m, Visits(m, f, t));
    VisitSizesFollowType(m, f, t);
    o := restore.Execute(stored);
    copied := Raw([]);
    if o.Done? {
      copied := Decode(mem.bytes, f, t);
      assert mem.bytes == Patched(m, f, t, stored);
      LoadStored(m, f, stored.functor[..t.size]);
    }
    ghost var done := o.Done?;
    ghost var patched := mem.bytes;
    restore.Destroy();
    assert mem.bytes == m;
    forall m1: Mem, f1: nat | IsDumpOf(stored, m1, f1, t) && Separated(f, t.size, Visits(m, f, t))
      ensures o.Done? && copied == Decode(m1, f1, t) && Carries(copied, m1, f1, t)
    {
      ReplayPreservesMeaning(stored, m1, f1, m, f, t);
      DecodeCarries(m1, f1, t);
    }
  }
}
