/** A replayed functor denotes the captured value, and reaches it through the replay's own buffers. */
module ReplayMeaning {
  import opened Bytes
  import opened Closures
  import opened ClosurePatch

  /**
   * `m2` is the replay heap whose pointers were saved, `m` a heap whose bytes at `f` were overwritten with
   * the captured ones (stale pointers included). Patching `m` rebuilds the whole captured value.
   */
  lemma {:induction false} PatchFunctor(m1: Mem, f1: nat, m2: Mem, m: Mem, f: nat, t: Ty)
    requires Sound(t) && f + t.size <= |m|
    requires Mirrors(m, f, m1, f1, t.size)
    requires InBounds(|m|, Visits(m2, f, t)) && Separated(f, t.size, Visits(m2, f, t))
    ensures var m' := Patch(m, Visits(m2, f, t), Contents(m1, Visits(m1, f1, t)));
            Visits(m', f, t) == Visits(m2, f, t) && Decode(m', f, t) == Decode(m1, f1, t)
    decreases t
  {
    if t.Hdl? {
      hide Patch, FieldsWithin, Separated, InBounds, Load;
      var b1, b := ReadPtr(m1, f1 + t.slot), ReadPtr(m2, f + t.slot);
      var own, own1 := [Visit(f + t.slot, b, t.hostSize)], [Visit(f1 + t.slot, b1, t.hostSize)];
      var dev, host := CaptureVisits(m2, f, t.fields), CaptureVisits(m2, b, t.fields);
      var dev1, host1 := CaptureVisits(m1, f1, t.fields), CaptureVisits(m1, b1, t.fields);
      WrapperParts(m, f, t, b, own, dev, host);
      PatchParent(m1, f1, m2, m, f, t);
      var ma := PatchOne(m, own[0], Load(m1, b1, t.hostSize));
      PatchDevice(m1, f1, b1, m2, ma, f, b, t);
      var mb := Patch(ma, dev, Contents(m1, dev1));
      PatchHost(m1, f1, b1, m2, mb, f, b, t);
      CapturesFit(m1, f1, m2, f, t.fields);
      PatchThree(m, own, dev, host, m1, own1, dev1, host1);
    }
  }

  /** The captures held by the wrapper. */
  lemma {:induction false} PatchDevice(m1: Mem, f1: nat, b1: nat, m2: Mem, ma: Mem, f: nat, b: nat, t: Ty)
    requires t.Hdl? && Sound(t) && f + t.size <= |ma| && Apart(f, t.size, b, t.hostSize)
    requires ReadPtr(ma, f + t.slot) == b
    requires Mirrors(ma, f, m1, f1, t.slot) && Mirrors(ma, b, m1, b1, t.hostSize)
    requires var dev := CaptureVisits(m2, f, t.fields);
             InBounds(|ma|, dev) && Separated(f, t.size, dev) && ApartFrom(b, t.hostSize, dev)
    ensures var mb := Patch(ma, CaptureVisits(m2, f, t.fields), Contents(m1, CaptureVisits(m1, f1, t.fields)));
            && ReadPtr(mb, f + t.slot) == b && Mirrors(mb, b, m1, b1, t.hostSize)
            && CaptureVisits(mb, f, t.fields) == CaptureVisits(m2, f, t.fields)
            && DecodeCaptures(mb, f, t.fields) == DecodeCaptures(m1, f1, t.fields)
    decreases t, 0
  {
    hide Patch, SlotsCovered, InBounds, PairwiseApart, AgreeOn, Mirrors, CaptureVisits, ReadPtr;
    var dev, ds := CaptureVisits(m2, f, t.fields), Contents(m1, CaptureVisits(m1, f1, t.fields));
    assert Mirrors(ma, f + 0, m1, f1 + 0, t.slot - 0);
    CapturesFit(m1, f1, m2, f, t.fields);
    CapturesSlotsCovered(m2, f, t.fields, 0, t.slot);
    DeviceHalf(m1, b1, ma, f, t, b, dev, ds);
    PatchCaptures(m1, f1, m2, ma, f, t.fields, 0, t.slot);
  }

  /** The captures held by the host closure. */
  lemma {:induction false} PatchHost(m1: Mem, f1: nat, b1: nat, m2: Mem, mb: Mem, f: nat, b: nat, t: Ty)
    requires t.Hdl? && Sound(t) && b + t.hostSize <= |mb| && Apart(f, t.size, b, t.hostSize)
    requires ReadPtr(mb, f + t.slot) == b && Mirrors(mb, b, m1, b1, t.hostSize)
    requires var dev, host := CaptureVisits(m2, f, t.fields), CaptureVisits(m2, b, t.fields);
             && InBounds(|mb|, host) && Separated(b, t.hostSize, host) && ApartFrom(f, t.size, host)
             && ApartFrom(b, t.hostSize, dev) && CrossApart(dev, host)
             && CaptureVisits(mb, f, t.fields) == dev
    ensures var mc := Patch(mb, CaptureVisits(m2, b, t.fields), Contents(m1, CaptureVisits(m1, b1, t.fields)));
            && ReadPtr(mc, f + t.slot) == b
            && CaptureVisits(mc, f, t.fields) == CaptureVisits(m2, f, t.fields)
            && DecodeCaptures(mc, f, t.fields) == DecodeCaptures(mb, f, t.fields)
            && CaptureVisits(mc, b, t.fields) == CaptureVisits(m2, b, t.fields)
            && DecodeCaptures(mc, b, t.fields) == DecodeCaptures(m1, b1, t.fields)
    decreases t, 0
  {
    hide Patch, SlotsCovered, AgreeOn, Mirrors;
    var dev, host := CaptureVisits(m2, f, t.fields), CaptureVisits(m2, b, t.fields);
    var ds := Contents(m1, CaptureVisits(m1, b1, t.fields));
    CapturesFit(m1, b1, m2, b, t.fields);
    CapturesSlotsCovered(m2, b, t.fields, 0, t.hostSize);
    HostHalf(mb, f, t, b, dev, host, ds);
    CapturesFrame(mb, Patch(mb, host, ds), f, t.fields, 0, t.slot);
    PatchCaptures(m1, b1, m2, mb, b, t.fields, 0, t.hostSize);
  }

  lemma {:induction false} PatchCaptures(m1: Mem, base1: nat, m2: Mem, m: Mem, base: nat,
                                         fields: seq<Ty>, lo: nat, hi: nat)
    requires AllSound(fields) && FieldsWithin(fields, lo, hi) && lo <= hi
    requires base + hi <= |m|
    requires Mirrors(m, base + lo, m1, base1 + lo, hi - lo)
    requires InBounds(|m|, CaptureVisits(m2, base, fields))
    requires Separated(base + lo, hi - lo, CaptureVisits(m2, base, fields))
    ensures var m' := Patch(m, CaptureVisits(m2, base, fields), Contents(m1, CaptureVisits(m1, base1, fields)));
            && CaptureVisits(m', base, fields) == CaptureVisits(m2, base, fields)
            && DecodeCaptures(m', base, fields) == DecodeCaptures(m1, base1, fields)
    decreases fields
  {
    hide Patch, FieldsWithin, Separated, InBounds, Load;
    if fields != [] {
      var o, t, next := fields[0].offset, fields[0], fields[0].End();
      var head, rest := Visits(m2, base + o, t), CaptureVisits(m2, base, fields[1..]);
      var head1, rest1 := Visits(m1, base1 + o, t), CaptureVisits(m1, base1, fields[1..]);
      FieldParts(m, base, m1, base1, fields, lo, hi, head, rest);

      PatchField(m1, base1, m2, m, base, fields, hi);
      var ma := Patch(m, head, Contents(m1, head1));
      PatchRest(m1, base1, m2, ma, base, fields, hi);
      VisitsFit(m1, base1 + o, m2, base + o, t);
      PatchTwo(m, head, rest, m1, head1, rest1);
    }
  }

  /** The first captured variable. */
  lemma {:induction false} PatchField(m1: Mem, base1: nat, m2: Mem, m: Mem, base: nat, fields: seq<Ty>, hi: nat)
    requires fields != [] && Sound(fields[0]) && fields[0].End() <= hi && base + hi <= |m|
    requires var o, t, next := fields[0].offset, fields[0], fields[0].End();
             var head := Visits(m2, base + o, t);
             && Mirrors(m, base + o, m1, base1 + o, t.size)
             && Mirrors(m, base + next, m1, base1 + next, hi - next)
             && InBounds(|m|, head) && Separated(base + o, t.size, head) && ApartFrom(base + next, hi - next, head)
    ensures var o, t, next := fields[0].offset, fields[0], fields[0].End();
            var ma := Patch(m, Visits(m2, base + o, t), Contents(m1, Visits(m1, base1 + o, t)));
            && Mirrors(ma, base + next, m1, base1 + next, hi - next)
            && Visits(ma, base + o, t) == Visits(m2, base + o, t)
            && Decode(ma, base + o, t) == Decode(m1, base1 + o, t)
    decreases fields, 0
  {
    hide Patch, Separated, SlotsCovered, Load, ReadPtr, ApartFrom, InBounds;
    var o, t, next := fields[0].offset, fields[0], fields[0].End();
    VisitsFit(m1, base1 + o, m2, base + o, t);
    FunctorSlotsCovered(m2, base + o, t);
    PatchKeepsRegion(m, base + o, t.size, Visits(m2, base + o, t), Contents(m1, Visits(m1, base1 + o, t)),
                     base + next, hi - next);
    PatchFunctor(m1, base1 + o, m2, m, base + o, t);
  }

  /** The captured variables after the first. */
  lemma {:induction false} PatchRest(m1: Mem, base1: nat, m2: Mem, ma: Mem, base: nat, fields: seq<Ty>, hi: nat)
    requires fields != [] && AllSound(fields) && base + hi <= |ma|
    requires fields[0].End() <= hi && FieldsWithin(fields[1..], fields[0].End(), hi)
    requires var o, t, next := fields[0].offset, fields[0], fields[0].End();
             var head, rest := Visits(m2, base + o, t), CaptureVisits(m2, base, fields[1..]);
             && Mirrors(ma, base + next, m1, base1 + next, hi - next)
             && Visits(ma, base + o, t) == head
             && InBounds(|ma|, rest) && Separated(base + next, hi - next, rest) && ApartFrom(base + o, t.size, rest)
             && ApartFrom(base + next, hi - next, head) && CrossApart(head, rest)
    ensures var o, t := fields[0].offset, fields[0];
            var mb := Patch(ma, CaptureVisits(m2, base, fields[1..]),
                            Contents(m1, CaptureVisits(m1, base1, fields[1..])));
            && Visits(mb, base + o, t) == Visits(m2, base + o, t)
            && Decode(mb, base + o, t) == Decode(ma, base + o, t)
            && CaptureVisits(mb, base, fields[1..]) == CaptureVisits(m2, base, fields[1..])
            && DecodeCaptures(mb, base, fields[1..]) == DecodeCaptures(m1, base1, fields[1..])
    decreases fields, 0
  {
    hide Patch, SlotsCovered, AgreeOn, Mirrors;
    var o, t, next := fields[0].offset, fields[0], fields[0].End();
    var head, rest := Visits(m2, base + o, t), CaptureVisits(m2, base, fields[1..]);
    var ds := Contents(m1, CaptureVisits(m1, base1, fields[1..]));
    CapturesFit(m1, base1, m2, base, fields[1..]);
    CapturesSlotsCovered(m2, base, fields[1..], next, hi);
    RestHalf(ma, base + o, t.size, base + next, hi - next, head, rest, ds);
    FunctorFrame(ma, Patch(ma, rest, ds), base + o, t);
    PatchCaptures(m1, base1, m2, ma, base, fields[1..], next, hi);
  }

  lemma VisitsFit(m1: Mem, f1: nat, m2: Mem, f: nat, t: Ty)
    ensures Fits(Visits(m2, f, t), Contents(m1, Visits(m1, f1, t)))
  {
    VisitSizesFollowType(m1, f1, t);
    VisitSizesFollowType(m2, f, t);
    ContentsFit(m1, Visits(m2, f, t), Visits(m1, f1, t));
  }

  lemma CapturesFit(m1: Mem, base1: nat, m2: Mem, base: nat, fields: seq<Ty>)
    ensures Fits(CaptureVisits(m2, base, fields), Contents(m1, CaptureVisits(m1, base1, fields)))
  {
    CaptureSizesFollowType(m1, base1, fields);
    CaptureSizesFollowType(m2, base, fields);
    ContentsFit(m1, CaptureVisits(m2, base, fields), CaptureVisits(m1, base1, fields));
  }

  /**
   * Why parents come first: patching a closure after a child whose slot lies in its buffer brings the child's
   * captured, stale pointer back.
   */
  lemma ParentLastIsStale(m1: Mem, m: Mem, parent: Visit, parent1: Visit, child: Visit, childData: seq<Byte>)
    requires parent1.size == parent.size && parent.buffer + parent.size <= |m|
    requires Within(child.slot, PTR_SIZE, parent.buffer, parent.size)
    ensures var m' := PatchOne(PatchOne(m, child, childData), parent, Load(m1, parent1.buffer, parent1.size));
            ReadPtr(m', child.slot) == ReadPtr(m1, parent1.buffer + (child.slot - parent.buffer))
  {
    var d := Load(m1, parent1.buffer, parent1.size);
    var mp := Store(PatchOne(m, child, childData), parent.slot, PtrBytes(parent.buffer));
    var m' := Store(mp, parent.buffer, d);
    LoadStored(mp, parent.buffer, d);
    SubMirror(m', parent.buffer, m1, parent1.buffer, parent.size, child.slot - parent.buffer, PTR_SIZE);
  }

  // ---------- the steps of the two lemmas above ----------

  lemma WrapperParts(m: Mem, f: nat, t: Ty, b: nat, own: seq<Visit>, dev: seq<Visit>, host: seq<Visit>)
    requires t.Hdl? && Sound(t) && own == [Visit(f + t.slot, b, t.hostSize)]
    requires InBounds(|m|, own + dev + host) && Separated(f, t.size, own + dev + host)
    ensures Apart(f, t.size, b, t.hostSize) && b + t.hostSize <= |m|
    ensures InBounds(|m|, dev) && Separated(f, t.slot, dev) && ApartFrom(f, t.size, dev)
    ensures ApartFrom(b, t.hostSize, dev)
    ensures InBounds(|m|, host) && Separated(b, t.hostSize, host) && ApartFrom(f, t.size, host)
    ensures CrossApart(dev, host)
  {
    SeparatedSplit(|m|, f, t.size, own + dev, host);
    SeparatedSplit(|m|, f, t.size, own, dev);
    assert own[0].buffer == b && ApartFrom(own[0].buffer, t.hostSize, dev);
    assert (own + dev)[0] == own[0];
    forall i | 0 <= i < |dev| ensures ApartFrom(dev[i].buffer, dev[i].size, host) {
      assert (own + dev)[1 + i] == dev[i];
    }
  }

  lemma PatchParent(m1: Mem, f1: nat, m2: Mem, m: Mem, f: nat, t: Ty)
    requires t.Hdl? && Sound(t) && f + t.size <= |m|
    requires Mirrors(m, f, m1, f1, t.size)
    requires ReadPtr(m2, f + t.slot) + t.hostSize <= |m|
    requires Apart(f, t.size, ReadPtr(m2, f + t.slot), t.hostSize)
    ensures var b1, b := ReadPtr(m1, f1 + t.slot), ReadPtr(m2, f + t.slot);
            var ma := PatchOne(m, Visit(f + t.slot, b, t.hostSize), Load(m1, b1, t.hostSize));
            && ReadPtr(ma, f + t.slot) == b
            && Mirrors(ma, f, m1, f1, t.slot)
            && Mirrors(ma, b, m1, b1, t.hostSize)
  {
    hide Store, Load, PtrBytes, ReadPtr;
    var b1, b := ReadPtr(m1, f1 + t.slot), ReadPtr(m2, f + t.slot);
    var slot, d := f + t.slot, Load(m1, b1, t.hostSize);
    PtrSlot(m2, m, slot, b, d);
    SubMirror(m, f, m1, f1, t.size, 0, t.slot);
    StoreKeeps(m, slot, PtrBytes(b), f, t.slot);
    StoreKeeps(Store(m, slot, PtrBytes(b)), b, d, f, t.slot);
    LoadStored(Store(m, slot, PtrBytes(b)), b, d);
  }

  /** The slot holds the pointer after the buffer was overwritten too. */
  lemma PtrSlot(m2: Mem, m: Mem, slot: nat, b: nat, d: seq<Byte>)
    requires ReadPtr(m2, slot) == b && slot + PTR_SIZE <= |m| && Apart(slot, PTR_SIZE, b, |d|)
    ensures ReadPtr(Store(Store(m, slot, PtrBytes(b)), b, d), slot) == b
  {
    var mp := Store(m, slot, PtrBytes(b));
    LoadStored(m, slot, PtrBytes(b));
    StoreKeeps(mp, b, d, slot, PTR_SIZE);
    ReadPtrAgree(mp, Store(mp, b, d), slot);
    ReadPtrAfterCopy(m2, slot, mp, slot);
  }

  /** Patching the wrapper's captures keeps its own slot and the host closure. */
  lemma DeviceHalf(m1: Mem, b1: nat, ma: Mem, f: nat, t: Ty, b: nat, dev: seq<Visit>, ds: seq<seq<Byte>>)
    requires t.Hdl? && Sound(t) && Fits(dev, ds)
    requires SlotsCovered(f, t.slot, dev) && ApartFrom(f, t.size, dev) && ApartFrom(b, t.hostSize, dev)
    requires Apart(f, t.size, b, t.hostSize)
    requires ReadPtr(ma, f + t.slot) == b && Mirrors(ma, b, m1, b1, t.hostSize)
    ensures var mb := Patch(ma, dev, ds);
            ReadPtr(mb, f + t.slot) == b && Mirrors(mb, b, m1, b1, t.hostSize)
  {
    PatchKeepsRegion(ma, f, t.slot, dev, ds, f + t.slot, PTR_SIZE);
    ReadPtrAgree(ma, Patch(ma, dev, ds), f + t.slot);
    PatchKeepsRegion(ma, f, t.slot, dev, ds, b, t.hostSize);
  }

  /** Patching the host closure's captures keeps the wrapper and the buffers of its captures. */
  lemma HostHalf(mb: Mem, f: nat, t: Ty, b: nat, dev: seq<Visit>, host: seq<Visit>, ds: seq<seq<Byte>>)
    requires t.Hdl? && Sound(t) && Fits(host, ds)
    requires SlotsCovered(b, t.hostSize, host) && ApartFrom(f, t.size, host)
    requires Apart(f, t.size, b, t.hostSize) && ApartFrom(b, t.hostSize, dev) && CrossApart(dev, host)
    requires ReadPtr(mb, f + t.slot) == b
    ensures var mc := Patch(mb, host, ds);
            ReadPtr(mc, f + t.slot) == b && AgreeOn(mb, mc, f, t.slot) && AgreeOnBuffers(mb, mc, dev)
  {
    var mc := Patch(mb, host, ds);
    PatchKeepsRegion(mb, b, t.hostSize, host, ds, f, t.size);
    SubAgree(mb, mc, f, t.size, f + t.slot, PTR_SIZE);
    SubAgree(mb, mc, f, t.size, f, t.slot);
    ReadPtrAgree(mb, mc, f + t.slot);
    forall i | 0 <= i < |dev| ensures AgreeOn(mb, mc, dev[i].buffer, dev[i].size) {
      PatchKeepsRegion(mb, b, t.hostSize, host, ds, dev[i].buffer, dev[i].size);
    }
  }

  lemma FieldParts(m: Mem, base: nat, m1: Mem, base1: nat, fields: seq<Ty>, lo: nat, hi: nat,
                   head: seq<Visit>, rest: seq<Visit>)
    requires fields != [] && FieldsWithin(fields, lo, hi) && lo <= hi
    requires Mirrors(m, base + lo, m1, base1 + lo, hi - lo)
    requires InBounds(|m|, head + rest) && Separated(base + lo, hi - lo, head + rest)
    ensures FieldsWithin(fields[1..], fields[0].End(), hi) && fields[0].End() <= hi
    ensures var o, n, next := fields[0].offset, fields[0].size, fields[0].End();
            && Mirrors(m, base + o, m1, base1 + o, n)
            && Mirrors(m, base + next, m1, base1 + next, hi - next)
            && InBounds(|m|, head) && Separated(base + o, n, head) && ApartFrom(base + next, hi - next, head)
            && InBounds(|m|, rest) && Separated(base + next, hi - next, rest) && ApartFrom(base + o, n, rest)
            && CrossApart(head, rest)
  {
    var o, next := fields[0].offset, fields[0].End();
    SeparatedSplit(|m|, base + lo, hi - lo, head, rest);
    SubMirror(m, base + lo, m1, base1 + lo, hi - lo, o - lo, fields[0].size);
    SubMirror(m, base + lo, m1, base1 + lo, hi - lo, next - lo, hi - next);
  }

  /** Patching later fields keeps an earlier field and its buffers. */
  lemma RestHalf(ma: Mem, a: nat, n: nat, b: nat, k: nat, head: seq<Visit>, rest: seq<Visit>, ds: seq<seq<Byte>>)
    requires Fits(rest, ds) && SlotsCovered(b, k, rest)
    requires Apart(b, k, a, n) && ApartFrom(a, n, rest) && ApartFrom(b, k, head) && CrossApart(head, rest)
    ensures AgreeOn(ma, Patch(ma, rest, ds), a, n) && AgreeOnBuffers(ma, Patch(ma, rest, ds), head)
  {
    PatchKeepsRegion(ma, b, k, rest, ds, a, n);
    forall i | 0 <= i < |head| ensures AgreeOn(ma, Patch(ma, rest, ds), head[i].buffer, head[i].size) {
      PatchKeepsRegion(ma, b, k, rest, ds, head[i].buffer, head[i].size);
    }
  }

  lemma PatchTwo(m: Mem, xs: seq<Visit>, ys: seq<Visit>, m1: Mem, xs1: seq<Visit>, ys1: seq<Visit>)
    requires |xs| == |xs1|
    ensures Patch(m, xs + ys, Contents(m1, xs1 + ys1))
         == Patch(Patch(m, xs, Contents(m1, xs1)), ys, Contents(m1, ys1))
  {
    assert Contents(m1, xs1 + ys1) == Contents(m1, xs1) + Contents(m1, ys1);
    PatchAppend(m, xs, ys, Contents(m1, xs1), Contents(m1, ys1));
  }

  lemma PatchThree(m: Mem, own: seq<Visit>, dev: seq<Visit>, host: seq<Visit>,
                   m1: Mem, own1: seq<Visit>, dev1: seq<Visit>, host1: seq<Visit>)
    requires |own| == 1 && |own1| == 1 && |dev| == |dev1|
    ensures Patch(m, own + dev + host, Contents(m1, own1 + dev1 + host1))
         == Patch(Patch(PatchOne(m, own[0], Load(m1, own1[0].buffer, own1[0].size)), dev, Contents(m1, dev1)),
                  host, Contents(m1, host1))
  {
    PatchTwo(m, own + dev, host, m1, own1 + dev1, host1);
    PatchTwo(m, own, dev, m1, own1, dev1);
    assert Patch(PatchOne(m, own[0], Contents(m1, own1)[0]), [], []) == Patch(m, own, Contents(m1, own1));
  }
}
