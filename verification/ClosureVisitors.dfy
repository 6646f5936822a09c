/** The recursive traversal as it runs, and the two visitors given to it. */
module ClosureVisitors {
  import opened Bytes
  import opened Closures
  import opened ClosurePatch
  import opened ClosureBytes
  import opened DumpFile

  /** What the restore guard keeps of one host closure. */
  datatype HostClosure = HostClosure(slot: nat, buffer: nat, original: seq<Byte>)

  function Saved(m: Mem, vs: seq<Visit>): (cs: seq<HostClosure>)
    ensures |cs| == |vs|
    ensures forall i :: 0 <= i < |vs| ==>
              cs[i] == HostClosure(vs[i].slot, vs[i].buffer, Load(m, vs[i].buffer, vs[i].size))
  {
    seq(|vs|, i requires 0 <= i < |vs| =>
      HostClosure(vs[i].slot, vs[i].buffer, Load(m, vs[i].buffer, vs[i].size)))
  }

  /** What a visitor has: the closures it saved, or the bytes it gathered. */
  datatype Collection = Collection(closures: seq<HostClosure>, data: seq<Byte>)

  /** From `was` to `now` the visitor collected exactly the given visits, in order. */
  ghost predicate Gained(saves: bool, m: Mem, was: Collection, now: Collection, vs: seq<Visit>) {
    && now.closures == was.closures + (if saves then Saved(m, vs) else [])
    && now.data == was.data + (if saves then [] else Flatten(Contents(m, vs)))
  }

  lemma GainedNothing(saves: bool, m: Mem, c: Collection)
    ensures Gained(saves, m, c, c, [])
  {
  }

  lemma GainedOne(saves: bool, m: Mem, was: Collection, now: Collection, v: Visit)
    requires var own := Load(m, v.buffer, v.size);
             && now.closures == was.closures + (if saves then [HostClosure(v.slot, v.buffer, own)] else [])
             && now.data == was.data + (if saves then [] else own)
    ensures Gained(saves, m, was, now, [v])
  {
    var own := Load(m, v.buffer, v.size);
    assert Contents(m, [v]) == [own];
    assert Flatten([own]) == own + Flatten([]);
  }

  lemma GainedMore(saves: bool, m: Mem, was: Collection, mid: Collection, now: Collection,
                   xs: seq<Visit>, ys: seq<Visit>)
    requires Gained(saves, m, was, mid, xs) && Gained(saves, m, mid, now, ys)
    ensures Gained(saves, m, was, now, xs + ys)
  {
    hide Saved, Contents, Flatten;
    SavedAppend(m, xs, ys);
    ConcatAssoc(was.closures, Saved(m, xs), Saved(m, ys));
    ConcatAssoc(was.data, Flatten(Contents(m, xs)), Flatten(Contents(m, ys)));
  }

  lemma ConcatAssoc<T>(a: seq<T>, b: seq<T>, c: seq<T>)
    ensures (a + b) + c == a + (b + c)
  {
  }

  lemma PlainHasNoVisits(m: Mem, f: nat, t: Ty)
    requires t.Plain?
    ensures Visits(m, f, t) == []
  {
  }

  lemma SavedAppend(m: Mem, xs: seq<Visit>, ys: seq<Visit>)
    ensures Saved(m, xs + ys) == Saved(m, xs) + Saved(m, ys)
    ensures Flatten(Contents(m, xs + ys)) == Flatten(Contents(m, xs)) + Flatten(Contents(m, ys))
  {
    assert Contents(m, xs + ys) == Contents(m, xs) + Contents(m, ys);
    FlattenAppend(Contents(m, xs), Contents(m, ys));
  }

  /** Every read of the traversal stays inside the process's memory. */
  ghost predicate Readable(m: Mem, f: nat, t: Ty) {
    f + t.size <= |m| && InBounds(|m|, Visits(m, f, t))
  }

  lemma ReadableInFull(m: Mem, f: nat, t: Ty)
    ensures Readable(m, f, t) <==>
            && f + t.size <= |m|
            && forall i | 0 <= i < |Visits(m, f, t)| :: Visits(m, f, t)[i].buffer + Visits(m, f, t)[i].size <= |m|
  {
  }

  /** Either the guard's visitor, which saves each closure, or the extractor's, which appends its bytes. */
  class ClosureVisitor {
    const saves: bool
    var closures: seq<HostClosure>
    var data: seq<Byte>

    constructor (saves: bool)
      ensures this.saves == saves && closures == [] && data == []
    {
      this.saves := saves;
      closures, data := [], [];
    }

    function Collected(): Collection
      reads this
    {
      Collection(closures, data)
    }

    method Call(slot: nat, buffer: nat, bytes: seq<Byte>)
      modifies this
      ensures closures == old(closures) + (if saves then [HostClosure(slot, buffer, bytes)] else [])
      ensures data == old(data) + (if saves then [] else bytes)
    {
      if saves {
        closures := closures + [HostClosure(slot, buffer, bytes)];
      } else {
        data := data + bytes;
      }
    }
  }

  method VisitHostLambdas(mem: ProcessMemory, f: nat, t: Ty, visitor: ClosureVisitor)
    requires t.Hdl? && Layout(t)
    modifies visitor
    ensures Gained(visitor.saves, mem.bytes, old(visitor.Collected()), visitor.Collected(), Visits(mem.bytes, f, t))
    decreases t
  {
    hide Gained, CaptureVisits, LaidOut;
    ghost var m, was := mem.bytes, visitor.Collected();
    var data := ReadPtr(mem.bytes, f + t.slot);
    var own := Visit(f + t.slot, data, t.hostSize);
    visitor.Call(own.slot, own.buffer, Load(mem.bytes, own.buffer, own.size));
    GainedOne(visitor.saves, m, was, visitor.Collected(), own);
    ghost var mid := visitor.Collected();
    VisitCaptures(mem, f, t.fields, visitor);
    ghost var dev, host := CaptureVisits(m, f, t.fields), CaptureVisits(m, data, t.fields);
    GainedMore(visitor.saves, m, was, mid, visitor.Collected(), [own], dev);
    mid := visitor.Collected();
    VisitCaptures(mem, data, t.fields, visitor);
    GainedMore(visitor.saves, m, was, mid, visitor.Collected(), [own] + dev, host);
  }

  method VisitCaptures(mem: ProcessMemory, storage: nat, captured: seq<Ty>, visitor: ClosureVisitor)
    requires LaidOut(0, captured) && forall c :: c in captured ==> Layout(c)
    modifies visitor
    ensures Gained(visitor.saves, mem.bytes, old(visitor.Collected()), visitor.Collected(),
                   CaptureVisits(mem.bytes, storage, captured))
    decreases captured
  {
    hide Gained, Visits, CaptureVisits, LaidOut;
    var offset: nat := 0;
    ghost var m, was, done := mem.bytes, visitor.Collected(), [];
    GainedNothing(visitor.saves, m, was);
    assert captured[0..] == captured;
    for i := 0 to |captured|
      invariant LaidOut(offset, captured[i..])
      invariant done + CaptureVisits(m, storage, captured[i..]) == CaptureVisits(m, storage, captured)
      invariant Gained(visitor.saves, m, was, visitor.Collected(), done)
      invariant mem.bytes == m
    {
      var field := captured[i];
      offset := FieldStep(offset, captured, field, i);
      ghost var vs, mid := Visits(m, storage + offset, field), visitor.Collected();
      NextVisits(m, storage, captured, i, done);
      if field.Hdl? {
        VisitHostLambdas(mem, storage + offset, field, visitor);
      } else {
        PlainHasNoVisits(m, storage + offset, field);
        GainedNothing(visitor.saves, m, mid);
      }
      GainedMore(visitor.saves, m, was, mid, visitor.Collected(), done, vs);
      done := done + vs;
      offset := offset + field.size;
    }
    AllVisited(m, storage, captured, done);
  }

  lemma NextVisits(m: Mem, storage: nat, captured: seq<Ty>, i: nat, done: seq<Visit>)
    requires i < |captured|
    ensures done + CaptureVisits(m, storage, captured[i..])
         == done + Visits(m, storage + captured[i].offset, captured[i])
              + CaptureVisits(m, storage, captured[i + 1..])
  {
    assert captured[i..][1..] == captured[i + 1..];
  }

  lemma AllVisited(m: Mem, storage: nat, captured: seq<Ty>, done: seq<Visit>)
    ensures done + CaptureVisits(m, storage, captured[|captured|..]) == done
  {
    assert captured[|captured|..] == [];
  }

  /** The running offset, rounded up, is the offset of the next captured variable. */
  method FieldStep(running: nat, ghost captured: seq<Ty>, field: Ty, ghost i: nat) returns (offset: nat)
    requires i < |captured| && field == captured[i] && LaidOut(running, captured[i..])
    ensures offset == field.offset && LaidOut(field.End(), captured[i + 1..])
  {
    assert captured[i..][1..] == captured[i + 1..];
    AlignOffsetFormula(running, field.align);
    offset := ((running + field.align - 1) / field.align) * field.align;
  }

  // ---------- the extractor ----------

  /** The dump was taken from a functor of type `t` at address `f` of a process with memory `m`. */
  ghost predicate IsDumpOf(d: StoredFunctor, m: Mem, f: nat, t: Ty) {
    d.functor == Load(m, f, t.size) && d.closures == Flatten(Contents(m, Visits(m, f, t)))
  }

  /** The dump that was taken there. */
  ghost function DumpOf(m: Mem, f: nat, t: Ty): (d: StoredFunctor)
    ensures IsDumpOf(d, m, f, t) && forall d' :: IsDumpOf(d', m, f, t) ==> d' == d
  {
    StoredFunctor(Load(m, f, t.size), Flatten(Contents(m, Visits(m, f, t))))
  }

  method CopyFunctor(mem: ProcessMemory, f: nat, t: Ty) returns (d: StoredFunctor)
    requires Layout(t) && Readable(mem.bytes, f, t)
    ensures IsDumpOf(d, mem.bytes, f, t)
    ensures |d.closures| == TotalSize(ClosureSizes(t))
  {
    if t.Hdl? {
      var visitor := new ClosureVisitor(false);
      VisitHostLambdas(mem, f, t, visitor);
      d := StoredFunctor(Load(mem.bytes, f, t.size), visitor.data);
    } else {
      d := StoredFunctor(Load(mem.bytes, f, t.size), []);
    }
    DumpSize(mem.bytes, f, t);
  }

  /** The closure data of a dump is as long as the type says, whatever the heap held. */
  lemma DumpSize(m: Mem, f: nat, t: Ty)
    ensures |Flatten(Contents(m, Visits(m, f, t)))| == TotalSize(ClosureSizes(t))
    ensures Lengths(Contents(m, Visits(m, f, t))) == ClosureSizes(t)
  {
    var ds := Contents(m, Visits(m, f, t));
    VisitSizesFollowType(m, f, t);
    SliceFlatten(ds);
    assert Lengths(ds) == Sizes(Visits(m, f, t));
  }
}
