/** Layout of nvcc's extended-lambda wrappers and the traversal of their host closures. */
module Closures {
  import opened Arithmetic
  import opened Bytes
  import opened Wrappers

  /**
   * The type of a functor or of one captured variable, which is placed at `offset` both in the wrapper and
   * in the host closure that capture it (a functor that is not captured may have any offset). A wrapper's
   * `data` pointer is stored at `slot`, and `hostSize` is the size of the host closure it points to, which
   * holds a second copy of the captures.
   */
  datatype Ty =
    | Plain(offset: nat, size: nat, align: Positive)
    | Hdl(offset: nat, size: nat, align: Positive, slot: nat, hostSize: nat, fields: seq<Ty>)
  {
    function End(): nat { offset + size }
  }

  /** The first multiple of `alignment` at or after `offset`. */
  function AlignOffset(offset: nat, alignment: Positive): (r: nat)
    ensures offset <= r < offset + alignment
  {
    if offset % alignment == 0 then offset else offset + (alignment - offset % alignment)
  }

  /** The rounding expression of the traversal computes that multiple. */
  lemma AlignOffsetFormula(offset: nat, alignment: Positive)
    ensures AlignOffset(offset, alignment) == ((offset + alignment - 1) / alignment) * alignment
    ensures AlignOffset(offset, alignment) % alignment == 0
  {
    var q, r := offset / alignment, offset % alignment;
    assert offset == q * alignment + r;
    if r == 0 {
      DivUnique(offset + alignment - 1, alignment, q, alignment - 1);
      MultipleMod(q, alignment);
    } else {
      assert (q + 1) * alignment == q * alignment + alignment;
      DivUnique(offset + alignment - 1, alignment, q + 1, r - 1);
      MultipleMod(q + 1, alignment);
    }
  }

  /** The fields lie at the running offsets the traversal computes, the first at or after `offset`. */
  predicate LaidOut(offset: nat, fields: seq<Ty>)
    decreases |fields|
  {
    fields == [] ||
    (fields[0].offset == AlignOffset(offset, fields[0].align) && LaidOut(fields[0].End(), fields[1..]))
  }

  /** First offset past the fields. */
  function FieldsEnd(fields: seq<Ty>): nat {
    if fields == [] then 0 else fields[|fields| - 1].End()
  }

  /**
   * The layout assumption of the traversal: same order and alignment in wrapper and host closure, `data`
   * after the captures, and the static assertion that the host closure is no larger than the wrapper.
   */
  predicate Layout(t: Ty) {
    t.Hdl? ==>
      && LaidOut(0, t.fields)
      && FieldsEnd(t.fields) <= t.slot
      && t.slot + PTR_SIZE <= t.size
      && FieldsEnd(t.fields) <= t.hostSize <= t.size
      && forall c :: c in t.fields ==> Layout(c)
  }

  /** The assumption is met by a wrapper that captures a number and another wrapper. */
  lemma NestedLayout()
    ensures Layout(Hdl(0, 64, 8, 48, 48, [Plain(0, 4, 4), Hdl(8, 32, 8, 16, 16, [Plain(0, 8, 8), Plain(8, 1, 1)])]))
  {
    var inner := Hdl(8, 32, 8, 16, 16, [Plain(0, 8, 8), Plain(8, 1, 1)]);
    TwoFields(Plain(0, 8, 8), Plain(8, 1, 1));
    PlainFields(inner.fields);
    var outer := Hdl(0, 64, 8, 48, 48, [Plain(0, 4, 4), inner]);
    TwoFields(Plain(0, 4, 4), inner);
    assert Layout(inner);
    assert forall c :: c in outer.fields ==> c == Plain(0, 4, 4) || c == inner;
  }

  lemma PlainFields(fields: seq<Ty>)
    requires forall c :: c in fields ==> c.Plain?
    ensures forall c :: c in fields ==> Layout(c)
  {
  }

  lemma TwoFields(a: Ty, b: Ty)
    requires a.offset == 0 && b.offset == AlignOffset(a.End(), b.align)
    ensures LaidOut(0, [a, b]) && FieldsEnd([a, b]) == b.End()
  {
    var fields := [a, b];
    assert fields[1..] == [b] && [b][1..] == [];
    assert LaidOut(b.End(), []);
    assert LaidOut(a.End(), [b]);
  }

  // ---------- the same layout, as disjointness of byte ranges ----------

  ghost predicate FieldsWithin(fields: seq<Ty>, lo: nat, hi: nat) {
    && (forall i :: 0 <= i < |fields| ==> lo <= fields[i].offset && fields[i].End() <= hi)
    && (forall i, j :: 0 <= i < j < |fields| ==> fields[i].End() <= fields[j].offset)
  }

  lemma TailWithin(fields: seq<Ty>, lo: nat, hi: nat)
    requires fields != [] && FieldsWithin(fields, lo, hi)
    ensures lo <= fields[0].offset && fields[0].End() <= hi && FieldsWithin(fields[1..], fields[0].End(), hi)
  {
  }

  /** Wrapper fields precede the pointer slot and fit in the host closure; no two fields overlap. */
  ghost predicate Sound(t: Ty) {
    t.Hdl? ==>
      && t.slot + PTR_SIZE <= t.size
      && FieldsWithin(t.fields, 0, t.slot)
      && FieldsWithin(t.fields, 0, t.hostSize)
      && AllSound(t.fields)
  }

  ghost predicate AllSound(fields: seq<Ty>) {
    forall c :: c in fields ==> Sound(c)
  }

  lemma {:induction false} LayoutIsSound(t: Ty)
    requires Layout(t)
    ensures Sound(t)
  {
    if t.Hdl? {
      LaidOutIsOrdered(0, t.fields);
      forall c | c in t.fields ensures Sound(c) {
        LayoutIsSound(c);
      }
    }
  }

  lemma {:induction false} LaidOutIsOrdered(offset: nat, fields: seq<Ty>)
    requires LaidOut(offset, fields)
    ensures FieldsWithin(fields, offset, if fields == [] then offset else FieldsEnd(fields))
    decreases |fields|
  {
    if fields != [] {
      var rest := fields[1..];
      LaidOutIsOrdered(fields[0].End(), rest);
      assert rest != [] ==> FieldsEnd(rest) == FieldsEnd(fields);
      assert forall i :: 1 <= i < |fields| ==> fields[i] == rest[i - 1];
    }
  }

  // ---------- the traversal ----------

  /** One call of the visitor: the address of `data`, the buffer it points to, and the buffer's size. */
  datatype Visit = Visit(slot: nat, buffer: nat, size: nat)

  function Visits(m: Mem, f: nat, t: Ty): seq<Visit>
    decreases t
  {
    if t.Plain? then []
    else
      var b := ReadPtr(m, f + t.slot);
      [Visit(f + t.slot, b, t.hostSize)]
      + CaptureVisits(m, f, t.fields)
      + CaptureVisits(m, b, t.fields)
  }

  function CaptureVisits(m: Mem, base: nat, fields: seq<Ty>): seq<Visit>
    decreases fields
  {
    if fields == [] then []
    else
      Visits(m, base + fields[0].offset, fields[0])
      + CaptureVisits(m, base, fields[1..])
  }

  // ---------- what the traversal's shape depends on ----------

  /** Number of host closures of a type: one of its own, and every captured one twice. */
  function ClosureCount(t: Ty): nat {
    if t.Plain? then 0 else 1 + 2 * CaptureCount(t.fields)
  }

  function CaptureCount(fields: seq<Ty>): nat {
    if fields == [] then 0 else ClosureCount(fields[0]) + CaptureCount(fields[1..])
  }

  function ClosureSizes(t: Ty): seq<nat>
    decreases t
  {
    if t.Plain? then []
    else [t.hostSize] + CaptureSizes(t.fields) + CaptureSizes(t.fields)
  }

  function CaptureSizes(fields: seq<Ty>): seq<nat>
    decreases fields
  {
    if fields == [] then [] else ClosureSizes(fields[0]) + CaptureSizes(fields[1..])
  }

  function Sizes(vs: seq<Visit>): (r: seq<nat>)
    ensures |r| == |vs|
    ensures forall i :: 0 <= i < |vs| ==> r[i] == vs[i].size
  {
    seq(|vs|, i requires 0 <= i < |vs| => vs[i].size)
  }

  lemma SizesAppend(xs: seq<Visit>, ys: seq<Visit>)
    ensures Sizes(xs + ys) == Sizes(xs) + Sizes(ys)
  {
  }

  /** The sequence of closure sizes the traversal meets is a property of the type, not of the heap. */
  lemma {:induction false} VisitSizesFollowType(m: Mem, f: nat, t: Ty)
    ensures Sizes(Visits(m, f, t)) == ClosureSizes(t)
    decreases t
  {
    if t.Hdl? {
      var b := ReadPtr(m, f + t.slot);
      CaptureSizesFollowType(m, f, t.fields);
      CaptureSizesFollowType(m, b, t.fields);
      var own, dev, host := [Visit(f + t.slot, b, t.hostSize)],
          CaptureVisits(m, f, t.fields), CaptureVisits(m, b, t.fields);
      SizesAppend(own, dev);
      SizesAppend(own + dev, host);
    }
  }

  lemma {:induction false} CaptureSizesFollowType(m: Mem, base: nat, fields: seq<Ty>)
    ensures Sizes(CaptureVisits(m, base, fields)) == CaptureSizes(fields)
    decreases fields
  {
    if fields != [] {
      VisitSizesFollowType(m, base + fields[0].offset, fields[0]);
      CaptureSizesFollowType(m, base, fields[1..]);
      SizesAppend(Visits(m, base + fields[0].offset, fields[0]),
                  CaptureVisits(m, base, fields[1..]));
    }
  }

  lemma {:induction false} ClosureCountIsLength(t: Ty)
    ensures |ClosureSizes(t)| == ClosureCount(t)
    decreases t
  {
    if t.Hdl? {
      CaptureCountIsLength(t.fields);
    }
  }

  lemma {:induction false} CaptureCountIsLength(fields: seq<Ty>)
    ensures |CaptureSizes(fields)| == CaptureCount(fields)
    decreases fields
  {
    if fields != [] {
      ClosureCountIsLength(fields[0]);
      CaptureCountIsLength(fields[1..]);
    }
  }

  /** N(T) = 1 + 2 * (N of the fields): how often the visitor is called, on any heap. */
  lemma VisitCount(m: Mem, f: nat, t: Ty)
    ensures |Visits(m, f, t)| == ClosureCount(t)
  {
    VisitSizesFollowType(m, f, t);
    ClosureCountIsLength(t);
  }

  // ---------- the value a functor denotes ----------

  /** A wrapper's value: the fields it holds itself (device copy) and those of its host closure. */
  datatype Val = Raw(bytes: seq<Byte>) | Closure(device: seq<Val>, host: seq<Val>)

  /** Reads a functor's value, following the `data` pointers. */
  function Decode(m: Mem, f: nat, t: Ty): Val
    decreases t
  {
    if t.Plain? then Raw(Load(m, f, t.size))
    else Closure(DecodeCaptures(m, f, t.fields),
                 DecodeCaptures(m, ReadPtr(m, f + t.slot), t.fields))
  }

  function DecodeCaptures(m: Mem, base: nat, fields: seq<Ty>): seq<Val>
    decreases fields
  {
    if fields == [] then []
    else
      [Decode(m, base + fields[0].offset, fields[0])]
      + DecodeCaptures(m, base, fields[1..])
  }

  // ---------- the value, byte by byte ----------

  /** One step into a wrapper: its i-th captured variable, as the wrapper holds it or as its host closure does. */
  datatype Hop = Device(i: nat) | Host(i: nat)

  predicate IsPath(t: Ty, path: seq<Hop>)
    decreases |path|
  {
    path == [] || (t.Hdl? && path[0].i < |t.fields| && IsPath(t.fields[path[0].i], path[1..]))
  }

  /** The type that a path leads to. */
  function TypeAt(t: Ty, path: seq<Hop>): Ty
    requires IsPath(t, path)
    decreases |path|
  {
    if path == [] then t else TypeAt(t.fields[path[0].i], path[1..])
  }

  /** Where a path leads in memory: a hop into the host closure follows the wrapper's `data` pointer. */
  function AddressAt(m: Mem, f: nat, t: Ty, path: seq<Hop>): nat
    requires IsPath(t, path)
    decreases |path|
  {
    if path == [] then f
    else
      var field := t.fields[path[0].i];
      var base := if path[0].Device? then f else ReadPtr(m, f + t.slot);
      AddressAt(m, base + field.offset, field, path[1..])
  }

  /** The bytes that a value has at the end of a path, if it has any there. */
  function BytesAt(v: Val, path: seq<Hop>): Option<seq<Byte>>
    decreases |path|
  {
    if path == [] then (if v.Raw? then Some(v.bytes) else None)
    else if v.Raw? then None
    else
      var fields := if path[0].Device? then v.device else v.host;
      if path[0].i < |fields| then BytesAt(fields[path[0].i], path[1..]) else None
  }

  /** The value holds every byte of every plain variable, in the wrappers and in the host closures. */
  ghost predicate Carries(v: Val, m: Mem, f: nat, t: Ty) {
    forall path | IsPath(t, path) && TypeAt(t, path).Plain? ::
      BytesAt(v, path) == Some(Load(m, AddressAt(m, f, t, path), TypeAt(t, path).size))
  }

  lemma CarriedBytes(v: Val, m: Mem, f: nat, t: Ty, path: seq<Hop>)
    requires Carries(v, m, f, t) && IsPath(t, path) && TypeAt(t, path).Plain?
    ensures BytesAt(v, path) == Some(Load(m, AddressAt(m, f, t, path), TypeAt(t, path).size))
  {
  }

  lemma DecodeCarries(m: Mem, f: nat, t: Ty)
    ensures Carries(Decode(m, f, t), m, f, t)
  {
    forall path | IsPath(t, path) && TypeAt(t, path).Plain?
      ensures BytesAt(Decode(m, f, t), path) == Some(Load(m, AddressAt(m, f, t, path), TypeAt(t, path).size))
    {
      DecodeAt(m, f, t, path);
    }
  }

  lemma {:induction false} DecodeAt(m: Mem, f: nat, t: Ty, path: seq<Hop>)
    requires IsPath(t, path) && TypeAt(t, path).Plain?
    ensures BytesAt(Decode(m, f, t), path) == Some(Load(m, AddressAt(m, f, t, path), TypeAt(t, path).size))
    decreases |path|
  {
    hide IsPath, TypeAt, AddressAt, ReadPtr;
    PathStep(m, f, t, path);
    if path != [] {
      var i := path[0].i;
      var base := if path[0].Device? then f else ReadPtr(m, f + t.slot);
      DecodedCapture(m, base, t.fields, i);
      DecodeAt(m, base + t.fields[i].offset, t.fields[i], path[1..]);
    }
  }

  lemma {:induction false} DecodedCapture(m: Mem, base: nat, fields: seq<Ty>, i: nat)
    requires i < |fields|
    ensures |DecodeCaptures(m, base, fields)| == |fields|
    ensures DecodeCaptures(m, base, fields)[i] == Decode(m, base + fields[i].offset, fields[i])
    decreases |fields|
  {
    if i > 0 {
      DecodedCapture(m, base, fields[1..], i - 1);
    } else if |fields| > 1 {
      DecodedCapture(m, base, fields[1..], 0);
    }
  }

  /** A path to a wrapper leads to one of the visited slots, with the buffer and size that are found there. */
  lemma {:induction false} PathIsVisited(m: Mem, f: nat, t: Ty, path: seq<Hop>) returns (k: nat)
    requires IsPath(t, path) && TypeAt(t, path).Hdl?
    ensures k < |Visits(m, f, t)|
    ensures var a, u := AddressAt(m, f, t, path), TypeAt(t, path);
            Visits(m, f, t)[k] == Visit(a + u.slot, ReadPtr(m, a + u.slot), u.hostSize)
    decreases |path|
  {
    hide Visits, ReadPtr, CaptureVisits, IsPath, TypeAt, AddressAt;
    PathStep(m, f, t, path);
    if path == [] {
      k := 0;
      OwnVisit(m, f, t);
    } else {
      var i := path[0].i;
      var base := if path[0].Device? then f else ReadPtr(m, f + t.slot);
      var n := PathIsVisited(m, base + t.fields[i].offset, t.fields[i], path[1..]);
      n := CaptureIsVisited(m, base, t.fields, i, n);
      k := HalfIsVisited(m, f, t, path[0].Device?, n);
    }
  }

  lemma PathStep(m: Mem, f: nat, t: Ty, path: seq<Hop>)
    requires IsPath(t, path)
    ensures path == [] ==> AddressAt(m, f, t, path) == f && TypeAt(t, path) == t
    ensures path != [] ==>
              && t.Hdl? && path[0].i < |t.fields| && IsPath(t.fields[path[0].i], path[1..])
              && var field := t.fields[path[0].i];
                 var base := if path[0].Device? then f else ReadPtr(m, f + t.slot);
                 && TypeAt(t, path) == TypeAt(field, path[1..])
                 && AddressAt(m, f, t, path) == AddressAt(m, base + field.offset, field, path[1..])
  {
  }

  lemma OwnVisit(m: Mem, f: nat, t: Ty)
    requires t.Hdl?
    ensures Visits(m, f, t) != [] && Visits(m, f, t)[0] == Visit(f + t.slot, ReadPtr(m, f + t.slot), t.hostSize)
  {
  }

  /** The visits of a wrapper hold those of its own captures and those of its host closure's. */
  lemma HalfIsVisited(m: Mem, f: nat, t: Ty, device: bool, n: nat) returns (k: nat)
    requires t.Hdl?
    requires n < |CaptureVisits(m, if device then f else ReadPtr(m, f + t.slot), t.fields)|
    ensures k < |Visits(m, f, t)|
    ensures Visits(m, f, t)[k] == CaptureVisits(m, if device then f else ReadPtr(m, f + t.slot), t.fields)[n]
  {
    k := 1 + (if device then n else |CaptureVisits(m, f, t.fields)| + n);
  }

  lemma {:induction false} CaptureIsVisited(m: Mem, base: nat, fields: seq<Ty>, i: nat, k: nat) returns (n: nat)
    requires i < |fields| && k < |Visits(m, base + fields[i].offset, fields[i])|
    ensures n < |CaptureVisits(m, base, fields)|
    ensures CaptureVisits(m, base, fields)[n] == Visits(m, base + fields[i].offset, fields[i])[k]
    decreases |fields|
  {
    if i == 0 {
      n := k;
    } else {
      n := CaptureIsVisited(m, base, fields[1..], i - 1, k);
      n := |Visits(m, base + fields[0].offset, fields[0])| + n;
    }
  }

  // ---------- framing ----------

  ghost predicate AgreeOnBuffers(m: Mem, m': Mem, vs: seq<Visit>) {
    forall i :: 0 <= i < |vs| ==> AgreeOn(m, m', vs[i].buffer, vs[i].size)
  }

  /** A functor's value and its visits depend only on its own bytes and on the visited buffers. */
  lemma {:induction false} FunctorFrame(m: Mem, m': Mem, f: nat, t: Ty)
    requires Sound(t)
    requires AgreeOn(m, m', f, t.size)
    requires AgreeOnBuffers(m, m', Visits(m, f, t))
    ensures Visits(m', f, t) == Visits(m, f, t)
    ensures Decode(m', f, t) == Decode(m, f, t)
    decreases t
  {
    if t.Plain? {
    } else {
      SubAgree(m, m', f, t.size, f + t.slot, PTR_SIZE);
      ReadPtrAgree(m, m', f + t.slot);
      SubAgree(m, m', f, t.size, f, t.slot);
      var b := ReadPtr(m, f + t.slot);
      var own, dev, host := [Visit(f + t.slot, b, t.hostSize)],
          CaptureVisits(m, f, t.fields), CaptureVisits(m, b, t.fields);
      AgreeSplit(m, m', own + dev, host);
      AgreeSplit(m, m', own, dev);
      assert own[0].buffer == b;
      CapturesFrame(m, m', f, t.fields, 0, t.slot);
      CapturesFrame(m, m', b, t.fields, 0, t.hostSize);
    }
  }

  lemma {:induction false} CapturesFrame(m: Mem, m': Mem, base: nat, fields: seq<Ty>, lo: nat, hi: nat)
    requires AllSound(fields) && FieldsWithin(fields, lo, hi) && lo <= hi
    requires AgreeOn(m, m', base + lo, hi - lo)
    requires AgreeOnBuffers(m, m', CaptureVisits(m, base, fields))
    ensures CaptureVisits(m', base, fields) == CaptureVisits(m, base, fields)
    ensures DecodeCaptures(m', base, fields) == DecodeCaptures(m, base, fields)
    decreases fields
  {
    if fields != [] {
      var f := fields[0];
      AgreeSplit(m, m', Visits(m, base + f.offset, f), CaptureVisits(m, base, fields[1..]));
      SubAgree(m, m', base + lo, hi - lo, base + f.offset, f.size);
      SubAgree(m, m', base + lo, hi - lo, base + f.End(), hi - f.End());
      FunctorFrame(m, m', base + f.offset, f);
      CapturesFrame(m, m', base, fields[1..], f.End(), hi);
    }
  }

  lemma AgreeSplit(m: Mem, m': Mem, xs: seq<Visit>, ys: seq<Visit>)
    requires AgreeOnBuffers(m, m', xs + ys)
    ensures AgreeOnBuffers(m, m', xs) && AgreeOnBuffers(m, m', ys)
  {
    forall i | 0 <= i < |xs| ensures AgreeOn(m, m', xs[i].buffer, xs[i].size) {
      assert (xs + ys)[i] == xs[i];
    }
    forall i | 0 <= i < |ys| ensures AgreeOn(m, m', ys[i].buffer, ys[i].size) {
      assert (xs + ys)[|xs| + i] == ys[i];
    }
  }
}
