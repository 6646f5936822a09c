/** Overwriting a functor and its host closures with captured bytes, slot by slot, parent first. */
module ClosurePatch {
  import opened Bytes
  import opened Closures

  /** The contents of the visited closures' buffers, in visiting order. */
  function Contents(m: Mem, vs: seq<Visit>): (ds: seq<seq<Byte>>)
    ensures |ds| == |vs|
    ensures forall i :: 0 <= i < |vs| ==> ds[i] == Load(m, vs[i].buffer, vs[i].size)
  {
    seq(|vs|, i requires 0 <= i < |vs| => Load(m, vs[i].buffer, vs[i].size))
  }

  /** Repairs one pointer slot, then overwrites the buffer it points to. */
  function PatchOne(m: Mem, v: Visit, d: seq<Byte>): Mem {
    Store(Store(m, v.slot, PtrBytes(v.buffer)), v.buffer, d)
  }

  function Patch(m: Mem, vs: seq<Visit>, ds: seq<seq<Byte>>): (m': Mem)
    ensures |m'| == |m|
    decreases |vs|
  {
    if vs == [] || ds == [] then m
    else Patch(PatchOne(m, vs[0], ds[0]), vs[1..], ds[1..])
  }

  /** One block of data for each visit, of the visited closure's size. */
  ghost predicate Fits(vs: seq<Visit>, ds: seq<seq<Byte>>) {
    |vs| == |ds| && forall i :: 0 <= i < |vs| ==> |ds[i]| == vs[i].size
  }

  lemma ContentsFit(m1: Mem, vs: seq<Visit>, vs1: seq<Visit>)
    requires Sizes(vs) == Sizes(vs1)
    ensures Fits(vs, Contents(m1, vs1))
  {
    assert |Sizes(vs)| == |Sizes(vs1)|;
    forall i | 0 <= i < |vs| ensures |Contents(m1, vs1)[i]| == vs[i].size {
      assert Sizes(vs)[i] == Sizes(vs1)[i];
    }
  }

  lemma {:induction false} PatchAppend(m: Mem, xs: seq<Visit>, ys: seq<Visit>,
                                       dx: seq<seq<Byte>>, dy: seq<seq<Byte>>)
    requires |xs| == |dx|
    ensures Patch(m, xs + ys, dx + dy) == Patch(Patch(m, xs, dx), ys, dy)
    decreases |xs|
  {
    if xs == [] {
      assert xs + ys == ys && dx + dy == dy;
    } else {
      assert (xs + ys)[1..] == xs[1..] + ys && (dx + dy)[1..] == dx[1..] + dy;
      PatchAppend(PatchOne(m, xs[0], dx[0]), xs[1..], ys, dx[1..], dy);
    }
  }

  // ---------- separation ----------

  ghost predicate InBounds(limit: nat, vs: seq<Visit>) {
    forall i :: 0 <= i < |vs| ==> vs[i].buffer + vs[i].size <= limit
  }

  ghost predicate ApartFrom(a: nat, n: nat, vs: seq<Visit>) {
    forall i :: 0 <= i < |vs| ==> Apart(a, n, vs[i].buffer, vs[i].size)
  }

  ghost predicate PairwiseApart(vs: seq<Visit>) {
    forall i, j :: 0 <= i < j < |vs| ==> Apart(vs[i].buffer, vs[i].size, vs[j].buffer, vs[j].size)
  }

  /** A functor at [f, f + n) and its closures' buffers occupy pairwise disjoint memory. */
  ghost predicate Separated(f: nat, n: nat, vs: seq<Visit>) {
    ApartFrom(f, n, vs) && PairwiseApart(vs)
  }

  /** In terms of addresses: no byte belongs to two of the functor and the buffers. */
  lemma SeparatedInFull(f: nat, n: nat, vs: seq<Visit>)
    ensures Separated(f, n, vs) <==>
            && (forall i | 0 <= i < |vs| :: f + n <= vs[i].buffer || vs[i].buffer + vs[i].size <= f)
            && (forall i, j | 0 <= i < j < |vs| ::
                  vs[i].buffer + vs[i].size <= vs[j].buffer || vs[j].buffer + vs[j].size <= vs[i].buffer)
  {
    if Separated(f, n, vs) {
      forall i | 0 <= i < |vs| ensures f + n <= vs[i].buffer || vs[i].buffer + vs[i].size <= f {
        assert Apart(f, n, vs[i].buffer, vs[i].size);
      }
      forall i, j | 0 <= i < j < |vs|
        ensures vs[i].buffer + vs[i].size <= vs[j].buffer || vs[j].buffer + vs[j].size <= vs[i].buffer
      {
        assert Apart(vs[i].buffer, vs[i].size, vs[j].buffer, vs[j].size);
      }
    }
  }

  ghost predicate CrossApart(xs: seq<Visit>, ys: seq<Visit>) {
    forall i :: 0 <= i < |xs| ==> ApartFrom(xs[i].buffer, xs[i].size, ys)
  }

  lemma SeparatedSplit(limit: nat, f: nat, n: nat, xs: seq<Visit>, ys: seq<Visit>)
    requires Separated(f, n, xs + ys) && InBounds(limit, xs + ys)
    ensures Separated(f, n, xs) && Separated(f, n, ys) && CrossApart(xs, ys)
    ensures InBounds(limit, xs) && InBounds(limit, ys)
  {
    var zs := xs + ys;
    assert forall i :: 0 <= i < |xs| ==> zs[i] == xs[i];
    assert forall i :: 0 <= i < |ys| ==> zs[|xs| + i] == ys[i];
    forall i, j | 0 <= i < j < |ys| ensures Apart(ys[i].buffer, ys[i].size, ys[j].buffer, ys[j].size) {
      assert Apart(zs[|xs| + i].buffer, zs[|xs| + i].size, zs[|xs| + j].buffer, zs[|xs| + j].size);
    }
    forall i | 0 <= i < |xs| ensures ApartFrom(xs[i].buffer, xs[i].size, ys) {
      forall j | 0 <= j < |ys| ensures Apart(xs[i].buffer, xs[i].size, ys[j].buffer, ys[j].size) {
        assert Apart(zs[i].buffer, zs[i].size, zs[|xs| + j].buffer, zs[|xs| + j].size);
      }
    }
  }

  // ---------- what a patch leaves alone ----------

  ghost predicate Within(a: nat, n: nat, b: nat, k: nat) {
    b <= a && a + n <= b + k
  }

  ghost predicate InSomeBuffer(a: nat, n: nat, vs: seq<Visit>) {
    exists j :: 0 <= j < |vs| && Within(a, n, vs[j].buffer, vs[j].size)
  }

  /** Every pointer slot lies in [f, f + n) or in a visited buffer. */
  ghost predicate SlotsCovered(f: nat, n: nat, vs: seq<Visit>) {
    SlotsOfCovered(vs, f, n, vs)
  }

  ghost predicate SlotsOfCovered(some: seq<Visit>, f: nat, n: nat, vs: seq<Visit>) {
    forall i :: 0 <= i < |some| ==>
      Within(some[i].slot, PTR_SIZE, f, n) || InSomeBuffer(some[i].slot, PTR_SIZE, vs)
  }

  lemma SlotsOfCoveredAppend(xs: seq<Visit>, ys: seq<Visit>, f: nat, n: nat, vs: seq<Visit>)
    requires SlotsOfCovered(xs, f, n, vs) && SlotsOfCovered(ys, f, n, vs)
    ensures SlotsOfCovered(xs + ys, f, n, vs)
  {
  }

  lemma SlotsOfCoveredWeaken(some: seq<Visit>, f: nat, n: nat, vs: seq<Visit>,
                             f': nat, n': nat, before: seq<Visit>, after: seq<Visit>)
    requires SlotsOfCovered(some, f, n, vs)
    requires Within(f, n, f', n') || InSomeBuffer(f, n, before + vs + after)
    ensures SlotsOfCovered(some, f', n', before + vs + after)
  {
    var all := before + vs + after;
    forall i | 0 <= i < |some|
      ensures Within(some[i].slot, PTR_SIZE, f', n') || InSomeBuffer(some[i].slot, PTR_SIZE, all)
    {
      if InSomeBuffer(some[i].slot, PTR_SIZE, vs) {
        var j :| 0 <= j < |vs| && Within(some[i].slot, PTR_SIZE, vs[j].buffer, vs[j].size);
        assert all[|before| + j] == vs[j];
      } else if !Within(f, n, f', n') {
        var j :| 0 <= j < |all| && Within(f, n, all[j].buffer, all[j].size);
        assert Within(some[i].slot, PTR_SIZE, all[j].buffer, all[j].size);
      }
    }
  }

  lemma {:induction false} FunctorSlotsCovered(m: Mem, f: nat, t: Ty)
    requires Sound(t)
    ensures SlotsCovered(f, t.size, Visits(m, f, t))
    decreases t
  {
    hide FieldsWithin;
    if t.Hdl? {
      var b := ReadPtr(m, f + t.slot);
      var own := [Visit(f + t.slot, b, t.hostSize)];
      var dev, host := CaptureVisits(m, f, t.fields), CaptureVisits(m, b, t.fields);
      var all := own + dev + host;
      CapturesSlotsCovered(m, f, t.fields, 0, t.slot);
      CapturesSlotsCovered(m, b, t.fields, 0, t.hostSize);
      SlotsOfCoveredWeaken(dev, f, t.slot, dev, f, t.size, own, host);
      assert all[0].buffer == b && Within(b, t.hostSize, all[0].buffer, all[0].size);
      assert own + dev + host + [] == all;
      SlotsOfCoveredWeaken(host, b, t.hostSize, host, f, t.size, own + dev, []);
      assert Within(own[0].slot, PTR_SIZE, f, t.size);
      SlotsOfCoveredAppend(own, dev, f, t.size, all);
      SlotsOfCoveredAppend(own + dev, host, f, t.size, all);
    }
  }

  lemma {:induction false} CapturesSlotsCovered(m: Mem, base: nat, fields: seq<Ty>, lo: nat, hi: nat)
    requires AllSound(fields) && FieldsWithin(fields, lo, hi) && lo <= hi
    ensures SlotsCovered(base + lo, hi - lo, CaptureVisits(m, base, fields))
    decreases fields
  {
    hide FieldsWithin, InSomeBuffer, Visits;
    if fields != [] {
      TailWithin(fields, lo, hi);
      var f := fields[0];
      var head, rest := Visits(m, base + f.offset, f), CaptureVisits(m, base, fields[1..]);
      FunctorSlotsCovered(m, base + f.offset, f);
      CapturesSlotsCovered(m, base, fields[1..], f.End(), hi);
      assert [] + head + rest == head + rest && head + rest + [] == head + rest;
      SlotsOfCoveredWeaken(head, base + f.offset, f.size, head, base + lo, hi - lo, [], rest);
      SlotsOfCoveredWeaken(rest, base + f.End(), hi - f.End(), rest, base + lo, hi - lo, head, []);
      SlotsOfCoveredAppend(head, rest, base + lo, hi - lo, head + rest);
    }
  }

  /** An address in none of the slots and none of the buffers keeps its byte. */
  lemma {:induction false} PatchKeeps(m: Mem, vs: seq<Visit>, ds: seq<seq<Byte>>, a: nat)
    requires Fits(vs, ds)
    requires forall i :: 0 <= i < |vs| ==> Apart(a, 1, vs[i].buffer, vs[i].size)
    requires forall i :: 0 <= i < |vs| ==> Apart(a, 1, vs[i].slot, PTR_SIZE)
    ensures At(Patch(m, vs, ds), a) == At(m, a)
    decreases |vs|
  {
    if vs != [] {
      PatchKeeps(PatchOne(m, vs[0], ds[0]), vs[1..], ds[1..], a);
    }
  }

  /** A patch keeps a region that is apart from the functor's own bytes and from every buffer. */
  lemma PatchKeepsRegion(m: Mem, f: nat, n: nat, vs: seq<Visit>, ds: seq<seq<Byte>>, a: nat, k: nat)
    requires Fits(vs, ds)
    requires SlotsCovered(f, n, vs)
    requires Apart(f, n, a, k) && ApartFrom(a, k, vs)
    ensures AgreeOn(m, Patch(m, vs, ds), a, k)
  {
    var m' := Patch(m, vs, ds);
    forall o | 0 <= o < k ensures Load(m, a, k)[o] == Load(m', a, k)[o] {
      forall i | 0 <= i < |vs| ensures Apart(a + o, 1, vs[i].slot, PTR_SIZE) {
        if !Within(vs[i].slot, PTR_SIZE, f, n) {
          var j :| 0 <= j < |vs| && Within(vs[i].slot, PTR_SIZE, vs[j].buffer, vs[j].size);
          assert Apart(a, k, vs[j].buffer, vs[j].size);
        }
      }
      PatchKeeps(m, vs, ds, a + o);
    }
  }
}
