/** The concatenated closure data of a dump, and the bytes a patch leaves outside pointer slots. */
module ClosureBytes {
  import opened Bytes
  import opened Closures
  import opened ClosurePatch

  function Flatten(ds: seq<seq<Byte>>): seq<Byte> {
    if ds == [] then [] else ds[0] + Flatten(ds[1..])
  }

  function TotalSize(sizes: seq<nat>): nat {
    if sizes == [] then 0 else sizes[0] + TotalSize(sizes[1..])
  }

  /** Cuts data into consecutive blocks of the given sizes. */
  function Slices(data: seq<Byte>, sizes: seq<nat>): (ds: seq<seq<Byte>>)
    requires TotalSize(sizes) <= |data|
    ensures |ds| == |sizes|
    ensures forall i :: 0 <= i < |sizes| ==> |ds[i]| == sizes[i]
  {
    if sizes == [] then [] else [data[..sizes[0]]] + Slices(data[sizes[0]..], sizes[1..])
  }

  function Lengths(ds: seq<seq<Byte>>): (r: seq<nat>)
    ensures |r| == |ds|
    ensures forall i :: 0 <= i < |ds| ==> r[i] == |ds[i]|
  {
    seq(|ds|, i requires 0 <= i < |ds| => |ds[i]|)
  }

  /** Cutting concatenated blocks by their sizes gives the blocks back. */
  lemma {:induction false} SliceFlatten(ds: seq<seq<Byte>>)
    ensures |Flatten(ds)| == TotalSize(Lengths(ds))
    ensures Slices(Flatten(ds), Lengths(ds)) == ds
  {
    if ds != [] {
      SliceFlatten(ds[1..]);
      hide Lengths;
      LengthsRest(ds);
      SplitConcat(ds[0], Flatten(ds[1..]));
    }
  }

  lemma LengthsRest(ds: seq<seq<Byte>>)
    requires ds != []
    ensures Lengths(ds) != [] && Lengths(ds)[0] == |ds[0]| && Lengths(ds)[1..] == Lengths(ds[1..])
  {
  }

  lemma SplitConcat<T>(a: seq<T>, b: seq<T>)
    ensures (a + b)[..|a|] == a && (a + b)[|a|..] == b
  {
  }

  lemma SliceOfRest<T>(s: seq<T>, k: nat, lo: nat, hi: nat)
    requires lo <= hi && k + hi <= |s|
    ensures s[k..][lo..hi] == s[k + lo..k + hi]
  {
  }

  lemma {:induction false} FlattenAppend(xs: seq<seq<Byte>>, ys: seq<seq<Byte>>)
    ensures Flatten(xs + ys) == Flatten(xs) + Flatten(ys)
  {
    if xs == [] {
      assert xs + ys == ys;
    } else {
      assert (xs + ys)[1..] == xs[1..] + ys;
      FlattenAppend(xs[1..], ys);
    }
  }

  /** The i-th block starts where the sizes before it end, and stays inside the data. */
  lemma {:induction false} SliceAt(data: seq<Byte>, sizes: seq<nat>, i: nat)
    requires TotalSize(sizes) <= |data| && i < |sizes|
    ensures TotalSize(sizes[..i]) + sizes[i] == TotalSize(sizes[..i + 1]) <= TotalSize(sizes)
    ensures Slices(data, sizes)[i] == data[TotalSize(sizes[..i])..TotalSize(sizes[..i + 1])]
  {
    if i == 0 {
      assert sizes[..0] == [] && sizes[..1] == [sizes[0]];
    } else {
      SliceAt(data[sizes[0]..], sizes[1..], i - 1);
      TotalOfPrefix(sizes, i);
      TotalOfPrefix(sizes, i + 1);
      var lo, hi := TotalSize(sizes[1..][..i - 1]), TotalSize(sizes[1..][..i]);
      SliceOfRest(data, sizes[0], lo, hi);
    }
  }

  lemma TotalOfPrefix(sizes: seq<nat>, i: nat)
    requires 0 < i <= |sizes|
    ensures TotalSize(sizes[..i]) == sizes[0] + TotalSize(sizes[1..][..i - 1])
  {
    assert sizes[..i][1..] == sizes[1..][..i - 1];
  }

  // ---------- bytes outside pointer slots ----------

  ghost predicate InSlot(a: nat, vs: seq<Visit>) {
    exists i :: 0 <= i < |vs| && vs[i].slot <= a < vs[i].slot + PTR_SIZE
  }

  /** The eight bytes of each visited pointer. */
  lemma SlotBytes(a: nat, vs: seq<Visit>)
    ensures InSlot(a, vs) <==> exists i :: 0 <= i < |vs| && vs[i].slot <= a <= vs[i].slot + 7
  {
  }

  /** Outside pointer slots, a patched buffer holds exactly the data it was given. */
  lemma {:induction false} PatchedBufferByte(m: Mem, vs: seq<Visit>, ds: seq<seq<Byte>>, i: nat, k: nat)
    requires Fits(vs, ds) && PairwiseApart(vs) && InBounds(|m|, vs)
    requires i < |vs| && k < vs[i].size && !InSlot(vs[i].buffer + k, vs)
    ensures At(Patch(m, vs, ds), vs[i].buffer + k) == ds[i][k]
    decreases |vs|
  {
    var a := vs[i].buffer + k;
    var m1 := PatchOne(m, vs[0], ds[0]);
    forall j | 1 <= j < |vs| ensures Apart(a, 1, vs[j].slot, PTR_SIZE) {}
    if i == 0 {
      forall j | 0 <= j < |vs[1..]| ensures Apart(a, 1, vs[1..][j].buffer, vs[1..][j].size) {
        assert Apart(vs[0].buffer, vs[0].size, vs[j + 1].buffer, vs[j + 1].size);
      }
      PatchKeeps(m1, vs[1..], ds[1..], a);
    } else {
      assert !InSlot(a, vs[1..]);
      PatchedBufferByte(m1, vs[1..], ds[1..], i - 1, k);
    }
  }

  /** Outside pointer slots, a patch keeps the functor's own bytes. */
  lemma PatchedFunctorByte(m: Mem, f: nat, n: nat, vs: seq<Visit>, ds: seq<seq<Byte>>, k: nat)
    requires Fits(vs, ds) && ApartFrom(f, n, vs)
    requires k < n && !InSlot(f + k, vs)
    ensures At(Patch(m, vs, ds), f + k) == At(m, f + k)
  {
    forall j | 0 <= j < |vs|
      ensures Apart(f + k, 1, vs[j].slot, PTR_SIZE) && Apart(f + k, 1, vs[j].buffer, vs[j].size)
    {
      assert Apart(f, n, vs[j].buffer, vs[j].size);
    }
    PatchKeeps(m, vs, ds, f + k);
  }
}
