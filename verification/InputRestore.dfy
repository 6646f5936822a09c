/** Writing captured bytes back to their addresses, in order, and doing it again later. */
module InputRestore {
  import opened Arithmetic
  import opened Bytes
  import opened HostMapping
  import opened Wrappers

  datatype Write = Write(addr: nat, data: seq<Byte>) {
    predicate Holds(a: nat) { addr <= a < addr + |data| }
  }

  /** The byte that a sequence of writes leaves at an address, if any of them reaches it. */
  function LastWrite(ws: seq<Write>, a: nat): Option<Byte> {
    if ws == [] then None
    else
      var w := ws[|ws| - 1];
      if w.Holds(a) then Some(w.data[a - w.addr]) else LastWrite(ws[..|ws| - 1], a)
  }

  lemma LastWriteAppend(ws: seq<Write>, w: Write, a: nat)
    ensures LastWrite(ws + [w], a) == if w.Holds(a) then Some(w.data[a - w.addr]) else LastWrite(ws, a)
  {
    assert (ws + [w])[..|ws|] == ws;
  }

  /** `after` is `before` with the writes applied. */
  ghost predicate Applied(before: nat -> Byte, ws: seq<Write>, after: nat -> Byte) {
    forall a: nat :: after(a) == match LastWrite(ws, a) case Some(b) => b case None => before(a)
  }

  lemma ApplyOne(before: nat -> Byte, ws: seq<Write>, middle: nat -> Byte, w: Write, after: nat -> Byte)
    requires Applied(before, ws, middle)
    requires forall a: nat :: after(a) == if w.Holds(a) then w.data[a - w.addr] else middle(a)
    ensures Applied(before, ws + [w], after)
  {
    assert (ws + [w])[..|ws|] == ws;
  }

  /**
   * Replaying the writes restores every byte they reach to the value it had after they were first applied,
   * whatever was written in between, even when they overlap; other bytes are left alone.
   */
  lemma ResetRestores(before: nat -> Byte, ws: seq<Write>, first: nat -> Byte, later: nat -> Byte,
                      reset: nat -> Byte, a: nat)
    requires Applied(before, ws, first) && Applied(later, ws, reset)
    ensures reset(a) == if exists i :: 0 <= i < |ws| && ws[i].Holds(a) then first(a) else later(a)
  {
    LastWriteDefined(ws, a);
  }

  lemma {:induction false} LastWriteDefined(ws: seq<Write>, a: nat)
    ensures LastWrite(ws, a).Some? <==> exists i :: 0 <= i < |ws| && ws[i].Holds(a)
  {
    if ws != [] {
      LastWriteDefined(ws[..|ws| - 1], a);
      assert forall i :: 0 <= i < |ws| - 1 ==> ws[..|ws| - 1][i] == ws[i];
    }
  }

  /** The write whose byte an address has in the end. */
  lemma {:induction false} LastWriter(ws: seq<Write>, a: nat) returns (k: nat)
    requires LastWrite(ws, a).Some?
    ensures k < |ws| && ws[k].Holds(a) && LastWrite(ws, a) == Some(ws[k].data[a - ws[k].addr])
  {
    k := |ws| - 1;
    if !ws[k].Holds(a) {
      k := LastWriter(ws[..k], a);
    }
  }

  ghost predicate WritesOn(ws: seq<Write>, pages: set<nat>, page: Positive) {
    forall i, a: nat :: 0 <= i < |ws| && ws[i].Holds(a) ==> a / page in pages
  }

  ghost predicate WritesMapped(ws: seq<Write>, space: AddressSpace)
    reads space
  {
    WritesOn(ws, space.mapped, space.page)
  }

  lemma WritesOnMore(ws: seq<Write>, pages: set<nat>, more: set<nat>, page: Positive)
    requires WritesOn(ws, pages, page) && pages <= more
    ensures WritesOn(ws, more, page)
  {
  }

  method CopyAll(space: AddressSpace, ws: seq<Write>)
    requires WritesMapped(ws, space)
    modifies space`bytes
    ensures Applied(old(space.bytes), ws, space.bytes)
  {
    for i := 0 to |ws|
      invariant Applied(old(space.bytes), ws[..i], space.bytes)
      invariant WritesMapped(ws, space)
    {
      ghost var middle := space.bytes;
      assert forall a: nat :: ws[i].addr <= a < ws[i].addr + |ws[i].data| ==> ws[i].Holds(a);
      space.HostCopyData(ws[i].addr, ws[i].data);
      ApplyOne(old(space.bytes), ws[..i], middle, ws[i], space.bytes);
      assert ws[..i + 1] == ws[..i] + [ws[i]];
    }
    assert ws[..|ws|] == ws;
  }
}
