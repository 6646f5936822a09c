/** Bytes, the flat memory of a process, and 64-bit little-endian pointers stored in it. */
module Bytes {

  type Byte = x: int | 0 <= x < 256

  /** The memory of one process, indexed by address. */
  type Mem = seq<Byte>

  /** sizeof(void*) on the platforms KREPE supports. */
  const PTR_SIZE: nat := 8

  function At(m: Mem, a: nat): Byte {
    if a < |m| then m[a] else 0
  }

  function Load(m: Mem, a: nat, n: nat): (d: seq<Byte>)
    ensures |d| == n
    ensures forall k :: 0 <= k < n ==> d[k] == At(m, a + k)
  {
    seq<Byte>(n, (k: nat) => At(m, a + k))
  }

  function Store(m: Mem, a: nat, d: seq<Byte>): (r: Mem)
    ensures |r| == |m|
    ensures forall k :: 0 <= k < |m| ==> r[k] == if a <= k < a + |d| then d[k - a] else m[k]
  {
    seq(|m|, k requires 0 <= k < |m| => if a <= k < a + |d| then d[k - a] else m[k])
  }

  /** The bytes at [a, a + n) of `m` are those at [a1, a1 + n) of `m1`. */
  ghost predicate Mirrors(m: Mem, a: nat, m1: Mem, a1: nat, n: nat) {
    Load(m, a, n) == Load(m1, a1, n)
  }

  /** The two memories hold the same bytes on [a, a + n). */
  ghost predicate AgreeOn(m: Mem, m': Mem, a: nat, n: nat) {
    Mirrors(m, a, m', a, n)
  }

  /** The regions [a, a + n) and [b, b + k) do not meet. */
  ghost predicate Apart(a: nat, n: nat, b: nat, k: nat) {
    a + n <= b || b + k <= a
  }

  lemma LoadStored(m: Mem, a: nat, d: seq<Byte>)
    requires a + |d| <= |m|
    ensures Load(Store(m, a, d), a, |d|) == d
  {
  }

  lemma StoreKeeps(m: Mem, a: nat, d: seq<Byte>, b: nat, n: nat)
    requires Apart(a, |d|, b, n)
    ensures AgreeOn(m, Store(m, a, d), b, n)
  {
  }

  lemma SubMirror(m: Mem, a: nat, m1: Mem, a1: nat, n: nat, o: nat, k: nat)
    requires Mirrors(m, a, m1, a1, n) && o + k <= n
    ensures Mirrors(m, a + o, m1, a1 + o, k)
  {
    var d, d1 := Load(m, a + o, k), Load(m1, a1 + o, k);
    forall i | 0 <= i < k ensures d[i] == d1[i] {
      assert d[i] == Load(m, a, n)[o + i];
      assert d1[i] == Load(m1, a1, n)[o + i];
    }
  }

  /** Agreement on a region is agreement on each part of it. */
  lemma SubAgree(m: Mem, m': Mem, a: nat, n: nat, b: nat, k: nat)
    requires AgreeOn(m, m', a, n) && a <= b && b + k <= a + n
    ensures AgreeOn(m, m', b, k)
  {
    SubMirror(m, a, m', a, n, b - a, k);
  }

  // ---------- pointers ----------

  function LittleEndian(p: nat, n: nat): (d: seq<Byte>)
    ensures |d| == n
  {
    if n == 0 then [] else [p % 256] + LittleEndian(p / 256, n - 1)
  }

  function FromLittleEndian(d: seq<Byte>): nat {
    if d == [] then 0 else d[0] + 256 * FromLittleEndian(d[1..])
  }

  function Pow256(n: nat): nat {
    if n == 0 then 1 else 256 * Pow256(n - 1)
  }

  lemma {:induction false} FromLittleEndianBound(d: seq<Byte>)
    ensures FromLittleEndian(d) < Pow256(|d|)
  {
    if d != [] {
      FromLittleEndianBound(d[1..]);
    }
  }

  /** Storing a pointer and reading it back gives the same pointer. */
  lemma {:induction false} LittleEndianRoundTrip(p: nat, n: nat)
    requires p < Pow256(n)
    ensures FromLittleEndian(LittleEndian(p, n)) == p
  {
    if n > 0 {
      LittleEndianRoundTrip(p / 256, n - 1);
      assert LittleEndian(p, n)[1..] == LittleEndian(p / 256, n - 1);
    }
  }

  function PtrBytes(p: nat): (d: seq<Byte>)
    ensures |d| == PTR_SIZE
  {
    LittleEndian(p, PTR_SIZE)
  }

  function ReadPtr(m: Mem, a: nat): nat {
    FromLittleEndian(Load(m, a, PTR_SIZE))
  }

  /** Eight bytes, the lowest first. */
  lemma PointerBytes(m: Mem, a: nat)
    ensures ReadPtr(m, a) ==
            At(m, a) + 0x100 * At(m, a + 1) + 0x1_0000 * At(m, a + 2) + 0x100_0000 * At(m, a + 3)
            + 0x1_0000_0000 * At(m, a + 4) + 0x100_0000_0000 * At(m, a + 5)
            + 0x1_0000_0000_0000 * At(m, a + 6) + 0x100_0000_0000_0000 * At(m, a + 7)
  {
    var d := Load(m, a, 8);
    FromTwo(d);
    FromTwo(d[2..]);
    FromTwo(d[4..]);
    FromTwo(d[6..]);
    assert d[2..][2..] == d[4..] && d[4..][2..] == d[6..] && d[6..][2..] == [];
    assert FromLittleEndian([]) == 0;
  }

  lemma FromTwo(d: seq<Byte>)
    requires 2 <= |d|
    ensures FromLittleEndian(d) == d[0] + 0x100 * d[1] + 0x1_0000 * FromLittleEndian(d[2..])
  {
    assert d[1..][1..] == d[2..];
  }

  /** Every 64-bit pointer survives being stored and read back. */
  lemma PointerRoundTrip(m: Mem, a: nat, p: nat)
    requires p < 0x1_0000_0000_0000_0000 && a + 8 <= |m|
    ensures ReadPtr(Store(m, a, PtrBytes(p)), a) == p
  {
    LoadStored(m, a, PtrBytes(p));
    assert Pow256(8) == 0x1_0000_0000_0000_0000 by {
      assert Pow256(4) == 0x1_0000_0000;
    }
    LittleEndianRoundTrip(p, PTR_SIZE);
  }

  /** A pointer read from one place and written to another is the same pointer there. */
  lemma ReadPtrAfterCopy(m: Mem, a: nat, m': Mem, a': nat)
    requires Load(m', a', PTR_SIZE) == PtrBytes(ReadPtr(m, a))
    ensures ReadPtr(m', a') == ReadPtr(m, a)
  {
    FromLittleEndianBound(Load(m, a, PTR_SIZE));
    LittleEndianRoundTrip(ReadPtr(m, a), PTR_SIZE);
  }

  lemma ReadPtrAgree(m: Mem, m': Mem, a: nat)
    requires AgreeOn(m, m', a, PTR_SIZE)
    ensures ReadPtr(m', a) == ReadPtr(m, a)
  {
  }

  // ---------- the mutable memory of a running process ----------

  class ProcessMemory {
    var bytes: Mem

    constructor (m: Mem)
      ensures bytes == m
    {
      bytes := m;
    }

    method Memcpy(dst: nat, data: seq<Byte>)
      requires dst + |data| <= |bytes|
      modifies this
      ensures bytes == Store(old(bytes), dst, data)
    {
      bytes := bytes[..dst] + data + bytes[dst + |data|..];
    }
  }
}
