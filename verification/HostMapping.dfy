/** The host page table, fixed-address mapping that never replaces, and its undoing. */
module HostMapping {
  import opened Arithmetic
  import opened Bytes
  import opened RangeMerge

  /**
   * How the operating system answers one mapping call: it honours MAP_FIXED_NOREPLACE, it is too old to know
   * the flag and picks another place when the target is taken, or it fails for some other reason.
   */
  datatype Reply = Honours | Relocates(elsewhere: nat) | Refuses

  /** The pages of an aligned range. */
  function Pages(r: Range, page: Positive): set<nat> {
    set p: nat | 0 <= p < r.End() / page && FromPage(r, page, p)
  }

  predicate FromPage(r: Range, page: Positive, p: nat) {
    r.addr / page <= p
  }

  /** An aligned range consists of whole pages. */
  lemma PageOfByte(r: Range, page: Positive, a: nat)
    requires r.AlignedTo(page)
    ensures r.Holds(a) <==> a / page in Pages(r, page)
  {
    var lo, n := r.addr / page, r.size / page;
    RunOfPages(lo, n, a / page, a % page, page);
    assert r.End() / page == lo + n && r.addr == lo * page && r.End() == (lo + n) * page by {
      RunEnd(r, page);
    }
    assert a == (a / page) * page + a % page;
  }

  lemma RunEnd(r: Range, page: Positive)
    requires r.AlignedTo(page)
    ensures var lo, n := r.addr / page, r.size / page;
            r.addr == lo * page && r.End() == (lo + n) * page && r.End() / page == lo + n
  {
    var lo, n := r.addr / page, r.size / page;
    assert r.addr == lo * page && r.size == n * page;
    assert (lo + n) * page == lo * page + n * page;
    MultipleMod(lo + n, page);
  }

  lemma RunOfPages(lo: nat, n: nat, p: nat, rest: nat, page: Positive)
    requires rest < page
    ensures lo * page <= p * page + rest < (lo + n) * page <==> lo <= p < lo + n
  {
    assert (p + 1) * page == p * page + page;
    if p < lo {
      MulMonotone(p + 1, lo, page);
    } else {
      MulMonotone(lo, p, page);
      if p < lo + n {
        MulMonotone(p + 1, lo + n, page);
      } else {
        MulMonotone(lo + n, p, page);
      }
    }
  }

  lemma FirstByteOfPage(p: nat, page: Positive)
    ensures (p * page) / page == p
  {
    MultipleMod(p, page);
  }

  /** Disjoint aligned ranges have disjoint pages. */
  lemma PagesDisjoint(r: Range, s: Range, page: Positive)
    requires r.AlignedTo(page) && s.AlignedTo(page)
    requires r.End() <= s.addr || s.End() <= r.addr
    ensures Pages(r, page) !! Pages(s, page)
  {
    forall p | p in Pages(r, page) ensures p !in Pages(s, page) {
      FirstByteOfPage(p, page);
      PageOfByte(r, page, p * page);
      PageOfByte(s, page, p * page);
    }
  }

  function AllPages(rs: seq<Range>, page: Positive): set<nat> {
    if rs == [] then {} else AllPages(rs[..|rs| - 1], page) + Pages(rs[|rs| - 1], page)
  }

  lemma {:induction false} AllPagesMember(rs: seq<Range>, page: Positive, p: nat)
    ensures p in AllPages(rs, page) <==> exists i :: 0 <= i < |rs| && p in Pages(rs[i], page)
  {
    if rs != [] {
      AllPagesMember(rs[..|rs| - 1], page, p);
      assert forall i :: 0 <= i < |rs| - 1 ==> rs[..|rs| - 1][i] == rs[i];
    }
  }

  ghost predicate AllAligned(rs: seq<Range>, page: Positive) {
    forall i :: 0 <= i < |rs| ==> rs[i].AlignedTo(page) && 0 < rs[i].size
  }

  class AddressSpace {
    const page: Positive
    /** Numbers of the mapped pages. */
    var mapped: set<nat>
    /** Contents; meaningless outside mapped pages. */
    var bytes: nat -> Byte

    constructor (page: Positive, mapped: set<nat>, bytes: nat -> Byte)
      ensures this.page == page && this.mapped == mapped && this.bytes == bytes
    {
      this.page := page;
      this.mapped := mapped;
      this.bytes := bytes;
    }

    /** mmap with MAP_FIXED_NOREPLACE; None stands for MAP_FAILED. Fresh pages read as zero. */
    method Mmap(target: nat, size: nat, reply: Reply) returns (ok: bool, address: nat)
      requires Range(target, size).AlignedTo(page)
      modifies this
      ensures ok ==> Range(address, size).AlignedTo(page)
                     && Pages(Range(address, size), page) !! old(mapped)
                     && mapped == old(mapped) + Pages(Range(address, size), page)
                     && forall a: nat :: bytes(a) == if Range(address, size).Holds(a) then 0 else old(bytes)(a)
      ensures !ok ==> mapped == old(mapped) && bytes == old(bytes)
      ensures (ok && address == target) <==> !reply.Refuses? && Pages(Range(target, size), page) !! old(mapped)
    {
      address := target;
      if reply.Refuses? {
        return false, target;
      }
      if Pages(Range(target, size), page) * mapped != {} {
        if !reply.Relocates? || reply.elsewhere % page != 0 || reply.elsewhere == target
           || Pages(Range(reply.elsewhere, size), page) * mapped != {} {
          return false, target;
        }
        address := reply.elsewhere;
      }
      ok := true;
      var previous, r := bytes, Range(address, size);
      assert forall p :: p in Pages(r, page) && p in mapped ==> p in Pages(r, page) * mapped;
      mapped := mapped + Pages(r, page);
      bytes := (a: nat) => if r.Holds(a) then 0 else previous(a);
    }

    /** munmap; only ever called on a region that is mapped, so no region is unmapped twice. */
    method Munmap(address: nat, size: nat)
      requires Range(address, size).AlignedTo(page)
      requires Pages(Range(address, size), page) <= mapped
      modifies this`mapped
      ensures mapped == old(mapped) - Pages(Range(address, size), page)
    {
      mapped := mapped - Pages(Range(address, size), page);
    }

    /** host_allocate: succeeds only at the target; whatever else was mapped in the attempt is unmapped. */
    method HostAllocate(target: nat, size: nat, reply: Reply) returns (ok: bool)
      requires Range(target, size).AlignedTo(page)
      modifies this
      ensures ok <==> !reply.Refuses? && Pages(Range(target, size), page) !! old(mapped)
      ensures mapped == old(mapped) + (if ok then Pages(Range(target, size), page) else {})
      ensures forall a: nat :: a / page in old(mapped) ==> bytes(a) == old(bytes)(a)
      ensures ok ==> forall a: nat :: Range(target, size).Holds(a) ==> bytes(a) == 0
    {
      var address;
      ok, address := Mmap(target, size, reply);
      if ok {
        forall a: nat | a / page in old(mapped) ensures bytes(a) == old(bytes)(a) {
          PageOfByte(Range(address, size), page, a);
        }
        if address != target {
          Munmap(address, size);
          ok := false;
        }
      }
    }

    method HostCopyData(address: nat, data: seq<Byte>)
      requires forall a: nat :: address <= a < address + |data| ==> a / page in mapped
      modifies this`bytes
      ensures forall a: nat :: bytes(a) == if address <= a < address + |data| then data[a - address] else old(bytes)(a)
    {
      var previous := bytes;
      bytes := (a: nat) => if address <= a < address + |data| then data[a - address] else previous(a);
    }
  }

  /** The destructors of the guard's allocations. */
  method ReleaseAll(space: AddressSpace, regions: seq<Range>)
    requires AllAligned(regions, space.page) && Separate(regions)
    requires AllPages(regions, space.page) <= space.mapped
    modifies space`mapped
    ensures space.mapped == old(space.mapped) - AllPages(regions, space.page)
  {
    for i := 0 to |regions|
      invariant space.mapped == old(space.mapped) - AllPages(regions[..i], space.page)
    {
      assert regions[..i + 1][..i] == regions[..i];
      forall p | p in Pages(regions[i], space.page) ensures p in space.mapped {
        AllPagesMember(regions, space.page, p);
        AllPagesMember(regions[..i], space.page, p);
        forall j | 0 <= j < i ensures p !in Pages(regions[j], space.page) {
          PagesDisjoint(regions[j], regions[i], space.page);
        }
      }
      space.Munmap(regions[i].addr, regions[i].size);
    }
    assert regions[..|regions|] == regions;
  }

  /**
   * The mapping loop of the guard's constructor. It succeeds exactly when no call is refused and none of the
   * pages was mapped before: the regions never collide with each other. A failure unmaps what was mapped.
   */
  method AllocateAll(space: AddressSpace, locations: seq<Range>, replies: nat -> Reply) returns (ok: bool)
    requires AllAligned(locations, space.page) && Separate(locations)
    modifies space
    ensures ok <==> (forall i :: 0 <= i < |locations| ==> !replies(i).Refuses?)
                    && AllPages(locations, space.page) !! old(space.mapped)
    ensures space.mapped == old(space.mapped) + (if ok then AllPages(locations, space.page) else {})
    ensures forall a: nat :: a / space.page in old(space.mapped) ==> space.bytes(a) == old(space.bytes)(a)
    ensures ok ==> forall a: nat :: Covered(locations, a) ==> space.bytes(a) == 0
  {
    hide Pages, AllPages, Zeroed, AllAligned, Separate;
    NoPages(space.page, space.bytes);
    var regions: seq<Range> := [];
    for i := 0 to |locations|
      invariant regions == locations[..i]
      invariant forall k :: 0 <= k < i ==> !replies(k).Refuses?
      invariant AllPages(regions, space.page) !! old(space.mapped)
      invariant space.mapped == old(space.mapped) + AllPages(regions, space.page)
      invariant forall a: nat :: a / space.page in old(space.mapped) ==> space.bytes(a) == old(space.bytes)(a)
      invariant Zeroed(regions, space.bytes)
    {
      var r := locations[i];
      ghost var previous, mapped := space.bytes, space.mapped;
      NewPages(locations, i, space.page);
      MorePages(locations, i, space.page);
      ok := space.HostAllocate(r.addr, r.size, replies(i));
      if !ok {
        ReleaseAll(space, regions);
        return;
      }
      assert locations[..i + 1] == regions + [r];
      StillZero(regions, r, space.page, mapped, previous, space.bytes);
      regions := regions + [r];
    }
    assert locations[..|locations|] == locations;
    AllZeroed(locations, space.bytes);
    ok := true;
  }

  ghost predicate Zeroed(regions: seq<Range>, bytes: nat -> Byte) {
    forall a: nat :: Covered(regions, a) ==> bytes(a) == 0
  }

  lemma AllZeroed(regions: seq<Range>, bytes: nat -> Byte)
    requires Zeroed(regions, bytes)
    ensures forall a: nat :: Covered(regions, a) ==> bytes(a) == 0
  {
  }

  lemma NoPages(page: Positive, bytes: nat -> Byte)
    ensures AllPages([], page) == {} && Zeroed([], bytes)
  {
  }

  /** The pages of the next region are new. */
  lemma NewPages(locations: seq<Range>, i: nat, page: Positive)
    requires AllAligned(locations, page) && Separate(locations) && i < |locations|
    ensures locations[i].AlignedTo(page) && AllAligned(locations[..i], page) && Separate(locations[..i])
    ensures Pages(locations[i], page) !! AllPages(locations[..i], page)
    ensures AllPages(locations[..i + 1], page) == AllPages(locations[..i], page) + Pages(locations[i], page)
  {
    assert locations[..i + 1][..i] == locations[..i];
    forall p | p in Pages(locations[i], page) ensures p !in AllPages(locations[..i], page) {
      AllPagesMember(locations[..i], page, p);
      forall j | 0 <= j < i ensures p !in Pages(locations[..i][j], page) {
        PagesDisjoint(locations[j], locations[i], page);
      }
    }
  }

  lemma MorePages(locations: seq<Range>, i: nat, page: Positive)
    requires i < |locations|
    ensures Pages(locations[i], page) <= AllPages(locations, page)
  {
    forall p | p in Pages(locations[i], page) ensures p in AllPages(locations, page) {
      AllPagesMember(locations, page, p);
    }
  }

  lemma StillZero(regions: seq<Range>, r: Range, page: Positive, mapped: set<nat>,
                  before: nat -> Byte, after: nat -> Byte)
    requires AllAligned(regions, page) && AllPages(regions, page) <= mapped
    requires Zeroed(regions, before)
    requires forall a: nat :: a / page in mapped ==> after(a) == before(a)
    requires forall a: nat :: r.Holds(a) ==> after(a) == 0
    ensures Zeroed(regions + [r], after)
  {
    CoveredAppend(regions, r);
    forall a: nat | Covered(regions, a) ensures after(a) == 0 {
      CoveredIsMapped(regions, page, a);
    }
  }

  lemma MappedIsCovered(regions: seq<Range>, page: Positive, a: nat)
    requires AllAligned(regions, page) && a / page in AllPages(regions, page)
    ensures Covered(regions, a)
  {
    AllPagesMember(regions, page, a / page);
    var i :| 0 <= i < |regions| && a / page in Pages(regions[i], page);
    PageOfByte(regions[i], page, a);
  }

  lemma CoveredIsMapped(regions: seq<Range>, page: Positive, a: nat)
    requires AllAligned(regions, page) && Covered(regions, a)
    ensures a / page in AllPages(regions, page)
  {
    var i :| 0 <= i < |regions| && regions[i].Holds(a);
    PageOfByte(regions[i], page, a);
    AllPagesMember(regions, page, a / page);
  }
}
