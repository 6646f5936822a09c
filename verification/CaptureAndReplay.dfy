/** Both halves together: what a replay of a captured launch restores, and when it can. */
module CaptureAndReplay {
  import opened AllocationTracker
  import opened Arithmetic
  import opened Bytes
  import opened CaptureTool
  import opened ClosurePatch
  import opened Closures
  import opened ClosureVisitors
  import opened DumpedSnapshots
  import opened DumpFile
  import opened FunctorRestore
  import opened HostMapping
  import opened OutputMatching
  import PolicyCodec
  import opened Replayer
  import opened ReplayProcess
  import opened ScopeGuard

  /** The replayer meets the groups of the file in some order; the rest it reads as it was written. */
  ghost predicate ReadsAs(read: Dump, d: Dump) {
    && read == d.(inViews := read.inViews, outViews := read.outViews)
    && multiset(read.inViews) == multiset(d.inViews)
    && (read.outViews.Some? <==> d.outViews.Some?)
    && (d.outViews.Some? ==> multiset(read.outViews.value) == multiset(d.outViews.value))
  }

  /** Every allocation that the launch reaches can be dumped and written back. */
  ghost predicate AllRecoverable(plugins: bool, l: Launch) {
    forall a :: a in ReachedBy(plugins, l) ==> Recoverable(a.record)
  }

  /** The process has nothing mapped on a page that holds a byte of the launch's host allocations. */
  ghost predicate PagesAreFree(plugins: bool, l: Launch, mapped: set<nat>, page: Positive) {
    forall a, x: nat :: a in ReachedBy(plugins, l) && InHostData(a.record, x) ==> x / page !in mapped
  }

  predicate InHostData(r: Record, x: nat) {
    r.space == "Host" && r.pData <= x < r.pData + r.size
  }

  lemma FreePagesUnneeded(views: seq<ViewGroup>, plugins: bool, l: Launch, mapped: set<nat>, page: Positive)
    requires Captures(views, ReachedBy(plugins, l), l.memory)
    ensures Unneeded(mapped, views, page) <==> PagesAreFree(plugins, l, mapped, page)
  {
    hide KeysDistinct, ReachedBy, CopyAllocationBytes;
    var chosen := ReachedBy(plugins, l);
    if Unneeded(mapped, views, page) {
      forall a, x: nat | a in chosen && InHostData(a.record, x) ensures x / page !in mapped {
        assert GroupOf(a, l.memory) in views;
        var i :| 0 <= i < |views| && views[i] == GroupOf(a, l.memory);
        assert CapturedByte(views[i], x);
        assert Needed(views, page, x / page);
      }
    }
    if !Unneeded(mapped, views, page) {
      var p :| p in mapped && Needed(views, page, p);
      var i, x: nat :| 0 <= i < |views| && CapturedByte(views[i], x) && x / page == p;
      assert views[i] in views;
      var a :| a in chosen && views[i] == GroupOf(a, l.memory);
      assert InHostData(a.record, x);
    }
  }

  /**
   * When the dump of a launch can be restored: every allocation that it reaches can be written back, their
   * pages are free, and the replayer was built for the policy's space and rank; besides, the outputs match.
   */
  lemma CapturedIsRestorable(read: Dump, d: Dump, plugins: bool, l: Launch, mapped: set<nat>, page: Positive,
                             backends: PolicyCodec.Backends)
    requires l.Proper() && IsOf(d, plugins, l) && ReadsAs(read, d)
    ensures Restorable(read, mapped, page, backends) <==>
            && AllRecoverable(plugins, l) && PagesAreFree(plugins, l, mapped, page)
            && PolicyCodec.Supported(l.policy, backends) && OutputsRestorable(read)
  {
    hide Captures, InputsRestorable, Unneeded, OutputsRestorable, PagesAreFree, Recoverable, ReachedBy;
    hide PolicyCodec.Register, PolicyCodec.WritePolicy, PolicyCodec.ReadPolicy, Readable, IsDumpOf;
    ReorderedCaptures(read.inViews, d.inViews, ReachedBy(plugins, l), l.memory);
    CapturedInputsUsable(read.inViews, ReachedBy(plugins, l), l.memory);
    FreePagesUnneeded(read.inViews, plugins, l, mapped, page);
    PolicyCodec.PolicyRoundTrip(l.policy, l.canQueryScratch, backends);
  }

  /** The outputs match if nothing but deallocation happened to what the launch reaches while it ran. */
  lemma OutputsAreRestorable(read: Dump, d: Dump, plugins: bool, l: Launch, left: iset<ActiveAllocation>, later: Mem)
    requires l.Proper() && IsOf(d, plugins, l) && ReadsAs(read, d) && AllRecoverable(plugins, l)
    requires d.outViews.Some? ==> Captures(d.outViews.value, left, later) && left <= ReachedBy(plugins, l)
    ensures OutputsRestorable(read)
  {
    hide Captures, Recoverable, ReachedBy, IsDumpOf, Readable, OutputsMatch;
    ReorderedCaptures(read.inViews, d.inViews, ReachedBy(plugins, l), l.memory);
    CapturedInputsUsable(read.inViews, ReachedBy(plugins, l), l.memory);
    if read.outViews.Some? {
      ReorderedCaptures(read.outViews.value, d.outViews.value, left, later);
      FewerKeepOutputs(read.inViews, read.outViews.value, ReachedBy(plugins, l), left, l.memory, later);
    }
  }

  /** Each byte that the launch could reach is the one that the captured process had there. */
  ghost predicate SameMemory(plugins: bool, l: Launch, bytes: nat -> Byte) {
    forall a, x: nat :: a in ReachedBy(plugins, l) && a.record.pData <= x < a.record.pData + a.record.size ==>
      bytes(x) == At(l.memory, x)
  }

  lemma MemoryIsCaptured(read: Dump, d: Dump, plugins: bool, l: Launch, bytes: nat -> Byte)
    requires l.Proper() && IsOf(d, plugins, l) && ReadsAs(read, d)
    requires AllUsable(read.inViews) && InputsApplied(read.inViews, bytes)
    ensures SameMemory(plugins, l, bytes)
  {
    hide Captures, ReachedBy, IsDumpOf, Readable, AllUsable, InputsApplied, PolicyCodec.Register;
    ReorderedCaptures(read.inViews, d.inViews, ReachedBy(plugins, l), l.memory);
    forall a, x: nat | a in ReachedBy(plugins, l) && a.record.pData <= x < a.record.pData + a.record.size
      ensures bytes(x) == At(l.memory, x)
    {
      CapturedMemoryRestored(read.inViews, ReachedBy(plugins, l), l.memory, bytes, a, x);
    }
  }

  lemma PolicyIsCaptured(read: Dump, d: Dump, plugins: bool, l: Launch, backends: PolicyCodec.Backends)
    requires l.Proper() && IsOf(d, plugins, l) && ReadsAs(read, d)
    requires PolicyCodec.ReadPolicy(read.policy, backends).Some?
    ensures PolicyCodec.Rebuild(PolicyCodec.ReadPolicy(read.policy, backends).value)
              == PolicyCodec.Launches(l.policy)
            <==> PolicyCodec.Lossless(l.policy, l.canQueryScratch)
  {
    hide Captures, ReachedBy, IsDumpOf, Readable;
    hide PolicyCodec.Register, PolicyCodec.WritePolicy, PolicyCodec.ReadPolicy;
    PolicyCodec.PolicyRoundTrip(l.policy, l.canQueryScratch, backends);
  }

  /**
   * A replayer that names the dump of a launch on its command line and launches a functor of the same type.
   * If the dump can be restored it is (unless the system refuses a mapping); then all memory that the launch
   * could reach is as it was when the kernel began, the launched functor has the captured value, and the
   * policy is the captured one exactly when the encoding could carry it.
   */
  method ReplayLaunch(p: Process, argc: nat, argv: array<string>, files: map<string, Dump>, replies: nat -> Reply,
                      mem: ProcessMemory, f: nat, ghost d: Dump, ghost plugins: bool, ghost l: Launch, t: Ty)
    returns (ok: bool, o: Outcome, copied: Val, launch: PolicyCodec.Rebuilt)
    requires p.Valid() && argc <= argv.Length
    requires l.Proper() && t == l.t && IsOf(d, plugins, l)
    requires NamedDump(argv[..argc], files).Some? && ReadsAs(NamedDump(argv[..argc], files).value, d)
    requires Readable(mem.bytes, f, t) && Separated(f, t.size, Visits(mem.bytes, f, t))
    modifies p, p.space, p.data, argv, mem
    ensures p.Valid() && mem.bytes == old(mem.bytes)
    ensures var read := old(NamedDump(argv[..argc], files).value);
            var restorable := AllRecoverable(plugins, l) && PagesAreFree(plugins, l, old(p.space.mapped), p.space.page)
                              && PolicyCodec.Supported(l.policy, p.backends) && OutputsRestorable(read);
            && (ok ==> !old(p.initialized) && restorable)
            && (!old(p.initialized) && restorable && NoneRefused(replies, |read.inViews|) ==> ok)
    ensures ok ==> SameMemory(plugins, l, p.space.bytes)
    ensures ok ==> o.Done? && copied == Decode(l.memory, l.f, l.t) && Carries(copied, l.memory, l.f, l.t)
    ensures ok ==> (launch == PolicyCodec.Launches(l.policy) <==> PolicyCodec.Lossless(l.policy, l.canQueryScratch))
    ensures !ok ==> p.space.mapped == old(p.space.mapped)
  {
    hide Restorable, AllRecoverable, PagesAreFree, OutputsRestorable, SameMemory, Separated, Readable, IsDumpOf;
    hide AllUsable, InputsApplied, ViewsApart, AllRestored, PolicyCodec.ReadPolicy, PolicyCodec.Rebuild;
    hide PolicyCodec.Supported, PolicyCodec.Lossless, Captures, NamedDump;
    o, copied, launch := Done, Raw([]), PolicyCodec.Throws;
    ghost var read := NamedDump(argv[..argc], files).value;
    CapturedIsRestorable(read, d, plugins, l, p.space.mapped, p.space.page, p.backends);
    var argc';
    ok, argc' := p.InitializeKrepe(argc, argv, files, replies);
    if ok {
      MemoryIsCaptured(read, d, plugins, l, p.space.bytes);
      PolicyReadable(read, old(p.space.mapped), p.space.page, p.backends);
      PolicyIsCaptured(read, d, plugins, l, p.backends);
      o, copied, launch := p.ParallelFor(mem, f, t);
    }
  }

  lemma PolicyReadable(read: Dump, mapped: set<nat>, page: Positive, backends: PolicyCodec.Backends)
    requires Restorable(read, mapped, page, backends)
    ensures PolicyCodec.ReadPolicy(read.policy, backends).Some?
  {
  }
}
