/** The capture tool's hooks and the extractor's parallel_for, run by one thread, as steps of the protocol. */
module CaptureTool {
  import opened AllocationTracker
  import opened Bytes
  import opened CaptureProtocol
  import CaptureSafety
  import opened Closures
  import opened ClosureVisitors
  import opened DumpedSnapshots
  import opened DumpFile
  import opened DumpNames
  import PolicyCodec
  import opened Wrappers

  // ---------- launches ----------

  /** A view found in a functor: its data pointer and memory space. */
  datatype UsedView = UsedView(data: nat, space: string)

  /** A view of the list falls into the allocation. */
  ghost predicate Reached(views: seq<UsedView>, r: Record) {
    exists i :: 0 <= i < |views| && views[i].space == r.space && r.Uses(views[i].data)
  }

  /** From the allocation's first byte to one past its last. */
  lemma ReachedInFull(views: seq<UsedView>, r: Record)
    ensures Reached(views, r) <==>
            exists i :: 0 <= i < |views| && views[i].space == r.space
                        && r.pData <= views[i].data <= (r.pData + r.size) % 0x1_0000_0000_0000_0000
  {
  }

  lemma ReachedAppend(views: seq<UsedView>, v: UsedView, r: Record)
    ensures Reached(views + [v], r) <==> Reached(views, r) || (r.space == v.space && r.Uses(v.data))
  {
    assert (views + [v])[|views|] == v;
    assert forall i :: 0 <= i < |views| ==> (views + [v])[i] == views[i];
  }

  /** A call of krepe::parallel_for: its policy, functor and views, the process's memory, what is live. */
  datatype Launch = Launch(policy: PolicyCodec.Policy, canQueryScratch: bool, f: nat, t: Ty, views: seq<UsedView>,
                           memory: Mem, live: iset<ActiveAllocation>)
  {
    ghost predicate Proper() {
      PolicyCodec.WellFormed(policy) && Layout(t) && Readable(memory, f, t)
    }
  }

  /** With compiler plugins, only what the launch's own views reach. */
  ghost function ReachedBy(plugins: bool, l: Launch): iset<ActiveAllocation> {
    iset a | a in l.live && (plugins ==> Reached(l.views, a.record))
  }

  ghost function Allocated(active: Active): iset<ActiveAllocation> {
    iset a | IsActive(active, a)
  }

  // ---------- what is registered with the tool ----------

  /** The functor and policy that the next dump gets, and the allocations it selects. */
  datatype Registration = Registration(functor: StoredFunctor, policy: PolicyCodec.Desc, selects: iset<Record>)

  ghost function Selection(plugins: bool, used: Used): iset<Record> {
    iset r | Selected(plugins, used, r)
  }

  /** What the extractor registers for a launch. */
  ghost function RegistrationOf(plugins: bool, l: Launch): Registration
    requires l.Proper()
  {
    Registration(DumpOf(l.memory, l.f, l.t), PolicyCodec.Register(l.policy, l.canQueryScratch),
                 iset r: Record | plugins ==> Reached(l.views, r))
  }

  ghost function ChosenBy(r: Registration, live: iset<ActiveAllocation>): iset<ActiveAllocation> {
    iset a | a in live && a.record in r.selects
  }

  /** The dump holds what is registered, and the selected allocations with the bytes they have in memory. */
  ghost predicate HoldsRegistered(d: Dump, r: Registration, live: iset<ActiveAllocation>, memory: Mem) {
    && d.functor == r.functor && d.policy == PolicyCodec.WritePolicy(r.policy)
    && Captures(d.inViews, ChosenBy(r, live), memory)
  }

  /** The dump of a launch, attribute by attribute. */
  lemma DumpOfLaunch(d: Dump, plugins: bool, l: Launch)
    requires l.Proper() && IsOf(d, plugins, l)
    ensures |d.functor.functor| == l.t.size
    ensures forall k | 0 <= k < l.t.size :: d.functor.functor[k] == At(l.memory, l.f + k)
    ensures forall v | v in d.inViews ::
              exists a :: a in l.live && IsReached(plugins, l, a) && FieldsOf(v, a) && HasBytes(v, a.record, l.memory)
    ensures forall a | a in l.live && IsReached(plugins, l, a) ::
              exists v :: v in d.inViews && FieldsOf(v, a) && HasBytes(v, a.record, l.memory)
  {
    hide FieldsOf, HasBytes, IsReached, Captures, PolicyCodec.WellFormed, PolicyCodec.Register, Readable, IsDumpOf;
    FunctorBytes(d.functor, l.memory, l.f, l.t);
    GroupsOfLaunch(d.inViews, plugins, l);
  }

  lemma GroupsOfLaunch(views: seq<ViewGroup>, plugins: bool, l: Launch)
    requires Captures(views, ReachedBy(plugins, l), l.memory)
    ensures forall v | v in views ::
              exists a :: a in l.live && IsReached(plugins, l, a) && FieldsOf(v, a) && HasBytes(v, a.record, l.memory)
    ensures forall a | a in l.live && IsReached(plugins, l, a) ::
              exists v :: v in views && FieldsOf(v, a) && HasBytes(v, a.record, l.memory)
  {
    hide FieldsOf, HasBytes, IsReached, Captures, ReachedBy;
    var chosen := ReachedBy(plugins, l);
    CapturedGroups(views, chosen, l.memory);
    forall v | v in views
      ensures exists a :: a in l.live && IsReached(plugins, l, a) && FieldsOf(v, a) && HasBytes(v, a.record, l.memory)
    {
      var a :| a in chosen && FieldsOf(v, a) && HasBytes(v, a.record, l.memory);
      ReachedMeans(plugins, l, a);
    }
    forall a | a in l.live && IsReached(plugins, l, a)
      ensures exists v :: v in views && FieldsOf(v, a) && HasBytes(v, a.record, l.memory)
    {
      ReachedMeans(plugins, l, a);
    }
  }

  lemma FunctorBytes(d: StoredFunctor, m: Mem, f: nat, t: Ty)
    requires IsDumpOf(d, m, f, t)
    ensures |d.functor| == t.size && forall k | 0 <= k < t.size :: d.functor[k] == At(m, f + k)
  {
  }

  lemma ReachedMeans(plugins: bool, l: Launch, a: ActiveAllocation)
    ensures a in ReachedBy(plugins, l) <==> a in l.live && IsReached(plugins, l, a)
  {
    ReachedInFull(l.views, a.record);
  }

  /** With compiler plugins, some view of the launch points into the allocation or right behind it. */
  ghost predicate IsReached(plugins: bool, l: Launch, a: ActiveAllocation) {
    plugins ==>
      exists i :: 0 <= i < |l.views| && l.views[i].space == a.record.space
                  && a.record.pData <= l.views[i].data <= (a.record.pData + a.record.size) % 0x1_0000_0000_0000_0000
  }

  lemma ChosenIsSelected(plugins: bool, active: Active, used: Used, r: Registration)
    requires r.selects == Selection(plugins, used)
    ensures Chosen(plugins, active, used) == ChosenBy(r, Allocated(active))
  {
  }

  /** A dump made right after the extractor registered a launch is that of the launch. */
  lemma RegisteredIsLaunch(d: Dump, plugins: bool, l: Launch)
    requires l.Proper()
    ensures HoldsRegistered(d, RegistrationOf(plugins, l), l.live, l.memory) <==> IsOf(d, plugins, l)
  {
    hide Captures, Readable, PolicyCodec.WellFormed, PolicyCodec.Register, PolicyCodec.WritePolicy, Reached;
    assert ChosenBy(RegistrationOf(plugins, l), l.live) == ReachedBy(plugins, l);
    assert IsDumpOf(d.functor, l.memory, l.f, l.t) <==> d.functor == DumpOf(l.memory, l.f, l.t);
  }

  lemma SameState(plugins: bool, a: Active, b: Active, u: Used, v: Used)
    requires SameAllocations(a, b) && SamePointers(u, v)
    ensures Allocated(a) == Allocated(b) && Selection(plugins, u) == Selection(plugins, v)
  {
    hide IsActive, Selected, SamePointers;
    SameSelection(a, b, plugins, u, v);
  }

  /** The dump is that of the launch: its functor and closures, its policy, its allocations with their bytes. */
  ghost predicate IsOf(d: Dump, plugins: bool, l: Launch)
    requires l.Proper()
  {
    && IsDumpOf(d.functor, l.memory, l.f, l.t)
    && d.policy == PolicyCodec.WritePolicy(PolicyCodec.Register(l.policy, l.canQueryScratch))
    && Captures(d.inViews, ReachedBy(plugins, l), l.memory)
  }

  // ---------- files ----------

  /** Files are never lost and never change, except that an output group may be added to one without. */
  ghost predicate Extends(before: map<string, Dump>, after: map<string, Dump>) {
    forall path :: path in before ==>
      && path in after
      && after[path] == before[path].(outViews := after[path].outViews)
      && (before[path].outViews.Some? ==> after[path] == before[path])
  }

  /** The dumps are the protocol's files: same creator, same number of output parts. */
  ghost predicate FilesMatch(dumps: map<string, Dump>, files: map<string, File>) {
    && dumps.Keys == files.Keys
    && forall path :: path in dumps ==> DumpMatches(dumps[path], files[path])
  }

  ghost predicate DumpMatches(d: Dump, f: File) {
    d.kernelId == f.creator && f.outs == if d.outViews.Some? then 1 else 0
  }

  lemma FilesKeys(dumps: map<string, Dump>, files: map<string, File>)
    requires FilesMatch(dumps, files)
    ensures dumps.Keys == files.Keys
  {
  }

  lemma FilesMatchCreate(dumps: map<string, Dump>, files: map<string, File>, path: string, d: Dump, f: File)
    requires FilesMatch(dumps, files) && DumpMatches(d, f)
    ensures FilesMatch(dumps[path := d], files[path := f])
  {
  }

  lemma AwaitedDump(dumps: map<string, Dump>, s: State, path: string, id: nat)
    requires FilesMatch(dumps, s.files) && Awaits(s, path, id)
    ensures path in dumps && dumps[path].kernelId == id && dumps[path].outViews == None
  {
  }

  // ---------- the steps that each hook takes ----------

  function BeginSteps(name: string, dumps: bool, works: bool): seq<Event> {
    [Fetch(0, name), Register(0)] + (if dumps then [Create(0, works, false), Publish(0)] else [])
  }

  function EndSteps(id: nat, dumped: bool, works: bool): seq<Event> {
    [Take(0, id)] + (if dumped then [Append(0, works, false)] else [])
  }

  class Tool {
    const options: Options
    const tracker: Tracker
    var nextKernelId: nat
    var kernelStates: map<nat, KernelState>
    var kernelInvocations: map<string, nat>
    var functorData: StoredFunctor
    var policy: PolicyCodec.Desc
    var files: map<string, Dump>
    /** The protocol's steps so far, and the state they lead to, which these fields implement. */
    ghost var steps: seq<Event>
    ghost var protocol: State

    constructor (options: Options, tracker: Tracker)
      requires tracker.Valid()
      ensures Valid() && steps == [] && this.options == options && this.tracker == tracker
      ensures functorData == StoredFunctor([], []) && policy == PolicyCodec.NoDesc
      ensures kernelInvocations == map[] && files == map[] && nextKernelId == 1
    {
      this.options, this.tracker := options, tracker;
      nextKernelId, kernelStates, kernelInvocations := 1, map[], map[];
      functorData, policy, files := StoredFunctor([], []), PolicyCodec.NoDesc, map[];
      steps, protocol := [], START;
    }

    /** Between calls. */
    ghost predicate Valid()
      reads this, tracker
    {
      Linked() && protocol.calls == map[]
    }

    /** The fields are those of the protocol state that the steps so far lead to. */
    ghost predicate Linked()
      reads this, tracker
    {
      && tracker.Valid()
      && Inv(options, protocol) && CaptureSafety.RunsTo(options, steps, protocol)
      && nextKernelId == protocol.nextId
      && kernelStates == protocol.states
      && kernelInvocations == protocol.invocations
      && FilesMatch(files, protocol.files)
    }

    /** What is registered now. */
    ghost function CurrentRegistration(): Registration
      reads this, tracker
    {
      Registration(functorData, policy, Selection(tracker.plugins, tracker.used))
    }

    /** krepe_kernel_dump_next_invocation_will_dump: looking a label up may add it with count zero. */
    method NextInvocationWillDump(name: string) returns (b: bool)
      requires Valid()
      modifies this`kernelInvocations, this`steps, this`protocol
      ensures Valid() && b == ShouldDump(options, name, Count(old(kernelInvocations), name) + 1)
      ensures steps == old(steps) + [WillDump(name)]
      ensures kernelInvocations == old(kernelInvocations)[name := Count(old(kernelInvocations), name)]
    {
      hide Inv, CaptureSafety.RunsTo, FilesMatch, ShouldDump;
      Step(WillDump(name));
      kernelInvocations := kernelInvocations[name := Count(kernelInvocations, name)];
      b := ShouldDump(options, name, kernelInvocations[name] + 1);
    }

    /** One protocol step; the invariant is kept by every step. */
    ghost method Step(e: Event)
      requires Inv(options, protocol) && Enabled(protocol, e) && CaptureSafety.RunsTo(options, steps, protocol)
      modifies this`steps, this`protocol
      ensures protocol == Next(options, old(protocol), e) && Inv(options, protocol)
      ensures steps == old(steps) + [e] && CaptureSafety.RunsTo(options, steps, protocol)
    {
      hide CaptureSafety.RunsTo;
      CaptureSafety.LogStep(options, protocol, e);
      CaptureSafety.IdStep(options, protocol, e);
      CaptureSafety.FileStep(options, protocol, e);
      CaptureSafety.RunExtends(options, steps, protocol, e);
      steps := steps + [e];
      protocol := Next(options, protocol, e);
    }

    /**
     * begin_kernel with no other thread in between: counts the invocation and, if it is the chosen one and
     * creating the file works, dumps the registered functor and policy and the allocations in use now.
     */
    method BeginKernel(name: string, memory: Mem, works: bool) returns (id: nat)
      requires Valid()
      modifies this, tracker
      ensures Valid() && id == old(nextKernelId) && nextKernelId == id + 1
      ensures kernelInvocations == old(kernelInvocations)[name := Count(old(kernelInvocations), name) + 1]
      ensures functorData == old(functorData) && policy == old(policy)
      ensures SameAllocations(old(tracker.active), tracker.active) && SamePointers(old(tracker.used), tracker.used)
      ensures CurrentRegistration() == old(CurrentRegistration())
      ensures Allocated(tracker.active) == old(Allocated(tracker.active))
      ensures var invocation := Count(old(kernelInvocations), name) + 1;
              var dumps := ShouldDump(options, name, invocation);
              var path := DumpFilename(name, id);
              && steps == old(steps) + BeginSteps(name, dumps, works)
              && kernelStates == old(kernelStates)
                   [id := KernelState(invocation, if dumps && works then path else "")]
              && path !in old(files)
              && if dumps && works then
                   && path in files && files == old(files)[path := files[path]]
                   && files[path] == Dump(name, id, invocation, files[path].inViews, functorData,
                                          PolicyCodec.WritePolicy(policy), None)
                   && Captures(files[path].inViews,
                               Chosen(tracker.plugins, old(tracker.active), old(tracker.used)), memory)
                 else files == old(files)
    {
      hide Inv, CaptureSafety.RunsTo, FilesMatch, SameAllocations, SamePointers, DumpFilename, ShouldDump;
      hide Captures, PolicyCodec.WritePolicy, Selection, Allocated, Chosen;
      CaptureSafety.FreshPath(options, protocol, name);
      FilesKeys(files, protocol.files);
      NothingChanged(tracker.active, tracker.used);
      var invocation, dumpThisKernel;
      id, invocation, dumpThisKernel := RegisterKernel(name);
      if dumpThisKernel {
        DumpInput(name, id, invocation, memory, works);
      }
      SameState(tracker.plugins, old(tracker.active), tracker.active, old(tracker.used), tracker.used);
    }

    /** The part of begin_kernel that every kernel goes through. */
    method RegisterKernel(name: string) returns (id: nat, invocation: nat, dumpThisKernel: bool)
      requires Valid()
      modifies this`nextKernelId, this`kernelInvocations, this`kernelStates, this`steps, this`protocol
      ensures Linked() && steps == old(steps) + [Fetch(0, name), Register(0)]
      ensures protocol.calls == if dumpThisKernel then map[0 := Registered(id, name)] else map[]
      ensures id == old(nextKernelId) && nextKernelId == id + 1
      ensures invocation == Count(old(kernelInvocations), name) + 1
      ensures kernelInvocations == old(kernelInvocations)[name := invocation]
      ensures dumpThisKernel == ShouldDump(options, name, invocation)
      ensures kernelStates == old(kernelStates)[id := KernelState(invocation, "")]
    {
      hide Inv, CaptureSafety.RunsTo, FilesMatch, ShouldDump;
      id := nextKernelId;
      nextKernelId := nextKernelId + 1;
      Step(Fetch(0, name));
      invocation := Count(kernelInvocations, name) + 1;
      kernelInvocations := kernelInvocations[name := invocation];
      dumpThisKernel := ShouldDump(options, name, invocation);
      kernelStates := kernelStates[id := KernelState(invocation, "")];
      Step(Register(0));
    }

    /** The part of begin_kernel for the kernel that is dumped. */
    method DumpInput(name: string, id: nat, invocation: nat, memory: Mem, works: bool)
      requires Linked() && protocol.calls == map[0 := Registered(id, name)]
      requires id in kernelStates && kernelStates[id] == KernelState(invocation, "")
      modifies this`files, this`kernelStates, this`steps, this`protocol, tracker
      ensures Valid() && steps == old(steps) + [Create(0, works, false), Publish(0)]
      ensures SameAllocations(old(tracker.active), tracker.active) && SamePointers(old(tracker.used), tracker.used)
      ensures var path := DumpFilename(name, id);
              && kernelStates == old(kernelStates)[id := KernelState(invocation, if works then path else "")]
              && if works then
                   && path in files && files == old(files)[path := files[path]]
                   && files[path] == Dump(name, id, invocation, files[path].inViews, functorData,
                                          PolicyCodec.WritePolicy(policy), None)
                   && Captures(files[path].inViews,
                               Chosen(tracker.plugins, old(tracker.active), old(tracker.used)), memory)
                 else files == old(files)
    {
      hide Inv, CaptureSafety.RunsTo, FilesMatch, IsSnapshot, SameAllocations, SamePointers, DumpFilename;
      hide Captures, Chosen, PolicyCodec.WritePolicy;
      var snapshot := tracker.TakeSnapshot();
      var views := WriteSnapshot(snapshot, memory, tracker.plugins, old(tracker.active), old(tracker.used));
      var dump := Dump(name, id, invocation, views, functorData, PolicyCodec.WritePolicy(policy), None);
      var path := DumpFilename(name, id);
      CreateDump(path, dump, works);
      if works && id in kernelStates {
        kernelStates := kernelStates[id := kernelStates[id].(dumpPath := path)];
      }
      Step(Publish(0));
    }

    /** create_kernel_dump, as a step. */
    method CreateDump(path: string, dump: Dump, works: bool)
      requires Linked() && protocol.calls == map[0 := Registered(dump.kernelId, dump.name)]
      requires path == DumpFilename(dump.name, dump.kernelId) && dump.outViews == None
      modifies this`files, this`steps, this`protocol
      ensures Linked() && steps == old(steps) + [Create(0, works, false)]
      ensures protocol.calls == map[0 := Created(dump.kernelId, dump.name, works)]
      ensures files == if works then old(files)[path := dump] else old(files)
    {
      hide Inv, CaptureSafety.RunsTo, FilesMatch, DumpFilename;
      FilesMatchCreate(files, protocol.files, path, dump, File(dump.kernelId, true, 0, false));
      Step(Create(0, works, false));
      if works {
        files := files[path := dump];
      }
    }

    /** end_kernel: the kernel's state goes, and a kernel that was dumped gets its one output part. */
    method EndKernel(id: nat, memory: Mem, works: bool)
      requires Valid()
      modifies this, tracker
      ensures Valid() && kernelStates == old(kernelStates) - {id}
      ensures functorData == old(functorData) && policy == old(policy)
      ensures nextKernelId == old(nextKernelId) && kernelInvocations == old(kernelInvocations)
      ensures SameAllocations(old(tracker.active), tracker.active) && SamePointers(old(tracker.used), tracker.used)
      ensures CurrentRegistration() == old(CurrentRegistration())
      ensures Allocated(tracker.active) == old(Allocated(tracker.active))
      ensures var dumped := id in old(kernelStates) && old(kernelStates)[id].dumpPath != "";
              && steps == old(steps) + EndSteps(id, dumped, works)
              && if dumped && works then
                   var path := old(kernelStates)[id].dumpPath;
                   && path in old(files) && old(files)[path].kernelId == id && old(files)[path].outViews == None
                   && path in files && files[path].outViews.Some?
                   && files == old(files)[path := old(files)[path].(outViews := files[path].outViews)]
                   && Captures(files[path].outViews.value,
                               Chosen(tracker.plugins, old(tracker.active), old(tracker.used)), memory)
                 else files == old(files)
    {
      hide Inv, CaptureSafety.RunsTo, FilesMatch, SameAllocations, SamePointers, Captures;
      hide Selection, Allocated, Chosen;
      var dumpPath := "";
      if id in kernelStates {
        dumpPath := kernelStates[id].dumpPath;
        if dumpPath != "" {
          CaptureSafety.StoredPath(options, protocol, id);
        }
      }
      Step(Take(0, id));
      kernelStates := kernelStates - {id};
      NothingChanged(tracker.active, tracker.used);
      if dumpPath != "" {
        DumpOutput(dumpPath, id, memory, works);
      }
      SameState(tracker.plugins, old(tracker.active), tracker.active, old(tracker.used), tracker.used);
    }

    /** The part of end_kernel for the kernel that was dumped. */
    method DumpOutput(dumpPath: string, id: nat, memory: Mem, works: bool)
      requires Linked() && protocol.calls == map[0 := Ended(id, dumpPath)]
      requires Awaits(protocol, dumpPath, id)
      modifies this`files, this`steps, this`protocol, tracker
      ensures Valid() && steps == old(steps) + [Append(0, works, false)]
      ensures SameAllocations(old(tracker.active), tracker.active) && SamePointers(old(tracker.used), tracker.used)
      ensures if works then
                && dumpPath in old(files) && old(files)[dumpPath].kernelId == id
                && old(files)[dumpPath].outViews == None
                && dumpPath in files && files[dumpPath].outViews.Some?
                && files == old(files)[dumpPath := old(files)[dumpPath].(outViews := files[dumpPath].outViews)]
                && Captures(files[dumpPath].outViews.value,
                            Chosen(tracker.plugins, old(tracker.active), old(tracker.used)), memory)
              else
                files == old(files)
    {
      hide Inv, CaptureSafety.RunsTo, FilesMatch, IsSnapshot, SameAllocations, SamePointers, Captures, Chosen;
      var snapshot := tracker.TakeSnapshot();
      var views := WriteSnapshot(snapshot, memory, tracker.plugins, old(tracker.active), old(tracker.used));
      AwaitedDump(files, protocol, dumpPath, id);
      var dump := files[dumpPath].(outViews := Some(views));
      FilesMatchCreate(files, protocol.files, dumpPath, dump, File(id, true, 1, false));
      if works {
        files := files[dumpPath := dump];
      }
      Step(Append(0, works, false));
    }

    /** The extractor's replay_functor: the compiler plugin's calls, then the functor's bytes and closures. */
    method ReplayFunctor(mem: ProcessMemory, f: nat, t: Ty, views: seq<UsedView>)
      requires Valid() && Layout(t) && Readable(mem.bytes, f, t)
      modifies this`functorData, tracker`used
      ensures Valid() && IsDumpOf(functorData, mem.bytes, f, t)
      ensures tracker.plugins ==> forall r :: Selected(true, tracker.used, r) <==> Reached(views, r)
      ensures forall k | 0 <= k < |functorData.functor| :: functorData.functor[k] == At(mem.bytes, f + k)
      ensures |functorData.functor| == t.size
    {
      hide Inv, CaptureSafety.RunsTo, FilesMatch, Selected, Reached, IsDumpOf, Readable;
      if tracker.plugins {
        tracker.ClearUsedAllocations();
        NothingReached();
        for i := 0 to |views|
          invariant forall r :: Selected(true, tracker.used, r) <==> Reached(views[..i], r)
        {
          tracker.RecordUsedAllocation(views[i].space, views[i].data);
          assert views[..i + 1] == views[..i] + [views[i]];
          forall r ensures Selected(true, tracker.used, r) <==> Reached(views[..i + 1], r) {
            ReachedAppend(views[..i], views[i], r);
          }
        }
        assert views[..|views|] == views;
      }
      functorData := CopyFunctor(mem, f, t);
      FunctorBytes(functorData, mem.bytes, f, t);
    }

    /** register_bounds and replay_functor: what is registered now is the launch. */
    method RegisterLaunch(p: PolicyCodec.Policy, canQueryScratch: bool, mem: ProcessMemory, f: nat, t: Ty,
                          views: seq<UsedView>, ghost l: Launch)
      requires Valid() && l.Proper()
      requires l == Launch(p, canQueryScratch, f, t, views, mem.bytes, Allocated(tracker.active))
      modifies this`functorData, this`policy, tracker`used
      ensures Valid() && CurrentRegistration() == RegistrationOf(tracker.plugins, l)
    {
      hide Inv, CaptureSafety.RunsTo, FilesMatch, Selected, Reached, IsDumpOf, Readable;
      policy := PolicyCodec.RegisterBounds(p, canQueryScratch);
      ReplayFunctor(mem, f, t, views);
      ChosenByViews(tracker.plugins, tracker.used, l);
    }

    /**
     * krepe::parallel_for up to the begin hook, which reports the label as `reported`. If the answer given to
     * the extractor was yes, the dump is that of this launch; otherwise its functor, policy and views are
     * whatever was registered before. With the label reported as it was given, a dump is always this launch's.
     */
    method ParallelFor(name: string, reported: string, p: PolicyCodec.Policy, canQueryScratch: bool,
                       mem: ProcessMemory, f: nat, t: Ty, views: seq<UsedView>, works: bool)
      returns (id: nat, ghost l: Launch)
      requires Valid() && PolicyCodec.WellFormed(p) && Layout(t) && Readable(mem.bytes, f, t)
      modifies this, tracker
      ensures Valid() && id == old(nextKernelId) && nextKernelId == id + 1
      ensures l == Launch(p, canQueryScratch, f, t, views, mem.bytes, old(Allocated(tracker.active)))
      ensures SameAllocations(old(tracker.active), tracker.active)
      ensures Allocated(tracker.active) == old(Allocated(tracker.active))
      ensures kernelInvocations == old(kernelInvocations)
                [name := Count(old(kernelInvocations), name)]
                [reported := Count(old(kernelInvocations), reported) + 1]
      ensures forall other :: Count(kernelInvocations, other) ==
                Count(old(kernelInvocations), other) + (if other == reported then 1 else 0)
      ensures var asked := ShouldDump(options, name, Count(old(kernelInvocations), name) + 1);
              var invocation := Count(old(kernelInvocations), reported) + 1;
              var dumps := ShouldDump(options, reported, invocation);
              var path := DumpFilename(reported, id);
              && CurrentRegistration() ==
                   (if asked then RegistrationOf(tracker.plugins, l) else old(CurrentRegistration()))
              && kernelStates == old(kernelStates)
                   [id := KernelState(invocation, if dumps && works then path else "")]
              && steps == old(steps) + [WillDump(name)] + BeginSteps(reported, dumps, works)
              && path !in old(files)
              && (if dumps && works then
                    && path in files && files == old(files)[path := files[path]]
                    && files[path].kernelId == id && files[path].name == reported
                    && files[path].invocation == invocation && files[path].outViews == None
                    && HoldsRegistered(files[path], CurrentRegistration(), l.live, mem.bytes)
                    && (asked ==> IsOf(files[path], tracker.plugins, l))
                    && (!asked ==>
                          && files[path].functor == old(functorData)
                          && files[path].policy == PolicyCodec.WritePolicy(old(policy))
                          && Captures(files[path].inViews,
                                      Chosen(tracker.plugins, old(tracker.active), old(tracker.used)), mem.bytes))
                  else files == old(files))
              && (name == reported ==> asked == dumps)
    {
      hide Inv, CaptureSafety.RunsTo, FilesMatch, DumpFilename, ShouldDump, SameAllocations, SamePointers;
      hide Captures, Chosen, ChosenBy, ReachedBy, RegistrationOf, Selection, Allocated, IsOf, BeginSteps;
      hide PolicyCodec.WritePolicy, PolicyCodec.Register, PolicyCodec.WellFormed, Readable, HoldsRegistered;
      var asked;
      asked, l := Announce(name, p, canQueryScratch, mem, f, t, views);
      ghost var used := tracker.used;
      id := BeginKernel(reported, mem.bytes, works);
      ghost var path := DumpFilename(reported, id);
      if path in files {
        DumpHoldsRegistered(files[path], CurrentRegistration(), tracker.plugins, old(tracker.active), used, mem.bytes);
        if asked {
          RegisteredIsLaunch(files[path], tracker.plugins, l);
        }
      }
    }

    /** The question, and what the extractor does if the answer is yes. */
    method Announce(name: string, p: PolicyCodec.Policy, canQueryScratch: bool, mem: ProcessMemory, f: nat, t: Ty,
                    views: seq<UsedView>) returns (asked: bool, ghost l: Launch)
      requires Valid() && PolicyCodec.WellFormed(p) && Layout(t) && Readable(mem.bytes, f, t)
      modifies this`functorData, this`policy, this`kernelInvocations, this`steps, this`protocol, tracker`used
      ensures Valid() && l.Proper()
      ensures l == Launch(p, canQueryScratch, f, t, views, mem.bytes, Allocated(tracker.active))
      ensures asked == ShouldDump(options, name, Count(old(kernelInvocations), name) + 1)
      ensures steps == old(steps) + [WillDump(name)]
      ensures kernelInvocations == old(kernelInvocations)[name := Count(old(kernelInvocations), name)]
      ensures if asked then CurrentRegistration() == RegistrationOf(tracker.plugins, l)
              else functorData == old(functorData) && policy == old(policy) && tracker.used == old(tracker.used)
    {
      hide Inv, CaptureSafety.RunsTo, FilesMatch, ShouldDump, RegistrationOf, Selection, Allocated;
      hide PolicyCodec.WellFormed, Readable;
      l := Launch(p, canQueryScratch, f, t, views, mem.bytes, Allocated(tracker.active));
      asked := NextInvocationWillDump(name);
      if asked {
        RegisterLaunch(p, canQueryScratch, mem, f, t, views, l);
      }
    }
  }

  /** A dump that begin_kernel made holds what is registered. */
  lemma DumpHoldsRegistered(d: Dump, r: Registration, plugins: bool, active: Active, used: Used, memory: Mem)
    requires d.functor == r.functor && d.policy == PolicyCodec.WritePolicy(r.policy)
    requires Captures(d.inViews, Chosen(plugins, active, used), memory) && r.selects == Selection(plugins, used)
    ensures HoldsRegistered(d, r, Allocated(active), memory)
  {
    hide Captures, Chosen, ChosenBy, Selection, Allocated;
    ChosenIsSelected(plugins, active, used, r);
  }

  lemma NothingReached()
    ensures forall r :: !Reached([], r)
  {
  }

  lemma ChosenByViews(plugins: bool, used: Used, l: Launch)
    requires plugins ==> forall r :: Selected(true, used, r) <==> Reached(l.views, r)
    ensures Selection(plugins, used) == iset r: Record | plugins ==> Reached(l.views, r)
  {
  }
}
