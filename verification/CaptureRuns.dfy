/** Whole runs of the capturing process: what its one dump holds after any sequence of calls by one thread. */
module CaptureRuns {
  import opened AllocationTracker
  import opened Bytes
  import opened CaptureProtocol
  import CaptureSafety
  import opened CaptureTool
  import opened Closures
  import opened ClosureVisitors
  import opened DumpedSnapshots
  import opened DumpFile
  import opened DumpNames
  import PolicyCodec
  import opened Wrappers

  datatype Call =
    | ParallelFor(name: string, reported: string, policy: PolicyCodec.Policy, canQueryScratch: bool,
                  memory: Mem, f: nat, t: Ty, views: seq<UsedView>, works: bool)
    | Begin(name: string, memory: Mem, works: bool)  // a kernel that does not go through the extractor
    | End(id: nat, memory: Mem, works: bool)
    | Allocate(ptr: nat, record: Record)
    | Deallocate(space: string, ptr: nat)

  ghost predicate Proper(c: Call) {
    c.ParallelFor? ==> PolicyCodec.WellFormed(c.policy) && Layout(c.t) && Readable(c.memory, c.f, c.t)
  }

  ghost predicate AllProper(calls: seq<Call>) {
    forall i :: 0 <= i < |calls| ==> Proper(calls[i])
  }

  // ---------- what each call does ----------

  /** What the calls so far have left in the tool, apart from files. */
  datatype Model = Model(nextId: nat, counts: map<string, nat>, states: map<nat, KernelState>,
                         live: iset<ActiveAllocation>, registered: Registration)

  ghost function ModelOf(tool: Tool): Model
    reads tool, tool.tracker
  {
    Model(tool.nextKernelId, tool.kernelInvocations, tool.kernelStates, Allocated(tool.tracker.active),
          tool.CurrentRegistration())
  }

  predicate Begins(c: Call) { c.ParallelFor? || c.Begin? }

  /** The label that the begin hook gets. */
  function Label(c: Call): string
    requires Begins(c)
  {
    if c.ParallelFor? then c.reported else c.name
  }

  function Invocation(m: Model, c: Call): nat
    requires Begins(c)
  {
    Count(m.counts, Label(c)) + 1
  }

  function PathOf(m: Model, c: Call): string
    requires Begins(c)
  {
    DumpFilename(Label(c), m.nextId)
  }

  /** The call begins the kernel that is to be dumped, and creating the file works. */
  predicate Creates(o: Options, m: Model, c: Call) {
    Begins(c) && c.works && ShouldDump(o, Label(c), Invocation(m, c))
  }

  /** The extractor is told that the launch will be dumped. */
  predicate Told(o: Options, m: Model, c: Call) {
    c.ParallelFor? && ShouldDump(o, c.name, Count(m.counts, c.name) + 1)
  }

  /** The call ends a kernel that has a dump, and appending works. */
  predicate Appends(m: Model, c: Call) {
    c.End? && c.works && c.id in m.states && m.states[c.id].dumpPath != ""
  }

  ghost function LaunchOf(m: Model, c: Call): Launch
    requires c.ParallelFor?
  {
    Launch(c.policy, c.canQueryScratch, c.f, c.t, c.views, c.memory, m.live)
  }

  ghost function Begun(o: Options, m: Model, c: Call): Model
    requires Begins(c)
  {
    m.(nextId := m.nextId + 1,
       counts := (if c.ParallelFor? then m.counts[c.name := Count(m.counts, c.name)] else m.counts)
                 [Label(c) := Invocation(m, c)],
       states := m.states[m.nextId := KernelState(Invocation(m, c), if Creates(o, m, c) then PathOf(m, c) else "")])
  }

  ghost function After(o: Options, plugins: bool, m: Model, c: Call): Model
    requires Proper(c)
  {
    match c
    case ParallelFor(_, _, _, _, _, _, _, _, _) =>
      Begun(o, m, c).(registered := if Told(o, m, c) then RegistrationOf(plugins, LaunchOf(m, c)) else m.registered)
    case Begin(_, _, _) => Begun(o, m, c)
    case End(id, _, _) => m.(states := m.states - {id})
    case Allocate(ptr, r) =>
      if ptr == 0 then m else m.(live := Freed(m.live, r.space, ptr) + iset{ActiveAllocation(ptr, r)})
    case Deallocate(space, ptr) => if ptr == 0 then m else m.(live := Freed(m.live, space, ptr))
  }

  ghost function Freed(live: iset<ActiveAllocation>, space: string, ptr: nat): iset<ActiveAllocation> {
    iset a | a in live && (a.ptr != ptr || a.record.space != space)
  }

  ghost function AfterAll(o: Options, plugins: bool, m: Model, calls: seq<Call>): Model
    requires AllProper(calls)
  {
    if calls == [] then m
    else
      var last := |calls| - 1;
      After(o, plugins, AfterAll(o, plugins, m, calls[..last]), calls[last])
  }

  /** The dump that a call creates: of its kernel, with what is registered then and the memory it has then. */
  ghost predicate HoldsInput(o: Options, plugins: bool, m: Model, c: Call, d: Dump)
    requires Proper(c) && Begins(c)
  {
    && d.name == Label(c) && d.kernelId == m.nextId && d.invocation == Invocation(m, c)
    && HoldsRegistered(d, After(o, plugins, m, c).registered, m.live, c.memory)
  }

  /** The output that a call appends: what is selected then, with the memory it has then. */
  ghost predicate HoldsOutput(m: Model, c: Call, d: Dump)
    requires c.End?
  {
    d.outViews.Some? && Captures(d.outViews.value, ChosenBy(m.registered, m.live), c.memory)
  }

  /** What one call does to the files. */
  ghost predicate Changes(o: Options, plugins: bool, m: Model, c: Call,
                          before: map<string, Dump>, after: map<string, Dump>)
    requires Proper(c)
  {
    if Creates(o, m, c) then
      var path := PathOf(m, c);
      && path !in before && path in after && after == before[path := after[path]]
      && after[path].outViews == None && HoldsInput(o, plugins, m, c, after[path])
    else if Appends(m, c) then
      var path := m.states[c.id].dumpPath;
      && path in before && before[path].outViews == None
      && path in after && after == before[path := before[path].(outViews := after[path].outViews)]
      && HoldsOutput(m, c, after[path])
    else after == before
  }

  method RunCall(tool: Tool, c: Call)
    requires tool.Valid() && Proper(c)
    modifies tool, tool.tracker
    ensures tool.Valid()
    ensures ModelOf(tool) == After(tool.options, tool.tracker.plugins, old(ModelOf(tool)), c)
    ensures Changes(tool.options, tool.tracker.plugins, old(ModelOf(tool)), c, old(tool.files), tool.files)
  {
    hide CaptureSafety.RunsTo, Inv, FilesMatch, ShouldDump, DumpFilename, Readable, PolicyCodec.WellFormed;
    hide Captures, HoldsRegistered, RegistrationOf, Selection, IsActive, Chosen, ChosenBy;
    match c
    case ParallelFor(_, _, _, _, _, _, _, _, _) =>
      RunLaunch(tool, c);
    case Begin(_, _, _) =>
      RunBegin(tool, c);
    case End(id, memory, works) =>
      ChosenIsSelected(tool.tracker.plugins, tool.tracker.active, tool.tracker.used, tool.CurrentRegistration());
      tool.EndKernel(id, memory, works);
    case Allocate(ptr, record) =>
      tool.tracker.RecordAllocation(ptr, record);
      AllocatedBy(old(tool.tracker.active), tool.tracker.active, ptr, record);
    case Deallocate(space, ptr) =>
      tool.tracker.RecordDeallocation(space, ptr);
      DeallocatedBy(old(tool.tracker.active), tool.tracker.active, space, ptr);
  }

  lemma AllocatedBy(before: Active, after: Active, ptr: nat, r: Record)
    requires ptr == 0 ==> after == before
    requires ptr != 0 ==> forall x :: IsActive(after, x) <==>
               x == ActiveAllocation(ptr, r)
               || (IsActive(before, x) && (x.ptr != ptr || x.record.space != r.space))
    ensures Allocated(after) == if ptr == 0 then Allocated(before)
                                else Freed(Allocated(before), r.space, ptr) + iset{ActiveAllocation(ptr, r)}
  {
    hide IsActive;
  }

  lemma DeallocatedBy(before: Active, after: Active, space: string, ptr: nat)
    requires forall x :: IsActive(after, x) <==>
               IsActive(before, x) && (ptr == 0 || x.ptr != ptr || x.record.space != space)
    ensures Allocated(after) == if ptr == 0 then Allocated(before) else Freed(Allocated(before), space, ptr)
  {
    hide IsActive;
  }

  method RunLaunch(tool: Tool, c: Call)
    requires tool.Valid() && Proper(c) && c.ParallelFor?
    modifies tool, tool.tracker
    ensures tool.Valid()
    ensures ModelOf(tool) == After(tool.options, tool.tracker.plugins, old(ModelOf(tool)), c)
    ensures Changes(tool.options, tool.tracker.plugins, old(ModelOf(tool)), c, old(tool.files), tool.files)
  {
    hide CaptureSafety.RunsTo, Inv, FilesMatch, ShouldDump, DumpFilename, IsOf, Readable, PolicyCodec.WellFormed;
    hide Captures, HoldsRegistered, RegistrationOf, Selection, Allocated, Chosen, ChosenBy, SameAllocations;
    var mem := new ProcessMemory(c.memory);
    var id;
    ghost var l;
    id, l := tool.ParallelFor(c.name, c.reported, c.policy, c.canQueryScratch, mem, c.f, c.t, c.views, c.works);
  }

  method RunBegin(tool: Tool, c: Call)
    requires tool.Valid() && c.Begin?
    modifies tool, tool.tracker
    ensures tool.Valid()
    ensures ModelOf(tool) == After(tool.options, tool.tracker.plugins, old(ModelOf(tool)), c)
    ensures Changes(tool.options, tool.tracker.plugins, old(ModelOf(tool)), c, old(tool.files), tool.files)
  {
    hide CaptureSafety.RunsTo, Inv, FilesMatch, ShouldDump, DumpFilename;
    hide Captures, HoldsRegistered, Selection, Allocated, Chosen, ChosenBy, SameAllocations, SamePointers;
    ghost var r := tool.CurrentRegistration();
    ghost var active, used := tool.tracker.active, tool.tracker.used;
    var id := tool.BeginKernel(c.name, c.memory, c.works);
    ghost var path := DumpFilename(c.name, id);
    if path in tool.files {
      DumpHoldsRegistered(tool.files[path], r, tool.tracker.plugins, active, used, c.memory);
    }
  }

  // ---------- whole runs ----------

  /** A tool in state `start` gets the calls. */
  datatype Run = Run(o: Options, plugins: bool, start: Model, calls: seq<Call>) {
    ghost function At(i: nat): Model
      requires AllProper(calls) && i <= |calls|
    {
      AfterAll(o, plugins, start, calls[..i])
    }

    /** The i-th call creates the dump with this path. */
    ghost predicate CreatedBy(i: nat, path: string)
      requires AllProper(calls)
    {
      i < |calls| && Creates(o, At(i), calls[i]) && path == PathOf(At(i), calls[i])
    }

    /** The i-th call appends the output to the dump with this path. */
    ghost predicate AppendedBy(i: nat, path: string)
      requires AllProper(calls)
    {
      i < |calls| && Appends(At(i), calls[i]) && path == At(i).states[calls[i].id].dumpPath
    }

    /** The files are the earlier ones and those that a call creates. */
    ghost predicate PathsAre(before: map<string, Dump>, files: map<string, Dump>)
      requires AllProper(calls)
    {
      forall path :: path in files <==> path in before || exists i: nat :: CreatedBy(i, path)
    }

    ghost predicate InputsAre(files: map<string, Dump>)
      requires AllProper(calls)
    {
      forall i: nat, path :: CreatedBy(i, path) ==>
        path in files && HoldsInput(o, plugins, At(i), calls[i], files[path])
    }

    /** A file has an output exactly if it had one before or a call appends it. */
    ghost predicate OutputsAre(before: map<string, Dump>, files: map<string, Dump>)
      requires AllProper(calls)
    {
      && (forall i: nat, path :: AppendedBy(i, path) ==> path in files && HoldsOutput(At(i), calls[i], files[path]))
      && (forall path :: path in files && files[path].outViews.Some? ==>
            (path in before && before[path].outViews.Some?) || exists i: nat :: AppendedBy(i, path))
    }

    ghost predicate FilesAre(before: map<string, Dump>, files: map<string, Dump>)
      requires AllProper(calls)
    {
      PathsAre(before, files) && InputsAre(files) && OutputsAre(before, files)
    }

    /** The dump that a launch creates after the extractor was told so is that of the launch. */
    ghost predicate LaunchesAreHeld(files: map<string, Dump>)
      requires AllProper(calls)
    {
      forall i: nat, path :: CreatedBy(i, path) && calls[i].ParallelFor?
                             && (Told(o, At(i), calls[i]) || calls[i].name == calls[i].reported) ==>
        path in files && IsOf(files[path], plugins, LaunchOf(At(i), calls[i]))
    }
  }

  /**
   * After any sequence of calls the tool's state is the one that the calls determine. The files are the earlier
   * ones and those that calls created, one at most in all; each still holds what was registered, allocated and
   * in memory when its kernel began, whatever was launched, allocated or ended since, and an output exactly when
   * a later call appended one. The dump of a launch that is reported under its own label is that of this launch.
   */
  method RunCalls(tool: Tool, calls: seq<Call>)
    requires tool.Valid() && AllProper(calls)
    modifies tool, tool.tracker
    ensures var r := Run(tool.options, tool.tracker.plugins, old(ModelOf(tool)), calls);
            && ModelOf(tool) == r.At(|calls|)
            && r.FilesAre(old(tool.files), tool.files) && r.LaunchesAreHeld(tool.files)
    ensures tool.Valid() && Extends(old(tool.files), tool.files)
    ensures forall path, path' :: path in tool.files && path' in tool.files ==> path == path'
  {
    hide CaptureSafety.RunsTo, Inv, FilesMatch, Extends, Changes, After, Run.FilesAre, Run.LaunchesAreHeld, ModelOf;
    ghost var start, files0 := ModelOf(tool), tool.files;
    NothingRun(tool.options, tool.tracker.plugins, start, files0);
    for i := 0 to |calls|
      invariant tool.Valid() && Extends(files0, tool.files)
      invariant ModelOf(tool) == AfterAll(tool.options, tool.tracker.plugins, start, calls[..i])
      invariant Run(tool.options, tool.tracker.plugins, start, calls[..i]).FilesAre(files0, tool.files)
    {
      ghost var before := tool.files;
      RunCall(tool, calls[i]);
      assert calls[..i + 1] == calls[..i] + [calls[i]] && calls[..i + 1][..i] == calls[..i];
      assert calls[..i][..i] == calls[..i];
      NextFiles(Run(tool.options, tool.tracker.plugins, start, calls[..i]), calls[i], files0, before, tool.files);
    }
    assert calls[..|calls|] == calls;
    OneFileOnly(tool);
    HeldLaunches(Run(tool.options, tool.tracker.plugins, start, calls), files0, tool.files);
  }

  lemma NothingRun(o: Options, plugins: bool, start: Model, files: map<string, Dump>)
    ensures Extends(files, files)
    ensures forall calls: seq<Call> :: calls == [] ==> Run(o, plugins, start, calls).FilesAre(files, files)
  {
  }

  lemma NextFiles(r: Run, c: Call, files0: map<string, Dump>, before: map<string, Dump>, after: map<string, Dump>)
    requires AllProper(r.calls) && Proper(c)
    requires r.FilesAre(files0, before) && Extends(files0, before)
    requires Changes(r.o, r.plugins, r.At(|r.calls|), c, before, after)
    ensures AllProper(r.calls + [c]) && r.(calls := r.calls + [c]).FilesAre(files0, after)
    ensures Extends(files0, after)
  {
    hide Changes, HoldsInput, HoldsOutput, Run.PathsAre, Run.InputsAre, Run.OutputsAre, Run.At;
    var m := r.At(|r.calls|);
    MoreCalls(r, c);
    ChangedFiles(r.o, r.plugins, m, c, before, after);
    NextPaths(r, c, files0, before, after);
    NextInputs(r, c, before, after);
    NextOutputs(r, c, files0, before, after);
  }

  lemma NextPaths(r: Run, c: Call, files0: map<string, Dump>, before: map<string, Dump>, after: map<string, Dump>)
    requires AllProper(r.calls) && Proper(c) && r.PathsAre(files0, before)
    requires Changes(r.o, r.plugins, r.At(|r.calls|), c, before, after)
    ensures AllProper(r.calls + [c]) && r.(calls := r.calls + [c]).PathsAre(files0, after)
  {
    hide Creates, Proper, PathOf, Run.At, Changes, Run.CreatedBy;
    var r' := r.(calls := r.calls + [c]);
    MoreCalls(r, c);
    ChangedFiles(r.o, r.plugins, r.At(|r.calls|), c, before, after);
    forall path ensures path in after <==> path in files0 || exists i: nat :: r'.CreatedBy(i, path) {
      if path in after && path !in before {
        assert r'.CreatedBy(|r.calls|, path);
      }
      if path in before && path !in files0 {
        var i: nat :| r.CreatedBy(i, path);
        assert r'.CreatedBy(i, path);
      }
    }
  }

  lemma NextInputs(r: Run, c: Call, before: map<string, Dump>, after: map<string, Dump>)
    requires AllProper(r.calls) && Proper(c) && r.InputsAre(before)
    requires Changes(r.o, r.plugins, r.At(|r.calls|), c, before, after)
    ensures AllProper(r.calls + [c]) && r.(calls := r.calls + [c]).InputsAre(after)
  {
    hide HoldsInput, PathOf, Run.At, Changes, ShouldDump;
    var r' := r.(calls := r.calls + [c]);
    MoreCalls(r, c);
    ChangedFiles(r.o, r.plugins, r.At(|r.calls|), c, before, after);
    forall i: nat, path | r'.CreatedBy(i, path)
      ensures path in after && HoldsInput(r.o, r.plugins, r'.At(i), r'.calls[i], after[path])
    {
      if i < |r.calls| {
        assert r.CreatedBy(i, path);
        InputKept(r.o, r.plugins, r.At(i), r.calls[i], before[path], after[path]);
      }
    }
  }

  lemma NextOutputs(r: Run, c: Call, files0: map<string, Dump>, before: map<string, Dump>, after: map<string, Dump>)
    requires AllProper(r.calls) && Proper(c) && r.OutputsAre(files0, before)
    requires Changes(r.o, r.plugins, r.At(|r.calls|), c, before, after)
    ensures AllProper(r.calls + [c]) && r.(calls := r.calls + [c]).OutputsAre(files0, after)
  {
    hide HoldsOutput, Run.At, Changes;
    var r' := r.(calls := r.calls + [c]);
    MoreCalls(r, c);
    ChangedFiles(r.o, r.plugins, r.At(|r.calls|), c, before, after);
    forall i: nat, path | r'.AppendedBy(i, path)
      ensures path in after && HoldsOutput(r'.At(i), r'.calls[i], after[path])
    {
      if i < |r.calls| {
        assert r.AppendedBy(i, path);
        OutputKept(r.At(i), r.calls[i], before[path], after[path]);
      }
    }
    forall path | path in after && after[path].outViews.Some?
      ensures (path in files0 && files0[path].outViews.Some?) || exists i: nat :: r'.AppendedBy(i, path)
    {
      if path in before && before[path].outViews.Some? {
        if !(path in files0 && files0[path].outViews.Some?) {
          var i: nat :| r.AppendedBy(i, path);
          assert r'.AppendedBy(i, path);
        }
      } else {
        assert r'.AppendedBy(|r.calls|, path);
      }
    }
  }

  lemma OutputKept(m: Model, c: Call, d: Dump, d': Dump)
    requires c.End? && HoldsOutput(m, c, d)
    requires d.outViews.Some? ==> d' == d
    ensures HoldsOutput(m, c, d')
  {
  }

  /** One more call changes nothing about the earlier ones. */
  lemma MoreCalls(r: Run, c: Call)
    requires AllProper(r.calls) && Proper(c)
    ensures var r' := r.(calls := r.calls + [c]);
            && AllProper(r'.calls) && r'.calls[|r.calls|] == c && r'.At(|r.calls|) == r.At(|r.calls|)
            && (forall i: nat :: i < |r.calls| ==> r'.calls[i] == r.calls[i] && r'.At(i) == r.At(i))
            && (forall i: nat, path :: r'.CreatedBy(i, path) <==>
                  r.CreatedBy(i, path)
                  || (i == |r.calls| && Creates(r.o, r.At(i), c) && path == PathOf(r.At(i), c)))
            && (forall i: nat, path :: r'.AppendedBy(i, path) <==>
                  r.AppendedBy(i, path)
                  || (i == |r.calls| && Appends(r.At(i), c) && path == r.At(i).states[c.id].dumpPath))
  {
    hide AfterAll, Proper, PathOf, ShouldDump, Invocation, Label;
    assert forall i: nat :: i <= |r.calls| ==> (r.calls + [c])[..i] == r.calls[..i];
  }

  lemma ChangedFiles(o: Options, plugins: bool, m: Model, c: Call,
                     before: map<string, Dump>, after: map<string, Dump>)
    requires Proper(c) && Changes(o, plugins, m, c, before, after)
    ensures Extends(before, after)
    ensures forall path :: path in after && path !in before ==> Creates(o, m, c) && path == PathOf(m, c)
    ensures Creates(o, m, c) ==>
              PathOf(m, c) in after && PathOf(m, c) !in before && HoldsInput(o, plugins, m, c, after[PathOf(m, c)])
    ensures Appends(m, c) ==>
              var path := m.states[c.id].dumpPath;
              path in before && path in after && HoldsOutput(m, c, after[path])
    ensures forall path :: path in after && after[path].outViews.Some? ==>
              (path in before && before[path].outViews.Some?)
              || (Appends(m, c) && path == m.states[c.id].dumpPath)
  {
    hide HoldsInput, HoldsOutput, PathOf, ShouldDump, Proper;
  }

  lemma InputKept(o: Options, plugins: bool, m: Model, c: Call, d: Dump, d': Dump)
    requires Proper(c) && Begins(c) && HoldsInput(o, plugins, m, c, d) && d' == d.(outViews := d'.outViews)
    ensures HoldsInput(o, plugins, m, c, d')
  {
  }

  /** A launch is held if the extractor was told so, which it always is when its own label is reported. */
  lemma HeldLaunches(r: Run, before: map<string, Dump>, files: map<string, Dump>)
    requires AllProper(r.calls) && r.FilesAre(before, files)
    ensures r.LaunchesAreHeld(files)
  {
    hide HoldsInput, IsOf, Creates, Told, PathOf, Run.At;
    forall i: nat, path |
      r.CreatedBy(i, path) && r.calls[i].ParallelFor?
      && (Told(r.o, r.At(i), r.calls[i]) || r.calls[i].name == r.calls[i].reported)
      ensures path in files && IsOf(files[path], r.plugins, LaunchOf(r.At(i), r.calls[i]))
    {
      assert Proper(r.calls[i]);
      HeldLaunch(r.o, r.plugins, r.At(i), r.calls[i], files[path]);
    }
  }

  lemma HeldLaunch(o: Options, plugins: bool, m: Model, c: Call, d: Dump)
    requires Proper(c) && c.ParallelFor? && Creates(o, m, c) && HoldsInput(o, plugins, m, c, d)
    requires Told(o, m, c) || c.name == c.reported
    ensures LaunchOf(m, c).Proper() && IsOf(d, plugins, LaunchOf(m, c))
  {
    hide IsOf, HoldsRegistered, RegistrationOf, ShouldDump, PolicyCodec.WellFormed, Readable;
    RegisteredIsLaunch(d, plugins, LaunchOf(m, c));
  }

  lemma OneFileOnly(tool: Tool)
    requires tool.Valid()
    ensures forall path, path' :: path in tool.files && path' in tool.files ==> path == path'
  {
    hide Inv;
    forall path, path' | path in tool.files && path' in tool.files ensures path == path' {
      CaptureSafety.OneFile(tool.options, tool.steps, path, path');
    }
  }

  /**
   * A launch with an empty label: Kokkos reports another one in its place, and that one is selected. The dump
   * holds nothing of the launch, and a replay of it throws because no policy was ever registered.
   */
  method ReportedLabelEscapes(reported: string, policy: PolicyCodec.Policy, mem: ProcessMemory, f: nat, t: Ty,
                              plugins: bool) returns (d: Dump)
    requires reported != ""
    requires PolicyCodec.WellFormed(policy) && Layout(t) && Readable(mem.bytes, f, t)
    ensures d.name == reported && d.functor == StoredFunctor([], [])
    ensures forall r :: PolicyCodec.ReadPolicy(d.policy, r) == Some(PolicyCodec.NoPolicy)
    ensures PolicyCodec.Rebuild(PolicyCodec.NoPolicy) == PolicyCodec.Throws
  {
    hide Inv, CaptureSafety.RunsTo, FilesMatch, DumpFilename, PolicyCodec.ReadPolicy, PolicyCodec.WritePolicy;
    hide Readable, PolicyCodec.WellFormed, IsOf;
    var tracker := new Tracker(plugins);
    var tool := new Tool(Options(reported, true, 1), tracker);
    var id;
    ghost var l;
    id, l := tool.ParallelFor("", reported, policy, true, mem, f, t, [], true);
    d := tool.files[DumpFilename(reported, id)];
    forall r ensures PolicyCodec.ReadPolicy(d.policy, r) == Some(PolicyCodec.NoPolicy) {
      PolicyCodec.NoPolicyThrows(r);
    }
  }
}
