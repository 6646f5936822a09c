/** krepe::initialize, finalize, reset_inputs, parallel_for and user-made guards, over the process-wide state. */
module ReplayProcess {
  import opened Bytes
  import opened Closures
  import opened ClosureVisitors
  import opened ClosureBytes
  import opened ClosurePatch
  import opened DumpFile
  import opened HostMapping
  import opened InputRestore
  import opened ScopeGuard
  import opened FunctorRestore
  import PolicyCodec
  import ReplayFunctor
  import opened Replayer
  import opened CliArgs
  import opened Lifecycle
  import opened Wrappers

  /** The dump named on the command line, if the option is there and the file can be opened. */
  function NamedDump(args: seq<string>, files: map<string, Dump>): Option<Dump> {
    match OptionValue(AfterFlag(args, RESET_FLAG), DUMP_OPTION).0
    case None => None
    case Some(name) => if name in files then Some(files[name]) else None
  }

  /** What the program sees of its arguments once the replayer took its own options out. */
  function RemainingArgs(args: seq<string>): seq<string> {
    OptionValue(AfterFlag(args, RESET_FLAG), DUMP_OPTION).1
  }

  /** The option in both its forms; the first one counts, and one without a value at the end names nothing. */
  lemma NamedByOption(args: seq<string>, files: map<string, Dump>, o: nat, value: string)
    requires 1 <= o < |args|
    requires forall j | 1 <= j < |args| :: args[j] != "--kernel-replayer-enable-input-reset"
    requires forall j | 1 <= j < o :: args[j] != "--kernel-replayer-dump" && !("--kernel-replayer-dump=" <= args[j])
    ensures args[o] == "--kernel-replayer-dump" && o + 1 < |args| && args[o + 1] == value ==>
              && NamedDump(args, files) == (if value in files then Some(files[value]) else None)
              && RemainingArgs(args) == args[..o] + args[o + 2..]
    ensures args[o] == "--kernel-replayer-dump=" + value ==>
              && NamedDump(args, files) == (if value in files then Some(files[value]) else None)
              && RemainingArgs(args) == args[..o] + args[o + 1..]
    ensures args[o] == "--kernel-replayer-dump" && o + 1 == |args| ==>
              NamedDump(args, files) == None && RemainingArgs(args) == args
  {
    hide RESET_FLAG, DUMP_OPTION, OptionValue, EqualsIndex;
    OptionNames();
    NoFlag(args, RESET_FLAG);
    forall j | 1 <= j < o ensures !IsOption(args[j], DUMP_OPTION) {
      EqualsPrefix(args[j], DUMP_OPTION);
    }
    FirstOption(args, DUMP_OPTION, o);
    EqualsPrefix(args[o], DUMP_OPTION);
    EqualsFormValue(DUMP_OPTION, value);
    OptionValueAt(args, DUMP_OPTION, o);
  }

  class Process {
    const space: AddressSpace
    const backends: PolicyCodec.Backends
    /** The functor and policy that were read last. */
    const data: ReplayData
    var initialized: bool
    var inputResetEnabled: bool
    /** replay_allocations, as the guard it points into. */
    var replayAllocations: Guard?
    var scopeGuard: Guard?
    var internalGuard: Guard?
    /** The memory just before and just after the live guard's inputs were written. */
    ghost var initial: nat -> Byte
    ghost var constructed: nat -> Byte
    /** The pages that the program itself has mapped. */
    ghost var base: set<nat>

    constructor (space: AddressSpace, backends: PolicyCodec.Backends)
      ensures Valid() && Abs() == START && this.space == space && this.backends == backends
      ensures fresh(data) && base == space.mapped
    {
      this.space, this.backends := space, backends;
      data := new ReplayData();
      base := space.mapped;
      initialized, inputResetEnabled := false, false;
      replayAllocations, scopeGuard, internalGuard := null, null, null;
      initial, constructed := a => 0, a => 0;
    }

    /**
     * The pointers are all null, or all refer to the one live guard; what is mapped are the program's own pages
     * and, apart from them, those of the live guard.
     */
    ghost predicate Valid()
      reads this, space, data, scopeGuard
    {
      && replayAllocations == scopeGuard
      && (initialized ==> data.policy.Some?)
      && (scopeGuard != null ==>
            && initialized && scopeGuard.Valid(space)
            && Applied(initial, scopeGuard.inputSnapshots, constructed))
      && (internalGuard != null ==> internalGuard == scopeGuard)
      && base !! GuardPages() && space.mapped == base + GuardPages()
    }

    function GuardPages(): set<nat>
      reads this, scopeGuard
    {
      if scopeGuard == null then {} else AllPages(scopeGuard.hostRawAllocations, space.page)
    }

    ghost function Abs(): State
      reads this
    {
      State(initialized, scopeGuard != null, internalGuard != null)
    }

    /** ScopeGuard's constructor: the options are read and taken out, then the named dump is restored. */
    method ConstructGuard(argc: nat, argv: array<string>, files: map<string, Dump>, replies: nat -> Reply)
      returns (guard: Guard?, argc': nat, ghost dump: Option<Dump>)
      requires Valid() && argc <= argv.Length
      modifies this, space, data, argv
      ensures Valid() && internalGuard == old(internalGuard) && argc' <= argc && base == old(base)
      ensures dump == if old(initialized) then None else NamedDump(old(argv[..argc]), files)
      ensures inputResetEnabled == if old(initialized) then old(inputResetEnabled)
                                   else Given(old(argv[..argc]), RESET_FLAG)
      ensures argv[..argc'] == if old(initialized) then old(argv[..argc]) else RemainingArgs(old(argv[..argc]))
      ensures old(initialized) ==> space.bytes == old(space.bytes) && data.functor == old(data.functor)
                                   && data.policy == old(data.policy)
      ensures Constructed(guard, dump, old(Abs()), old(space.mapped))
      ensures Abs() == Next(old(Abs()), Construct(guard != null))
      ensures guard != null ==> !old(initialized) && initialized && scopeGuard == guard
      ensures guard == null ==> initialized == old(initialized)
      ensures guard != null ==> Succeeds(old(Abs()), Construct(true))
      ensures (dump.Some? && NoneRefused(replies, |dump.value.inViews|)
               && Restorable(dump.value, old(space.mapped), space.page, backends)) ==> guard != null
      ensures guard == null ==> space.mapped == old(space.mapped) && scopeGuard == old(scopeGuard)
      ensures forall a: nat :: a / space.page in old(space.mapped) ==> space.bytes(a) == old(space.bytes)(a)
    {
      if initialized {
        return null, argc, None;
      }
      var file;
      file, argc' := ReadOptions(argc, argv, files);
      dump := file;
      if file.None? {
        return null, argc', None;
      }
      guard := RestoreDump(file.value, replies);
    }

    /** Success, or no change of the life-cycle state. */
    ghost predicate Constructed(guard: Guard?, dump: Option<Dump>, before: State, mapped: set<nat>)
      reads this, space, data, guard
    {
      if guard == null then Abs() == before
      else
        && !before.initialized && Abs() == State(true, true, before.internal) && scopeGuard == guard
        && dump.Some? && Restorable(dump.value, mapped, space.page, backends)
        && guard.RestoredState(space, dump.value, mapped, inputResetEnabled)
        && (ViewsApart(dump.value.inViews) ==> AllRestored(dump.value.inViews, space.bytes))
        && data.Holds(dump.value, backends)
        && constructed == space.bytes
    }

    method ReadOptions(argc: nat, argv: array<string>, files: map<string, Dump>)
      returns (dump: Option<Dump>, argc': nat)
      requires argc <= argv.Length
      modifies this`inputResetEnabled, argv
      ensures argc' <= argc
      ensures inputResetEnabled == Given(old(argv[..argc]), RESET_FLAG)
      ensures inputResetEnabled <==>
                exists i :: 1 <= i < argc && old(argv[..argc])[i] == "--kernel-replayer-enable-input-reset"
      ensures dump == NamedDump(old(argv[..argc]), files)
      ensures argv[..argc'] == RemainingArgs(old(argv[..argc]))
    {
      hide RESET_FLAG, DUMP_OPTION;
      OptionNames();
      var name;
      inputResetEnabled, argc' := FindCliFlag(argc, argv, RESET_FLAG);
      name, argc' := FindCliOption(argc', argv, DUMP_OPTION);
      dump := if name.None? || name.value !in files then None else Some(files[name.value]);
    }

    method RestoreDump(dump: Dump, replies: nat -> Reply) returns (guard: Guard?)
      requires Valid() && !initialized
      modifies this, space, data
      ensures Valid() && internalGuard == old(internalGuard) && inputResetEnabled == old(inputResetEnabled)
      ensures base == old(base)
      ensures Constructed(guard, Some(dump), old(Abs()), old(space.mapped))
      ensures (Restorable(dump, old(space.mapped), space.page, backends)
               && NoneRefused(replies, |dump.inViews|)) ==> guard != null
      ensures guard == null ==> space.mapped == old(space.mapped) && scopeGuard == old(scopeGuard)
      ensures forall a: nat :: a / space.page in old(space.mapped) ==> space.bytes(a) == old(space.bytes)(a)
    {
      hide Restorable, PolicyCodec.ReadPolicy, ViewsApart, AllRestored, Applied, AllUsable, InputsApplied;
      hide AllAligned, WritesOn, Needed, AllPages;
      var candidate := new Guard();
      var ok := candidate.Build(space, data, dump, backends, inputResetEnabled, replies);
      if !ok {
        return null;
      }
      RestoredIsApplied(candidate, space, dump, old(space.mapped), inputResetEnabled);
      initial, constructed := space.bytes, space.bytes;
      guard := candidate;
      replayAllocations, scopeGuard := guard, guard;
      initialized := true;
    }

    /** ScopeGuard's destructor: the pointers are cleared and the guard's regions unmapped. */
    method DestroyGuard(guard: Guard)
      requires Valid() && guard == scopeGuard
      modifies this`replayAllocations, this`scopeGuard, space`mapped
      ensures replayAllocations == null && scopeGuard == null && space.mapped == base
      ensures space.mapped == old(space.mapped) - AllPages(guard.hostRawAllocations, space.page)
    {
      if replayAllocations == guard {
        replayAllocations := null;
      }
      scopeGuard := null;
      guard.Destroy(space);
    }

    /** The end of the scope of a guard the user made. */
    method EndUserGuard(guard: Guard)
      requires Valid() && guard == scopeGuard && internalGuard == null
      modifies this`replayAllocations, this`scopeGuard, space`mapped
      ensures Valid() && Abs() == Next(old(Abs()), Destroy)
      ensures scopeGuard == null && internalGuard == null && initialized
      ensures space.mapped == base
      ensures space.mapped == old(space.mapped) - AllPages(guard.hostRawAllocations, space.page)
    {
      DestroyGuard(guard);
    }

    method InitializeKrepe(argc: nat, argv: array<string>, files: map<string, Dump>, replies: nat -> Reply)
      returns (ok: bool, argc': nat)
      requires Valid() && argc <= argv.Length
      modifies this, space, data, argv
      ensures Valid() && Abs() == Next(old(Abs()), Initialize(ok)) && (ok ==> !old(initialized))
      ensures if ok then initialized && internalGuard != null
              else initialized == old(initialized) && internalGuard == old(internalGuard)
      ensures argc' <= argc && base == old(base)
      ensures var dump := NamedDump(old(argv[..argc]), files);
              && (ok ==>
                    && dump.Some? && Restorable(dump.value, old(space.mapped), space.page, backends)
                    && internalGuard.RestoredState(space, dump.value, old(space.mapped), inputResetEnabled)
                    && (ViewsApart(dump.value.inViews) ==> AllRestored(dump.value.inViews, space.bytes))
                    && data.Holds(dump.value, backends)
                    && inputResetEnabled == Given(old(argv[..argc]), RESET_FLAG))
              && ((!old(initialized) && dump.Some? && NoneRefused(replies, |dump.value.inViews|)
                   && Restorable(dump.value, old(space.mapped), space.page, backends)) ==> ok)
      ensures inputResetEnabled == if old(initialized) then old(inputResetEnabled)
                                   else Given(old(argv[..argc]), RESET_FLAG)
      ensures argv[..argc'] == if old(initialized) then old(argv[..argc]) else RemainingArgs(old(argv[..argc]))
      ensures old(initialized) ==> space.bytes == old(space.bytes) && data.functor == old(data.functor)
                                   && data.policy == old(data.policy)
      ensures ok ==> scopeGuard == internalGuard
      ensures !ok ==> space.mapped == old(space.mapped) && scopeGuard == old(scopeGuard)
      ensures forall a: nat :: a / space.page in old(space.mapped) ==> space.bytes(a) == old(space.bytes)(a)
    {
      hide Restorable, AllUsable, InputsApplied, ViewsApart, AllRestored, NamedDump, Given, RemainingArgs;
      if initialized {
        return false, argc;
      }
      var guard;
      ghost var dump;
      guard, argc', dump := ConstructGuard(argc, argv, files, replies);
      ok := guard != null;
      if ok {
        internalGuard := guard;
      }
    }

    method FinalizeKrepe() returns (ok: bool)
      requires Valid()
      modifies this`replayAllocations, this`scopeGuard, this`internalGuard, space`mapped
      ensures Valid() && ok == Succeeds(old(Abs()), Finalize) && Abs() == Next(old(Abs()), Finalize)
      ensures ok <==> old(internalGuard) != null
      ensures initialized == old(initialized) && internalGuard == null
      ensures ok ==> scopeGuard == null
      ensures !ok ==> space.mapped == old(space.mapped) && scopeGuard == old(scopeGuard)
      ensures ok ==> space.mapped == base
                     && base == old(space.mapped) - AllPages(old(scopeGuard).hostRawAllocations, space.page)
    {
      if !initialized || internalGuard == null {
        return false;
      }
      DestroyGuard(internalGuard);
      internalGuard := null;
      ok := true;
    }

    /** Fails when no guard is alive, input reset is off, or Kokkos is not running. */
    method ResetInputs(kokkosRunning: bool) returns (ok: bool)
      requires Valid()
      modifies space`bytes
      ensures Valid() && ok == Succeeds(Abs(), Reset(inputResetEnabled && kokkosRunning))
      ensures ok <==> scopeGuard != null && inputResetEnabled && kokkosRunning
      ensures !ok ==> space.bytes == old(space.bytes)
      ensures ok ==> Applied(old(space.bytes), scopeGuard.inputSnapshots, space.bytes)
      ensures ok ==> forall a: nat ::
                var ws := scopeGuard.inputSnapshots;
                space.bytes(a) == if exists i :: 0 <= i < |ws| && ws[i].Holds(a) then constructed(a)
                                  else old(space.bytes)(a)
    {
      if scopeGuard == null || !inputResetEnabled || !kokkosRunning {
        return false;
      }
      scopeGuard.ResetInputs(space, initial, constructed);
      ok := true;
    }

    /**
     * The replayer's parallel_for, up to the launch: the functor that is launched has the captured value, and
     * the policy is rebuilt from the dump; a functor that does not fit the dump fails before.
     */
    method ParallelFor(mem: ProcessMemory, f: nat, t: Ty)
      returns (o: Outcome, copied: Val, launch: PolicyCodec.Rebuilt)
      requires Layout(t) && Readable(mem.bytes, f, t)
      requires data.policy.Some?
      modifies mem
      ensures mem.bytes == old(mem.bytes)
      ensures o == if |data.functor.functor| < t.size then FunctorTooSmall
                   else if t.Hdl? && |data.functor.closures| != TotalSize(ClosureSizes(t)) then ClosuresMismatch
                   else Done
      ensures forall m1: Mem, f1: nat ::
                IsDumpOf(data.functor, m1, f1, t) && Separated(f, t.size, Visits(mem.bytes, f, t)) ==>
                  o.Done? && copied == Decode(m1, f1, t) && Carries(copied, m1, f1, t)
      ensures o.Done? && t.Plain? ==> copied == Raw(data.functor.functor[..t.size])
      ensures o.Done? ==> launch == PolicyCodec.Rebuild(data.policy.value)
    {
      launch := PolicyCodec.Throws;
      o, copied := ReplayFunctor.Replay(mem, f, t, data.functor);
      if o.Done? {
        launch := PolicyCodec.VisitPolicy(data.policy.value);
      }
    }

    /** What the program may do meanwhile: map and unmap pages of its own, and write to memory. */
    method ProgramActs(own: set<nat>, contents: nat -> Byte)
      requires Valid() && own !! GuardPages()
      modifies this`base, space
      ensures Valid() && base == own && space.bytes == contents && GuardPages() == old(GuardPages())
    {
      hide Applied;
      space.mapped := own + GuardPages();
      space.bytes := contents;
      base := own;
    }
  }

  /** Right after construction the inputs' writes have been applied (again) to the memory. */
  lemma RestoredIsApplied(guard: Guard, space: AddressSpace, dump: Dump, before: set<nat>, resetEnabled: bool)
    requires guard.RestoredState(space, dump, before, resetEnabled)
    ensures Applied(space.bytes, guard.inputSnapshots, space.bytes)
  {
  }
}
