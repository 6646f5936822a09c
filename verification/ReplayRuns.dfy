/** Whole runs of a replaying process: any sequence of calls into the library and of the program's own work. */
module ReplayRuns {
  import opened Arithmetic
  import opened Bytes
  import opened CliArgs
  import opened DumpFile
  import opened HostMapping
  import opened InputRestore
  import opened Lifecycle
  import PolicyCodec
  import opened Replayer
  import opened ReplayProcess
  import opened ScopeGuard
  import opened Wrappers

  datatype Call =
    | Start(args: seq<string>, files: map<string, Dump>, replies: nat -> Reply)      // krepe::initialize
    | Stop                                                                           // krepe::finalize
    | OpenScope(args: seq<string>, files: map<string, Dump>, replies: nat -> Reply)  // a guard in a scope
    | CloseScope                                                                     // the end of that scope
    | ResetAll(kokkosRunning: bool)                                                  // krepe::reset_inputs
    | Work(own: set<nat>, contents: nat -> Byte)                                     // the program itself

  predicate Builder(c: Call) { c.Start? || c.OpenScope? }

  /** The event of a call with the given outcome; a scope ends only while its guard is alive. */
  function EventsOf(c: Call, ok: bool): seq<Event> {
    match c
    case Start(_, _, _) => [Initialize(ok)]
    case Stop => [Finalize]
    case OpenScope(_, _, _) => [Construct(ok)]
    case CloseScope => if ok then [Destroy] else []
    case ResetAll(_) => [Reset(ok)]
    case Work(_, _) => []
  }

  // ---------- what each call does ----------

  /** The process between calls: `own` are the program's own pages and `held` those of the live guard. */
  datatype Model = Model(life: State, own: set<nat>, held: set<nat>, resets: bool, inputs: seq<Write>,
                         bytes: nat -> Byte, functor: StoredFunctor, policy: Option<PolicyCodec.Stored>)

  ghost function ModelOf(p: Process): Model
    reads p, p.space, p.data, p.scopeGuard
  {
    Model(p.Abs(), p.base, p.GuardPages(), p.inputResetEnabled,
          if p.scopeGuard == null then [] else p.scopeGuard.inputSnapshots,
          p.space.bytes, p.data.functor, p.data.policy)
  }

  /** The call names a dump that can be restored, and no guard was ever constructed. */
  ghost predicate CanBuild(page: Positive, backends: PolicyCodec.Backends, m: Model, c: Call)
    requires Builder(c)
  {
    var dump := NamedDump(c.args, c.files);
    !m.life.initialized && dump.Some? && Restorable(dump.value, m.own + m.held, page, backends)
  }

  /** The live guard holds exactly the dump's pages and inputs, and the process the dump's functor and policy. */
  ghost predicate Holds(page: Positive, backends: PolicyCodec.Backends, dump: Dump, m: Model) {
    && (forall q: nat :: q in m.held <==> Needed(dump.inViews, page, q))
    && m.inputs == (if m.resets then InputWrites(dump.inViews) else [])
    && m.functor == dump.functor
    && m.policy == PolicyCodec.ReadPolicy(dump.policy, backends)
  }

  ghost predicate KeepsBytes(page: Positive, m: Model, m': Model) {
    forall a: nat :: a / page in m.own + m.held ==> m'.bytes(a) == m.bytes(a)
  }

  ghost predicate BuildStep(page: Positive, backends: PolicyCodec.Backends, m: Model, c: Call, ok: bool, m': Model)
    requires Builder(c)
  {
    && (ok ==> CanBuild(page, backends, m, c))
    && ((CanBuild(page, backends, m, c)
         && NoneRefused(c.replies, |NamedDump(c.args, c.files).value.inViews|)) ==> ok)
    && (if m.life.initialized then m' == m.(life := m'.life)
        else
          && m'.own == m.own && m'.resets == Given(c.args, RESET_FLAG) && KeepsBytes(page, m, m')
          && (if ok then
                && Holds(page, backends, NamedDump(c.args, c.files).value, m')
                && InputsApplied(NamedDump(c.args, c.files).value.inViews, m'.bytes)
              else m'.held == m.held && m'.inputs == m.inputs))
  }

  /** One call from one state to the next, with its outcome. */
  ghost predicate Step(page: Positive, backends: PolicyCodec.Backends, m: Model, c: Call, ok: bool, m': Model) {
    && LifeStep(m.life, c, ok, m'.life)
    && match c
       case Start(_, _, _) => BuildStep(page, backends, m, c, ok, m')
       case OpenScope(_, _, _) => BuildStep(page, backends, m, c, ok, m')
       case Stop => m' == if ok then Released(m, m'.life) else m
       case CloseScope => m' == if ok then Released(m, m'.life) else m
       case ResetAll(kokkosRunning) =>
         && (ok <==> m.life.live && m.resets && kokkosRunning)
         && m' == m.(bytes := m'.bytes)
         && (if ok then Applied(m.bytes, m.inputs, m'.bytes) else m' == m)
       case Work(own, contents) => m' == m.(own := own - m.held, bytes := contents)
  }

  ghost predicate LifeStep(s: State, c: Call, ok: bool, s': State) {
    && (c.CloseScope? ==> (ok <==> s.live && !s.internal))
    && var es := EventsOf(c, ok);
       if es == [] then s' == s
       else Enabled(s, es[0]) && ok == Succeeds(s, es[0]) && s' == Next(s, es[0])
  }

  ghost function Released(m: Model, life: State): Model {
    m.(life := life, held := {}, inputs := [])
  }

  /** One call of any kind. */
  method RunCall(p: Process, c: Call) returns (ok: bool)
    requires p.Valid()
    modifies p, p.space, p.data
    ensures p.Valid()
    ensures Step(p.space.page, p.backends, old(ModelOf(p)), c, ok, ModelOf(p))
  {
    hide BuildStep, Applied, AllPages;
    match c
    case Start(_, _, _) =>
      ok := RunStart(p, c);
    case Stop =>
      ok := p.FinalizeKrepe();
    case OpenScope(_, _, _) =>
      ok := RunOpenScope(p, c);
    case CloseScope =>
      ok := p.scopeGuard != null && p.internalGuard == null;
      if ok {
        p.EndUserGuard(p.scopeGuard);
      }
    case ResetAll(kokkosRunning) =>
      ok := p.ResetInputs(kokkosRunning);
    case Work(own, contents) =>
      p.ProgramActs(own - p.GuardPages(), contents);
      ok := true;
  }

  method RunStart(p: Process, c: Call) returns (ok: bool)
    requires p.Valid() && c.Start?
    modifies p, p.space, p.data
    ensures p.Valid()
    ensures LifeStep(old(p.Abs()), c, ok, p.Abs())
    ensures BuildStep(p.space.page, p.backends, old(ModelOf(p)), c, ok, ModelOf(p))
  {
    hide Applied, Restorable, NamedDump, RemainingArgs, Given, InputsApplied, Needed, AllPages, AllUsable;
    hide AllAligned, WritesOn, ViewsApart, AllRestored, InputWrites, PolicyCodec.ReadPolicy;
    var argv := new string[|c.args|](i requires 0 <= i < |c.args| => c.args[i]);
    assert argv[..argv.Length] == c.args;
    var argc;
    ok, argc := p.InitializeKrepe(argv.Length, argv, c.files, c.replies);
    if ok {
      AcceptedPolicy(NamedDump(c.args, c.files).value, old(p.space.mapped), p.space.page, p.backends);
    }
  }

  method RunOpenScope(p: Process, c: Call) returns (ok: bool)
    requires p.Valid() && c.OpenScope?
    modifies p, p.space, p.data
    ensures p.Valid()
    ensures LifeStep(old(p.Abs()), c, ok, p.Abs())
    ensures BuildStep(p.space.page, p.backends, old(ModelOf(p)), c, ok, ModelOf(p))
  {
    hide Applied, Restorable, NamedDump, RemainingArgs, Given, InputsApplied, Needed, AllPages, AllUsable;
    hide AllAligned, WritesOn, ViewsApart, AllRestored, InputWrites, PolicyCodec.ReadPolicy;
    var argv := new string[|c.args|](i requires 0 <= i < |c.args| => c.args[i]);
    assert argv[..argv.Length] == c.args;
    ghost var dump;
    var guard, argc;
    guard, argc, dump := p.ConstructGuard(argv.Length, argv, c.files, c.replies);
    ok := guard != null;
    if ok {
      AcceptedPolicy(dump.value, old(p.space.mapped), p.space.page, p.backends);
    }
  }

  lemma AcceptedPolicy(dump: Dump, mapped: set<nat>, page: Positive, backends: PolicyCodec.Backends)
    requires Restorable(dump, mapped, page, backends)
    ensures PolicyCodec.ReadPolicy(dump.policy, backends).Some?
  {
  }

  // ---------- runs ----------

  /** The calls with their outcomes, and the states between them. */
  ghost predicate IsTrace(page: Positive, backends: PolicyCodec.Backends, ms: seq<Model>, calls: seq<Call>,
                          oks: seq<bool>)
  {
    && |oks| == |calls| && |ms| == |calls| + 1
    && forall i :: 0 <= i < |calls| ==> Step(page, backends, ms[i], calls[i], oks[i], ms[i + 1])
  }

  function AllEvents(calls: seq<Call>, oks: seq<bool>): seq<Event>
    requires |oks| == |calls|
  {
    if calls == [] then []
    else
      var last := |calls| - 1;
      AllEvents(calls[..last], oks[..last]) + EventsOf(calls[last], oks[last])
  }

  /**
   * Whatever the program calls, in whatever order: each call does what is said of it, with the reported outcome;
   * the calls are a run of the life cycle; what is mapped are the program's own pages and the live guard's.
   */
  method RunCalls(p: Process, calls: seq<Call>) returns (oks: seq<bool>, ghost ms: seq<Model>)
    requires p.Valid()
    modifies p, p.space, p.data
    ensures p.Valid() && IsTrace(p.space.page, p.backends, ms, calls, oks)
    ensures ms[0] == old(ModelOf(p)) && ms[|calls|] == ModelOf(p)
    ensures var es := AllEvents(calls, oks);
            IsRun(old(p.Abs()), es) && p.Abs() == Final(old(p.Abs()), es)
    ensures p.space.mapped == p.base + p.GuardPages() && p.base !! p.GuardPages()
    ensures p.scopeGuard == null ==> p.space.mapped == p.base
    ensures (forall i :: 0 <= i < |calls| ==> !calls[i].Work?) ==> p.base == old(p.base)
  {
    hide Step;
    oks, ms := [], [ModelOf(p)];
    for i := 0 to |calls|
      invariant p.Valid() && |oks| == i
      invariant IsTrace(p.space.page, p.backends, ms, calls[..i], oks)
      invariant ms[0] == old(ModelOf(p)) && ms[i] == ModelOf(p)
    {
      var ok := RunCall(p, calls[i]);
      TraceGrows(p.space.page, p.backends, ms, calls, oks, ok, ModelOf(p));
      oks, ms := oks + [ok], ms + [ModelOf(p)];
    }
    assert calls[..|calls|] == calls;
    NothingHeld(p.space.page, p.backends, ms, calls, oks);
    TraceIsRun(p.space.page, p.backends, ms, calls, oks);
  }

  lemma TraceGrows(page: Positive, backends: PolicyCodec.Backends, ms: seq<Model>, calls: seq<Call>,
                   oks: seq<bool>, ok: bool, m: Model)
    requires |oks| < |calls| && IsTrace(page, backends, ms, calls[..|oks|], oks)
    requires Step(page, backends, ms[|oks|], calls[|oks|], ok, m)
    ensures IsTrace(page, backends, ms + [m], calls[..|oks| + 1], oks + [ok])
  {
    hide Step;
    var i, ms', oks' := |oks|, ms + [m], oks + [ok];
    assert forall k :: 0 <= k < i ==> calls[..i + 1][k] == calls[..i][k];
    forall k | 0 <= k < i + 1 ensures Step(page, backends, ms'[k], calls[..i + 1][k], oks'[k], ms'[k + 1]) {
      if k < i {
        assert Step(page, backends, ms[k], calls[..i][k], oks[k], ms[k + 1]);
      }
    }
  }

  lemma TraceFront(page: Positive, backends: PolicyCodec.Backends, ms: seq<Model>, calls: seq<Call>,
                   oks: seq<bool>, n: nat)
    requires IsTrace(page, backends, ms, calls, oks) && n <= |calls|
    ensures IsTrace(page, backends, ms[..n + 1], calls[..n], oks[..n])
  {
    hide Step;
    forall k | 0 <= k < n ensures Step(page, backends, ms[..n + 1][k], calls[..n][k], oks[..n][k], ms[..n + 1][k + 1]) {
      assert Step(page, backends, ms[k], calls[k], oks[k], ms[k + 1]);
    }
  }

  lemma {:induction false} TraceIsRun(page: Positive, backends: PolicyCodec.Backends, ms: seq<Model>,
                                      calls: seq<Call>, oks: seq<bool>)
    requires IsTrace(page, backends, ms, calls, oks)
    ensures IsRun(ms[0].life, AllEvents(calls, oks))
    ensures Final(ms[0].life, AllEvents(calls, oks)) == ms[|calls|].life
  {
    hide BuildStep;
    if calls != [] {
      var last := |calls| - 1;
      TraceFront(page, backends, ms, calls, oks, last);
      TraceIsRun(page, backends, ms[..last + 1], calls[..last], oks[..last]);
      var es, e := AllEvents(calls[..last], oks[..last]), EventsOf(calls[last], oks[last]);
      assert LifeStep(ms[last].life, calls[last], oks[last], ms[last + 1].life) by {
        assert Step(page, backends, ms[last], calls[last], oks[last], ms[last + 1]);
      }
      RunsCompose(ms[0].life, es, e);
    }
  }

  lemma {:induction false} RunsCompose(s: State, es: seq<Event>, more: seq<Event>)
    requires IsRun(s, es) && IsRun(Final(s, es), more)
    ensures IsRun(s, es + more) && Final(s, es + more) == Final(Final(s, es), more)
    decreases |es|
  {
    if es == [] {
      assert es + more == more;
    } else {
      assert (es + more)[1..] == es[1..] + more;
      RunsCompose(Next(s, es[0]), es[1..], more);
    }
  }

  // ---------- consequences for every run ----------

  /** Once a guard was constructed, the process stays initialized and keeps that dump's functor and policy. */
  lemma {:induction false} InitializedStays(page: Positive, backends: PolicyCodec.Backends, ms: seq<Model>,
                                            calls: seq<Call>, oks: seq<bool>, i: nat, j: nat)
    requires IsTrace(page, backends, ms, calls, oks) && i <= j <= |calls| && ms[i].life.initialized
    ensures ms[j].life.initialized && ms[j].resets == ms[i].resets
    ensures ms[j].functor == ms[i].functor && ms[j].policy == ms[i].policy
    ensures !ms[i].life.live ==> !ms[j].life.live
    ensures ms[j].life.live ==> ms[j].held == ms[i].held && ms[j].inputs == ms[i].inputs
    decreases j - i
  {
    if i < j {
      InitializedStays(page, backends, ms, calls, oks, i, j - 1);
      assert Step(page, backends, ms[j - 1], calls[j - 1], oks[j - 1], ms[j]);
    }
  }

  /** At most one construction among the calls succeeds, whichever way it is asked for. */
  lemma BuildsAtMostOnce(page: Positive, backends: PolicyCodec.Backends, ms: seq<Model>, calls: seq<Call>,
                         oks: seq<bool>, i: nat, j: nat)
    requires IsTrace(page, backends, ms, calls, oks) && i < |calls| && j < |calls|
    requires Builder(calls[i]) && oks[i] && Builder(calls[j]) && oks[j]
    ensures i == j
  {
    BuildInitializes(page, backends, ms, calls, oks, i);
    BuildInitializes(page, backends, ms, calls, oks, j);
    if i < j {
      InitializedStays(page, backends, ms, calls, oks, i + 1, j);
    } else if j < i {
      InitializedStays(page, backends, ms, calls, oks, j + 1, i);
    }
  }

  lemma BuildInitializes(page: Positive, backends: PolicyCodec.Backends, ms: seq<Model>, calls: seq<Call>,
                         oks: seq<bool>, i: nat)
    requires IsTrace(page, backends, ms, calls, oks) && i < |calls| && Builder(calls[i]) && oks[i]
    ensures !ms[i].life.initialized && ms[i + 1].life.initialized && ms[i + 1].life.live
    ensures CanBuild(page, backends, ms[i], calls[i])
    ensures Holds(page, backends, NamedDump(calls[i].args, calls[i].files).value, ms[i + 1])
    ensures InputsApplied(NamedDump(calls[i].args, calls[i].files).value.inViews, ms[i + 1].bytes)
  {
    hide CanBuild, Holds, InputsApplied;
    assert Step(page, backends, ms[i], calls[i], oks[i], ms[i + 1]);
  }

  /** Finalize succeeds only after initialize did, and only once. */
  lemma StopsAfterStart(page: Positive, backends: PolicyCodec.Backends, ms: seq<Model>, calls: seq<Call>,
                        oks: seq<bool>, j: nat)
    requires IsTrace(page, backends, ms, calls, oks) && !ms[0].life.internal
    requires j < |calls| && calls[j].Stop? && oks[j]
    ensures exists i :: 0 <= i < j && calls[i].Start? && oks[i]
    ensures forall k :: 0 <= k < |calls| && calls[k].Stop? && oks[k] ==> k == j
  {
    hide BuildStep;
    StopEnds(page, backends, ms, calls, oks, j);
    InternalIsStarted(page, backends, ms, calls, oks, j);
    forall k | 0 <= k < |calls| && calls[k].Stop? && oks[k] ensures k == j {
      StopEnds(page, backends, ms, calls, oks, k);
      if j < k {
        InitializedStays(page, backends, ms, calls, oks, j + 1, k);
      } else if k < j {
        InitializedStays(page, backends, ms, calls, oks, k + 1, j);
      }
    }
  }

  lemma StopEnds(page: Positive, backends: PolicyCodec.Backends, ms: seq<Model>, calls: seq<Call>,
                 oks: seq<bool>, j: nat)
    requires IsTrace(page, backends, ms, calls, oks) && !ms[0].life.internal
    requires j < |calls| && calls[j].Stop? && oks[j]
    ensures ms[j].life.internal && ms[j].life.initialized && ms[j].life.live
    ensures ms[j + 1].life.initialized && !ms[j + 1].life.live
  {
    hide BuildStep;
    assert Step(page, backends, ms[j], calls[j], oks[j], ms[j + 1]);
    InternalIsStarted(page, backends, ms, calls, oks, j);
  }

  /** A live guard of krepe::initialize comes from a successful call of it. */
  lemma {:induction false} InternalIsStarted(page: Positive, backends: PolicyCodec.Backends, ms: seq<Model>,
                                             calls: seq<Call>, oks: seq<bool>, j: nat)
    requires IsTrace(page, backends, ms, calls, oks) && !ms[0].life.internal && j <= |calls|
    requires ms[j].life.internal
    ensures exists i :: 0 <= i < j && calls[i].Start? && oks[i]
    ensures ms[j].life.live
    decreases j
  {
    hide BuildStep;
    if j > 0 {
      assert Step(page, backends, ms[j - 1], calls[j - 1], oks[j - 1], ms[j]);
      if !(calls[j - 1].Start? && oks[j - 1]) {
        InternalIsStarted(page, backends, ms, calls, oks, j - 1);
      }
    }
  }

  /**
   * While a guard is alive, the pages beside the program's own are exactly those that its dump needs, and
   * functor and policy are the dump's; a successful reset gives every captured byte its captured value again.
   */
  lemma LiveGuardHolds(page: Positive, backends: PolicyCodec.Backends, ms: seq<Model>, calls: seq<Call>,
                       oks: seq<bool>, i: nat, j: nat)
    requires IsTrace(page, backends, ms, calls, oks) && i < j <= |calls|
    requires Builder(calls[i]) && oks[i] && ms[j].life.live
    ensures CanBuild(page, backends, ms[i], calls[i])
    ensures var dump := NamedDump(calls[i].args, calls[i].files).value;
            && Holds(page, backends, dump, ms[j])
            && (j < |calls| && calls[j].ResetAll? && oks[j] ==> InputsApplied(dump.inViews, ms[j + 1].bytes))
  {
    BuildInitializes(page, backends, ms, calls, oks, i);
    InitializedStays(page, backends, ms, calls, oks, i + 1, j);
    if j < |calls| && calls[j].ResetAll? {
      assert Step(page, backends, ms[j], calls[j], oks[j], ms[j + 1]);
    }
  }

  /** Without a live guard nothing is held; the program's own pages change only when it maps or unmaps itself. */
  lemma {:induction false} NothingHeld(page: Positive, backends: PolicyCodec.Backends, ms: seq<Model>,
                                       calls: seq<Call>, oks: seq<bool>)
    requires IsTrace(page, backends, ms, calls, oks)
    requires !ms[0].life.live ==> ms[0].held == {}
    ensures !ms[|calls|].life.live ==> ms[|calls|].held == {}
    ensures (forall i :: 0 <= i < |calls| ==> !calls[i].Work?) ==> ms[|calls|].own == ms[0].own
  {
    hide CanBuild, Holds, KeepsBytes, InputsApplied, Applied;
    if calls != [] {
      var last := |calls| - 1;
      TraceFront(page, backends, ms, calls, oks, last);
      NothingHeld(page, backends, ms[..last + 1], calls[..last], oks[..last]);
      assert Step(page, backends, ms[last], calls[last], oks[last], ms[last + 1]);
    }
  }

  /**
   * From process start: at most one construction succeeds, finalize succeeds at most once and only after
   * initialize did, and whenever no guard is alive the page table is the program's own again, which is that
   * from the start if the program mapped nothing itself.
   */
  method RunProcess(p: Process, calls: seq<Call>) returns (oks: seq<bool>)
    requires p.Valid() && p.Abs() == START
    modifies p, p.space, p.data
    ensures p.Valid() && |oks| == |calls|
    ensures IsRun(START, AllEvents(calls, oks)) && p.Abs() == Final(START, AllEvents(calls, oks))
    ensures var es := AllEvents(calls, oks);
            && Successes(START, es, Builds) <= 1
            && Successes(START, es, Ends) <= Successes(START, es, Builds)
            && (Successes(START, es, Ends) == Successes(START, es, Builds) ==> p.scopeGuard == null)
    ensures forall i, j | 0 <= i < |calls| && 0 <= j < |calls| ::
              Builder(calls[i]) && oks[i] && Builder(calls[j]) && oks[j] ==> i == j
    ensures forall j :: 0 <= j < |calls| && calls[j].Stop? && oks[j] ==>
              && (exists i :: 0 <= i < j && calls[i].Start? && oks[i])
              && (forall k :: 0 <= k < |calls| && calls[k].Stop? && oks[k] ==> k == j)
    ensures p.scopeGuard == null ==> p.space.mapped == p.base
    ensures (forall i :: 0 <= i < |calls| ==> !calls[i].Work?) && p.scopeGuard == null ==>
              p.space.mapped == old(p.space.mapped)
  {
    hide Step, IsTrace;
    ghost var ms;
    oks, ms := RunCalls(p, calls);
    TraceLengths(p.space.page, p.backends, ms, calls, oks);
    LifeOfProcess(AllEvents(calls, oks));
    BuildsOnce(START, AllEvents(calls, oks));
    forall i, j | 0 <= i < |calls| && 0 <= j < |calls| && Builder(calls[i]) && oks[i] && Builder(calls[j]) && oks[j]
      ensures i == j
    {
      BuildsAtMostOnce(p.space.page, p.backends, ms, calls, oks, i, j);
    }
    forall j | 0 <= j < |calls| && calls[j].Stop? && oks[j]
      ensures exists i :: 0 <= i < j && calls[i].Start? && oks[i]
      ensures forall k :: 0 <= k < |calls| && calls[k].Stop? && oks[k] ==> k == j
    {
      StopsAfterStart(p.space.page, p.backends, ms, calls, oks, j);
    }
  }

  lemma TraceLengths(page: Positive, backends: PolicyCodec.Backends, ms: seq<Model>, calls: seq<Call>,
                     oks: seq<bool>)
    requires IsTrace(page, backends, ms, calls, oks)
    ensures |oks| == |calls| && |ms| == |calls| + 1
  {
  }
}
