/** Every interleaving keeps the protocol's invariant, and what follows for whole runs. */
module CaptureSafety {
  import opened DumpNames
  import opened CaptureProtocol

  // ---------- registrations ----------

  lemma LogStep(o: Options, s: State, e: Event)
    requires LogInv(o, s) && Enabled(s, e)
    ensures LogInv(o, Next(o, s, e))
  {
    if e.Register? {
      LogRegister(o, s, e.tid);
    }
  }

  lemma LogRegister(o: Options, s: State, tid: nat)
    requires LogInv(o, s) && tid in s.calls && s.calls[tid].Begun?
    ensures LogInv(o, AfterRegister(o, s, tid))
  {
    var c, s' := s.calls[tid], AfterRegister(o, s, tid);
    var log, log' := s.registrations, s'.registrations;
    assert log'[..|log|] == log;
    forall k | 0 <= k < |log'| ensures log'[k].invocation == Rank(log', k)
                                       && log'[k].dump == ShouldDump(o, log'[k].name, log'[k].invocation)
    {
      assert log'[..k] == log[..k];
      assert k < |log| ==> log'[k] == log[k];
    }
  }

  // ---------- ids ----------

  lemma KnownAppend(s: State, s': State, entry: Entry)
    requires s'.registrations == s.registrations + [entry]
    ensures forall id :: Known(s', id) <==> Known(s, id) || id == entry.id
    ensures forall id, name :: Dumped(s', id, name) <==>
              Dumped(s, id, name) || (id == entry.id && name == entry.name && entry.dump)
  {
    var log, log' := s.registrations, s'.registrations;
    assert log'[|log|] == entry;
    assert forall k :: 0 <= k < |log| ==> log'[k] == log[k];
  }

  lemma IdStep(o: Options, s: State, e: Event)
    requires IdInv(s) && Enabled(s, e)
    ensures IdInv(Next(o, s, e))
  {
    match e
    case Fetch(tid, name) => IdFetch(s, tid, name, Next(o, s, e));
    case Register(tid) => IdRegister(o, s, tid);
    case Create(tid, ok, touched) => IdCreate(s, tid, ok, touched);
    case Publish(tid) => IdPublish(s, tid);
    case Take(tid, id) => IdTake(s, tid, id);
    case Append(tid, ok, touched) => IdAppend(s, tid, ok, touched);
    case WillDump(_) => IdSame(s, Next(o, s, e));
  }

  lemma SameKnown(s: State, s': State)
    requires s'.registrations == s.registrations
    ensures forall id :: Known(s', id) <==> Known(s, id)
    ensures forall id, name :: Dumped(s', id, name) <==> Dumped(s, id, name)
  {
  }

  lemma IdSame(s: State, s': State)
    requires IdInv(s)
    requires s'.nextId == s.nextId && s'.calls == s.calls && s'.registrations == s.registrations
    requires s'.returned == s.returned && s'.ended == s.ended && s'.states == s.states
    ensures IdInv(s')
  {
    SameKnown(s, s');
  }

  /** Thread `tid` is the only one whose call changes, and no begin call is lost before it returns. */
  ghost predicate OneMoves(s: State, s': State, tid: nat) {
    && (forall t :: t in s.calls && t != tid ==> t in s'.calls && s'.calls[t] == s.calls[t])
    && (tid in s.calls && InBegin(s.calls[tid]) ==>
          s.calls[tid].id in s'.returned
          || (tid in s'.calls && InBegin(s'.calls[tid]) && s'.calls[tid].id == s.calls[tid].id))
    && s.returned <= s'.returned
  }

  lemma KeepsBeginner(s: State, s': State, tid: nat)
    requires IdInv(s) && OneMoves(s, s', tid)
    ensures forall id :: Known(s, id) && id !in s'.returned ==>
              exists t :: t in s'.calls && InBegin(s'.calls[t]) && s'.calls[t].id == id
  {
    forall id | Known(s, id) && id !in s'.returned
      ensures exists t :: t in s'.calls && InBegin(s'.calls[t]) && s'.calls[t].id == id
    {
      var t :| t in s.calls && InBegin(s.calls[t]) && s.calls[t].id == id;
      assert s'.calls[t].id == id;
    }
  }

  lemma IdFetch(s: State, tid: nat, name: string, s': State)
    requires IdInv(s) && tid !in s.calls
    requires s' == s.(nextId := s.nextId + 1, calls := s.calls[tid := Begun(s.nextId, name)])
    ensures IdInv(s')
  {
    hide Known;
    SameKnown(s, s');
    KeepsBeginner(s, s', tid);
    FreshUnknown(s, s.nextId);
  }

  lemma KnownBelow(s: State, id: nat)
    requires IdInv(s) && Known(s, id)
    ensures id < s.nextId
  {
  }

  lemma FreshUnknown(s: State, id: nat)
    requires IdInv(s) && s.nextId <= id
    ensures !Known(s, id)
  {
  }

  lemma IdRegister(o: Options, s: State, tid: nat)
    requires IdInv(s) && tid in s.calls && s.calls[tid].Begun?
    ensures IdInv(AfterRegister(o, s, tid))
  {
    hide Known, ShouldDump, Count;
    var c, s' := s.calls[tid], AfterRegister(o, s, tid);
    var invocation := Count(s.invocations, c.name) + 1;
    var entry := Entry(c.id, c.name, invocation, ShouldDump(o, c.name, invocation));
    KnownAppendId(s, s', entry);
    KeepsBeginner(s, s', tid);
    IdsStayDistinct(s, s', entry);
  }

  lemma KnownAppendId(s: State, s': State, entry: Entry)
    requires s'.registrations == s.registrations + [entry]
    ensures forall id :: Known(s', id) <==> Known(s, id) || id == entry.id
  {
    KnownAppend(s, s', entry);
  }

  lemma IdsStayDistinct(s: State, s': State, entry: Entry)
    requires s'.registrations == s.registrations + [entry] && !Known(s, entry.id)
    requires forall j, k :: 0 <= j < k < |s.registrations| ==> s.registrations[j].id != s.registrations[k].id
    ensures forall j, k :: 0 <= j < k < |s'.registrations| ==> s'.registrations[j].id != s'.registrations[k].id
  {
    assert forall j :: 0 <= j < |s.registrations| ==> Known(s, s.registrations[j].id);
  }

  lemma IdCreate(s: State, tid: nat, ok: bool, touched: bool)
    requires IdInv(s) && tid in s.calls && s.calls[tid].Registered?
    ensures IdInv(AfterCreate(s, tid, ok, touched))
  {
    hide Known;
    var s' := AfterCreate(s, tid, ok, touched);
    SameKnown(s, s');
    KeepsBeginner(s, s', tid);
  }

  lemma IdPublish(s: State, tid: nat)
    requires IdInv(s) && tid in s.calls && s.calls[tid].Created?
    ensures IdInv(AfterPublish(s, tid))
  {
    hide Known;
    var s' := AfterPublish(s, tid);
    SameKnown(s, s');
    KeepsBeginner(s, s', tid);
  }

  lemma IdTake(s: State, tid: nat, id: nat)
    requires IdInv(s) && tid !in s.calls
    ensures IdInv(AfterTake(s, tid, id))
  {
    hide Known;
    if id in s.states {
      KnownBelow(s, id);
    }
    var s' := AfterTake(s, tid, id);
    SameKnown(s, s');
    KeepsBeginner(s, s', tid);
  }

  lemma IdAppend(s: State, tid: nat, ok: bool, touched: bool)
    requires IdInv(s) && tid in s.calls && s.calls[tid].Ended?
    ensures IdInv(AfterAppend(s, tid, ok, touched))
  {
    hide Known;
    var s' := AfterAppend(s, tid, ok, touched);
    SameKnown(s, s');
    KeepsBeginner(s, s', tid);
  }

  // ---------- files ----------

  lemma FileStep(o: Options, s: State, e: Event)
    requires Inv(o, s) && Enabled(s, e)
    ensures FileInv(Next(o, s, e))
  {
    match e
    case Fetch(tid, name) => FileFetch(s, Next(o, s, e), tid, Begun(s.nextId, name));
    case Register(tid) => FileRegister(o, s, tid);
    case Create(tid, ok, touched) => FileCreate(s, tid, ok, touched);
    case Publish(tid) => FilePublish(s, tid);
    case Take(tid, id) => FileTake(s, tid, id);
    case Append(tid, ok, touched) => FileAppend(s, tid, ok, touched);
    case WillDump(_) => FileSame(s, Next(o, s, e));
  }

  lemma SameDumped(s: State, s': State)
    requires s.registrations <= s'.registrations
    ensures forall id, name :: Dumped(s, id, name) ==> Dumped(s', id, name)
    ensures forall path, id :: OwnPath(s, path, id) ==> OwnPath(s', path, id)
  {
    assert forall k :: 0 <= k < |s.registrations| ==> s'.registrations[k] == s.registrations[k];
    forall id, name | Dumped(s, id, name) ensures Dumped(s', id, name) {
      var k :| 0 <= k < |s.registrations| && s.registrations[k].id == id && s.registrations[k].name == name
               && s.registrations[k].dump;
      assert s'.registrations[k].dump;
    }
  }

  lemma FileSame(s: State, s': State)
    requires FileInv(s) && s'.registrations == s.registrations
    requires s'.calls == s.calls && s'.ended == s.ended && s'.states == s.states && s'.files == s.files
    requires s'.returned == s.returned
    ensures FileInv(s')
  {
    SameDumped(s, s');
    hide Dumped, OwnPath;
  }

  lemma FileFetch(s: State, s': State, tid: nat, c: Call)
    requires FileInv(s) && s'.registrations == s.registrations && tid !in s.calls
    requires c.Begun? && s'.calls == s.calls[tid := c]
    requires s'.ended == s.ended && s'.states == s.states && s'.files == s.files && s'.returned == s.returned
    ensures FileInv(s')
  {
    SameDumped(s, s');
    hide Dumped, OwnPath;
  }

  /** Different kernels have different dump files. */
  lemma PathsDiffer(name: string, id: nat, name': string, id': nat)
    requires id != id'
    ensures DumpFilename(name, id) != DumpFilename(name', id')
  {
    FilenamesDistinct(name, id, name', id');
  }

  lemma OwnPathOther(s: State, path: string, id: nat, name: string, id': nat)
    requires OwnPath(s, path, id) && id != id'
    ensures path != DumpFilename(name, id')
  {
    var name' :| path == DumpFilename(name', id) && Dumped(s, id, name');
    PathsDiffer(name', id, name, id');
  }

  lemma OwnerKnown(s: State, path: string, id: nat)
    requires OwnPath(s, path, id)
    ensures Known(s, id)
  {
    var name :| path == DumpFilename(name, id) && Dumped(s, id, name);
    var k :| 0 <= k < |s.registrations| && s.registrations[k].id == id && s.registrations[k].name == name
             && s.registrations[k].dump;
    assert s.registrations[k].id == id;
  }

  /** The dump file of the next kernel does not exist yet, whatever its label. */
  lemma FreshPath(o: Options, s: State, name: string)
    requires Inv(o, s)
    ensures DumpFilename(name, s.nextId) !in s.files
  {
    FreshUnknown(s, s.nextId);
    UnknownPath(s, name, s.nextId);
  }

  /** A stored path names a whole file of that kernel, without output so far. */
  lemma StoredPath(o: Options, s: State, id: nat)
    requires Inv(o, s) && id in s.states && s.states[id].dumpPath != ""
    ensures Awaits(s, s.states[id].dumpPath, id)
  {
  }

  lemma FileRegister(o: Options, s: State, tid: nat)
    requires Inv(o, s) && tid in s.calls && s.calls[tid].Begun?
    ensures FileInv(AfterRegister(o, s, tid))
  {
    hide LogInv, FileInv, Known, Dumped, OwnPath, DumpFilename, ShouldDump, Count;
    var c, s' := s.calls[tid], AfterRegister(o, s, tid);
    var invocation := Count(s.invocations, c.name) + 1;
    SameDumped(s, s');
    KnownAppend(s, s', Entry(c.id, c.name, invocation, ShouldDump(o, c.name, invocation)));
    UnknownPath(s, c.name, c.id);
    StateOfUnknown(s, c.id);
    FileRegisterMaps(s, s', tid);
  }

  /** A kernel that is not registered yet has no file. */
  lemma UnknownPath(s: State, name: string, id: nat)
    requires FileInv(s) && !Known(s, id)
    ensures DumpFilename(name, id) !in s.files
  {
    forall path | path in s.files ensures path != DumpFilename(name, id) {
      OwnerKnown(s, path, s.files[path].creator);
      OwnPathOther(s, path, s.files[path].creator, name, id);
    }
  }

  lemma StateOfUnknown(s: State, id: nat)
    requires IdInv(s) && !Known(s, id)
    ensures id !in s.states
  {
  }

  lemma FileRegisterMaps(s: State, s': State, tid: nat)
    requires FileInv(s) && tid in s.calls
    requires s'.files == s.files && s'.ended == s.ended && s.returned <= s'.returned
    requires forall t :: t in s'.calls && t != tid ==> t in s.calls && s'.calls[t] == s.calls[t]
    requires tid in s'.calls ==>
               && s'.calls[tid].Registered? && Dumped(s', s'.calls[tid].id, s'.calls[tid].name)
               && DumpFilename(s'.calls[tid].name, s'.calls[tid].id) !in s.files
    requires forall id :: id in s'.states && s'.states[id].dumpPath != "" ==>
               id in s.states && s.states[id] == s'.states[id]
    requires forall id, name :: Dumped(s, id, name) ==> Dumped(s', id, name)
    requires forall path, id :: OwnPath(s, path, id) ==> OwnPath(s', path, id)
    ensures FileInv(s')
  {
    hide Dumped, OwnPath, DumpFilename;
  }

  lemma FileCreate(s: State, tid: nat, ok: bool, touched: bool)
    requires IdInv(s) && FileInv(s) && tid in s.calls && s.calls[tid].Registered?
    ensures FileInv(AfterCreate(s, tid, ok, touched))
  {
    var c, s' := s.calls[tid], AfterCreate(s, tid, ok, touched);
    SameDumped(s, s');
    var path := DumpFilename(c.name, c.id);
    assert OwnPath(s', path, c.id) by {
      assert Dumped(s', c.id, c.name);
    }
    forall t | t in s.calls && t != tid && InBegin(s.calls[t])
      ensures DumpFilename(s.calls[t].name, s.calls[t].id) != path
    {
      PathsDiffer(s.calls[t].name, s.calls[t].id, c.name, c.id);
    }
    FileCreateMaps(s, s', tid, path, ok);
  }

  lemma FileCreateMaps(s: State, s': State, tid: nat, path: string, ok: bool)
    requires FileInv(s) && tid in s.calls && s.calls[tid].Registered? && path !in s.files
    requires var c := s.calls[tid];
             && path == DumpFilename(c.name, c.id) && OwnPath(s', path, c.id)
             && s'.calls == s.calls[tid := Created(c.id, c.name, ok)]
             && ((s'.files == s.files && !ok) || s'.files == s.files[path := File(c.id, ok, 0, false)])
    requires s'.states == s.states && s'.ended == s.ended && s'.returned == s.returned
    requires forall t :: t in s.calls && t != tid && InBegin(s.calls[t]) ==>
               DumpFilename(s.calls[t].name, s.calls[t].id) != path
    requires forall id, name :: Dumped(s, id, name) ==> Dumped(s', id, name)
    requires forall p, id :: OwnPath(s, p, id) ==> OwnPath(s', p, id)
    ensures FileInv(s')
  {
    hide Dumped, OwnPath, DumpFilename;
    assert BeginFiles(s');
    assert EndFiles(s');
  }

  lemma FilePublish(s: State, tid: nat)
    requires FileInv(s) && tid in s.calls && s.calls[tid].Created?
    ensures FileInv(AfterPublish(s, tid))
  {
    hide Dumped, OwnPath, DumpFilename, BeginFiles, EndFiles, StateFiles, OwnedFiles;
    SameDumped(s, AfterPublish(s, tid));
    PublishKeepsCalls(s, tid);
    PublishKeepsStates(s, tid);
    PublishKeepsOwners(s, tid);
  }

  lemma PublishKeepsCalls(s: State, tid: nat)
    requires BeginFiles(s) && EndFiles(s) && tid in s.calls && s.calls[tid].Created?
    requires forall id, name :: Dumped(s, id, name) ==> Dumped(AfterPublish(s, tid), id, name)
    ensures BeginFiles(AfterPublish(s, tid)) && EndFiles(AfterPublish(s, tid))
  {
    hide Dumped, DumpFilename;
  }

  lemma PublishKeepsStates(s: State, tid: nat)
    requires BeginFiles(s) && StateFiles(s) && tid in s.calls && s.calls[tid].Created?
    ensures StateFiles(AfterPublish(s, tid))
  {
    hide Dumped, DumpFilename;
  }

  lemma PublishKeepsOwners(s: State, tid: nat)
    requires OwnedFiles(s) && tid in s.calls && s.calls[tid].Created?
    requires forall path, id :: OwnPath(s, path, id) ==> OwnPath(AfterPublish(s, tid), path, id)
    ensures OwnedFiles(AfterPublish(s, tid))
  {
    hide OwnPath;
  }

  lemma FileTake(s: State, tid: nat, id: nat)
    requires IdInv(s) && FileInv(s) && tid !in s.calls
    ensures FileInv(AfterTake(s, tid, id))
  {
    SameDumped(s, AfterTake(s, tid, id));
    StatesNotEnded(s);
    FileTakeMaps(s, AfterTake(s, tid, id), tid, id);
  }

  lemma FileTakeMaps(s: State, s': State, tid: nat, id: nat)
    requires FileInv(s) && tid !in s.calls && s' == AfterTake(s, tid, id)
    requires id in s.states ==> id !in s.ended
    requires forall id, name :: Dumped(s, id, name) ==> Dumped(s', id, name)
    requires forall p, id :: OwnPath(s, p, id) ==> OwnPath(s', p, id)
    ensures FileInv(s')
  {
    hide Dumped, OwnPath, DumpFilename;
    assert BeginFiles(s');
    assert EndFiles(s');
  }

  lemma StatesNotEnded(s: State)
    requires IdInv(s)
    ensures forall id :: id in s.states ==> id !in s.ended
    ensures forall t :: t in s.calls && InBegin(s.calls[t]) ==> s.calls[t].id !in s.returned
  {
  }

  lemma FileAppend(s: State, tid: nat, ok: bool, touched: bool)
    requires IdInv(s) && FileInv(s) && tid in s.calls && s.calls[tid].Ended?
    ensures FileInv(AfterAppend(s, tid, ok, touched))
  {
    SameDumped(s, AfterAppend(s, tid, ok, touched));
    StatesNotEnded(s);
    FileAppendMaps(s, AfterAppend(s, tid, ok, touched), tid, ok, touched);
  }

  lemma FileAppendMaps(s: State, s': State, tid: nat, ok: bool, touched: bool)
    requires FileInv(s) && tid in s.calls && s.calls[tid].Ended? && s' == AfterAppend(s, tid, ok, touched)
    requires forall id :: id in s.states ==> id !in s.ended
    requires forall t :: t in s.calls && InBegin(s.calls[t]) ==> s.calls[t].id !in s.returned
    requires forall id, name :: Dumped(s, id, name) ==> Dumped(s', id, name)
    requires forall p, id :: OwnPath(s, p, id) ==> OwnPath(s', p, id)
    ensures FileInv(s')
  {
    hide Dumped, OwnPath, DumpFilename;
    assert BeginFiles(s');
    assert EndFiles(s');
  }

  // ---------- whole runs ----------

  ghost predicate IsRun(o: Options, s: State, es: seq<Event>)
    decreases |es|
  {
    es == [] || (Enabled(s, es[0]) && IsRun(o, Next(o, s, es[0]), es[1..]))
  }

  function Final(o: Options, s: State, es: seq<Event>): State
    requires IsRun(o, s, es)
    decreases |es|
  {
    if es == [] then s else Final(o, Next(o, s, es[0]), es[1..])
  }

  lemma {:induction false} RunsKeepInvariant(o: Options, s: State, es: seq<Event>)
    requires Inv(o, s) && IsRun(o, s, es)
    ensures Inv(o, Final(o, s, es))
    decreases |es|
  {
    if es != [] {
      LogStep(o, s, es[0]);
      IdStep(o, s, es[0]);
      FileStep(o, s, es[0]);
      RunsKeepInvariant(o, Next(o, s, es[0]), es[1..]);
    }
  }

  /** The events lead from the start of the process to the state. */
  ghost predicate RunsTo(o: Options, es: seq<Event>, s: State) {
    IsRun(o, START, es) && Final(o, START, es) == s
  }

  lemma RunExtends(o: Options, es: seq<Event>, s: State, e: Event)
    requires RunsTo(o, es, s) && Enabled(s, e)
    ensures RunsTo(o, es + [e], Next(o, s, e))
  {
    RunAppend(o, START, es, e);
  }

  lemma {:induction false} RunAppend(o: Options, s: State, es: seq<Event>, e: Event)
    requires IsRun(o, s, es) && Enabled(Final(o, s, es), e)
    ensures IsRun(o, s, es + [e]) && Final(o, s, es + [e]) == Next(o, Final(o, s, es), e)
    decreases |es|
  {
    if es == [] {
      assert ([e])[1..] == [];
    } else {
      assert (es + [e])[1..] == es[1..] + [e];
      RunAppend(o, Next(o, s, es[0]), es[1..], e);
    }
  }

  /** A creation that fails may leave an incomplete file, and a failed append an incomplete output part. */
  lemma IncompleteFilesHappen(name: string)
    requires name != ""
    ensures var o, begin := Options(name, true, 1), [Fetch(0, name)] + [Register(0)];
            && RunsInto(o, begin + [Create(0, false, true)], map[DumpFilename(name, 1) := File(1, false, 0, false)])
            && RunsInto(o, begin + [Create(0, true, false)] + [Publish(0)] + [Take(0, 1)] + [Append(0, false, true)],
                        map[DumpFilename(name, 1) := File(1, true, 1, true)])
  {
    hide DumpFilename, IsRun, Final;
    var o, begin := Options(name, true, 1), [Fetch(0, name)] + [Register(0)];
    var s := BeganFirst(name);
    OneStep(o, START, begin, s, Create(0, false, true));
    OneStep(o, START, begin, s, Create(0, true, false));
    var s3 := Next(o, s, Create(0, true, false));
    var s4 := Next(o, s3, Publish(0));
    var s5 := Next(o, s4, Take(0, 1));
    PathNotEmpty(name, 1);
    OneStep(o, START, begin + [Create(0, true, false)], s3, Publish(0));
    OneStep(o, START, begin + [Create(0, true, false)] + [Publish(0)], s4, Take(0, 1));
    OneStep(o, START, begin + [Create(0, true, false)] + [Publish(0)] + [Take(0, 1)], s5, Append(0, false, true));
  }

  lemma BeganFirst(name: string) returns (s: State)
    requires name != ""
    ensures var o, es := Options(name, true, 1), [Fetch(0, name)] + [Register(0)];
            IsRun(o, START, es) && Final(o, START, es) == s
    ensures s.calls == map[0 := Registered(1, name)] && s.files == map[]
    ensures s.states == map[1 := KernelState(1, "")] && s.ended == {}
  {
    var o := Options(name, true, 1);
    s := Next(o, Next(o, START, Fetch(0, name)), Register(0));
    OneStep(o, START, [], START, Fetch(0, name));
    assert [] + [Fetch(0, name)] == [Fetch(0, name)];
    OneStep(o, START, [Fetch(0, name)], Next(o, START, Fetch(0, name)), Register(0));
  }

  /** The events are a run from the start that ends with these files. */
  ghost predicate RunsInto(o: Options, es: seq<Event>, files: map<string, File>) {
    IsRun(o, START, es) && Final(o, START, es).files == files
  }

  lemma PathNotEmpty(name: string, id: nat)
    ensures DumpFilename(name, id) != ""
  {
  }

  lemma OneStep(o: Options, s: State, es: seq<Event>, s': State, e: Event)
    requires IsRun(o, s, es) && Final(o, s, es) == s' && Enabled(s', e)
    ensures IsRun(o, s, es + [e]) && Final(o, s, es + [e]) == Next(o, s', e)
  {
    RunAppend(o, s, es, e);
  }

  /** Kernel ids are unique, and each invocation number is the kernel's rank among same-label begins. */
  lemma IdsAndRanks(o: Options, es: seq<Event>, j: nat, k: nat)
    requires IsRun(o, START, es)
    ensures var log := Final(o, START, es).registrations;
            j < |log| && k < |log| ==>
              && (log[j].id == log[k].id ==> j == k)
              && log[k].invocation == Rank(log, k)
              && log[k].dump == (o.hasInvocation && o.name != "" && log[k].name == o.name
                                 && Rank(log, k) == o.invocation)
              && (log[j].dump && log[k].dump ==> j == k)
  {
    RunsKeepInvariant(o, START, es);
    var s := Final(o, START, es);
    var log := s.registrations;
    if j < |log| && k < |log| && log[j].dump && log[k].dump {
      OneDump(o, s, j, k);
    }
  }

  /**
   * In any reachable state there is at most one dump file, made by the one kernel the selection names; it has
   * at most one output part, added only after that kernel's own creation succeeded and the kernel ended.
   */
  lemma OneFile(o: Options, es: seq<Event>, path: string, path': string)
    requires IsRun(o, START, es)
    requires path in Final(o, START, es).files && path' in Final(o, START, es).files
    ensures path == path'
    ensures var s := Final(o, START, es);
            var f := s.files[path];
            && (exists name :: path == DumpFilename(name, f.creator) && Dumped(s, f.creator, name))
            && f.outs <= 1
            && (f.outs == 1 ==> f.whole && f.creator in s.ended)
            && (f.torn ==> f.outs == 1)
  {
    RunsKeepInvariant(o, START, es);
    var s := Final(o, START, es);
    assert OwnPath(s, path, s.files[path].creator) && OwnPath(s, path', s.files[path'].creator);
    var name :| path == DumpFilename(name, s.files[path].creator) && Dumped(s, s.files[path].creator, name);
    var name' :| path' == DumpFilename(name', s.files[path'].creator) && Dumped(s, s.files[path'].creator, name');
    SameDump(o, s, s.files[path].creator, name, s.files[path'].creator, name');
  }

  /** All kernels that were chosen for dumping are the same one. */
  lemma SameDump(o: Options, s: State, id: nat, name: string, id': nat, name': string)
    requires LogInv(o, s) && Dumped(s, id, name) && Dumped(s, id', name')
    ensures id == id' && name == name'
  {
    var j :| 0 <= j < |s.registrations| && s.registrations[j].id == id && s.registrations[j].name == name
             && s.registrations[j].dump;
    var k :| 0 <= k < |s.registrations| && s.registrations[k].id == id' && s.registrations[k].name == name'
             && s.registrations[k].dump;
    OneDump(o, s, j, k);
  }

  /** Once every begun kernel has ended and no call is running, no kernel state is left. */
  lemma NothingLeft(o: Options, es: seq<Event>)
    requires IsRun(o, START, es)
    requires var s := Final(o, START, es);
             s.calls == map[] && forall k :: 0 <= k < |s.registrations| ==> s.registrations[k].id in s.ended
    ensures Final(o, START, es).states == map[]
  {
    RunsKeepInvariant(o, START, es);
    var s := Final(o, START, es);
    assert forall id :: Known(s, id) ==> id in s.ended;
    assert forall id :: id in s.states ==> Known(s, id) && id !in s.ended;
    assert s.states.Keys == {};
  }

  /**
   * The question asked before a launch has the answer that the next registration of that label gives, however
   * many steps of other threads and other labels come in between.
   */
  lemma WillDumpIsRight(o: Options, s: State, es: seq<Event>, tid: nat)
    requires Inv(o, s) && IsRun(o, s, es)
    requires var s' := Final(o, s, es);
             && tid in s'.calls && s'.calls[tid].Begun?
             && CountOf(s'.registrations, s'.calls[tid].name) == CountOf(s.registrations, s'.calls[tid].name)
    ensures var s' := Final(o, s, es);
            var name := s'.calls[tid].name;
            var log := AfterRegister(o, s', tid).registrations;
            && log[|log| - 1].name == name
            && (log[|log| - 1].dump <==> ShouldDump(o, name, Count(s.invocations, name) + 1))
  {
    hide Inv, ShouldDump, CountOf, IsRun, Final;
    RunsKeepInvariant(o, s, es);
    InvocationsAreCounts(o, s, Final(o, s, es).calls[tid].name);
    InvocationsAreCounts(o, Final(o, s, es), Final(o, s, es).calls[tid].name);
  }

  lemma InvocationsAreCounts(o: Options, s: State, name: string)
    requires Inv(o, s)
    ensures Count(s.invocations, name) == CountOf(s.registrations, name)
  {
  }
}
