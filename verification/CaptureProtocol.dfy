/**
 * Kernel begin and end as they interleave between threads. Each locked region, the atomic counter and each
 * file operation is one step; a thread is inside at most one begin or end call.
 */
module CaptureProtocol {
  import opened DumpNames

  /** The command-line selection: a label (empty selects nothing) and an invocation (None if unreadable). */
  datatype Options = Options(name: string, hasInvocation: bool, invocation: nat)

  predicate ShouldDump(o: Options, name: string, invocation: nat) {
    o.hasInvocation && o.name != "" && name == o.name && invocation == o.invocation
  }

  /** Where a thread stands in its current call. */
  datatype Call =
    | Begun(id: nat, name: string)                   // has its kernel id
    | Registered(id: nat, name: string)              // is registered and will be dumped
    | Created(id: nat, name: string, ok: bool)       // tried to create the dump
    | Ended(id: nat, path: string)                   // took its kernel state away, and it named a dump

  datatype KernelState = KernelState(invocation: nat, dumpPath: string)

  /**
   * A dump file: who created it, whether the input part is whole, how many output parts were begun in it, and
   * whether one of those is incomplete.
   */
  datatype File = File(creator: nat, whole: bool, outs: nat, torn: bool)

  /** One registration, in the order the lock was taken. */
  datatype Entry = Entry(id: nat, name: string, invocation: nat, dump: bool)

  datatype State = State(nextId: nat, invocations: map<string, nat>, states: map<nat, KernelState>,
                         calls: map<nat, Call>, files: map<string, File>,
                         registrations: seq<Entry>, returned: set<nat>, ended: set<nat>)

  const START := State(1, map[], map[], map[], map[], [], {}, {})

  datatype Event =
    | Fetch(tid: nat, name: string)
    | Register(tid: nat)
    | Create(tid: nat, ok: bool, touched: bool)
    | Publish(tid: nat)
    | Take(tid: nat, id: nat)
    | Append(tid: nat, ok: bool, touched: bool)
    | WillDump(name: string)

  function Count(m: map<string, nat>, name: string): nat {
    if name in m then m[name] else 0
  }

  /** A thread starts a call when it is in none. An end call may name any kernel, known or not, at any time. */
  predicate Enabled(s: State, e: Event) {
    match e
    case Fetch(tid, _) => tid !in s.calls
    case Register(tid) => tid in s.calls && s.calls[tid].Begun?
    case Create(tid, _, _) => tid in s.calls && s.calls[tid].Registered?
    case Publish(tid) => tid in s.calls && s.calls[tid].Created?
    case Take(tid, _) => tid !in s.calls
    case Append(tid, _, _) => tid in s.calls && s.calls[tid].Ended?
    case WillDump(_) => true
  }

  function Next(o: Options, s: State, e: Event): State
    requires Enabled(s, e)
  {
    match e
    case Fetch(tid, name) => s.(nextId := s.nextId + 1, calls := s.calls[tid := Begun(s.nextId, name)])
    case Register(tid) => AfterRegister(o, s, tid)
    case Create(tid, ok, touched) => AfterCreate(s, tid, ok, touched)
    case Publish(tid) => AfterPublish(s, tid)
    case Take(tid, id) => AfterTake(s, tid, id)
    case Append(tid, ok, touched) => AfterAppend(s, tid, ok, touched)
    case WillDump(name) => s.(invocations := s.invocations[name := Count(s.invocations, name)])
  }

  /** Counts the invocation, decides, and stores the kernel's state; a kernel that is not dumped returns. */
  function AfterRegister(o: Options, s: State, tid: nat): State
    requires tid in s.calls && s.calls[tid].Begun?
  {
    var c := s.calls[tid];
    var invocation := Count(s.invocations, c.name) + 1;
    var dump := ShouldDump(o, c.name, invocation);
    s.(invocations := s.invocations[c.name := invocation],
       states := s.states[c.id := KernelState(invocation, "")],
       calls := if dump then s.calls[tid := Registered(c.id, c.name)] else s.calls - {tid},
       registrations := s.registrations + [Entry(c.id, c.name, invocation, dump)],
       returned := if dump then s.returned else s.returned + {c.id})
  }

  /** Creating truncates an existing file; a failed attempt may leave a partial file behind. */
  function AfterCreate(s: State, tid: nat, ok: bool, touched: bool): State
    requires tid in s.calls && s.calls[tid].Registered?
  {
    var c := s.calls[tid];
    var path := DumpFilename(c.name, c.id);
    s.(files := if ok || touched then s.files[path := File(c.id, ok, 0, false)] else s.files,
       calls := s.calls[tid := Created(c.id, c.name, ok)])
  }

  /** The path is stored only after a successful creation and if the kernel is still known. */
  function AfterPublish(s: State, tid: nat): State
    requires tid in s.calls && s.calls[tid].Created?
  {
    var c := s.calls[tid];
    s.(states := if c.id in s.states && c.ok
                 then s.states[c.id := s.states[c.id].(dumpPath := DumpFilename(c.name, c.id))] else s.states,
       calls := s.calls - {tid},
       returned := s.returned + {c.id})
  }

  /**
   * Ending a kernel takes its state away; only one that names a dump has more to do. A kernel counts as ended
   * once an end call has found its state; an end call that comes too early or again finds nothing.
   */
  function AfterTake(s: State, tid: nat, id: nat): State {
    var known := id in s.states && s.states[id].dumpPath != "";
    s.(states := s.states - {id},
       calls := if known then s.calls[tid := Ended(id, s.states[id].dumpPath)] else s.calls,
       ended := if id in s.states then s.ended + {id} else s.ended)
  }

  /**
   * Appending adds an output part to the file, whatever it holds already; a failed attempt may leave an
   * incomplete part behind.
   */
  function AfterAppend(s: State, tid: nat, ok: bool, touched: bool): State
    requires tid in s.calls && s.calls[tid].Ended?
  {
    var path := s.calls[tid].path;
    s.(files := if (ok || touched) && path in s.files then s.files[path := Appended(s.files[path], ok)] else s.files,
       calls := s.calls - {tid})
  }

  function Appended(f: File, ok: bool): File {
    f.(outs := f.outs + 1, torn := f.torn || !ok)
  }

  // ---------- registrations ----------

  /** Position of the k-th registration among those of its label, counted from 1. */
  function Rank(log: seq<Entry>, k: nat): nat
    requires k < |log|
  {
    CountOf(log[..k], log[k].name) + 1
  }

  function CountOf(log: seq<Entry>, name: string): nat {
    if log == [] then 0
    else CountOf(log[..|log| - 1], name) + (if log[|log| - 1].name == name then 1 else 0)
  }

  ghost predicate LogInv(o: Options, s: State) {
    && (forall name :: Count(s.invocations, name) == CountOf(s.registrations, name))
    && forall k :: 0 <= k < |s.registrations| ==>
         && s.registrations[k].invocation == Rank(s.registrations, k)
         && s.registrations[k].dump == ShouldDump(o, s.registrations[k].name, s.registrations[k].invocation)
  }

  lemma {:induction false} CountOfGrows(log: seq<Entry>, j: nat, k: nat)
    requires j < k <= |log|
    ensures CountOf(log[..j], log[j].name) < CountOf(log[..k], log[j].name)
  {
    assert log[..k][..k - 1] == log[..k - 1];
    if j + 1 < k {
      CountOfGrows(log, j, k - 1);
    }
  }

  /** Different kernels of one label have different invocation numbers, so at most one is dumped. */
  lemma OneDump(o: Options, s: State, j: nat, k: nat)
    requires LogInv(o, s)
    requires j < |s.registrations| && k < |s.registrations|
    requires s.registrations[j].dump && s.registrations[k].dump
    ensures j == k
  {
    if j < k {
      CountOfGrows(s.registrations, j, k);
    } else if k < j {
      CountOfGrows(s.registrations, k, j);
    }
  }

  // ---------- ids ----------

  ghost predicate Known(s: State, id: nat) {
    exists k :: 0 <= k < |s.registrations| && s.registrations[k].id == id
  }

  ghost predicate Dumped(s: State, id: nat, name: string) {
    exists k :: 0 <= k < |s.registrations| && s.registrations[k].id == id && s.registrations[k].name == name
                && s.registrations[k].dump
  }

  ghost predicate InBegin(c: Call) { !c.Ended? }

  /**
   * Ids in begin calls are below the counter and pairwise different; a kernel is known from its registration
   * on, has returned unless its begin call is still running, and keeps its state until it is ended.
   */
  ghost predicate IdInv(s: State) {
    && (forall t :: t in s.calls ==> s.calls[t].id < s.nextId)
    && (forall t :: t in s.calls && InBegin(s.calls[t]) ==>
          s.calls[t].id !in s.returned && (Known(s, s.calls[t].id) <==> !s.calls[t].Begun?))
    && (forall t, u :: t in s.calls && u in s.calls && t != u && InBegin(s.calls[t]) && InBegin(s.calls[u]) ==>
          s.calls[t].id != s.calls[u].id)
    && (forall k :: 0 <= k < |s.registrations| ==> s.registrations[k].id < s.nextId)
    && (forall j, k :: 0 <= j < k < |s.registrations| ==> s.registrations[j].id != s.registrations[k].id)
    && (forall id :: id in s.returned ==> Known(s, id))
    && (forall id :: id in s.ended ==> Known(s, id))
    && (forall id :: id in s.states <==> Known(s, id) && id !in s.ended)
    && (forall id :: Known(s, id) && id !in s.returned ==>
          exists t :: t in s.calls && InBegin(s.calls[t]) && s.calls[t].id == id)
  }

  // ---------- files ----------

  /** A whole dump of kernel `id` that has no output part yet. */
  ghost predicate Awaits(s: State, path: string, id: nat) {
    path in s.files && s.files[path] == File(id, true, 0, false)
  }

  /** Begin calls past registration are dumping; before creation there is no file, after it a whole one. */
  ghost predicate BeginFiles(s: State) {
    forall t :: t in s.calls ==>
      match s.calls[t]
      case Begun(_, _) => true
      case Registered(id, name) => Dumped(s, id, name) && DumpFilename(name, id) !in s.files
      case Created(id, name, ok) => Dumped(s, id, name) && (ok ==> Awaits(s, DumpFilename(name, id), id))
      case Ended(_, _) => true
  }

  /** End calls that still have to append hold the path of a whole file of their own kernel. */
  ghost predicate EndFiles(s: State) {
    && (forall t :: t in s.calls && s.calls[t].Ended? ==>
          && s.calls[t].id in s.ended && s.calls[t].id in s.returned
          && Awaits(s, s.calls[t].path, s.calls[t].id))
    && (forall t, u :: t in s.calls && u in s.calls && s.calls[t].Ended? && s.calls[u].Ended? && t != u ==>
          s.calls[t].id != s.calls[u].id)
  }

  /** A kernel's stored path names a whole file of that kernel. */
  ghost predicate StateFiles(s: State) {
    forall id :: id in s.states && s.states[id].dumpPath != "" ==>
      id in s.returned && Awaits(s, s.states[id].dumpPath, id)
  }

  /** Files belong to kernels chosen for dumping; output is there once, in a whole file of an ended kernel. */
  ghost predicate OwnedFiles(s: State) {
    forall path :: path in s.files ==>
      && OwnPath(s, path, s.files[path].creator)
      && (s.files[path].outs > 0 ==>
            s.files[path].outs == 1 && s.files[path].whole && s.files[path].creator in s.ended)
      && (s.files[path].torn ==> s.files[path].outs == 1)
  }

  ghost predicate OwnPath(s: State, path: string, id: nat) {
    exists name :: path == DumpFilename(name, id) && Dumped(s, id, name)
  }

  ghost predicate FileInv(s: State) {
    BeginFiles(s) && EndFiles(s) && StateFiles(s) && OwnedFiles(s)
  }

  ghost predicate Inv(o: Options, s: State) {
    LogInv(o, s) && IdInv(s) && FileInv(s)
  }
}
