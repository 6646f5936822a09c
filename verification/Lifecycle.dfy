/** Which of the replayer's life-cycle calls succeed, over whole runs of the process. */
module Lifecycle {

  /**
   * The process-wide flags: whether a guard was ever constructed, whether one is alive, and whether the live
   * one belongs to krepe::initialize.
   */
  datatype State = State(initialized: bool, live: bool, internal: bool) {
    ghost predicate Valid() { (internal ==> live) && (live ==> initialized) }
  }

  const START := State(false, false, false)

  /** `works` tells whether the dump can be restored; Destroy ends the scope of a guard the user made. */
  datatype Event = Construct(works: bool) | Destroy | Initialize(works: bool) | Finalize | Reset(works: bool)

  predicate Enabled(s: State, e: Event) {
    e.Destroy? ==> s.live && !s.internal
  }

  predicate Succeeds(s: State, e: Event) {
    match e
    case Construct(works) => !s.initialized && works
    case Destroy => true
    case Initialize(works) => !s.initialized && works
    case Finalize => s.initialized && s.internal
    case Reset(works) => s.live && works
  }

  function Next(s: State, e: Event): State {
    if !Succeeds(s, e) then s
    else match e
      case Construct(_) => State(true, true, false)
      case Destroy => s.(live := false)
      case Initialize(_) => State(true, true, true)
      case Finalize => s.(live := false, internal := false)
      case Reset(_) => s
  }

  ghost predicate IsRun(s: State, es: seq<Event>)
    decreases |es|
  {
    es == [] || (Enabled(s, es[0]) && IsRun(Next(s, es[0]), es[1..]))
  }

  function Final(s: State, es: seq<Event>): State
    decreases |es|
  {
    if es == [] then s else Final(Next(s, es[0]), es[1..])
  }

  /** How many of the run's events of the chosen kind succeed. */
  function Successes(s: State, es: seq<Event>, kind: Event -> bool): nat
    decreases |es|
  {
    if es == [] then 0
    else (if kind(es[0]) && Succeeds(s, es[0]) then 1 else 0) + Successes(Next(s, es[0]), es[1..], kind)
  }

  predicate Builds(e: Event) { e.Construct? || e.Initialize? }
  predicate Initializes(e: Event) { e.Initialize? }
  predicate Finalizes(e: Event) { e.Finalize? }
  predicate Ends(e: Event) { e.Finalize? || e.Destroy? }

  /**
   * From any valid state: a construction succeeds at most once in the life of the process; every success is
   * undone at most once; and finalize succeeds at most once, only for a guard that initialize made.
   */
  lemma {:induction false} BuildsOnce(s: State, es: seq<Event>)
    requires s.Valid() && IsRun(s, es)
    ensures Final(s, es).Valid() && (s.initialized ==> Final(s, es).initialized)
    ensures Successes(s, es, Builds) == if Final(s, es).initialized && !s.initialized then 1 else 0
    ensures Successes(s, es, Ends) + (if Final(s, es).live then 1 else 0)
         == Successes(s, es, Builds) + (if s.live then 1 else 0)
    ensures Successes(s, es, Finalizes) + (if Final(s, es).internal then 1 else 0)
         == Successes(s, es, Initializes) + (if s.internal then 1 else 0)
    ensures Successes(s, es, Initializes) <= Successes(s, es, Builds)
    decreases |es|
  {
    if es != [] {
      BuildsOnce(Next(s, es[0]), es[1..]);
    }
  }

  /** From process start: at most one construction, at most one finalize, and none without an initialize. */
  lemma LifeOfProcess(es: seq<Event>)
    requires IsRun(START, es)
    ensures Successes(START, es, Builds) <= 1
    ensures Successes(START, es, Finalizes) <= Successes(START, es, Initializes) <= 1
    ensures Successes(START, es, Ends) <= Successes(START, es, Builds)
  {
    BuildsOnce(START, es);
  }
}
