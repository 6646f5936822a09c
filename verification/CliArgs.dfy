/** Taking the replayer's own options out of the program's argument vector, in place. */
module CliArgs {
  import opened Wrappers

  /**
   * Of the first `argc` arguments, the n from `pos` on were moved behind the others: those keep their order,
   * the removed ones are still in the vector, and what lies beyond `argc` did not change.
   */
  ghost predicate Removed(was: seq<string>, now: seq<string>, argc: nat, pos: nat, n: nat) {
    && pos + n <= argc <= |was| == |now|
    && now[..argc - n] == Cut(was[..argc], pos, n)
    && multiset(now[argc - n..argc]) == multiset(was[pos..pos + n])
    && now[argc..] == was[argc..]
  }

  function Swapped(args: seq<string>, i: nat, j: nat): seq<string>
    requires i < |args| && j < |args|
  {
    args[i := args[j]][j := args[i]]
  }

  method Swap(argv: array<string>, i: nat, j: nat)
    requires i < argv.Length && j < argv.Length
    modifies argv
    ensures argv[..] == Swapped(old(argv[..]), i, j)
  {
    argv[i], argv[j] := argv[j], argv[i];
  }

  /** remove_cli_args, by swaps in place. */
  method RemoveCliArgs(argc: nat, argv: array<string>, pos: nat, n: nat) returns (argc': nat)
    requires pos + n <= argc <= argv.Length
    modifies argv
    ensures argc' == argc - n && Removed(old(argv[..]), argv[..], argc, pos, n)
  {
    hide Shifted, Removed;
    ghost var was := argv[..];
    if pos + n < argc {
      ShiftDown(argc, argv, pos, n);
    }
    argc' := argc - n;
    ShiftDone(was, argv[..], pos, argc, n);
  }

  /** The loop of swaps. */
  method ShiftDown(argc: nat, argv: array<string>, pos: nat, n: nat)
    requires pos + n < argc <= argv.Length
    modifies argv
    ensures Shifted(old(argv[..]), argv[..], pos, argc - n, n)
  {
    hide Shifted, Swapped;
    ghost var was := argv[..];
    ShiftStart(was, pos, n);
    for i := pos to argc - n
      invariant Shifted(was, argv[..], pos, i, n)
    {
      ShiftOne(argv, pos, i, n, was);
    }
  }

  method ShiftOne(argv: array<string>, ghost pos: nat, i: nat, n: nat, ghost was: seq<string>)
    requires i + n < argv.Length == |was| && Shifted(was, argv[..], pos, i, n)
    modifies argv
    ensures Shifted(was, argv[..], pos, i + 1, n)
  {
    hide Shifted, Swapped;
    ghost var before := argv[..];
    Swap(argv, i, i + n);
    ShiftStep(was, before, argv[..], pos, i, n);
  }

  /** The removed arguments have travelled to [i, i + n); those they passed moved n places down. */
  ghost predicate Shifted(was: seq<string>, now: seq<string>, pos: nat, i: nat, n: nat) {
    && pos <= i && i + n <= |was| == |now|
    && now[..pos] == was[..pos]
    && now[pos..i] == was[pos + n..i + n]
    && multiset(now[i..i + n]) == multiset(was[pos..pos + n])
    && now[i + n..] == was[i + n..]
  }

  lemma ShiftStart(was: seq<string>, pos: nat, n: nat)
    requires pos + n <= |was|
    ensures Shifted(was, was, pos, pos, n)
  {
    assert was[pos..pos] == [] == was[pos + n..pos + n];
  }

  lemma ShiftStep(was: seq<string>, before: seq<string>, after: seq<string>, pos: nat, i: nat, n: nat)
    requires Shifted(was, before, pos, i, n) && i + n < |was| == |before|
    requires after == Swapped(before, i, i + n)
    ensures Shifted(was, after, pos, i + 1, n)
  {
    assert before[i + n] == before[i + n..][0] == was[i + n];
    assert after[..pos] == before[..pos];
    assert after[pos..i + 1] == (if n == 0 then before[pos..i] + [before[i]] else before[pos..i] + [before[i + n]]);
    assert was[pos + n..i + n + 1] == was[pos + n..i + n] + [was[i + n]];
    if n > 0 {
      assert after[i + 1..i + n + 1] == before[i + 1..i + n] + [before[i]];
      assert before[i..i + n] == [before[i]] + before[i + 1..i + n];
    }
    assert after[i + n + 1..] == before[i + n..][1..] && was[i + n + 1..] == was[i + n..][1..];
  }

  lemma ShiftDone(was: seq<string>, now: seq<string>, pos: nat, argc: nat, n: nat)
    requires pos + n <= argc <= |was|
    requires if pos + n < argc then Shifted(was, now, pos, argc - n, n) else now == was
    ensures Removed(was, now, argc, pos, n)
  {
    if pos + n < argc {
      assert now[..argc - n] == now[..pos] + now[pos..argc - n];
      assert Cut(was[..argc], pos, n) == was[..pos] + was[pos + n..argc];
    }
  }

  function Cut(args: seq<string>, pos: nat, n: nat): seq<string>
    requires pos + n <= |args|
  {
    args[..pos] + args[pos + n..]
  }

  // ---------- flags ----------

  /** First position at or after `i` that holds the flag, or the number of arguments. */
  function FlagIndex(args: seq<string>, flag: string, i: nat): (k: nat)
    requires i <= |args|
    ensures i <= k <= |args|
    ensures k < |args| ==> args[k] == flag
    ensures forall j :: i <= j < k ==> args[j] != flag
    decreases |args| - i
  {
    if i == |args| || args[i] == flag then i else FlagIndex(args, flag, i + 1)
  }

  /** The first argument is the program's name; a vector without arguments has no flag either. */
  function FindFlag(args: seq<string>, flag: string): nat {
    if args == [] then 0 else FlagIndex(args, flag, 1)
  }

  function AfterFlag(args: seq<string>, flag: string): seq<string> {
    var k := FindFlag(args, flag);
    if k == |args| then args else Cut(args, k, 1)
  }

  predicate Given(args: seq<string>, flag: string) {
    exists i :: 1 <= i < |args| && args[i] == flag
  }

  method FindCliFlag(argc: nat, argv: array<string>, flag: string) returns (found: bool, argc': nat)
    requires argc <= argv.Length
    modifies argv
    ensures found <==> Given(old(argv[..argc]), flag)
    ensures argc' <= argc && argv[..argc'] == AfterFlag(old(argv[..argc]), flag)
    ensures multiset(argv[..]) == multiset(old(argv[..]))
  {
    hide Removed, Cut;
    ghost var was := argv[..];
    ghost var args := was[..argc];
    var i := 1;
    while i < argc
      invariant 1 <= i && (argc == 0 || i <= argc) && argv[..] == was
      invariant argc > 0 ==> FlagIndex(args, flag, 1) == FlagIndex(args, flag, i)
    {
      if argv[i] == flag {
        assert args[i] == flag;
        argc' := RemoveCliArgs(argc, argv, i, 1);
        RemovedMultiset(was, argv[..], argc, i, 1);
        assert argv[..argc'] == argv[..][..argc'];
        return true, argc';
      }
      assert args[i] == argv[i];
      i := i + 1;
    }
    assert argv[..argc] == args;
    return false, argc;
  }

  lemma RemovedMultiset(was: seq<string>, now: seq<string>, argc: nat, pos: nat, n: nat)
    requires Removed(was, now, argc, pos, n)
    ensures pos + n <= argc <= |was| == |now|
    ensures now[..argc - n] == Cut(was[..argc], pos, n)
    ensures multiset(now) == multiset(was)
  {
    var a, b, c, d := was[..pos], was[pos..pos + n], was[pos + n..argc], was[argc..];
    assert Cut(was[..argc], pos, n) == a + c;
    assert was == a + b + c + d;
    assert now == now[..argc - n] + now[argc - n..argc] + now[argc..];
    MiddleMoved(a, b, now[argc - n..argc], c, d);
  }

  lemma MiddleMoved(a: seq<string>, b: seq<string>, b': seq<string>, c: seq<string>, d: seq<string>)
    requires multiset(b) == multiset(b')
    ensures multiset(a + c + b' + d) == multiset(a + b + c + d)
  {
  }

  // ---------- options with a value ----------

  predicate HasEqualsForm(arg: string, flag: string) {
    |flag| < |arg| && flag <= arg && arg[|flag|] == '='
  }

  predicate IsOption(arg: string, flag: string) {
    HasEqualsForm(arg, flag) || arg == flag
  }

  function OptionIndex(args: seq<string>, flag: string, i: nat): (k: nat)
    requires i <= |args|
    ensures i <= k <= |args|
    ensures k < |args| ==> IsOption(args[k], flag)
    ensures forall j :: i <= j < k ==> !IsOption(args[j], flag)
    decreases |args| - i
  {
    if i == |args| || IsOption(args[i], flag) then i else OptionIndex(args, flag, i + 1)
  }

  /** Position of the first '=' of an argument that has one. */
  function EqualsIndex(arg: string): (k: nat)
    requires '=' in arg
    ensures k < |arg| && arg[k] == '=' && forall j :: 0 <= j < k ==> arg[j] != '='
  {
    if arg[0] == '=' then 0 else 1 + EqualsIndex(arg[1..])
  }

  /** The value of an option and the remaining arguments; an option that lacks its value stays where it is. */
  function OptionValue(args: seq<string>, flag: string): (Option<string>, seq<string>) {
    var k := if args == [] then 0 else OptionIndex(args, flag, 1);
    if k == |args| then (None, args)
    else if HasEqualsForm(args[k], flag) then (Some(args[k][EqualsIndex(args[k]) + 1..]), Cut(args, k, 1))
    else if k + 1 == |args| then (None, args)
    else (Some(args[k + 1]), Cut(args, k, 2))
  }

  method FindCliOption(argc: nat, argv: array<string>, flag: string)
    returns (argument: Option<string>, argc': nat)
    requires argc <= argv.Length
    modifies argv
    ensures argc' <= argc
    ensures (argument, argv[..argc']) == OptionValue(old(argv[..argc]), flag)
    ensures multiset(argv[..]) == multiset(old(argv[..]))
  {
    hide OptionValue, Removed, Cut, EqualsIndex;
    ghost var was := argv[..];
    ghost var args := was[..argc];
    assert args == argv[..argc];
    argument := None;
    var i := 1;
    while i < argc
      invariant 1 <= i && (argc == 0 || i <= argc) && argv[..] == was
      invariant argc > 0 ==> OptionIndex(args, flag, 1) == OptionIndex(args, flag, i)
    {
      var currentArg := argv[i];
      assert currentArg == args[i];
      OptionValueAt(args, flag, i);
      if |currentArg| > |flag| && flag <= currentArg && currentArg[|flag|] == '=' {
        argument := Some(currentArg[EqualsIndex(currentArg) + 1..]);
        argc' := RemoveCliArgs(argc, argv, i, 1);
        RemovedMultiset(was, argv[..], argc, i, 1);
        assert argv[..argc'] == argv[..][..argc'];
        return;
      }
      if currentArg == flag {
        if i + 1 == argc {
          return None, argc;
        }
        argument := Some(argv[i + 1]);
        argc' := RemoveCliArgs(argc, argv, i, 2);
        RemovedMultiset(was, argv[..], argc, i, 2);
        assert argv[..argc'] == argv[..][..argc'];
        return;
      }
      i := i + 1;
    }
    argc' := argc;
    NoOption(args, flag);
  }

  /** The value of an option that is found at position i. */
  lemma OptionValueAt(args: seq<string>, flag: string, i: nat)
    requires 0 < i < |args| && OptionIndex(args, flag, 1) == OptionIndex(args, flag, i)
    ensures HasEqualsForm(args[i], flag) ==>
              '=' in args[i]
              && OptionValue(args, flag) == (Some(args[i][EqualsIndex(args[i]) + 1..]), Cut(args, i, 1))
    ensures args[i] == flag ==>
              OptionValue(args, flag) ==
              if i + 1 == |args| then (None, args) else (Some(args[i + 1]), Cut(args, i, 2))
    ensures !IsOption(args[i], flag) ==> OptionIndex(args, flag, 1) == OptionIndex(args, flag, i + 1)
  {
  }

  lemma NoOption(args: seq<string>, flag: string)
    requires args == [] || OptionIndex(args, flag, 1) == |args|
    ensures OptionValue(args, flag) == (None, args)
  {
  }

  lemma EqualsPrefix(arg: string, flag: string)
    ensures HasEqualsForm(arg, flag) <==> flag + "=" <= arg
  {
  }

  lemma NoFlag(args: seq<string>, flag: string)
    requires 1 <= |args| && forall j | 1 <= j < |args| :: args[j] != flag
    ensures AfterFlag(args, flag) == args
  {
  }

  lemma FirstOption(args: seq<string>, flag: string, o: nat)
    requires 1 <= o < |args| && forall j | 1 <= j < o :: !IsOption(args[j], flag)
    ensures IsOption(args[o], flag) ==> OptionIndex(args, flag, 1) == o == OptionIndex(args, flag, o)
  {
  }

  /** For a flag without '=' the value is what follows the first '=' right after the flag. */
  lemma EqualsFormValue(flag: string, value: string)
    requires '=' !in flag
    ensures var arg := flag + "=" + value;
            HasEqualsForm(arg, flag) && arg[EqualsIndex(arg) + 1..] == value
  {
    var arg := flag + "=" + value;
    assert arg[|flag|] == '=';
    assert forall j :: 0 <= j < |flag| ==> arg[j] == flag[j];
    assert EqualsIndex(arg) == |flag|;
  }

  // ---------- both together ----------

  const RESET_FLAG := "--kernel-replayer-enable-input-reset"
  const DUMP_OPTION := "--kernel-replayer-dump"

  lemma OptionNames()
    ensures RESET_FLAG == "--kernel-replayer-enable-input-reset" && DUMP_OPTION == "--kernel-replayer-dump"
  {
  }

  /** `rest` is `args` with some arguments left out and the others in their order. */
  ghost predicate Subsequence(rest: seq<string>, args: seq<string>) {
    exists at: seq<nat> :: PicksInOrder(rest, args, at)
  }

  ghost predicate PicksInOrder(rest: seq<string>, args: seq<string>, at: seq<nat>) {
    && |at| == |rest|
    && (forall i :: 0 <= i < |at| ==> at[i] < |args| && rest[i] == args[at[i]])
    && (forall i, j :: 0 <= i < j < |at| ==> at[i] < at[j])
  }

  /** The arguments whose positions are not in the set. */
  ghost function Without(args: seq<string>, gone: set<nat>): seq<string> {
    if args == [] then []
    else
      var last := |args| - 1;
      Without(args[..last], gone) + (if last in gone then [] else [args[last]])
  }

  lemma {:induction false} WithoutInOrder(args: seq<string>, gone: set<nat>)
    ensures Subsequence(Without(args, gone), args)
  {
    if args == [] {
      assert PicksInOrder([], [], []);
    } else {
      var last := |args| - 1;
      WithoutInOrder(args[..last], gone);
      var front := Without(args[..last], gone);
      var at: seq<nat> :| PicksInOrder(front, args[..last], at);
      assert PicksInOrder(Without(args, gone), args, if last in gone then at else at + [last]);
    }
  }

  lemma {:induction false} WithoutSame(args: seq<string>, g: set<nat>, h: set<nat>)
    requires forall j: nat :: j < |args| ==> (j in g <==> j in h)
    ensures Without(args, g) == Without(args, h)
  {
    if args != [] {
      WithoutSame(args[..|args| - 1], g, h);
    }
  }

  lemma {:induction false} WithoutNothing(args: seq<string>)
    ensures Without(args, {}) == args
  {
    if args != [] {
      WithoutNothing(args[..|args| - 1]);
    }
  }

  /** Where the j-th argument of a vector without position k stood before. */
  function Shift(k: nat, j: nat): nat { if j < k then j else j + 1 }

  /** Leaving out k first and other positions of the result afterwards leaves out all of them. */
  lemma {:induction false} WithoutCut(args: seq<string>, k: nat, later: set<nat>, gone: set<nat>)
    requires k < |args| && k in gone
    requires forall j: nat :: j < |args| - 1 ==> (j in later <==> Shift(k, j) in gone)
    ensures Without(Cut(args, k, 1), later) == Without(args, gone)
  {
    var last, rest := |args| - 1, Cut(args, k, 1);
    if k == last {
      assert rest == args[..last];
      assert forall j: nat :: j < last ==> Shift(k, j) == j;
      WithoutSame(args[..last], later, gone);
    } else {
      assert rest[..last - 1] == Cut(args[..last], k, 1);
      WithoutCut(args[..last], k, later, gone);
      assert Shift(k, last - 1) == last;
    }
  }

  /** First position at or after `i`, other than k, that holds the option. */
  function OptionBeside(args: seq<string>, option: string, k: nat, i: nat): (o: nat)
    requires i <= |args|
    ensures i <= o <= |args|
    ensures o < |args| ==> o != k && IsOption(args[o], option)
    ensures forall j :: i <= j < o && j != k ==> !IsOption(args[j], option)
    decreases |args| - i
  {
    if i == |args| || (i != k && IsOption(args[i], option)) then i else OptionBeside(args, option, k, i + 1)
  }

  /** The position after o, other than k. */
  function After(k: nat, o: nat): nat { if o + 1 == k then o + 2 else o + 1 }

  /** What parsing takes out: the first flag, the first option beside it, and the option's own value. */
  function Taken(args: seq<string>, flag: string, option: string): set<nat>
    requires 0 < |args|
  {
    var k := FindFlag(args, flag);
    var o := OptionBeside(args, option, k, 1);
    (if k < |args| then {k} else {})
    + (if o == |args| then {}
       else if HasEqualsForm(args[o], option) then {o}
       else if After(k, o) >= |args| then {} else {o, After(k, o)})
  }

  /** The option's value, by its position in the whole vector. */
  function ValueOf(args: seq<string>, flag: string, option: string): Option<string>
    requires 0 < |args|
  {
    var k := FindFlag(args, flag);
    var o := OptionBeside(args, option, k, 1);
    if o == |args| then None
    else if HasEqualsForm(args[o], option) then Some(args[o][EqualsIndex(args[o]) + 1..])
    else if After(k, o) >= |args| then None else Some(args[After(k, o)])
  }

  /**
   * After a flag and an option were taken out, the program sees its other arguments in their order: exactly
   * the first flag, the first option beside it and that option's value are missing.
   */
  lemma ParsingKeepsOrder(args: seq<string>, flag: string, option: string)
    requires 0 < |args|
    ensures var (value, rest) := OptionValue(AfterFlag(args, flag), option);
            && value == ValueOf(args, flag, option)
            && rest == Without(args, Taken(args, flag, option))
            && Subsequence(rest, args)
            && 0 < |rest| && rest[0] == args[0] && |args| - 3 <= |rest|
  {
    hide Without, Cut, Subsequence, EqualsIndex;
    WithoutInOrder(args, Taken(args, flag, option));
    ParsedValue(args, flag, option);
    ParsedRest(args, flag, option);
    RestStartsWithName(args, flag, option);
  }

  lemma RestStartsWithName(args: seq<string>, flag: string, option: string)
    requires 0 < |args|
    ensures var rest := OptionValue(AfterFlag(args, flag), option).1;
            0 < |rest| && rest[0] == args[0] && |args| - 3 <= |rest|
  {
  }

  lemma ParsedValue(args: seq<string>, flag: string, option: string)
    requires 0 < |args|
    ensures OptionValue(AfterFlag(args, flag), option).0 == ValueOf(args, flag, option)
  {
    hide EqualsIndex, HasEqualsForm, IsOption, Cut, FlagIndex;
    var k := FindFlag(args, flag);
    if k == |args| {
      OptionBesideNone(args, option, k, 1);
    } else {
      CutPositions(args, option, k);
    }
  }

  /** Where the option and what follows it stood before position k was cut out. */
  lemma CutPositions(args: seq<string>, option: string, k: nat)
    requires 0 < k < |args|
    ensures var b := Cut(args, k, 1);
            && 0 < |b| == |args| - 1
            && var o := OptionIndex(b, option, 1);
               && OptionBeside(args, option, k, 1) == Shift(k, o) && After(k, Shift(k, o)) == Shift(k, o + 1)
               && (o < |b| ==> b[o] == args[Shift(k, o)])
               && (o + 1 < |b| ==> b[o + 1] == args[Shift(k, o + 1)])
  {
    hide HasEqualsForm, IsOption;
    OptionBesideCut(args, option, k, 1);
  }

  lemma ParsedRest(args: seq<string>, flag: string, option: string)
    requires 0 < |args|
    ensures OptionValue(AfterFlag(args, flag), option).1 == Without(args, Taken(args, flag, option))
  {
    hide Without, OptionValue, Taken, TakenOption;
    var k := FindFlag(args, flag);
    if k == |args| {
      TakenWithoutFlag(args, flag, option);
      OptionTaken(args, option);
    } else {
      var b := Cut(args, k, 1);
      TakenShifts(args, flag, option);
      OptionTaken(b, option);
      WithoutCut(args, k, TakenOption(b, option), Taken(args, flag, option));
    }
  }

  /** With the flag gone, the option's positions among the remaining arguments. */
  function TakenOption(args: seq<string>, option: string): set<nat>
    requires 0 < |args|
  {
    var o := OptionIndex(args, option, 1);
    if o == |args| then {}
    else if HasEqualsForm(args[o], option) then {o}
    else if o + 1 == |args| then {} else {o, o + 1}
  }

  lemma OptionTaken(args: seq<string>, option: string)
    requires 0 < |args|
    ensures OptionValue(args, option).1 == Without(args, TakenOption(args, option))
  {
    hide Without, Cut;
    var o := OptionIndex(args, option, 1);
    WithoutNothing(args);
    if o < |args| {
      CutOne(args, o);
      if o + 1 < |args| {
        CutTwo(args, o);
      }
    }
  }

  lemma TakenWithoutFlag(args: seq<string>, flag: string, option: string)
    requires 0 < |args| == FindFlag(args, flag)
    ensures Taken(args, flag, option) == TakenOption(args, option)
  {
    hide HasEqualsForm;
    OptionBesideNone(args, option, |args|, 1);
  }

  lemma TakenShifts(args: seq<string>, flag: string, option: string)
    requires 0 < |args| && FindFlag(args, flag) < |args|
    ensures var k := FindFlag(args, flag);
            && 0 < |Cut(args, k, 1)| && k in Taken(args, flag, option)
            && forall j: nat :: j < |args| - 1 ==>
                 (j in TakenOption(Cut(args, k, 1), option) <==> Shift(k, j) in Taken(args, flag, option))
  {
    hide HasEqualsForm, IsOption, Cut, FlagIndex;
    CutPositions(args, option, FindFlag(args, flag));
  }

  lemma CutOne(args: seq<string>, o: nat)
    requires o < |args|
    ensures Cut(args, o, 1) == Without(args, {o})
  {
    WithoutNothing(Cut(args, o, 1));
    WithoutCut(args, o, {}, {o});
  }

  lemma CutTwo(args: seq<string>, o: nat)
    requires o + 1 < |args|
    ensures Cut(args, o, 2) == Without(args, {o, o + 1})
  {
    hide Without, Cut;
    CutTwice(args, o);
    CutOne(Cut(args, o, 1), o);
    WithoutCut(args, o, {o}, {o, o + 1});
  }

  lemma CutTwice(args: seq<string>, o: nat)
    requires o + 1 < |args|
    ensures |Cut(args, o, 1)| == |args| - 1 && Cut(Cut(args, o, 1), o, 1) == Cut(args, o, 2)
  {
  }

  lemma {:induction false} OptionBesideNone(args: seq<string>, option: string, k: nat, i: nat)
    requires i <= |args| <= k
    ensures OptionBeside(args, option, k, i) == OptionIndex(args, option, i)
    decreases |args| - i
  {
    if i < |args| {
      OptionBesideNone(args, option, k, i + 1);
    }
  }

  lemma {:induction false} OptionBesideCut(args: seq<string>, option: string, k: nat, i: nat)
    requires k < |args| && i < |args|
    ensures Shift(k, OptionIndex(Cut(args, k, 1), option, i)) == OptionBeside(args, option, k, Shift(k, i))
    decreases |args| - i
  {
    if i < |args| - 1 {
      assert Cut(args, k, 1)[i] == args[Shift(k, i)];
      OptionBesideCut(args, option, k, i + 1);
    }
  }
}
