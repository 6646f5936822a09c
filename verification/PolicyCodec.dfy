/** Execution policies on their way through a dump: registered, written, read back and rebuilt. */
module PolicyCodec {
  import opened Wrappers

  // ---------- index types ----------

  datatype IndexType = I8 | U8 | I16 | U16 | I32 | U32 | I64 | U64 {
    predicate Signed() { I8? || I16? || I32? || I64? }
    function Size(): nat { if I8? || U8? then 1 else if I16? || U16? then 2 else if I32? || U32? then 4 else 8 }
    function Modulus(): nat {
      if I8? || U8? then 0x100 else if I16? || U16? then 0x1_0000
      else if I32? || U32? then 0x1_0000_0000 else TWO64
    }
    predicate Holds(v: int) {
      if Signed() then 0 - Modulus() / 2 <= v < Modulus() / 2 else 0 <= v < Modulus()
    }
  }

  const TWO64: nat := 0x1_0000_0000_0000_0000

  /** get_policy_index_type_from_props. */
  function IndexTypeFromProps(signed: bool, size: int): Option<IndexType> {
    if signed then
      match size
      case 1 => Some(I8) case 2 => Some(I16) case 4 => Some(I32) case 8 => Some(I64) case _ => None
    else
      match size
      case 1 => Some(U8) case 2 => Some(U16) case 4 => Some(U32) case 8 => Some(U64) case _ => None
  }

  /** Size and signedness identify the type, and no other pair is accepted. */
  lemma IndexTypeRoundTrip(signed: bool, size: int, t: IndexType)
    ensures IndexTypeFromProps(signed, size) == Some(t) <==> signed == t.Signed() && size == t.Size()
  {
  }

  /** The eight types, each with its size, sign and range. */
  lemma IndexTypeRanges(v: int)
    ensures I8.Size() == 1 && I8.Signed() && (I8.Holds(v) <==> -0x80 <= v < 0x80)
    ensures U8.Size() == 1 && !U8.Signed() && (U8.Holds(v) <==> 0 <= v < 0x100)
    ensures I16.Size() == 2 && I16.Signed() && (I16.Holds(v) <==> -0x8000 <= v < 0x8000)
    ensures U16.Size() == 2 && !U16.Signed() && (U16.Holds(v) <==> 0 <= v < 0x1_0000)
    ensures I32.Size() == 4 && I32.Signed() && (I32.Holds(v) <==> -0x8000_0000 <= v < 0x8000_0000)
    ensures U32.Size() == 4 && !U32.Signed() && (U32.Holds(v) <==> 0 <= v < 0x1_0000_0000)
    ensures I64.Size() == 8 && I64.Signed()
            && (I64.Holds(v) <==> -0x8000_0000_0000_0000 <= v < 0x8000_0000_0000_0000)
    ensures U64.Size() == 8 && !U64.Signed() && (U64.Holds(v) <==> 0 <= v < 0x1_0000_0000_0000_0000)
  {
  }

  /** Two's complement: reinterpreting a signed 64-bit value as unsigned, and back. */
  function ToUnsigned64(v: int): nat {
    v % TWO64
  }

  function ToSigned64(u: nat): int {
    if u < TWO64 / 2 then u else u - TWO64
  }

  /** Conversion to a narrower type keeps the value modulo the type's range. */
  function Narrow(t: IndexType, v: int): int {
    var r := v % t.Modulus();
    if t.Signed() && t.Modulus() / 2 <= r then r - t.Modulus() else r
  }

  function IndexTypeToU64(t: IndexType, v: int): nat
    requires t.Holds(v)
  {
    if t.Signed() then ToUnsigned64(v) else v
  }

  function DecodeBound(t: IndexType, u: nat): int {
    if t.Signed() then Narrow(t, ToSigned64(u)) else Narrow(t, u)
  }

  lemma SignedRoundTrip(v: int)
    ensures 0 - TWO64 / 2 <= v < TWO64 / 2 ==> ToSigned64(ToUnsigned64(v)) == v
    ensures 0 <= v < TWO64 ==> ToUnsigned64(ToSigned64(v)) == v
  {
  }

  lemma Wrap(m: nat, w: int)
    requires m == 0x100 || m == 0x1_0000 || m == 0x1_0000_0000 || m == TWO64
    ensures 0 <= w % m < m
    ensures 0 <= w < m ==> w % m == w
    ensures 0 - m / 2 <= w < 0 ==> w % m == w + m
  {
  }

  lemma NarrowInRange(t: IndexType, w: int)
    ensures t.Holds(Narrow(t, w))
    ensures t.Holds(w) ==> Narrow(t, w) == w
  {
    Wrap(t.Modulus(), w);
  }

  /** Every value of every index type survives. */
  lemma BoundRoundTrip(t: IndexType, v: int)
    requires t.Holds(v)
    ensures IndexTypeToU64(t, v) < TWO64
    ensures IndexTypeToU64(t, v) == if v < 0 then v + 0x1_0000_0000_0000_0000 else v
    ensures DecodeBound(t, IndexTypeToU64(t, v)) == v
  {
    SignedRoundTrip(v);
    NarrowInRange(t, v);
  }

  /** Exactly the encodings of the type's own values come back; any other pattern is changed by narrowing. */
  lemma BoundCodeExact(t: IndexType, u: nat)
    requires u < TWO64
    ensures t.Holds(DecodeBound(t, u))
    ensures IndexTypeToU64(t, DecodeBound(t, u)) == u <==>
            t.Holds(if t.Signed() then ToSigned64(u) else u)
  {
    var w := if t.Signed() then ToSigned64(u) else u;
    NarrowInRange(t, w);
    SignedRoundTrip(u);
    SignedRoundTrip(DecodeBound(t, u));
  }

  /** What a pattern is decoded to: the one value of the type that differs from it by a multiple of the range. */
  lemma DecodedModulo(t: IndexType, u: nat) returns (k: int)
    requires u < 0x1_0000_0000_0000_0000
    ensures t.Holds(DecodeBound(t, u))
    ensures DecodeBound(t, u) == u + k * (if t.I8? || t.U8? then 0x100 else if t.I16? || t.U16? then 0x1_0000
                                          else if t.I32? || t.U32? then 0x1_0000_0000 else 0x1_0000_0000_0000_0000)
  {
    var w := if t.Signed() then ToSigned64(u) else u;
    NarrowInRange(t, w);
    k := NarrowModulo(t, w);
    if t.Signed() && w != u {
      k := k - TWO64 / t.Modulus();
    }
  }

  lemma NarrowModulo(t: IndexType, w: int) returns (k: int)
    ensures Narrow(t, w) == w + k * t.Modulus()
  {
    var m := t.Modulus();
    k := -(w / m);
    assert w == (w / m) * m + w % m;
    if Narrow(t, w) < w % m {
      k := k - 1;
    }
  }

  /** Converting a bound to 64 bits and back to its type changes nothing. */
  lemma WidenRoundTrip(t: IndexType, v: int)
    requires t.Holds(v)
    ensures Narrow(t, Narrow(I64, v)) == v
  {
    NarrowInRange(t, v);
    if t.U64? {
      SignedRoundTrip(v);
      Wrap(TWO64, Narrow(I64, v));
    } else {
      NarrowInRange(I64, v);
    }
  }

  lemma BoundInRange(t: IndexType, u: nat)
    ensures t.Holds(DecodeBound(t, u))
  {
    NarrowInRange(t, if t.Signed() then ToSigned64(u) else u);
  }

  /** Each element converted to the type. */
  function Converted(t: IndexType, values: seq<int>): (r: seq<int>)
    ensures |r| == |values|
  {
    seq(|values|, i requires 0 <= i < |values| => Narrow(t, values[i]))
  }

  ghost predicate AllHold(t: IndexType, values: seq<int>) {
    forall i :: 0 <= i < |values| ==> t.Holds(values[i])
  }

  lemma ConvertedHold(t: IndexType, values: seq<int>)
    ensures AllHold(t, Converted(t, values))
    ensures AllHold(t, values) ==> Converted(t, Converted(I64, values)) == values
    ensures AllHold(t, values) ==> forall i | 0 <= i < |values| ::
              Converted(I64, values)[i] ==
              if values[i] < 0x8000_0000_0000_0000 then values[i] else values[i] - 0x1_0000_0000_0000_0000
  {
    forall i | 0 <= i < |values|
      ensures t.Holds(Narrow(t, values[i]))
      ensures t.Holds(values[i]) ==> Narrow(t, Narrow(I64, values[i])) == values[i]
      ensures t.Holds(values[i]) ==>
                Narrow(I64, values[i]) ==
                if values[i] < 0x8000_0000_0000_0000 then values[i] else values[i] - 0x1_0000_0000_0000_0000
    {
      NarrowInRange(t, values[i]);
      if t.Holds(values[i]) {
        WidenRoundTrip(t, values[i]);
      }
    }
  }

  // ---------- policies ----------

  datatype Schedule = Static | Dynamic
  datatype Direction = Left | Right
  datatype Extent = Auto | Fixed(value: nat)
  datatype Scratch = Scratch(team0: int, team1: int, thread0: int, thread1: int)

  /** A launch's policy. */
  datatype Policy =
    | Scalar(n: nat)
    | Range(index: IndexType, space: string, schedule: Schedule, begin: int, end: int, chunk: int)
    | MDRange(index: IndexType, space: string, schedule: Schedule, outer: Direction, inner: Direction,
              lower: seq<int>, upper: seq<int>, tile: seq<int>)
    | Team(index: IndexType, space: string, schedule: Schedule, teamSize: Extent, league: int,
           vectorLength: Extent, scratch: Scratch, chunk: int)

  /** What the extractor hands to the tool; without a registration there is no policy. */
  datatype Desc =
    | NoDesc
    | ScalarDesc(end: nat)
    | RangeDesc(size: nat, signed: bool, space: string, schedule: string, begin: nat, end: nat, chunk: int)
    | MDRangeDesc(size: nat, signed: bool, space: string, schedule: string, rank: nat, outer: string,
                  inner: string, lower: seq<int>, upper: seq<int>, tile: seq<int>)
    | TeamDesc(size: nat, signed: bool, space: string, schedule: string, teamSize: int, league: int,
               vectorLength: int, team0: int, team1: int, thread0: int, thread1: int, chunk: int)

  function ScheduleName(s: Schedule): string { if s.Static? then "static" else "dynamic" }
  function DirectionName(d: Direction): string { if d.Left? then "left" else "right" }
  function ExtentCode(e: Extent): int { match e case Auto => -1 case Fixed(n) => n }

  /** What Kokkos guarantees of a policy object. */
  ghost predicate WellFormed(p: Policy) {
    match p
    case Scalar(_) => true
    case Range(t, _, _, begin, end, _) => t.Holds(begin) && t.Holds(end)
    case MDRange(t, _, _, _, _, lower, upper, tile) =>
      |lower| == |upper| == |tile| && AllHold(t, lower) && AllHold(t, upper) && AllHold(t, tile)
    case Team(_, _, _, _, _, _, s, _) => 0 <= s.team0 && 0 <= s.team1 && 0 <= s.thread0 && 0 <= s.thread1
  }

  /** Any policy whose bounds are values of its index type, of equal dimensions, with scratch sizes, is one. */
  lemma AllPoliciesAreWellFormed(p: Policy)
    ensures p.Scalar? ==> WellFormed(p)
    ensures p.Range? ==> (WellFormed(p) <==> p.index.Holds(p.begin) && p.index.Holds(p.end))
    ensures p.MDRange? ==>
              (WellFormed(p) <==>
                 && |p.lower| == |p.upper| == |p.tile|
                 && forall i | 0 <= i < |p.lower| ::
                      p.index.Holds(p.lower[i]) && p.index.Holds(p.upper[i]) && p.index.Holds(p.tile[i]))
    ensures p.Team? ==>
              (WellFormed(p) <==>
                 0 <= p.scratch.team0 && 0 <= p.scratch.team1 && 0 <= p.scratch.thread0 && 0 <= p.scratch.thread1)
  {
  }

  /** -1 in place of every scratch size marks that they could not be queried. */
  const UNKNOWN := Scratch(-1, -1, -1, -1)

  /**
   * What register_bounds registers; whether scratch sizes can be queried depends on the Kokkos version and the
   * space. A range's chunk size is handed over as a 32-bit int.
   */
  function Register(p: Policy, canQueryScratch: bool): Desc
    requires WellFormed(p)
  {
    match p
    case Scalar(n) => ScalarDesc(n)
    case Range(t, space, schedule, begin, end, chunk) =>
      RangeDesc(t.Size(), t.Signed(), space, ScheduleName(schedule),
                IndexTypeToU64(t, begin), IndexTypeToU64(t, end), Narrow(I32, chunk))
    case MDRange(t, space, schedule, outer, inner, lower, upper, tile) =>
      MDRangeDesc(t.Size(), t.Signed(), space, ScheduleName(schedule), |lower|, DirectionName(outer),
                  DirectionName(inner), Converted(I64, lower), Converted(I64, upper), Converted(I64, tile))
    case Team(t, space, schedule, teamSize, league, vectorLength, scratch, chunk) =>
      var s := if canQueryScratch then scratch else UNKNOWN;
      TeamDesc(t.Size(), t.Signed(), space, ScheduleName(schedule), ExtentCode(teamSize), league,
               ExtentCode(vectorLength), s.team0, s.team1, s.thread0, s.thread1, chunk)
  }

  /** register_bounds; only multi-dimensional ranges need a loop. */
  method RegisterBounds(p: Policy, canQueryScratch: bool) returns (d: Desc)
    requires WellFormed(p)
    ensures d == Register(p, canQueryScratch)
  {
    match p
    case MDRange(t, space, schedule, outer, inner, lower, upper, tile) =>
      var lower64, upper64, tile64 := WidenBounds(lower, upper, tile);
      d := MDRangeDesc(t.Size(), t.Signed(), space, ScheduleName(schedule), |lower|, DirectionName(outer),
                       DirectionName(inner), lower64[..], upper64[..], tile64[..]);
    case _ => d := Register(p, canQueryScratch);
  }

  /** The loop that converts the bounds and tiles of each dimension to 64 bits. */
  method WidenBounds(lower: seq<int>, upper: seq<int>, tile: seq<int>)
    returns (lower64: array<int>, upper64: array<int>, tile64: array<int>)
    requires |lower| == |upper| == |tile|
    ensures lower64[..] == Converted(I64, lower)
    ensures upper64[..] == Converted(I64, upper)
    ensures tile64[..] == Converted(I64, tile)
  {
    var rank := |lower|;
    lower64, upper64, tile64 := new int[rank], new int[rank], new int[rank];
    for i := 0 to rank
      invariant lower64[..i] == Converted(I64, lower)[..i]
      invariant upper64[..i] == Converted(I64, upper)[..i]
      invariant tile64[..i] == Converted(I64, tile)[..i]
    {
      lower64[i] := Narrow(I64, lower[i]);
      upper64[i] := Narrow(I64, upper[i]);
      tile64[i] := Narrow(I64, tile[i]);
    }
  }

  // ---------- the policy group of a dump ----------

  datatype Attribute = Text(text: string) | Number(number: int) | Word(word: nat) | Numbers(numbers: seq<int>)

  /** Names of the group's attributes and datasets. */
  datatype Name =
    | Kind | IndexTypeSize | IndexTypeSigned | SpaceName | ScheduleKind | Begin | End | ChunkSize | Rank
    | OuterDir | InnerDir | Tile | TeamSize | LeagueSize | VectorLength | TeamScratch0 | TeamScratch1
    | ThreadScratch0 | ThreadScratch1

  type Group = map<Name, Attribute>

  function TypeAttributes(kind: string, size: nat, signed: bool, space: string, schedule: string): Group {
    map[Kind := Text(kind), IndexTypeSize := Number(size),
        IndexTypeSigned := Number(if signed then 1 else 0),
        SpaceName := Text(space), ScheduleKind := Text(schedule)]
  }

  function WritePolicy(d: Desc): Group {
    match d
    case NoDesc => map[Kind := Text("none")]
    case ScalarDesc(end) => map[Kind := Text("scalar"), End := Word(end)]
    case RangeDesc(size, signed, space, schedule, begin, end, chunk) =>
      TypeAttributes("range", size, signed, space, schedule)
        [Begin := Word(begin)][End := Word(end)][ChunkSize := Number(chunk)]
    case MDRangeDesc(size, signed, space, schedule, rank, outer, inner, lower, upper, tile) =>
      TypeAttributes("mdrange", size, signed, space, schedule)
        [Rank := Number(rank)][OuterDir := Text(outer)][InnerDir := Text(inner)]
        [Begin := Numbers(lower)][End := Numbers(upper)][Tile := Numbers(tile)]
    case TeamDesc(size, signed, space, schedule, teamSize, league, vectorLength, team0, team1, thread0, thread1,
                  chunk) =>
      TypeAttributes("team", size, signed, space, schedule)
        [TeamSize := Number(teamSize)][LeagueSize := Number(league)]
        [VectorLength := Number(vectorLength)]
        [TeamScratch0 := Number(team0)][TeamScratch1 := Number(team1)]
        [ThreadScratch0 := Number(thread0)][ThreadScratch1 := Number(thread1)]
        [ChunkSize := Number(chunk)]
  }

  function GetText(g: Group, name: Name): Option<string> {
    if name in g && g[name].Text? then Some(g[name].text) else None
  }

  function GetNumber(g: Group, name: Name): Option<int> {
    if name in g && g[name].Number? then Some(g[name].number) else None
  }

  function GetWord(g: Group, name: Name): Option<nat> {
    if name in g && g[name].Word? then Some(g[name].word) else None
  }

  function GetNumbers(g: Group, name: Name): Option<seq<int>> {
    if name in g && g[name].Numbers? then Some(g[name].numbers) else None
  }

  function ScheduleFromName(s: string): Option<Schedule> {
    if s == "static" then Some(Static) else if s == "dynamic" then Some(Dynamic) else None
  }

  function DirectionFromName(s: string): Option<Direction> {
    if s == "left" then Some(Left) else if s == "right" then Some(Right) else None
  }

  function ExtentFromCode(n: int): Extent { if n < 0 then Auto else Fixed(n) }

  // ---------- the group as it is in the file ----------

  /** What the typed policies have in common, as it is written. */
  ghost predicate HeaderInFile(g: Group, index: IndexType, space: string, schedule: Schedule) {
    && Has(g, IndexTypeSize, Number(if index.I8? || index.U8? then 1 else if index.I16? || index.U16? then 2
                                    else if index.I32? || index.U32? then 4 else 8))
    && Has(g, IndexTypeSigned, Number(if index.I8? || index.I16? || index.I32? || index.I64? then 1 else 0))
    && Has(g, SpaceName, Text(space))
    && Has(g, ScheduleKind, Text(if schedule == Static then "static" else "dynamic"))
  }

  ghost predicate Has(g: Group, name: Name, a: Attribute) {
    name in g && g[name] == a
  }

  function Word64(v: int): Attribute
    requires -0x8000_0000_0000_0000 <= v < 0x1_0000_0000_0000_0000
  {
    Word(if v < 0 then v + 0x1_0000_0000_0000_0000 else v)
  }

  lemma ScalarInFile(n: nat, canQueryScratch: bool)
    ensures WritePolicy(Register(Scalar(n), canQueryScratch)) == map[Kind := Text("scalar"), End := Word(n)]
    ensures WritePolicy(NoDesc) == map[Kind := Text("none")]
  {
  }

  lemma BoundInFile(t: IndexType, v: int)
    requires t.Holds(v)
    ensures -0x8000_0000_0000_0000 <= v < 0x1_0000_0000_0000_0000
    ensures Word(IndexTypeToU64(t, v)) == Word64(v)
  {
    BoundRoundTrip(t, v);
  }

  lemma RangeInFile(p: Policy, canQueryScratch: bool)
    requires WellFormed(p) && p.Range?
    ensures p.index.Holds(p.begin) && p.index.Holds(p.end)
    ensures -0x8000_0000_0000_0000 <= p.begin < 0x1_0000_0000_0000_0000
    ensures -0x8000_0000_0000_0000 <= p.end < 0x1_0000_0000_0000_0000
    ensures var g := WritePolicy(Register(p, canQueryScratch));
            && Has(g, Kind, Text("range")) && HeaderInFile(g, p.index, p.space, p.schedule)
            && Has(g, Begin, Word64(p.begin)) && Has(g, End, Word64(p.end))
            && (-0x8000_0000 <= p.chunk < 0x8000_0000 ==> Has(g, ChunkSize, Number(p.chunk)))
  {
    hide IndexTypeToU64, Narrow, WritePolicy, TypeAttributes;
    BoundInFile(p.index, p.begin);
    BoundInFile(p.index, p.end);
    NarrowInRange(I32, p.chunk);
    TypedHeaderInFile(p, canQueryScratch);
    RangeNumbers(Register(p, canQueryScratch));
  }

  lemma RangeNumbers(d: Desc)
    requires d.RangeDesc?
    ensures var g := WritePolicy(d);
            && GetWord(g, Begin) == Some(d.begin) && GetWord(g, End) == Some(d.end)
            && GetNumber(g, ChunkSize) == Some(d.chunk)
  {
    hide TypeAttributes;
  }

  lemma MDRangeInFile(p: Policy, canQueryScratch: bool)
    requires WellFormed(p) && p.MDRange?
    ensures var g := WritePolicy(Register(p, canQueryScratch));
            && Has(g, Kind, Text("mdrange")) && HeaderInFile(g, p.index, p.space, p.schedule)
            && Has(g, Rank, Number(|p.lower|))
            && Has(g, OuterDir, Text(if p.outer == Left then "left" else "right"))
            && Has(g, InnerDir, Text(if p.inner == Left then "left" else "right"))
            && Has(g, Begin, Numbers(Converted(I64, p.lower)))
            && Has(g, End, Numbers(Converted(I64, p.upper)))
            && Has(g, Tile, Numbers(Converted(I64, p.tile)))
  {
    hide Converted, WritePolicy, AllHold;
    TypedHeaderInFile(p, canQueryScratch);
    MDRangeGroup(Register(p, canQueryScratch));
  }

  lemma TypedHeaderInFile(p: Policy, canQueryScratch: bool)
    requires WellFormed(p) && !p.Scalar?
    ensures var g := WritePolicy(Register(p, canQueryScratch));
            && Has(g, Kind, Text(if p.Range? then "range" else if p.MDRange? then "mdrange" else "team"))
            && HeaderInFile(g, p.index, p.space, p.schedule)
  {
    hide Converted, IndexTypeToU64, Narrow, AllHold, ExtentCode, DirectionName, WritePolicy;
    var d, h := Register(p, canQueryScratch), Header(p.index, p.space, p.schedule);
    match p {
      case Range(_, _, _, _, _, _) => RangeGroup(d, h);
      case MDRange(_, _, _, _, _, _, _, _) => MDRangeHeader(d, h);
      case Team(_, _, _, _, _, _, _, _) => TeamHeader(d, h);
    }
  }

  lemma TeamInFile(p: Policy, canQueryScratch: bool)
    requires WellFormed(p) && p.Team?
    ensures var g := WritePolicy(Register(p, canQueryScratch));
            && Has(g, Kind, Text("team")) && HeaderInFile(g, p.index, p.space, p.schedule)
            && Has(g, TeamSize, Number(if p.teamSize == Auto then -1 else p.teamSize.value))
            && Has(g, LeagueSize, Number(p.league))
            && Has(g, VectorLength, Number(if p.vectorLength == Auto then -1 else p.vectorLength.value))
            && Has(g, ChunkSize, Number(p.chunk))
            && Has(g, TeamScratch0, Number(if canQueryScratch then p.scratch.team0 else -1))
            && Has(g, TeamScratch1, Number(if canQueryScratch then p.scratch.team1 else -1))
            && Has(g, ThreadScratch0, Number(if canQueryScratch then p.scratch.thread0 else -1))
            && Has(g, ThreadScratch1, Number(if canQueryScratch then p.scratch.thread1 else -1))
  {
    hide WritePolicy;
    TypedHeaderInFile(p, canQueryScratch);
    TeamGroup(Register(p, canQueryScratch));
  }

  // ---------- reading the group ----------

  /** What the replayer was built with: its execution spaces, and whether rank-one mdranges exist. */
  datatype Backends = Backends(spaces: set<string>, rankOne: bool)

  /** The typed header shared by all but the scalar policy. */
  datatype Header = Header(index: IndexType, space: string, schedule: Schedule)

  /** What the replayer keeps of a policy group: the numbers as they are stored. */
  datatype Stored =
    | NoPolicy
    | ScalarPolicy(n: nat)
    | RangePolicy(begin: nat, end: nat, chunk: int, header: Header)
    | MDRangePolicy(begins: seq<int>, ends: seq<int>, tiles: seq<int>, header: Header,
                    rank: nat, outer: Direction, inner: Direction)
    | TeamPolicy(teamSize: int, league: int, vectorLength: int, team0: int, team1: int,
                 thread0: int, thread1: int, chunk: int, header: Header)

  function ReadHeader(g: Group, r: Backends): Option<Header> {
    var signed, size, space, schedule := GetNumber(g, IndexTypeSigned), GetNumber(g, IndexTypeSize),
        GetText(g, SpaceName), GetText(g, ScheduleKind);
    if signed.None? || size.None? || space.None? || schedule.None? then None
    else
      var index := IndexTypeFromProps(signed.value != 0, size.value);
      var s := ScheduleFromName(schedule.value);
      if index.None? || space.value !in r.spaces || s.None? then None
      else Some(Header(index.value, space.value, s.value))
  }

  function ReadRange(g: Group, h: Header): Option<Stored> {
    var begin, end, chunk := GetWord(g, Begin), GetWord(g, End), GetNumber(g, ChunkSize);
    if begin.None? || end.None? || chunk.None? then None
    else Some(RangePolicy(begin.value, end.value, chunk.value, h))
  }

  predicate RankSupported(rank: int, r: Backends) {
    (rank == 1 && r.rankOne) || 2 <= rank <= 6
  }

  /** The three datasets are kept as they are; nothing compares their lengths with the rank. */
  function ReadMDRange(g: Group, h: Header, r: Backends): Option<Stored> {
    var rank, outer, inner := GetNumber(g, Rank), GetText(g, OuterDir), GetText(g, InnerDir);
    var begins, ends, tiles := GetNumbers(g, Begin), GetNumbers(g, End), GetNumbers(g, Tile);
    if rank.None? || outer.None? || inner.None? || begins.None? || ends.None? || tiles.None? then None
    else
      var o, i := DirectionFromName(outer.value), DirectionFromName(inner.value);
      if !RankSupported(rank.value, r) || o.None? || i.None? then None
      else Some(MDRangePolicy(begins.value, ends.value, tiles.value, h, rank.value, o.value, i.value))
  }

  function ReadTeam(g: Group, h: Header): Option<Stored> {
    var size, league, vector := GetNumber(g, TeamSize), GetNumber(g, LeagueSize), GetNumber(g, VectorLength);
    var t0, t1 := GetNumber(g, TeamScratch0), GetNumber(g, TeamScratch1);
    var h0, h1 := GetNumber(g, ThreadScratch0), GetNumber(g, ThreadScratch1);
    var chunk := GetNumber(g, ChunkSize);
    if size.None? || league.None? || vector.None? || chunk.None?
       || t0.None? || t1.None? || h0.None? || h1.None? then None
    else Some(TeamPolicy(size.value, league.value, vector.value, t0.value, t1.value, h0.value, h1.value,
                         chunk.value, h))
  }

  /** read_policy_from_hdf5; None stands for a thrown error. */
  function ReadPolicy(g: Group, r: Backends): Option<Stored> {
    var kind := GetText(g, Kind);
    if kind.None? then None
    else if kind.value == "none" then Some(NoPolicy)
    else if kind.value == "scalar" then
      var end := GetWord(g, End);
      if end.None? then None else Some(ScalarPolicy(end.value))
    else
      var h := ReadHeader(g, r);
      if h.None? then None
      else if kind.value == "range" then ReadRange(g, h.value)
      else if kind.value == "mdrange" then ReadMDRange(g, h.value, r)
      else if kind.value == "team" then ReadTeam(g, h.value)
      else None
  }

  // ---------- rebuilding the policy for the replayed launch ----------

  /** The launch gets a policy, throws because there is none, or reads past the end of a stored vector. */
  datatype Rebuilt = Launches(policy: Policy) | Throws | OutOfBounds

  predicate EnoughEntries(d: Stored)
    requires d.MDRangePolicy?
  {
    d.rank <= |d.begins| && d.rank <= |d.ends| && d.rank <= |d.tiles|
  }

  /** Scratch sizes are set only when the first one is not the marker -1; otherwise they stay zero. */
  function ReadScratch(t0: int, t1: int, h0: int, h1: int): Scratch {
    if t0 != -1 then Scratch(t0, t1, h0, h1) else Scratch(0, 0, 0, 0)
  }

  /** The policy that a stored descriptor stands for. */
  function Rebuild(d: Stored): Rebuilt {
    match d
    case NoPolicy => Throws
    case ScalarPolicy(n) => Launches(Scalar(n))
    case RangePolicy(begin, end, chunk, h) =>
      Launches(Range(h.index, h.space, h.schedule, DecodeBound(h.index, begin), DecodeBound(h.index, end), chunk))
    case MDRangePolicy(begins, ends, tiles, h, rank, outer, inner) =>
      if !EnoughEntries(d) then OutOfBounds
      else Launches(MDRange(h.index, h.space, h.schedule, outer, inner, Converted(h.index, begins[..rank]),
                            Converted(h.index, ends[..rank]), Converted(h.index, tiles[..rank])))
    case TeamPolicy(teamSize, league, vectorLength, team0, team1, thread0, thread1, chunk, h) =>
      Launches(Team(h.index, h.space, h.schedule, ExtentFromCode(teamSize), league, ExtentFromCode(vectorLength),
                    ReadScratch(team0, team1, thread0, thread1), chunk))
  }

  /** ParallelForVisitor, up to the launch; only multi-dimensional ranges need a loop. */
  method VisitPolicy(d: Stored) returns (r: Rebuilt)
    ensures r == Rebuild(d)
  {
    match d
    case MDRangePolicy(begins, ends, tiles, h, rank, outer, inner) =>
      var inside, start, end, tile := GetMDRangeBounds(begins, ends, tiles, rank);
      if !inside {
        return OutOfBounds;
      }
      r := Launches(MDRange(h.index, h.space, h.schedule, outer, inner, Converted(h.index, start[..]),
                            Converted(h.index, end[..]), Converted(h.index, tile[..])));
    case _ => r := Rebuild(d);
  }

  /** The loop of get_mdrange_policy. It reads each vector at every index below the rank; nothing checks them. */
  method GetMDRangeBounds(start: seq<int>, end: seq<int>, tile: seq<int>, rank: nat)
    returns (inside: bool, startArr: array<int>, endArr: array<int>, tileArr: array<int>)
    ensures inside <==> rank <= |start| && rank <= |end| && rank <= |tile|
    ensures inside ==> startArr[..] == start[..rank] && endArr[..] == end[..rank] && tileArr[..] == tile[..rank]
  {
    startArr, endArr, tileArr := new int[rank], new int[rank], new int[rank];
    for i := 0 to rank
      invariant i <= |start| && i <= |end| && i <= |tile|
      invariant startArr[..i] == start[..i] && endArr[..i] == end[..i] && tileArr[..i] == tile[..i]
    {
      if i >= |start| || i >= |end| || i >= |tile| {
        inside := false;
        return;
      }
      startArr[i] := start[i];
      endArr[i] := end[i];
      tileArr[i] := tile[i];
    }
    inside := true;
  }

  /**
   * Of an accepted mdrange group, the rebuild stays inside its vectors exactly when each of the three datasets
   * has at least as many entries as the rank says; no other group makes it read out of bounds.
   */
  lemma ReadsStayInside(g: Group, r: Backends)
    requires ReadPolicy(g, r).Some?
    ensures Rebuild(ReadPolicy(g, r).value) != OutOfBounds <==>
            (GetText(g, Kind) == Some("mdrange") ==>
               var rank := GetNumber(g, Rank).value;
               rank <= |GetNumbers(g, Begin).value|
               && rank <= |GetNumbers(g, End).value| && rank <= |GetNumbers(g, Tile).value|)
  {
  }

  // ---------- the round trip ----------

  /** The replayer was built for the policy's space and rank. */
  predicate Supported(p: Policy, r: Backends) {
    match p
    case Scalar(_) => true
    case Range(_, space, _, _, _, _) => space in r.spaces
    case MDRange(_, space, _, _, _, lower, _, _) => space in r.spaces && RankSupported(|lower|, r)
    case Team(_, space, _, _, _, _, _, _) => space in r.spaces
  }

  /** What the encoding cannot carry: scratch sizes that cannot be queried, and chunk sizes beyond 32 bits. */
  predicate Lossless(p: Policy, canQueryScratch: bool) {
    match p
    case Range(_, _, _, _, _, chunk) => I32.Holds(chunk)
    case Team(_, _, _, _, _, _, scratch, _) => canQueryScratch || scratch == Scratch(0, 0, 0, 0)
    case _ => true
  }

  ghost predicate Spells(g: Group, kind: string, h: Header) {
    && GetText(g, Kind) == Some(kind) && GetText(g, SpaceName) == Some(h.space)
    && GetText(g, ScheduleKind) == Some(ScheduleName(h.schedule))
    && GetNumber(g, IndexTypeSize) == Some(h.index.Size())
    && GetNumber(g, IndexTypeSigned).Some?
    && (GetNumber(g, IndexTypeSigned).value != 0 <==> h.index.Signed())
  }

  lemma HeaderRoundTrip(g: Group, r: Backends, kind: string, h: Header)
    requires Spells(g, kind, h)
    ensures ReadHeader(g, r) == if h.space in r.spaces then Some(h) else None
  {
    IndexTypeRoundTrip(h.index.Signed(), h.index.Size(), h.index);
  }

  /** What reading back a dumped policy and rebuilding it gives. */
  ghost function ReadBack(p: Policy, canQueryScratch: bool, r: Backends): Option<Rebuilt>
    requires WellFormed(p)
  {
    match ReadPolicy(WritePolicy(Register(p, canQueryScratch)), r)
    case None => None
    case Some(d) => Some(Rebuild(d))
  }

  /** Before any registration the dump holds no policy; it can be read, but a replayed launch throws. */
  lemma NoPolicyThrows(r: Backends)
    ensures ReadPolicy(WritePolicy(NoDesc), r) == Some(NoPolicy) && Rebuild(NoPolicy) == Throws
  {
  }

  lemma RangeGroup(d: Desc, h: Header)
    requires d.RangeDesc? && d.size == h.index.Size() && d.signed == h.index.Signed()
    requires d.space == h.space && d.schedule == ScheduleName(h.schedule)
    ensures Spells(WritePolicy(d), "range", h)
    ensures GetNumber(WritePolicy(d), IndexTypeSigned) == Some(if d.signed then 1 else 0)
    ensures ReadRange(WritePolicy(d), h) == Some(RangePolicy(d.begin, d.end, d.chunk, h))
  {
  }

  lemma RangeRoundTrip(p: Policy, canQueryScratch: bool, r: Backends)
    requires WellFormed(p) && p.Range?
    ensures ReadBack(p, canQueryScratch, r) ==
            if Supported(p, r)
            then Some(Launches(Range(p.index, p.space, p.schedule, p.begin, p.end, Narrow(I32, p.chunk))))
            else None
  {
    hide WritePolicy, ReadHeader, ReadRange, Spells, IndexTypeToU64, DecodeBound, Narrow;
    var h := Header(p.index, p.space, p.schedule);
    var d := Register(p, canQueryScratch);
    RangeGroup(d, h);
    HeaderRoundTrip(WritePolicy(d), r, "range", h);
    KindOf(WritePolicy(d), "range", h);
    BoundRoundTrip(p.index, p.begin);
    BoundRoundTrip(p.index, p.end);
  }

  lemma KindOf(g: Group, kind: string, h: Header)
    requires Spells(g, kind, h)
    ensures GetText(g, Kind) == Some(kind)
  {
  }

  lemma MDRangeHeader(d: Desc, h: Header)
    requires d.MDRangeDesc? && d.size == h.index.Size() && d.signed == h.index.Signed()
    requires d.space == h.space && d.schedule == ScheduleName(h.schedule)
    ensures Spells(WritePolicy(d), "mdrange", h)
    ensures GetNumber(WritePolicy(d), IndexTypeSigned) == Some(if d.signed then 1 else 0)
  {
  }

  lemma MDRangeGroup(d: Desc)
    requires d.MDRangeDesc?
    ensures var g := WritePolicy(d);
            && GetNumber(g, Rank) == Some(d.rank) && GetText(g, OuterDir) == Some(d.outer)
            && GetText(g, InnerDir) == Some(d.inner) && GetNumbers(g, Begin) == Some(d.lower)
            && GetNumbers(g, End) == Some(d.upper) && GetNumbers(g, Tile) == Some(d.tile)
  {
    hide TypeAttributes;
  }

  /** A group that is accepted although its `begin` is one entry short, and read out of bounds later. */
  lemma ShortBeginEscapes(r: Backends)
    requires "Serial" in r.spaces
    ensures var g := WritePolicy(MDRangeDesc(4, true, "Serial", "static", 2, "left", "left", [0], [8, 8], [2, 2]));
            ReadPolicy(g, r).Some? && Rebuild(ReadPolicy(g, r).value) == OutOfBounds
  {
    hide WritePolicy, GetNumber, GetText, GetNumbers, ReadHeader, Spells;
    var d := MDRangeDesc(4, true, "Serial", "static", 2, "left", "left", [0], [8, 8], [2, 2]);
    var h := Header(I32, "Serial", Static);
    MDRangeGroup(d);
    MDRangeHeader(d, h);
    HeaderRoundTrip(WritePolicy(d), r, "mdrange", h);
    KindOf(WritePolicy(d), "mdrange", h);
  }

  lemma MDRangeRoundTrip(p: Policy, canQueryScratch: bool, r: Backends)
    requires WellFormed(p) && p.MDRange?
    ensures ReadBack(p, canQueryScratch, r) == if Supported(p, r) then Some(Launches(p)) else None
    ensures ReadBack(p, canQueryScratch, r) ==
            if p.space in r.spaces && (2 <= |p.lower| <= 6 || (|p.lower| == 1 && r.rankOne)) then Some(Launches(p))
            else None
  {
    hide WritePolicy, GetNumber, GetText, GetNumbers, ReadHeader, Spells, Converted, AllHold;
    var h := Header(p.index, p.space, p.schedule);
    var d := Register(p, canQueryScratch);
    MDRangeGroup(d);
    MDRangeHeader(d, h);
    HeaderRoundTrip(WritePolicy(d), r, "mdrange", h);
    KindOf(WritePolicy(d), "mdrange", h);
    var n := |p.lower|;
    assert d.lower[..n] == d.lower && d.upper[..n] == d.upper && d.tile[..n] == d.tile;
    ConvertedHold(p.index, p.lower);
    ConvertedHold(p.index, p.upper);
    ConvertedHold(p.index, p.tile);
    assert DirectionFromName(DirectionName(p.outer)) == Some(p.outer);
    assert DirectionFromName(DirectionName(p.inner)) == Some(p.inner);
  }

  lemma TeamHeader(d: Desc, h: Header)
    requires d.TeamDesc? && d.size == h.index.Size() && d.signed == h.index.Signed()
    requires d.space == h.space && d.schedule == ScheduleName(h.schedule)
    ensures Spells(WritePolicy(d), "team", h)
    ensures GetNumber(WritePolicy(d), IndexTypeSigned) == Some(if d.signed then 1 else 0)
  {
  }

  lemma TeamGroup(d: Desc)
    requires d.TeamDesc?
    ensures var g := WritePolicy(d);
            && GetNumber(g, TeamSize) == Some(d.teamSize) && GetNumber(g, LeagueSize) == Some(d.league)
            && GetNumber(g, VectorLength) == Some(d.vectorLength) && GetNumber(g, ChunkSize) == Some(d.chunk)
            && GetNumber(g, TeamScratch0) == Some(d.team0) && GetNumber(g, TeamScratch1) == Some(d.team1)
            && GetNumber(g, ThreadScratch0) == Some(d.thread0) && GetNumber(g, ThreadScratch1) == Some(d.thread1)
  {
    hide TypeAttributes;
  }

  lemma TeamRoundTrip(p: Policy, canQueryScratch: bool, r: Backends)
    requires WellFormed(p) && p.Team?
    ensures ReadBack(p, canQueryScratch, r) ==
            if Supported(p, r)
            then Some(Launches(p.(scratch := if canQueryScratch then p.scratch else Scratch(0, 0, 0, 0))))
            else None
  {
    hide WritePolicy, GetNumber, GetText, ReadHeader, Spells;
    var h := Header(p.index, p.space, p.schedule);
    var d := Register(p, canQueryScratch);
    TeamGroup(d);
    TeamHeader(d, h);
    HeaderRoundTrip(WritePolicy(d), r, "team", h);
    KindOf(WritePolicy(d), "team", h);
    assert ExtentFromCode(ExtentCode(p.teamSize)) == p.teamSize;
    assert ExtentFromCode(ExtentCode(p.vectorLength)) == p.vectorLength;
  }

  /**
   * A dumped policy is accepted exactly when the replayer supports it, and then the replayed launch has the
   * very same policy exactly when the encoding loses nothing: AUTO markers, bounds of every index type, tiles
   * and directions are never lost.
   */
  lemma PolicyRoundTrip(p: Policy, canQueryScratch: bool, r: Backends)
    requires WellFormed(p)
    ensures var back := ReadBack(p, canQueryScratch, r);
            && (back.Some? <==> Supported(p, r))
            && (back == Some(Launches(p)) <==> Supported(p, r) && Lossless(p, canQueryScratch))
    ensures ReadBack(p, canQueryScratch, r).Some? <==>
            match p
            case Scalar(_) => true
            case Range(_, space, _, _, _, _) => space in r.spaces
            case MDRange(_, space, _, _, _, lower, _, _) =>
              space in r.spaces && (2 <= |lower| <= 6 || (|lower| == 1 && r.rankOne))
            case Team(_, space, _, _, _, _, _, _) => space in r.spaces
    ensures ReadBack(p, canQueryScratch, r) == Some(Launches(p)) <==>
            && ReadBack(p, canQueryScratch, r).Some?
            && match p
               case Scalar(_) => true
               case Range(_, _, _, _, _, chunk) => -0x8000_0000 <= chunk < 0x8000_0000
               case MDRange(_, _, _, _, _, _, _, _) => true
               case Team(_, _, _, _, _, _, s, _) =>
                 canQueryScratch || (s.team0 == 0 && s.team1 == 0 && s.thread0 == 0 && s.thread1 == 0)
  {
    hide ReadPolicy, WritePolicy, Register;
    match p {
      case Scalar(_) => ScalarRoundTrip(p, canQueryScratch, r);
      case Range(_, _, _, _, _, _) =>
        RangeRoundTrip(p, canQueryScratch, r);
        NarrowInRange(I32, p.chunk);
      case MDRange(_, _, _, _, _, _, _, _) => MDRangeRoundTrip(p, canQueryScratch, r);
      case Team(_, _, _, _, _, _, _, _) => TeamRoundTrip(p, canQueryScratch, r);
    }
  }

  lemma ScalarRoundTrip(p: Policy, canQueryScratch: bool, r: Backends)
    requires p.Scalar?
    ensures ReadBack(p, canQueryScratch, r) == Some(Launches(p))
  {
  }

  /**
   * Whatever group is read, written by KREPE or not: an accepted group spells the header of the policy that is
   * launched, which the replayer supports, and its bounds and tiles are values of its index type.
   */
  lemma AcceptedPolicyIsUsable(g: Group, r: Backends)
    requires ReadPolicy(g, r).Some? && Rebuild(ReadPolicy(g, r).value).Launches?
    ensures var p := Rebuild(ReadPolicy(g, r).value).policy;
            && Supported(p, r)
            && (p.Range? || p.MDRange? ==> WellFormed(p))
            && (!p.Scalar? ==> Spells(g, GetText(g, Kind).value, Header(p.index, p.space, p.schedule)))
  {
    var d := ReadPolicy(g, r).value;
    if d.RangePolicy? || d.MDRangePolicy? || d.TeamPolicy? {
      var h := ReadHeader(g, r).value;
      IndexTypeRoundTrip(GetNumber(g, IndexTypeSigned).value != 0, GetNumber(g, IndexTypeSize).value, h.index);
    }
    if d.RangePolicy? {
      BoundInRange(d.header.index, d.begin);
      BoundInRange(d.header.index, d.end);
    } else if d.MDRangePolicy? {
      ConvertedHold(d.header.index, d.begins[..d.rank]);
      ConvertedHold(d.header.index, d.ends[..d.rank]);
      ConvertedHold(d.header.index, d.tiles[..d.rank]);
    }
  }

  /** Exactly these groups are accepted; every other one is an error. */
  lemma AcceptedExactly(g: Group, r: Backends)
    ensures ReadPolicy(g, r).Some? <==>
            || Has(g, Kind, Text("none"))
            || (Has(g, Kind, Text("scalar")) && End in g && g[End].Word?)
            || (HeaderAccepted(g, r)
                && (|| (Has(g, Kind, Text("range")) && RangeAccepted(g))
                    || (Has(g, Kind, Text("mdrange")) && MDRangeAccepted(g, r))
                    || (Has(g, Kind, Text("team")) && TeamAccepted(g))))
  {
  }

  ghost predicate HeaderAccepted(g: Group, r: Backends) {
    && IndexTypeSigned in g && g[IndexTypeSigned].Number?
    && IndexTypeSize in g && g[IndexTypeSize].Number? && g[IndexTypeSize].number in {1, 2, 4, 8}
    && SpaceName in g && g[SpaceName].Text? && g[SpaceName].text in r.spaces
    && ScheduleKind in g && g[ScheduleKind].Text? && g[ScheduleKind].text in {"static", "dynamic"}
  }

  ghost predicate RangeAccepted(g: Group) {
    && Begin in g && g[Begin].Word? && End in g && g[End].Word? && ChunkSize in g && g[ChunkSize].Number?
  }

  ghost predicate MDRangeAccepted(g: Group, r: Backends) {
    && Rank in g && g[Rank].Number?
    && (2 <= g[Rank].number <= 6 || (g[Rank].number == 1 && r.rankOne))
    && OuterDir in g && g[OuterDir].Text? && g[OuterDir].text in {"left", "right"}
    && InnerDir in g && g[InnerDir].Text? && g[InnerDir].text in {"left", "right"}
    && Begin in g && g[Begin].Numbers? && End in g && g[End].Numbers? && Tile in g && g[Tile].Numbers?
  }

  ghost predicate TeamAccepted(g: Group) {
    forall name | name in {TeamSize, LeagueSize, VectorLength, TeamScratch0, TeamScratch1, ThreadScratch0,
                           ThreadScratch1, ChunkSize} :: name in g && g[name].Number?
  }

  /** Whatever group is accepted: its kind, and what its attributes become, with none of them changed. */
  lemma AcceptedGroupIsKept(g: Group, r: Backends)
    requires ReadPolicy(g, r).Some?
    ensures match ReadPolicy(g, r).value
            case NoPolicy => GetText(g, Kind) == Some("none")
            case ScalarPolicy(n) => GetText(g, Kind) == Some("scalar") && GetWord(g, End) == Some(n)
            case RangePolicy(begin, end, chunk, _) =>
              && GetText(g, Kind) == Some("range") && GetWord(g, Begin) == Some(begin)
              && GetWord(g, End) == Some(end) && GetNumber(g, ChunkSize) == Some(chunk)
            case MDRangePolicy(begins, ends, tiles, _, rank, outer, inner) =>
              && GetText(g, Kind) == Some("mdrange") && GetNumber(g, Rank) == Some(rank)
              && GetText(g, OuterDir) == Some(if outer == Left then "left" else "right")
              && GetText(g, InnerDir) == Some(if inner == Left then "left" else "right")
              && GetNumbers(g, Begin) == Some(begins) && GetNumbers(g, End) == Some(ends)
              && GetNumbers(g, Tile) == Some(tiles)
            case TeamPolicy(teamSize, league, vectorLength, team0, team1, thread0, thread1, chunk, _) =>
              && GetText(g, Kind) == Some("team") && GetNumber(g, TeamSize) == Some(teamSize)
              && GetNumber(g, LeagueSize) == Some(league) && GetNumber(g, VectorLength) == Some(vectorLength)
              && GetNumber(g, TeamScratch0) == Some(team0) && GetNumber(g, TeamScratch1) == Some(team1)
              && GetNumber(g, ThreadScratch0) == Some(thread0) && GetNumber(g, ThreadScratch1) == Some(thread1)
              && GetNumber(g, ChunkSize) == Some(chunk)
  {
  }

  /** A team policy is rebuilt with AUTO for every negative size and with scratch sizes unless the first is -1. */
  lemma TeamIsRebuilt(d: Stored)
    requires d.TeamPolicy?
    ensures Rebuild(d).Launches? && Rebuild(d).policy.Team?
    ensures var p := Rebuild(d).policy;
            && p.index == d.header.index && p.space == d.header.space && p.schedule == d.header.schedule
            && p.league == d.league && p.chunk == d.chunk
            && p.teamSize == (if d.teamSize < 0 then Auto else Fixed(d.teamSize))
            && p.vectorLength == (if d.vectorLength < 0 then Auto else Fixed(d.vectorLength))
            && p.scratch == (if d.team0 == -1 then Scratch(0, 0, 0, 0)
                             else Scratch(d.team0, d.team1, d.thread0, d.thread1))
  {
  }
}
