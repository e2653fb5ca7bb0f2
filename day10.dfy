/** Day 10: a loop of pipes through a field of tiles. The loop is traced
    from the starting tile; its farthest point is half its length, and the
    tiles it encloses follow from the shoelace formula and Pick's theorem. */
module Day10 {
  import opened Wrappers
  import opened Text
  import opened Grid
  import opened Arith

  datatype Tile =
    | VerticalPipe | HorizontalPipe
    | UpRightBend | UpLeftBend | DownLeftBend | DownRightBend
    | Ground | StartingPosition

  predicate IsPipe(t: Tile) {
    t != Ground && t != StartingPosition
  }

  /** `Tile::directions`: the sides a tile opens to. */
  function TileDirections(t: Tile): (r: seq<Direction>)
    ensures IsPipe(t) <==> |r| == 2
    ensures IsPipe(t) ==> r[0] != r[1]
    ensures t == Ground <==> r == []
    ensures t == StartingPosition <==> |r| == 4
    ensures t == StartingPosition ==> Up in r && Down in r && Left in r && Right in r
  {
    match t
    case VerticalPipe => [Up, Down]
    case HorizontalPipe => [Left, Right]
    case UpRightBend => [Up, Right]
    case UpLeftBend => [Up, Left]
    case DownLeftBend => [Down, Left]
    case DownRightBend => [Down, Right]
    case Ground => []
    case StartingPosition => [Up, Down, Left, Right]
  }

  /** The character a tile is written as. */
  function Symbol(t: Tile): char {
    match t
    case VerticalPipe => '|'
    case HorizontalPipe => '-'
    case UpRightBend => 'L'
    case UpLeftBend => 'J'
    case DownLeftBend => '7'
    case DownRightBend => 'F'
    case Ground => '.'
    case StartingPosition => 'S'
  }

  /** `Tile::try_from`: the eight tile characters, any other character
      being its own error. */
  function TileOf(c: char): (r: Result<Tile>)
    ensures r.Ok? <==> c in "|-LJ7F.S"
    ensures r.Ok? ==> Symbol(r.value) == c
    ensures r.Err? ==> r.error == Bad([c])
  {
    match c
    case '|' => Ok(VerticalPipe)
    case '-' => Ok(HorizontalPipe)
    case 'L' => Ok(UpRightBend)
    case 'J' => Ok(UpLeftBend)
    case '7' => Ok(DownLeftBend)
    case 'F' => Ok(DownRightBend)
    case '.' => Ok(Ground)
    case 'S' => Ok(StartingPosition)
    case _ => Err(Bad([c]))
  }

  lemma TileRoundTrip(t: Tile)
    ensures TileOf(Symbol(t)) == Ok(t)
  {
  }

  datatype Map = Map(grid: Grid<Tile>, start: Position)

  /** A map as the parser builds it: a rectangular grid whose starting
      position holds the starting tile. */
  predicate ValidMap(m: Map) {
    m.grid.Valid() && m.grid.Get(m.start) == Some(StartingPosition)
  }

  /** The tile at `p`, ground outside the grid. */
  function TileAt(m: Map, p: Position): Tile
    requires m.grid.Valid()
  {
    m.grid.Get(p).GetOr(Ground)
  }

  function StepsAlong(p: Position, ds: seq<Direction>): seq<Option<Position>> {
    seq(|ds|, i requires 0 <= i < |ds| => Step(p, ds[i]))
  }

  /** `Map::connects_to`: the positions the tile at `p` opens to, in the
      order of its directions; a side that would leave the quadrant is
      dropped, and outside the grid there is nothing. */
  function ConnectsTo(m: Map, p: Position): seq<Position>
    requires m.grid.Valid()
  {
    Somes(StepsAlong(p, TileDirections(TileAt(m, p))))
  }

  /** A position it connects to is one step along one of the tile's
      directions, and every such step that stays in the quadrant is one;
      outside the grid there is nothing. */
  lemma ConnectsToSpec(m: Map, p: Position)
    requires m.grid.Valid()
    ensures !m.grid.Contains(p) ==> ConnectsTo(m, p) == []
    ensures |ConnectsTo(m, p)| <= |TileDirections(TileAt(m, p))|
    ensures forall q :: q in ConnectsTo(m, p) <==>
      exists d :: d in TileDirections(TileAt(m, p)) && Step(p, d) == Some(q)
  {
    var ds := TileDirections(TileAt(m, p));
    var steps := StepsAlong(p, ds);
    SomesSpec(steps);
    forall q | q in ConnectsTo(m, p)
      ensures exists d :: d in ds && Step(p, d) == Some(q)
    {
      var i :| 0 <= i < |steps| && steps[i] == Some(q);
      assert ds[i] in ds;
    }
    forall d | d in ds && Step(p, d).Some?
      ensures Step(p, d).value in ConnectsTo(m, p)
    {
      var i :| 0 <= i < |ds| && ds[i] == d;
      assert steps[i] == Step(p, d);
    }
  }

  // ---------------------------------------------------------------------
  // Parsing

  /** The index of the first `t` in `cells`. */
  function FirstIndex(cells: seq<Tile>, t: Tile, i: nat): Option<nat>
    requires i <= |cells|
    decreases |cells| - i
  {
    if i == |cells| then None
    else if cells[i] == t then Some(i)
    else FirstIndex(cells, t, i + 1)
  }

  lemma {:induction false} FirstIndexSpec(cells: seq<Tile>, t: Tile, i: nat)
    requires i <= |cells|
    ensures var r := FirstIndex(cells, t, i);
      r.Some? ==> i <= r.value < |cells| && cells[r.value] == t && forall j :: i <= j < r.value ==> cells[j] != t
    ensures FirstIndex(cells, t, i).None? <==> forall j :: i <= j < |cells| ==> cells[j] != t
    decreases |cells| - i
  {
    if i < |cells| && cells[i] != t {
      FirstIndexSpec(cells, t, i + 1);
    }
  }

  /** `Map::from_str`: the tiles line after line, the first line setting the
      width; the start is the first starting tile in reading order. A refused
      character is the error; no starting tile, a width of zero (division by
      zero) and a ragged grid panic. */
  function MapOf(s: string): Result<Map> {
    var lines := Lines(s);
    var height := |lines|;
    var width := if lines == [] then 0 else |lines[0]|;
    match MapResult(Concat(lines), TileOf)
    case Err(e) => Err(e)
    case Ok(tiles) =>
      match FirstIndex(tiles, StartingPosition, 0)
      case None => Err(Panic)
      case Some(idx) =>
        if width == 0 then Err(Panic)
        else
          match NewGrid(height, width, tiles)
          case None => Err(Panic)
          case Some(g) => Ok(Map(g, Position(idx % width, idx / width)))
  }

  /** `p` comes before `q` in reading order. */
  predicate Before(p: Position, q: Position) {
    p.y < q.y || (p.y == q.y && p.x < q.x)
  }

  /** The start is the first starting tile of the grid in reading order. */
  predicate FirstStart(m: Map)
    requires m.grid.Valid()
  {
    && m.grid.Get(m.start) == Some(StartingPosition)
    && forall y, x :: 0 <= y < m.grid.height && 0 <= x < m.grid.width && Before(Position(x, y), m.start) ==>
         m.grid.rows[y][x] != StartingPosition
  }

  lemma MapOfStart(s: string)
    ensures MapOf(s).Ok? ==> ValidMap(MapOf(s).value) && FirstStart(MapOf(s).value)
  {
    var lines := Lines(s);
    var height := |lines|;
    var width := if lines == [] then 0 else |lines[0]|;
    var cells := MapResult(Concat(lines), TileOf);
    if cells.Ok? && FirstIndex(cells.value, StartingPosition, 0).Some? && width > 0
       && |cells.value| == width * height {
      var tiles := cells.value;
      var idx := FirstIndex(tiles, StartingPosition, 0).value;
      FirstIndexSpec(tiles, StartingPosition, 0);
      StartCell(tiles, width, height, idx);
    }
  }

  /** The grid cut from `tiles` holds the first starting tile `idx` at
      `(idx % width, idx / width)`, and no starting tile before it. */
  lemma StartCell(tiles: seq<Tile>, width: nat, height: nat, idx: nat)
    requires |tiles| == width * height && idx < |tiles| && tiles[idx] == StartingPosition
    requires forall j :: 0 <= j < idx ==> tiles[j] != StartingPosition
    ensures var m := Map(Grid(width, height, Chunks(tiles, width, height)), Position(idx % width, idx / width));
      m.grid.Valid() && ValidMap(m) && FirstStart(m)
  {
    var rows := Chunks(tiles, width, height);
    var g := Grid(width, height, rows);
    var start := Position(idx % width, idx / width);
    assert g.Valid();
    assert g.Get(start) == Some(StartingPosition) by {
      ChunksAt(tiles, width, height, idx);
    }
    forall y, x | 0 <= y < height && 0 <= x < width && Before(Position(x, y), start)
      ensures rows[y][x] != StartingPosition
    {
      RowMajorBefore(x, y, start.x, start.y, width);
      ChunksCell(tiles, width, height, x, y, y * width + x);
    }
  }

  // ---------------------------------------------------------------------
  // The first step

  /** The tile one step from the start, ground when the step leaves the
      quadrant. */
  function Neighbour(m: Map, d: Direction): Tile
    requires m.grid.Valid()
  {
    match Step(m.start, d)
    case None => Ground
    case Some(p) => TileAt(m, p)
  }

  /** The pipes `generate_path` accepts one step from the start, as the
      source lists them. */
  function AcceptedAsWritten(d: Direction): seq<Tile> {
    match d
    case Up => [VerticalPipe, DownRightBend, DownLeftBend]
    case Down => [VerticalPipe, UpRightBend, UpLeftBend]
    case Left => [HorizontalPipe, UpLeftBend, DownLeftBend]
    case Right => [HorizontalPipe, UpRightBend, DownRightBend]
  }

  /** The first direction of `generate_path`, as written: the first of Up,
      Down, Left and Right whose neighbour is on its list. */
  function FirstStepAsWritten(m: Map): Option<Direction>
    requires m.grid.Valid()
  {
    if Neighbour(m, Up) in AcceptedAsWritten(Up) then Some(Up)
    else if Neighbour(m, Down) in AcceptedAsWritten(Down) then Some(Down)
    else if Neighbour(m, Left) in AcceptedAsWritten(Left) then Some(Left)
    else if Neighbour(m, Right) in AcceptedAsWritten(Right) then Some(Right)
    else None
  }

  /** The neighbour in direction `d` is a pipe that opens back towards the
      start. */
  predicate PointsBack(m: Map, d: Direction)
    requires m.grid.Valid()
  {
    var t := Neighbour(m, d);
    IsPipe(t) && Opposite(d) in TileDirections(t)
  }

  /** The first step as intended: the first of Up, Down, Left and Right
      whose neighbouring pipe points back at the start. */
  function FirstStep(m: Map): Option<Direction>
    requires m.grid.Valid()
  {
    if PointsBack(m, Up) then Some(Up)
    else if PointsBack(m, Down) then Some(Down)
    else if PointsBack(m, Left) then Some(Left)
    else if PointsBack(m, Right) then Some(Right)
    else None
  }

  /** The first step is the first direction that points back, and there is
      one unless none does; it never leaves the quadrant. */
  lemma FirstStepSpec(m: Map)
    requires m.grid.Valid()
    ensures FirstStep(m).Some? ==> PointsBack(m, FirstStep(m).value) && Step(m.start, FirstStep(m).value).Some?
    ensures FirstStep(m).None? <==> forall d :: !PointsBack(m, d)
    ensures FirstStep(m) == Some(Down) ==> !PointsBack(m, Up)
    ensures FirstStep(m) == Some(Left) ==> !PointsBack(m, Up) && !PointsBack(m, Down)
    ensures FirstStep(m) == Some(Right) ==> !PointsBack(m, Up) && !PointsBack(m, Down) && !PointsBack(m, Left)
  {
  }

  /** The lists for Up and Down are right, so the two agree whenever either
      steps up or down. */
  lemma FirstStepVertical(m: Map)
    requires m.grid.Valid()
    ensures FirstStep(m) == Some(Up) <==> FirstStepAsWritten(m) == Some(Up)
    ensures FirstStep(m) == Some(Down) <==> FirstStepAsWritten(m) == Some(Down)
  {
    assert PointsBack(m, Up) <==> Neighbour(m, Up) in AcceptedAsWritten(Up);
    assert PointsBack(m, Down) <==> Neighbour(m, Down) in AcceptedAsWritten(Down);
  }

  /** The map `FS7` / `L-J`, started at the `S`: the start connects only
      sideways. */
  predicate IsSidewaysLoop(m: Map) {
    && m.start == Position(1, 0) && m.grid.width == 3 && m.grid.height == 2
    && |m.grid.rows| == 2 && |m.grid.rows[0]| == 3 && |m.grid.rows[1]| == 3
    && m.grid.rows[0][0] == DownRightBend && m.grid.rows[0][1] == StartingPosition
    && m.grid.rows[0][2] == DownLeftBend && m.grid.rows[1][0] == UpRightBend
    && m.grid.rows[1][1] == HorizontalPipe && m.grid.rows[1][2] == UpLeftBend
  }

  /** The lists for Left and Right name the pipes that open away from the
      start, so as written this loop is refused, while the start's left
      neighbour `F` does point back at it. */
  lemma FirstStepCounterexample(m: Map)
    requires IsSidewaysLoop(m)
    ensures ValidMap(m)
    ensures FirstStepAsWritten(m) == None
    ensures FirstStep(m) == Some(Left)
  {
    assert m.grid.Valid();
    assert !PointsBack(m, Up) && Neighbour(m, Up) !in AcceptedAsWritten(Up);
    assert !PointsBack(m, Down) && Neighbour(m, Down) !in AcceptedAsWritten(Down);
    assert PointsBack(m, Left) && Neighbour(m, Left) !in AcceptedAsWritten(Left);
    assert Neighbour(m, Right) !in AcceptedAsWritten(Right);
  }

  // ---------------------------------------------------------------------
  // Tracing the loop

  /** The first position of `s` other than `prev`. */
  function FirstOther(s: seq<Position>, prev: Position): Option<Position> {
    if s == [] then None
    else if s[0] != prev then Some(s[0])
    else FirstOther(s[1..], prev)
  }

  /** It is a position of `s` other than `prev`, and there is none only
      when every position of `s` is `prev`. */
  lemma {:induction false} FirstOtherSpec(s: seq<Position>, prev: Position)
    ensures var r := FirstOther(s, prev);
      && (r.Some? ==> r.value in s && r.value != prev)
      && (r.None? ==> forall q :: q in s ==> q == prev)
  {
    if s != [] && s[0] == prev {
      FirstOtherSpec(s[1..], prev);
      assert forall q :: q in s ==> q == s[0] || q in s[1..];
    }
  }

  /** One step of the loop of `generate_path`: the first position the pipe
      at `cur` connects to other than `prev`; none panics in `unwrap`. */
  function NextPosition(m: Map, prev: Position, cur: Position): Result<Position>
    requires m.grid.Valid()
  {
    match FirstOther(ConnectsTo(m, cur), prev)
    case None => Err(Panic)
    case Some(q) => Ok(q)
  }

  /** The next position is one the pipe connects to, other than the
      previous one; only a pipe that leads nowhere else panics. */
  lemma NextPositionSpec(m: Map, prev: Position, cur: Position)
    requires m.grid.Valid()
    ensures var r := NextPosition(m, prev, cur);
      && (r.Ok? ==> r.value in ConnectsTo(m, cur) && r.value != prev)
      && (r.Err? ==> r.error == Panic && forall q :: q in ConnectsTo(m, cur) ==> q == prev)
  {
    FirstOtherSpec(ConnectsTo(m, cur), prev);
  }

  /** The loop of `generate_path` from the path so far and the position to
      visit next, given at most `fuel` more steps: it ends when the next
      position is the start. Out of fuel it reports `Diverges`: the source
      would loop for ever on a pipe network that never leads back. */
  function Trace(m: Map, path: seq<Position>, next: Position, fuel: nat): Result<seq<Position>>
    requires m.grid.Valid() && path != []
    decreases fuel
  {
    if next == m.start then Ok(path)
    else if fuel == 0 then Err(Diverges)
    else
      match NextPosition(m, path[|path| - 1], next)
      case Err(e) => Err(e)
      case Ok(after) => Trace(m, path + [next], after, fuel - 1)
  }

  /** `generate_path` with at most `fuel` steps of its loop, starting with
      the intended first step; a start that connects nowhere panics in
      `expect`, and a first step off the quadrant would panic in `unwrap`
      (`FirstStepSpec` shows it cannot happen). */
  function PathOf(m: Map, fuel: nat): Result<seq<Position>>
    requires m.grid.Valid()
  {
    match FirstStep(m)
    case None => Err(Panic)
    case Some(d) =>
      match Step(m.start, d)
      case None => Err(Panic)
      case Some(next) => Trace(m, [m.start], next, fuel)
  }

  method GeneratePath(m: Map, fuel: nat) returns (r: Result<seq<Position>>)
    requires m.grid.Valid()
    ensures r == PathOf(m, fuel)
  {
    var first := FirstStep(m);
    if first.None? {
      return Err(Panic);
    }
    var step := Step(m.start, first.value);
    if step.None? {
      return Err(Panic);
    }
    var path := [m.start];
    var next := step.value;
    var left := fuel;
    while next != m.start
      invariant path != []
      invariant Trace(m, path, next, left) == PathOf(m, fuel)
      decreases left
    {
      if left == 0 {
        return Err(Diverges);
      }
      var after := NextPosition(m, path[|path| - 1], next);
      TraceAdvance(m, path, next, left, after);
      if after.Err? {
        return Err(after.error);
      }
      path := path + [next];
      next := after.value;
      left := left - 1;
    }
    return Ok(path);
  }

  lemma TraceAdvance(m: Map, path: seq<Position>, next: Position, fuel: nat, after: Result<Position>)
    requires m.grid.Valid() && path != [] && next != m.start && fuel > 0
    requires after == NextPosition(m, path[|path| - 1], next)
    ensures after.Err? ==> Trace(m, path, next, fuel) == Err(after.error)
    ensures after.Ok? ==> Trace(m, path, next, fuel) == Trace(m, path + [next], after.value, fuel - 1)
  {
    TraceUnfold(m, path, next, fuel);
  }

  /** One turn of the loop of `generate_path`. */
  lemma TraceUnfold(m: Map, path: seq<Position>, next: Position, fuel: nat)
    requires m.grid.Valid() && path != [] && next != m.start && fuel > 0
    ensures var after := NextPosition(m, path[|path| - 1], next);
      && (after.Err? ==> Trace(m, path, next, fuel) == Err(after.error))
      && (after.Ok? ==> Trace(m, path, next, fuel) == Trace(m, path + [next], after.value, fuel - 1))
  {
  }

  /** A walk along the pipes from the start: every position connects to the
      one after it, and to `next` at the end; no step goes straight back;
      the start comes first and only first. */
  predicate Walk(m: Map, path: seq<Position>, next: Position)
    requires m.grid.Valid()
  {
    && path != [] && path[0] == m.start
    && (forall i :: 1 <= i < |path| ==> path[i] != m.start)
    && (forall i :: 0 <= i < |path| - 1 ==> path[i + 1] in ConnectsTo(m, path[i]))
    && next in ConnectsTo(m, path[|path| - 1])
    && (forall i :: 0 <= i < |path| - 2 ==> path[i + 2] != path[i])
    && (|path| >= 2 ==> next != path[|path| - 2])
  }

  lemma WalkStep(m: Map, path: seq<Position>, next: Position, after: Position)
    requires m.grid.Valid() && Walk(m, path, next) && next != m.start
    requires after in ConnectsTo(m, next) && after != path[|path| - 1]
    ensures Walk(m, path + [next], after)
  {
    var longer := path + [next];
    assert forall i :: 0 <= i < |path| ==> longer[i] == path[i];
    assert longer[|path|] == next;
    assert forall i :: 1 <= i < |longer| ==> longer[i] != m.start;
    assert forall i :: 0 <= i < |longer| - 1 ==> longer[i + 1] in ConnectsTo(m, longer[i]);
    assert forall i :: 0 <= i < |longer| - 2 ==> longer[i + 2] != longer[i];
  }

  lemma {:induction false} TraceWalk(m: Map, path: seq<Position>, next: Position, fuel: nat, loop: seq<Position>)
    requires m.grid.Valid() && Walk(m, path, next)
    requires Trace(m, path, next, fuel) == Ok(loop)
    ensures Walk(m, loop, m.start)
    decreases fuel
  {
    if next != m.start {
      var after := NextPosition(m, path[|path| - 1], next);
      TraceAdvance(m, path, next, fuel, after);
      assert after.value in ConnectsTo(m, next) && after.value != path[|path| - 1] by {
        NextPositionSpec(m, path[|path| - 1], next);
      }
      WalkStep(m, path, next, after.value);
      TraceWalk(m, path + [next], after.value, fuel - 1, loop);
    }
  }

  /** What `generate_path` promises: a closed loop along the pipes from the
      start back to it, which never turns straight back and holds the start
      once. */
  lemma PathIsLoop(m: Map, fuel: nat)
    requires ValidMap(m)
    ensures PathOf(m, fuel).Ok? ==> Walk(m, PathOf(m, fuel).value, m.start)
  {
    var first := FirstStep(m);
    if PathOf(m, fuel).Ok? {
      var next := Step(m.start, first.value).value;
      ConnectsToSpec(m, m.start);
      assert TileAt(m, m.start) == StartingPosition;
      assert first.value in TileDirections(StartingPosition) by {
        assert Up in TileDirections(StartingPosition) && Down in TileDirections(StartingPosition);
        assert Left in TileDirections(StartingPosition) && Right in TileDirections(StartingPosition);
      }
      TraceWalk(m, [m.start], next, fuel, PathOf(m, fuel).value);
    }
  }

  // ---------------------------------------------------------------------
  // The two parts

  function Min(a: nat, b: nat): nat {
    if a <= b then a else b
  }

  /** The steps from the start to position `i` of a closed loop, going the
      shorter way round. */
  function LoopDistance(path: seq<Position>, i: nat): nat
    requires i <= |path|
  {
    Min(i, |path| - i)
  }

  /** `part1`: half the length of the loop, rounded down. */
  function Part1(m: Map, fuel: nat): Result<nat>
    requires m.grid.Valid()
  {
    match PathOf(m, fuel)
    case Err(e) => Err(e)
    case Ok(path) => Ok(|path| / 2)
  }

  /** The colour of a position on a chessboard. */
  function Parity(p: Position): nat {
    (p.x + p.y) % 2
  }

  /** The pipes connect a position only to its four neighbours, so each
      step along them changes colour. */
  lemma ConnectsParity(m: Map, p: Position, q: Position)
    requires m.grid.Valid() && q in ConnectsTo(m, p)
    ensures Parity(q) != Parity(p)
  {
    ConnectsToSpec(m, p);
    var d :| d in TileDirections(TileAt(m, p)) && Step(p, d) == Some(q);
  }

  lemma {:induction false} WalkParity(m: Map, path: seq<Position>, next: Position, i: nat)
    requires m.grid.Valid() && Walk(m, path, next) && i < |path|
    ensures Parity(path[i]) == (Parity(path[0]) + i) % 2
  {
    if i > 0 {
      WalkParity(m, path, next, i - 1);
      ConnectsParity(m, path[i - 1], path[i]);
    }
  }

  /** A closed loop along the pipes has an even length: it returns to the
      colour it started on. */
  lemma LoopIsEven(m: Map, path: seq<Position>)
    requires m.grid.Valid() && Walk(m, path, m.start)
    ensures |path| % 2 == 0
  {
    WalkParity(m, path, m.start, |path| - 1);
    ConnectsParity(m, path[|path| - 1], m.start);
  }

  /** What `part1` promises: the loop is even, so its farthest position is
      exactly half-way, as far from the start one way round as the other,
      and no position of the loop is farther. */
  lemma Part1IsFarthest(m: Map, fuel: nat, path: seq<Position>)
    requires ValidMap(m) && PathOf(m, fuel) == Ok(path)
    ensures Part1(m, fuel) == Ok(|path| / 2)
    ensures 2 * (|path| / 2) == |path|
    ensures forall i :: 0 <= i < |path| ==> LoopDistance(path, i) <= |path| / 2
    ensures |path| / 2 < |path| && |path| / 2 == |path| - |path| / 2
  {
    PathIsLoop(m, fuel);
    LoopIsEven(m, path);
  }

  /** One term of the shoelace sum. */
  function Term(a: Position, b: Position): int {
    (a.y + b.y) * (a.x - b.x)
  }

  /** The shoelace terms of the first `k` sides of the closed polygon
      `path`, the last side joining the last position to the first. */
  function ShoelaceSum(path: seq<Position>, k: nat): int
    requires k <= |path|
  {
    if k == 0 then 0
    else
      var b := if k == |path| then path[0] else path[k];
      ShoelaceSum(path, k - 1) + Term(path[k - 1], b)
  }

  /** Twice the area enclosed by the polygon `path`. */
  function DoubleArea(path: seq<Position>): nat {
    Abs(ShoelaceSum(path, |path|))
  }

  /** `part2` as written: in unsigned arithmetic `double_area - len`
      underflows, which panics, when the area is smaller than the length. */
  function Part2AsWritten(path: seq<Position>): Result<nat> {
    var area := DoubleArea(path);
    if area < |path| then Err(Panic) else Ok((area - |path|) / 2 + 1)
  }

  /** The interior tiles by Pick's theorem, `A - b/2 + 1`, computed without
      an intermediate that can go negative. */
  function Part2(path: seq<Position>): int {
    (DoubleArea(path) + 2 - |path|) / 2
  }

  lemma Part2Agrees(path: seq<Position>)
    ensures Part2AsWritten(path).Ok? ==> Part2AsWritten(path).value == Part2(path)
    ensures Part2AsWritten(path).Err? <==> DoubleArea(path) < |path|
  {
  }

  /** The smallest loop, `S7` / `LJ`, encloses no tile, yet its double area
      (2) is smaller than its length (4). */
  lemma Part2Counterexample()
    ensures var path := [Position(0, 0), Position(0, 1), Position(1, 1), Position(1, 0)];
      Part2AsWritten(path) == Err(Panic) && Part2(path) == 0
  {
    var path := [Position(0, 0), Position(0, 1), Position(1, 1), Position(1, 0)];
    assert ShoelaceSum(path, 1) == 0;
    assert ShoelaceSum(path, 2) == -2;
    assert ShoelaceSum(path, 3) == -2;
    assert ShoelaceSum(path, 4) == -2;
  }

  // ---------------------------------------------------------------------
  // Rectangular loops: the formula counts the tiles they enclose

  /** Position `i` of the boundary of the rectangle `w` wide and `h` high
      whose top left corner is `(x0, y0)`: along the top, down the right
      side, back along the bottom and up the left side. Position `2w + 2h`
      is the corner again. */
  function RectAt(x0: nat, y0: nat, w: nat, h: nat, i: nat): Position
    requires i <= 2 * w + 2 * h
  {
    if i < w then Position(x0 + i, y0)
    else if i < w + h then Position(x0 + w, y0 + (i - w))
    else if i < 2 * w + h then Position(x0 + w - (i - w - h), y0 + h)
    else Position(x0, y0 + h - (i - 2 * w - h))
  }

  /** The loop around the rectangle, one position per boundary tile. */
  function Rect(x0: nat, y0: nat, w: nat, h: nat): (r: seq<Position>)
    ensures |r| == 2 * w + 2 * h
  {
    seq(2 * w + 2 * h, i requires 0 <= i < 2 * w + 2 * h => RectAt(x0, y0, w, h, i))
  }

  /** The shoelace sum of the first `k` sides of the rectangle: each step
      right along the top adds `-2 y0`, each step left along the bottom
      `2 (y0 + h)`, the sides nothing. */
  function RectPrefix(y0: nat, w: nat, h: nat, k: nat): int {
    if k <= w then -2 * y0 * k
    else if k <= w + h then -2 * y0 * w
    else if k <= 2 * w + h then -2 * y0 * w + 2 * (y0 + h) * (k - w - h)
    else 2 * h * w
  }

  lemma RectTerm(x0: nat, y0: nat, w: nat, h: nat, k: nat)
    requires w >= 1 && h >= 1 && 1 <= k <= 2 * w + 2 * h
    ensures Term(RectAt(x0, y0, w, h, k - 1), RectAt(x0, y0, w, h, k)) ==
      RectPrefix(y0, w, h, k) - RectPrefix(y0, w, h, k - 1)
  {
    var a, b := RectAt(x0, y0, w, h, k - 1), RectAt(x0, y0, w, h, k);
    if k <= w {
      assert a.y == y0 && b.y == y0 && a.x - b.x == -1;
      assert -2 * y0 * k == -2 * y0 * (k - 1) - 2 * y0;
    } else if k <= w + h {
      assert a.x == b.x;
    } else if k <= 2 * w + h {
      assert a.y == y0 + h && b.y == y0 + h && a.x - b.x == 1;
      assert 2 * (y0 + h) * (k - w - h) == 2 * (y0 + h) * (k - 1 - w - h) + 2 * (y0 + h);
      if k - 1 == w + h {
        assert RectPrefix(y0, w, h, k - 1) == -2 * y0 * w;
      }
    } else {
      assert a.x == b.x;
      if k - 1 == 2 * w + h {
        assert RectPrefix(y0, w, h, k - 1) == -2 * y0 * w + 2 * (y0 + h) * w;
        assert -2 * y0 * w + 2 * (y0 + h) * w == 2 * h * w;
      }
    }
  }

  lemma {:induction false} RectSum(x0: nat, y0: nat, w: nat, h: nat, k: nat)
    requires w >= 1 && h >= 1 && k <= 2 * w + 2 * h
    ensures ShoelaceSum(Rect(x0, y0, w, h), k) == RectPrefix(y0, w, h, k)
  {
    if k > 0 {
      var path := Rect(x0, y0, w, h);
      RectSum(x0, y0, w, h, k - 1);
      RectTerm(x0, y0, w, h, k);
      assert (if k == |path| then path[0] else path[k]) == RectAt(x0, y0, w, h, k);
    }
  }

  /** On the loop around a rectangle, `part2` is the number of tiles
      strictly inside it, `(w - 1) (h - 1)`; as written it panics exactly
      when that number is zero. */
  lemma RectangleInterior(x0: nat, y0: nat, w: nat, h: nat)
    requires w >= 1 && h >= 1
    ensures var path := Rect(x0, y0, w, h);
      && DoubleArea(path) == 2 * w * h
      && Part2(path) == (w - 1) * (h - 1)
      && (Part2AsWritten(path).Err? <==> w == 1 || h == 1)
      && (Part2AsWritten(path).Ok? ==> Part2AsWritten(path).value == (w - 1) * (h - 1))
  {
    var path := Rect(x0, y0, w, h);
    RectSum(x0, y0, w, h, 2 * w + 2 * h);
    PickRectangle(w, h, 2 * h * w);
    Part2Agrees(path);
  }

  /** The arithmetic of Pick's formula for a rectangle. */
  lemma PickRectangle(w: nat, h: nat, sum: int)
    requires w >= 1 && h >= 1 && sum == 2 * h * w
    ensures Abs(sum) == 2 * w * h
    ensures (Abs(sum) + 2 - (2 * w + 2 * h)) / 2 == (w - 1) * (h - 1)
    ensures Abs(sum) < 2 * w + 2 * h <==> w == 1 || h == 1
  {
    var a: nat, b: nat := w - 1, h - 1;
    var k := a * b;
    assert h * w == k + a + b + 1 by {
      assert h * w == (b + 1) * (a + 1);
      assert (b + 1) * (a + 1) == b * (a + 1) + a + 1;
      assert b * (a + 1) == b * a + b;
    }
    assert k == 0 <==> a == 0 || b == 0 by {
      if a > 0 && b > 0 {
        assert a * b >= a * 1;
      }
    }
    assert sum == 2 * (h * w) && 2 * w * h == 2 * (h * w);
  }

  lemma SomesPair(p: Position, q: Position)
    ensures Somes([Some(p), Some(q)]) == [p, q]
  {
    assert [Some(p), Some(q)][1..] == [Some(q)];
    assert [Some(q)][1..] == [];
  }

  /** The map `S7` / `LJ`. */
  predicate IsSmallestLoop(m: Map) {
    && m.start == Position(0, 0) && m.grid.width == 2 && m.grid.height == 2
    && |m.grid.rows| == 2 && |m.grid.rows[0]| == 2 && |m.grid.rows[1]| == 2
    && m.grid.rows[0][0] == StartingPosition && m.grid.rows[0][1] == DownLeftBend
    && m.grid.rows[1][0] == UpRightBend && m.grid.rows[1][1] == UpLeftBend
  }

  /** That map traces exactly the loop of `Part2Counterexample`. */
  lemma SmallestLoop(m: Map)
    requires IsSmallestLoop(m)
    ensures ValidMap(m)
    ensures PathOf(m, 3) == Ok([Position(0, 0), Position(0, 1), Position(1, 1), Position(1, 0)])
  {
    assert m.grid.Valid();
    var a, b, c := Position(0, 1), Position(1, 1), Position(1, 0);
    assert FirstStep(m) == Some(Down) by {
      assert Neighbour(m, Up) == Ground;
      assert Neighbour(m, Down) == UpRightBend by {
        assert m.grid.Get(a) == Some(UpRightBend);
      }
    }
    assert NextPosition(m, m.start, a) == Ok(b) by {
      assert TileAt(m, a) == UpRightBend;
      assert StepsAlong(a, [Up, Right]) == [Some(m.start), Some(b)];
      SomesPair(m.start, b);
      assert ConnectsTo(m, a) == [m.start, b];
      assert [m.start, b][1..] == [b];
      assert FirstOther([m.start, b], m.start) == Some(b);
    }
    assert NextPosition(m, a, b) == Ok(c) by {
      assert TileAt(m, b) == UpLeftBend;
      assert StepsAlong(b, [Up, Left]) == [Some(c), Some(a)];
      SomesPair(c, a);
      assert ConnectsTo(m, b) == [c, a];
    }
    assert NextPosition(m, b, c) == Ok(m.start) by {
      assert TileAt(m, c) == DownLeftBend;
      assert StepsAlong(c, [Down, Left]) == [Some(b), Some(m.start)];
      SomesPair(b, m.start);
      assert ConnectsTo(m, c) == [b, m.start];
      assert [b, m.start][1..] == [m.start];
      assert FirstOther([b, m.start], b) == Some(m.start);
    }
    assert PathOf(m, 3) == Trace(m, [m.start], a, 3) by {
      assert Step(m.start, Down) == Some(a);
    }
    assert Trace(m, [m.start], a, 3) == Trace(m, [m.start, a], b, 2) by {
      TraceAdvance(m, [m.start], a, 3, Ok(b));
      assert [m.start] + [a] == [m.start, a];
    }
    assert Trace(m, [m.start, a], b, 2) == Trace(m, [m.start, a, b], c, 1) by {
      TraceAdvance(m, [m.start, a], b, 2, Ok(c));
      assert [m.start, a] + [b] == [m.start, a, b];
    }
    assert Trace(m, [m.start, a, b], c, 1) == Trace(m, [m.start, a, b, c], m.start, 0) by {
      TraceAdvance(m, [m.start, a, b], c, 1, Ok(m.start));
      assert [m.start, a, b] + [c] == [m.start, a, b, c];
    }
  }

  /** `part2` on the loop the map gives, with the corrected arithmetic. */
  function Part2Of(m: Map, fuel: nat): Result<int>
    requires m.grid.Valid()
  {
    match PathOf(m, fuel)
    case Err(e) => Err(e)
    case Ok(path) => Ok(Part2(path))
  }
}
