/** Day 21: the garden plots an elf can stand on after a number of steps,
    each step to an orthogonal neighbour that is a garden plot. */
module Day21 {
  import opened Wrappers
  import opened Text
  import opened Grid
  import opened Sequences
  import opened Arith

  datatype Plot = Garden | Rock

  /** The positions of `s` can step to, in one step, on a garden plot of
      the grid. */
  function StepOnce(grid: Grid<Plot>, s: set<Position>): set<Position>
    requires grid.Valid()
  {
    set p, q | p in s && q in Neighbours(p) && grid.Get(q) == Some(Garden) :: q
  }

  /** The plots reachable from `s` in exactly `n` steps. */
  function Reach(grid: Grid<Plot>, s: set<Position>, n: nat): set<Position>
    requires grid.Valid()
    decreases n
  {
    if n == 0 then s else Reach(grid, StepOnce(grid, s), n - 1)
  }

  /** `Garden::reachable_plots`: the frontier replaced `steps` times by the
      garden neighbours of its members. */
  method ReachablePlots(grid: Grid<Plot>, start: set<Position>, steps: nat) returns (points: set<Position>)
    requires grid.Valid()
    ensures points == Reach(grid, start, steps)
  {
    points := start;
    for i := 0 to steps
      invariant Reach(grid, points, steps - i) == Reach(grid, start, steps)
    {
      points := StepOnce(grid, points);
    }
  }

  /** A step lands on the garden plots one orthogonal step away from a
      member of the frontier, and on nothing else. */
  lemma StepOnceSpec(grid: Grid<Plot>, s: set<Position>, q: Position)
    requires grid.Valid()
    ensures q in StepOnce(grid, s) <==>
      grid.Get(q) == Some(Garden) && exists p, d :: p in s && Step(p, d) == Some(q)
  {
    if q in StepOnce(grid, s) {
      var p :| p in s && q in Neighbours(p) && grid.Get(q) == Some(Garden);
      NeighboursSpec(p);
    }
    if grid.Get(q) == Some(Garden) && exists p, d :: p in s && Step(p, d) == Some(q) {
      var p, d :| p in s && Step(p, d) == Some(q);
      NeighboursSpec(p);
      assert q in Neighbours(p);
    }
  }

  /** After at least one step only garden plots of the map remain. */
  lemma {:induction false} ReachGarden(grid: Grid<Plot>, s: set<Position>, n: nat)
    requires grid.Valid() && n >= 1
    ensures forall q :: q in Reach(grid, s, n) ==> grid.Get(q) == Some(Garden) && grid.Contains(q)
    decreases n
  {
    if n > 1 {
      ReachGarden(grid, StepOnce(grid, s), n - 1);
    }
  }

  /** Taking `a` steps and then `b` more is taking `a + b` steps. */
  lemma {:induction false} ReachAdd(grid: Grid<Plot>, s: set<Position>, a: nat, b: nat)
    requires grid.Valid()
    ensures Reach(grid, Reach(grid, s, a), b) == Reach(grid, s, a + b)
    decreases a
  {
    if a > 0 {
      ReachAdd(grid, StepOnce(grid, s), a - 1, b);
    }
  }

  /** A larger frontier steps to a larger frontier. */
  lemma StepMonotone(grid: Grid<Plot>, s: set<Position>, t: set<Position>)
    requires grid.Valid() && s <= t
    ensures StepOnce(grid, s) <= StepOnce(grid, t)
  {
  }

  /** More starting plots reach at least as many plots. */
  lemma {:induction false} ReachMonotone(grid: Grid<Plot>, s: set<Position>, t: set<Position>, n: nat)
    requires grid.Valid() && s <= t
    ensures Reach(grid, s, n) <= Reach(grid, t, n)
    decreases n
  {
    if n > 0 {
      StepMonotone(grid, s, t);
      ReachMonotone(grid, StepOnce(grid, s), StepOnce(grid, t), n - 1);
    }
  }

  /** A plot reached in `n` steps lies within `n` steps of a starting plot,
      at a distance of the parity of `n`. */
  lemma {:induction false} ReachDistance(grid: Grid<Plot>, s: set<Position>, n: nat, q: Position)
    requires grid.Valid() && q in Reach(grid, s, n)
    ensures exists p :: p in s && ManhattanDistance(p, q) <= n && (n - ManhattanDistance(p, q)) % 2 == 0
    decreases n
  {
    if n > 0 {
      var next := StepOnce(grid, s);
      ReachDistance(grid, next, n - 1, q);
      var r :| r in next && ManhattanDistance(r, q) <= n - 1 && (n - 1 - ManhattanDistance(r, q)) % 2 == 0;
      var p :| p in s && r in Neighbours(p) && grid.Get(r) == Some(Garden);
      NeighboursSpec(p);
      var d :| Step(p, d) == Some(r);
      NeighbourDistance(p, r, q, d, n);
    }
  }

  lemma NeighbourDistance(p: Position, r: Position, q: Position, d: Direction, n: nat)
    requires n >= 1 && Step(p, d) == Some(r)
    requires ManhattanDistance(r, q) <= n - 1 && (n - 1 - ManhattanDistance(r, q)) % 2 == 0
    ensures ManhattanDistance(p, q) <= n && (n - ManhattanDistance(p, q)) % 2 == 0
  {
    StepDistance(p, d);
  }

  // ---------------------------------------------------------------------
  // Parsing

  /** `parse_input`'s `match`: a start is a garden plot, any other
      character is `unreachable!`. */
  function PlotOf(c: char): Result<Plot> {
    if c == '.' || c == 'S' then Ok(Garden)
    else if c == '#' then Ok(Rock)
    else Err(Panic)
  }

  /** There is an `S` at `q` of the text. */
  ghost predicate IsStart(lines: seq<string>, q: Position) {
    q.y < |lines| && q.x < |lines[q.y]| && lines[q.y][q.x] == 'S'
  }

  /** `q` comes before column `col` of line `row` in reading order. */
  ghost predicate Seen(q: Position, row: nat, col: nat) {
    q.y < row || (q.y == row && q.x < col)
  }

  /** `start` is the last `S` read before column `col` of line `row`, or the
      default position when none was. */
  ghost predicate LastStart(lines: seq<string>, start: Position, row: nat, col: nat) {
    if exists q :: IsStart(lines, q) && Seen(q, row, col) then
      IsStart(lines, start) && Seen(start, row, col)
      && forall q :: IsStart(lines, q) && Seen(q, row, col) ==> Seen(q, start.y, start.x + 1)
    else start == Position(0, 0)
  }

  /** `parse_input`: the plots of the text row by row, with the last `S` as
      the starting point; a ragged text panics in `Grid::new(..).unwrap()`.
      */
  method ParseInput(input: string) returns (r: Result<(Position, Grid<Plot>)>)
    ensures var lines := Lines(input);
      var width := if lines == [] then 0 else |lines[0]|;
      match MapResult(Concat(lines), PlotOf)
      case Err(e) => r == Err(e)
      case Ok(cells) =>
        match NewGrid(|lines|, width, cells)
        case None => r == Err(Panic)
        case Some(g) => r.Ok? && r.value.1 == g && LastStart(lines, r.value.0, |lines|, 0)
  {
    var lines := Lines(input);
    var height := |lines|;
    var width := if lines == [] then 0 else |lines[0]|;
    var plots: seq<Plot> := [];
    var start := Position(0, 0);
    for row := 0 to |lines|
      invariant MapResult(Concat(lines[..row]), PlotOf) == Ok(plots)
      invariant LastStart(lines, start, row, 0)
    {
      var line := lines[row];
      ghost var read := Concat(lines[..row]);
      assert read + line[..0] == read;
      for col := 0 to |line|
        invariant MapResult(read + line[..col], PlotOf) == Ok(plots)
        invariant LastStart(lines, start, row, col)
      {
        ghost var prev := plots;
        var c := line[col];
        SeeColumn(lines, start, row, col);
        if c == '.' {
          plots := plots + [Garden];
        } else if c == '#' {
          plots := plots + [Rock];
        } else if c == 'S' {
          start := Position(col, row);
          plots := plots + [Garden];
        } else {
          ReadErr(lines, row, col, prev);
          return Err(Panic);
        }
        ReadOk(read, line, col, prev);
      }
      assert line[..|line|] == line;
      ConcatSnoc(lines, row);
      NextLine(lines, start, row);
    }
    assert lines[..|lines|] == lines;
    match NewGrid(height, width, plots)
    case None => r := Err(Panic);
    case Some(g) => r := Ok((start, g));
  }

  /** A character that is a plot extends the plots read so far. */
  lemma ReadOk(read: string, line: string, col: nat, plots: seq<Plot>)
    requires col < |line| && MapResult(read + line[..col], PlotOf) == Ok(plots) && PlotOf(line[col]).Ok?
    ensures MapResult(read + line[..col + 1], PlotOf) == Ok(plots + [PlotOf(line[col]).value])
  {
    assert (read + line[..col]) + [line[col]] == read + line[..col + 1];
    SnocOk(read + line[..col], line[col], PlotOf, plots);
  }

  /** A character that is not a plot is the error of the whole text. */
  lemma ReadErr(lines: seq<string>, row: nat, col: nat, plots: seq<Plot>)
    requires row < |lines| && col < |lines[row]|
    requires MapResult(Concat(lines[..row]) + lines[row][..col], PlotOf) == Ok(plots)
    requires PlotOf(lines[row][col]).Err?
    ensures MapResult(Concat(lines), PlotOf) == Err(Panic)
  {
    var line := lines[row];
    assert (Concat(lines[..row]) + line[..col]) + [line[col]] == Concat(lines[..row]) + line[..col + 1];
    SnocErr(Concat(lines[..row]) + line[..col], line[col], PlotOf, plots);
    assert lines == lines[..row] + [line] + lines[row + 1..];
    ConcatAppend(lines[..row] + [line], lines[row + 1..]);
    ConcatAppend(lines[..row], [line]);
    assert Concat([line]) == line + Concat([]);
    assert line == line[..col + 1] + line[col + 1..];
    assert Concat(lines) == (Concat(lines[..row]) + line[..col + 1]) + (line[col + 1..] + Concat(lines[row + 1..]));
    MapResultErr(Concat(lines[..row]) + line[..col + 1], line[col + 1..] + Concat(lines[row + 1..]), PlotOf);
  }

  /** Reading one more character: an `S` becomes the start. */
  lemma SeeColumn(lines: seq<string>, start: Position, row: nat, col: nat)
    requires row < |lines| && col < |lines[row]| && LastStart(lines, start, row, col)
    ensures lines[row][col] == 'S' ==> LastStart(lines, Position(col, row), row, col + 1)
    ensures lines[row][col] != 'S' ==> LastStart(lines, start, row, col + 1)
  {
    var here := Position(col, row);
    assert forall q :: Seen(q, row, col + 1) <==> Seen(q, row, col) || q == here;
    if lines[row][col] == 'S' {
      assert IsStart(lines, here) && Seen(here, row, col + 1);
    } else {
      assert forall q :: IsStart(lines, q) ==> (Seen(q, row, col + 1) <==> Seen(q, row, col));
    }
  }

  /** The rest of a line holds no `S`. */
  lemma NextLine(lines: seq<string>, start: Position, row: nat)
    requires row < |lines| && LastStart(lines, start, row, |lines[row]|)
    ensures LastStart(lines, start, row + 1, 0)
  {
    assert forall q :: IsStart(lines, q) ==> (Seen(q, row, |lines[row]|) <==> Seen(q, row + 1, 0));
  }

  /** The start of a rectangular text is a garden plot of its grid. */
  lemma StartIsGarden(input: string, start: Position, g: Grid<Plot>)
    requires var lines := Lines(input);
      && lines != [] && (forall y :: 0 <= y < |lines| ==> |lines[y]| == |lines[0]|)
      && IsStart(lines, start)
      && MapResult(Concat(lines), PlotOf).Ok?
      && NewGrid(|lines|, |lines[0]|, MapResult(Concat(lines), PlotOf).value) == Some(g)
    ensures g.Get(start) == Some(Garden)
  {
    var lines := Lines(input);
    var cells := MapResult(Concat(lines), PlotOf).value;
    CellsOfLines(lines, |lines[0]|, cells, start);
    assert lines[start.y][start.x] == 'S';
  }

  /** The cell of a rectangular text at `q` is the plot of its character. */
  lemma {:induction false} CellsOfLines(lines: seq<string>, width: nat, cells: seq<Plot>, q: Position)
    requires forall y :: 0 <= y < |lines| ==> |lines[y]| == width
    requires MapResult(Concat(lines), PlotOf) == Ok(cells) && |cells| == width * |lines|
    requires q.y < |lines| && q.x < width
    ensures PlotOf(lines[q.y][q.x]) == Ok(Chunks(cells, width, |lines|)[q.y][q.x])
  {
    var h := |lines|;
    assert Concat(lines) == lines[0] + Concat(lines[1..]);
    MapResultSplit(lines[0], Concat(lines[1..]), PlotOf);
    assert width * h == width + width * (h - 1);
    var rows := Chunks(cells, width, h);
    assert rows == [cells[..width]] + Chunks(cells[width..], width, h - 1);
    if q.y == 0 {
      MapResultAt(lines[0], PlotOf, q.x);
    } else {
      assert rows[q.y] == Chunks(cells[width..], width, h - 1)[q.y - 1];
      CellsOfLines(lines[1..], width, cells[width..], Position(q.x, q.y - 1));
    }
  }

  // ---------------------------------------------------------------------
  // The tiling of part two

  /** `part2`'s map of 5 by 5 copies of a grid, `size` being its width: row
      `y` is row `y % size` of the grid, cycled. A map narrower than it is
      tall has rows the tiling never reads; one wider than it is tall
      would need rows it does not have, which panics. */
  function Tile(grid: Grid<Plot>): (r: Result<Grid<Plot>>)
    requires grid.Valid()
    ensures r.Ok? ==> r.value.Valid()
  {
    var size := grid.width;
    if size > grid.height then Err(Panic)
    else if size == 0 then Ok(Grid(0, 0, []))
    else Ok(Grid(5 * size, 5 * size, seq(5 * size, y requires 0 <= y < 5 * size => Cycle(grid.Row(y % size), 5 * size))))
  }

  /** Every cell of the tiling is the cell of the map at the same place
      modulo the size. */
  lemma TileSpec(grid: Grid<Plot>, x: nat, y: nat)
    requires grid.Valid() && 0 < grid.width <= grid.height && x < 5 * grid.width && y < 5 * grid.width
    ensures Tile(grid).Ok?
    ensures Tile(grid).value.Get(Position(x, y)) == grid.Get(Position(x % grid.width, y % grid.width))
  {
    var size := grid.width;
    CycleAt(grid.Row(y % size), 5 * size, x);
  }

  /** The starting point moved to the centre copy sits on the same plot. */
  lemma CentreStart(grid: Grid<Plot>, start: Position)
    requires grid.Valid() && 0 < grid.width <= grid.height && start.x < grid.width && start.y < grid.width
    ensures Tile(grid).Ok?
    ensures var size := grid.width;
      Tile(grid).value.Get(Position(start.x + 2 * size, start.y + 2 * size)) == grid.Get(start)
  {
    var size := grid.width;
    Centre(start.x, size);
    Centre(start.y, size);
    TileSpec(grid, start.x + 2 * size, start.y + 2 * size);
  }

  lemma Centre(x: nat, size: nat)
    requires x < size
    ensures (x + 2 * size) % size == x
  {
    ModuloShift(x, size);
    ModuloShift(x + size, size);
    assert x + size + size == x + 2 * size;
  }

  /** The three samples `part2` fits a quadratic through: the plots reached
      on the tiling from the centre start after half a size, then after one
      and two sizes more. */
  method Samples(grid: Grid<Plot>, start: Position) returns (r: Result<(nat, nat, nat)>)
    requires grid.Valid()
    ensures Tile(grid).Err? ==> r == Err(Panic)
    ensures Tile(grid).Ok? ==>
      var size := grid.width;
      var tiled := Tile(grid).value;
      var centre := {Position(start.x + 2 * size, start.y + 2 * size)};
      r == Ok((|Reach(tiled, centre, size / 2)|, |Reach(tiled, centre, size / 2 + size)|,
               |Reach(tiled, centre, size / 2 + 2 * size)|))
  {
    var tiling := Tile(grid);
    if tiling.Err? {
      return Err(Panic);
    }
    var tiled := tiling.value;
    var size := grid.width;
    var centre := {Position(start.x + 2 * size, start.y + 2 * size)};
    var first := ReachablePlots(tiled, centre, size / 2);
    var second := ReachablePlots(tiled, first, size);
    var third := ReachablePlots(tiled, second, size);
    ReachAdd(tiled, centre, size / 2, size);
    ReachAdd(tiled, centre, size / 2 + size, size);
    assert size / 2 + size + size == size / 2 + 2 * size;
    r := Ok((|first|, |second|, |third|));
  }
}
