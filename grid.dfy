/** The grid interface the solvers are written against: positions with
    non-negative coordinates (`x` the column, `y` the row, row 0 on top),
    the four directions, and a rectangular grid stored row by row. The
    module that implements it in the repository is not part of this model;
    what follows is the behaviour the solvers rely on. */
module Grid {
  import opened Wrappers
  import opened Arith

  datatype Position = Position(x: nat, y: nat)

  datatype Direction = Up | Down | Left | Right

  const Directions: seq<Direction> := [Up, Down, Left, Right]

  /** `position + direction`: `None` when the step would leave the
      non-negative quadrant. */
  function Step(p: Position, d: Direction): (r: Option<Position>)
    ensures r.None? <==> (d == Up && p.y == 0) || (d == Left && p.x == 0)
  {
    match d
    case Up => if p.y == 0 then None else Some(Position(p.x, p.y - 1))
    case Down => Some(Position(p.x, p.y + 1))
    case Left => if p.x == 0 then None else Some(Position(p.x - 1, p.y))
    case Right => Some(Position(p.x + 1, p.y))
  }

  function Opposite(d: Direction): Direction {
    match d
    case Up => Down
    case Down => Up
    case Left => Right
    case Right => Left
  }

  /** A quarter turn counter-clockwise. */
  function RotateLeft(d: Direction): Direction {
    match d
    case Up => Left
    case Left => Down
    case Down => Right
    case Right => Up
  }

  /** A quarter turn clockwise. */
  function RotateRight(d: Direction): Direction {
    match d
    case Up => Right
    case Right => Down
    case Down => Left
    case Left => Up
  }

  lemma RotationsAreInverse(d: Direction)
    ensures RotateLeft(RotateRight(d)) == d && RotateRight(RotateLeft(d)) == d
    ensures RotateLeft(RotateLeft(d)) == Opposite(d)
  {
  }

  /** A step moves to a position at distance one. */
  lemma StepDistance(p: Position, d: Direction)
    requires Step(p, d).Some?
    ensures ManhattanDistance(p, Step(p, d).value) == 1
  {
  }

  lemma StepBack(p: Position, d: Direction)
    requires Step(p, d).Some?
    ensures Step(Step(p, d).value, Opposite(d)) == Some(p)
  {
  }

  function Abs(n: int): nat {
    if n < 0 then -n else n
  }

  function ManhattanDistance(p: Position, q: Position): nat {
    Abs(p.x - q.x) + Abs(p.y - q.y)
  }

  /** The positions one step away in each direction that exists. */
  function Neighbours(p: Position): seq<Position> {
    Somes([Step(p, Up), Step(p, Down), Step(p, Left), Step(p, Right)])
  }

  lemma NeighboursSpec(p: Position)
    ensures forall q :: q in Neighbours(p) <==> exists d :: Step(p, d) == Some(q)
  {
    var all := [Step(p, Up), Step(p, Down), Step(p, Left), Step(p, Right)];
    assert forall d :: Step(p, d) in all;
    SomesSpec(all);
  }

  /** `q` is one of the eight positions around `p`. */
  predicate Adjacent(p: Position, q: Position) {
    q != p && q.x <= p.x + 1 && p.x <= q.x + 1 && q.y <= p.y + 1 && p.y <= q.y + 1
  }

  /** The up to eight positions around `p`, diagonals included. */
  function ExtendedNeighbours(p: Position): seq<Position> {
    var west := if p.x == 0 then [] else [Position(p.x - 1, p.y)];
    var above := if p.y == 0 then [] else Triple(p.x, p.y - 1);
    above + west + [Position(p.x + 1, p.y)] + Triple(p.x, p.y + 1)
  }

  lemma ExtendedNeighboursSpec(p: Position)
    ensures forall q :: q in ExtendedNeighbours(p) <==> Adjacent(p, q)
  {
    if p.y > 0 {
      TripleSpec(p.x, p.y - 1);
    }
    TripleSpec(p.x, p.y + 1);
  }

  /** The positions of row `y` from column `x - 1` (when there is one) to
      column `x + 1`. */
  function Triple(x: nat, y: nat): seq<Position> {
    (if x == 0 then [] else [Position(x - 1, y)]) + [Position(x, y), Position(x + 1, y)]
  }

  lemma TripleSpec(x: nat, y: nat)
    ensures forall q :: q in Triple(x, y) <==> q.y == y && q.x <= x + 1 && x <= q.x + 1
  {
  }

  function Remove(s: seq<Position>, p: Position): (r: seq<Position>)
    ensures |r| <= |s|
  {
    if s == [] then [] else (if s[0] == p then [] else [s[0]]) + Remove(s[1..], p)
  }

  lemma {:induction false} RemoveSpec(s: seq<Position>, p: Position)
    ensures forall q :: q in Remove(s, p) <==> q in s && q != p
  {
    if s != [] {
      RemoveSpec(s[1..], p);
      assert forall q :: q in s <==> q == s[0] || q in s[1..];
    }
  }

  function Somes(s: seq<Option<Position>>): (r: seq<Position>)
    ensures |r| <= |s|
  {
    if s == [] then []
    else (if s[0].Some? then [s[0].value] else []) + Somes(s[1..])
  }

  lemma {:induction false} SomesSpec(s: seq<Option<Position>>)
    ensures forall v :: v in Somes(s) <==> Some(v) in s
  {
    if s != [] {
      SomesSpec(s[1..]);
      assert forall o :: o in s <==> o == s[0] || o in s[1..];
    }
  }

  /** The positions of a grid of `height` rows of `width` cells. */
  function Cells(width: nat, height: nat): (r: set<Position>)
    ensures forall p :: p in r <==> p.x < width && p.y < height
  {
    set x: nat, y: nat | x < width && y < height :: Position(x, y)
  }

  /** The positions of row `y`, `width` cells long. */
  function RowCells(width: nat, y: nat): (r: set<Position>)
    ensures forall p :: p in r <==> p.x < width && p.y == y
  {
    set x: nat | x < width :: Position(x, y)
  }

  lemma {:induction false} RowCellsCount(width: nat, y: nat)
    ensures |RowCells(width, y)| == width
  {
    if width > 0 {
      assert RowCells(width, y) == RowCells(width - 1, y) + {Position(width - 1, y)};
      RowCellsCount(width - 1, y);
    }
  }

  lemma MulSucc(a: nat, b: nat)
    ensures a * (b + 1) == a * b + a
  {
  }

  /** A grid has `width * height` positions. */
  lemma {:induction false} CellsCount(width: nat, height: nat)
    ensures |Cells(width, height)| == width * height
  {
    if height > 0 {
      var above, last := Cells(width, height - 1), RowCells(width, height - 1);
      assert Cells(width, height) == above + last;
      assert above * last == {};
      CellsCount(width, height - 1);
      RowCellsCount(width, height - 1);
      MulSucc(width, height - 1);
    }
  }

  /** A rectangular grid of `height` rows of `width` cells each. */
  datatype Grid<T> = Grid(width: nat, height: nat, rows: seq<seq<T>>) {
    predicate Valid() {
      |rows| == height && forall y :: 0 <= y < |rows| ==> |rows[y]| == width
    }

    predicate Contains(p: Position) {
      p.x < width && p.y < height
    }

    /** `None` outside the grid. */
    function Get(p: Position): (r: Option<T>)
      requires Valid()
      ensures r.Some? <==> Contains(p)
    {
      if Contains(p) then Some(rows[p.y][p.x]) else None
    }

    /** The cells of row `y`, left to right. */
    function Row(y: nat): (r: seq<T>)
      requires Valid() && y < height
      ensures |r| == width
    {
      rows[y]
    }

    lemma RowSpec(y: nat)
      requires Valid() && y < height
      ensures forall x :: 0 <= x < width ==> Get(Position(x, y)) == Some(Row(y)[x])
    {
    }

    /** The cells of column `x`, top to bottom. */
    function Column(x: nat): (r: seq<T>)
      requires Valid() && x < width
      ensures |r| == height
    {
      seq(height, y requires 0 <= y < height => rows[y][x])
    }

    lemma ColumnSpec(x: nat)
      requires Valid() && x < width
      ensures forall y :: 0 <= y < height ==> Get(Position(x, y)) == Some(Column(x)[y])
    {
    }
  }

  /** `cells`, `height` rows of `width` cells, cut into rows. */
  function Chunks<T>(cells: seq<T>, width: nat, height: nat): (rows: seq<seq<T>>)
    requires |cells| == width * height
    ensures |rows| == height && forall y :: 0 <= y < height ==> |rows[y]| == width
  {
    if height == 0 then []
    else
      assert width * height == width + width * (height - 1);
      [cells[..width]] + Chunks(cells[width..], width, height - 1)
  }

  /** Column `x` of row `y` of the rows is cell `y * width + x`. */
  lemma {:induction false} ChunksCell<T>(cells: seq<T>, width: nat, height: nat, x: nat, y: nat, i: nat)
    requires |cells| == width * height && x < width && y < height && i == y * width + x
    ensures i < |cells| && Chunks(cells, width, height)[y][x] == cells[i]
    decreases y
  {
    assert width * height == width + width * (height - 1);
    var rows := Chunks(cells, width, height);
    assert rows == [cells[..width]] + Chunks(cells[width..], width, height - 1);
    if y > 0 {
      assert i - width == (y - 1) * width + x;
      ChunksCell(cells[width..], width, height - 1, x, y - 1, i - width);
    }
  }

  /** Cell `i` of the cells is at column `i % width` of row `i / width`. */
  lemma ChunksAt<T>(cells: seq<T>, width: nat, height: nat, i: nat)
    requires |cells| == width * height && i < |cells|
    ensures width > 0 && i / width < height
    ensures Chunks(cells, width, height)[i / width][i % width] == cells[i]
  {
    QuotientBound(i, width, height);
    ChunksCell(cells, width, height, i % width, i / width, i);
  }

  lemma QuotientBound(i: nat, width: nat, height: nat)
    requires i < width * height
    ensures width > 0 && i / width < height && i == (i / width) * width + i % width
  {
  }

  /** The place of column `x` of row `y` among the cells. */
  lemma IndexOf(x: nat, y: nat, width: nat)
    requires x < width
    ensures (y * width + x) / width == y && (y * width + x) % width == x
  {
    DivMod(y * width + x, width, y, x);
  }

  /** All the rows, one after the other. */
  function Concat<T>(rows: seq<seq<T>>): seq<T> {
    if rows == [] then [] else rows[0] + Concat(rows[1..])
  }

  lemma {:induction false} ConcatAppend<T>(a: seq<seq<T>>, b: seq<seq<T>>)
    ensures Concat(a + b) == Concat(a) + Concat(b)
  {
    if a == [] {
      assert a + b == b;
    } else {
      assert (a + b)[0] == a[0];
      assert (a + b)[1..] == a[1..] + b;
      ConcatAppend(a[1..], b);
    }
  }

  /** One more row adds its cells at the end. */
  lemma ConcatSnoc<T>(rows: seq<seq<T>>, y: nat)
    requires y < |rows|
    ensures Concat(rows[..y + 1]) == Concat(rows[..y]) + rows[y]
  {
    assert rows[..y + 1] == rows[..y] + [rows[y]];
    ConcatAppend(rows[..y], [rows[y]]);
    assert [rows[y]][1..] == [];
    assert Concat([rows[y]]) == rows[y] + Concat([rows[y]][1..]);
  }

  /** Cutting into rows keeps every cell, in order. */
  lemma {:induction false} ChunksConcat<T>(cells: seq<T>, width: nat, height: nat)
    requires |cells| == width * height
    ensures Concat(Chunks(cells, width, height)) == cells
  {
    if height > 0 {
      assert width * height == width + width * (height - 1);
      var rows := Chunks(cells, width, height);
      ChunksConcat(cells[width..], width, height - 1);
      assert rows[1..] == Chunks(cells[width..], width, height - 1);
      assert cells == cells[..width] + cells[width..];
    }
  }

  /** `Grid::new(height, width, cells)`: fails unless there are exactly
      `width * height` cells, read row by row. */
  function NewGrid<T>(height: nat, width: nat, cells: seq<T>): (r: Option<Grid<T>>)
    ensures r.Some? <==> |cells| == width * height
    ensures r.Some? ==> r.value.Valid() && r.value.width == width && r.value.height == height
  {
    if |cells| == width * height then Some(Grid(width, height, Chunks(cells, width, height))) else None
  }

  /** The cells of a text block, line after line, each character turned
      into a cell by `cell`; `None` when a character is refused. */
  function ParseCells<T>(lines: seq<string>, cell: char -> Option<T>): (r: Option<seq<T>>)
    ensures r.Some? && lines != [] ==> ParseLine(lines[0], cell).Some?
  {
    if lines == [] then Some([])
    else match (ParseLine(lines[0], cell), ParseCells(lines[1..], cell))
      case (Some(first), Some(rest)) => Some(first + rest)
      case _ => None
  }

  function ParseLine<T>(line: string, cell: char -> Option<T>): (r: Option<seq<T>>)
    ensures r.Some? ==> |r.value| == |line|
    ensures r.Some? ==> forall i :: 0 <= i < |line| ==> cell(line[i]) == Some(r.value[i])
    ensures r.None? <==> exists i :: 0 <= i < |line| && cell(line[i]).None?
  {
    if line == [] then Some([])
    else match (cell(line[0]), ParseLine(line[1..], cell))
      case (Some(c), Some(rest)) => Some([c] + rest)
      case (None, _) => None
      case (_, None) =>
        var i :| 0 <= i < |line| - 1 && cell(line[1..][i]).None?;
        assert cell(line[i + 1]).None?;
        None
  }
}
