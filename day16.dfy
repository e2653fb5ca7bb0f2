/** Day 16: a contraption of mirrors and splitters. A beam enters at one
    tile heading one way; mirrors turn it, splitters hit broadside split it
    in two, and every tile a beam passes through is energized. */
module Day16 {
  import opened Wrappers
  import opened Text
  import opened Grid

  datatype Tile = Empty | UpRightMirror | DownRightMirror | VerticalSplitter | HorizontalSplitter

  /** `Tile::try_from`. */
  function TileOf(c: char): (r: Result<Tile>)
    ensures r.Ok? <==> c in "./\\|-"
    ensures r.Ok? ==> Symbol(r.value) == c
    ensures r.Err? ==> r.error == Bad([c])
  {
    match c
    case '.' => Ok(Empty)
    case '/' => Ok(UpRightMirror)
    case '\\' => Ok(DownRightMirror)
    case '|' => Ok(VerticalSplitter)
    case '-' => Ok(HorizontalSplitter)
    case _ => Err(Bad([c]))
  }

  /** The character a tile is written as. */
  function Symbol(t: Tile): char {
    match t
    case Empty => '.'
    case UpRightMirror => '/'
    case DownRightMirror => '\\'
    case VerticalSplitter => '|'
    case HorizontalSplitter => '-'
  }

  lemma TileRoundTrip(t: Tile)
    ensures TileOf(Symbol(t)) == Ok(t)
  {
  }

  /** `Contraption::from_str`: the tiles line after line, the width being
      that of the first line with its surrounding whitespace trimmed; a
      refused character is the error, and a ragged contraption panics in
      `unwrap`. */
  function ContraptionOf(s: string): (r: Result<Grid<Tile>>)
    ensures r.Ok? ==> r.value.Valid() && r.value.height == |Lines(s)|
    ensures r.Ok? ==> r.value.width == (if Lines(s) == [] then 0 else |Trim(Lines(s)[0])|)
  {
    var lines := Lines(s);
    var width := if lines == [] then 0 else |Trim(lines[0])|;
    match MapResult(Concat(lines), TileOf)
    case Err(e) => Err(e)
    case Ok(tiles) =>
      match NewGrid(|lines|, width, tiles)
      case None => Err(Panic)
      case Some(g) => Ok(g)
  }

  // ---------------------------------------------------------------------
  // Beams

  /** A beam: the tile it is on and the way it heads. */
  datatype Beam = Beam(pos: Position, dir: Direction)

  /** The mirror `/`. */
  function UpRight(d: Direction): Direction {
    match d
    case Up => Right
    case Down => Left
    case Right => Up
    case Left => Down
  }

  /** The mirror `\`. */
  function DownRight(d: Direction): Direction {
    match d
    case Up => Left
    case Down => Right
    case Right => Down
    case Left => Up
  }

  /** Each mirror undoes itself, and a beam sent back the way it left a
      mirror leaves it back the way it came. */
  lemma MirrorsReverse(d: Direction)
    ensures UpRight(UpRight(d)) == d && DownRight(DownRight(d)) == d
    ensures UpRight(Opposite(UpRight(d))) == Opposite(d)
    ensures DownRight(Opposite(DownRight(d))) == Opposite(d)
    ensures UpRight(d) != d && DownRight(d) != d && UpRight(d) != DownRight(d)
  {
  }

  /** The ways a beam heading `d` leaves tile `t`, in the order they are
      pushed: a splitter hit broadside first sends a beam up (or left) and
      then goes on down (or right). */
  function Outgoing(t: Tile, d: Direction): seq<Direction> {
    match (t, d)
    case (VerticalSplitter, Right) => [Up, Down]
    case (VerticalSplitter, Left) => [Up, Down]
    case (HorizontalSplitter, Up) => [Left, Right]
    case (HorizontalSplitter, Down) => [Left, Right]
    case (UpRightMirror, _) => [UpRight(d)]
    case (DownRightMirror, _) => [DownRight(d)]
    case _ => [d]
  }

  /** Only a splitter hit broadside splits the beam, into the two ways
      along the splitter; an empty tile, or a splitter hit end on, lets the
      beam through unchanged. */
  lemma OutgoingSpec(t: Tile, d: Direction)
    ensures |Outgoing(t, d)| == 2 <==>
      (t == VerticalSplitter && d in {Left, Right}) || (t == HorizontalSplitter && d in {Up, Down})
    ensures |Outgoing(t, d)| == 2 ==> Outgoing(t, d)[0] == Opposite(Outgoing(t, d)[1])
    ensures (t == Empty || (t == VerticalSplitter && d in {Up, Down}) ||
      (t == HorizontalSplitter && d in {Left, Right})) ==> Outgoing(t, d) == [d]
  {
  }

  /** The beams leaving `p` in the directions `ds`, a step that would leave
      the non-negative quadrant dropped. */
  function Moves(p: Position, ds: seq<Direction>): (r: seq<Beam>)
    ensures forall b :: b in r <==> b.dir in ds && Step(p, b.dir) == Some(b.pos)
  {
    if ds == [] then []
    else
      (match Step(p, ds[0]) case Some(q) => [Beam(q, ds[0])] case None => []) + Moves(p, ds[1..])
  }

  /** The beams a beam on a tile of the contraption pushes. */
  function Next(g: Grid<Tile>, b: Beam): seq<Beam>
    requires g.Valid() && g.Contains(b.pos)
  {
    Moves(b.pos, Outgoing(g.rows[b.pos.y][b.pos.x], b.dir))
  }

  // ---------------------------------------------------------------------
  // The energized tiles, defined

  /** Every beam of the contraption. */
  function AllBeams(g: Grid<Tile>): (r: set<Beam>)
    ensures forall b :: b in r ==> g.Contains(b.pos)
  {
    set p, d | p in Cells(g.width, g.height) && d in {Up, Down, Left, Right} :: Beam(p, d)
  }

  lemma InAllBeams(g: Grid<Tile>, b: Beam)
    requires g.Contains(b.pos)
    ensures b in AllBeams(g)
  {
    assert b.dir in {Up, Down, Left, Right} by {
      match b.dir
      case Up =>
      case Down =>
      case Left =>
      case Right =>
    }
    assert b.pos in Cells(g.width, g.height);
  }

  /** A set of beams that every beam on the contraption sends on into the
      set, when it stays on the contraption. */
  ghost predicate Closed(g: Grid<Tile>, c: set<Beam>)
    requires g.Valid()
  {
    forall b :: b in c && g.Contains(b.pos) ==>
      forall n :: n in Next(g, b) && g.Contains(n.pos) ==> n in c
  }

  /** The beams lit from `s`: those on the contraption that lie in every
      closed set holding `s`. */
  ghost function Lit(g: Grid<Tile>, s: Beam): set<Beam>
    requires g.Valid()
  {
    set b | b in AllBeams(g) && forall c :: Closed(g, c) && s in c ==> b in c
  }

  /** The tiles some beam of `beams` lies on. */
  function Tiles(beams: set<Beam>): set<Position> {
    set b | b in beams :: b.pos
  }

  /** The number of tiles energized from `s`. */
  ghost function Energized(g: Grid<Tile>, s: Beam): nat
    requires g.Valid()
  {
    |Tiles(Lit(g, s))|
  }

  /** A closed set on the contraption holding `s` when `s` is on it, and
      inside every closed set holding `s`, is the set of lit beams. */
  lemma LitIs(g: Grid<Tile>, s: Beam, seen: set<Beam>)
    requires g.Valid() && seen <= AllBeams(g)
    requires g.Contains(s.pos) ==> s in seen
    requires Closed(g, seen)
    requires forall c :: Closed(g, c) && s in c ==> seen <= c
    ensures seen == Lit(g, s)
  {
    var more := seen + {s};
    assert Closed(g, more) by {
      forall b | b in more && g.Contains(b.pos)
        ensures forall n :: n in Next(g, b) && g.Contains(n.pos) ==> n in more
      {
        assert b in seen;
      }
    }
    forall b | b in Lit(g, s)
      ensures b in seen
    {
      assert b in more;
    }
  }

  lemma {:induction false} SubsetCount<T>(a: set<T>, b: set<T>)
    requires a <= b
    ensures |a| <= |b|
  {
    if a != {} {
      var x :| x in a;
      SubsetCount(a - {x}, b - {x});
    }
  }

  /** At least the tile a beam enters is energized, and at most all. */
  lemma EnergizedBounds(g: Grid<Tile>, s: Beam)
    requires g.Valid()
    ensures g.Contains(s.pos) ==> 1 <= Energized(g, s)
    ensures Energized(g, s) <= g.width * g.height
  {
    var lit := Lit(g, s);
    if g.Contains(s.pos) {
      InAllBeams(g, s);
      assert s in lit;
      assert s.pos in Tiles(lit);
    }
    SubsetCount(Tiles(lit), Cells(g.width, g.height));
    CellsCount(g.width, g.height);
  }

  // ---------------------------------------------------------------------
  // The beams traced

  /** `energized` holds for each tile the ways beams crossed it, and
      nothing else: the beams `seen`. */
  ghost predicate Tracks(energized: map<Position, set<Direction>>, seen: set<Beam>) {
    (forall p :: p in energized ==> energized[p] != {}) &&
    (forall b :: b in seen <==> b.pos in energized && b.dir in energized[b.pos])
  }

  /** The tiles crossed are the tiles of the beams seen. */
  lemma KeysAreTiles(energized: map<Position, set<Direction>>, seen: set<Beam>)
    requires Tracks(energized, seen)
    ensures energized.Keys == Tiles(seen)
  {
    forall p | p in energized
      ensures p in Tiles(seen)
    {
      var d :| d in energized[p];
      assert Beam(p, d) in seen;
    }
  }

  /** Every beam seen, and every beam waiting on the contraption, lies in
      every closed set holding the start. */
  ghost predicate Within(g: Grid<Tile>, s: Beam, seen: set<Beam>, rays: seq<Beam>)
    requires g.Valid()
  {
    forall c :: Closed(g, c) && s in c ==>
      seen <= c && forall i :: 0 <= i < |rays| && g.Contains(rays[i].pos) ==> rays[i] in c
  }

  /** The start and every beam a seen beam sends on is seen, waiting, or
      off the contraption. */
  ghost predicate Pending(g: Grid<Tile>, s: Beam, seen: set<Beam>, rays: seq<Beam>)
    requires g.Valid()
  {
    (g.Contains(s.pos) ==> s in seen || s in rays) &&
    forall b :: b in seen && g.Contains(b.pos) ==>
      forall n :: n in Next(g, b) ==> n in seen || n in rays || !g.Contains(n.pos)
  }

  /** The state of the search: what is seen and waiting lies in every
      closed set holding the start, and what is seen sends on only beams
      seen, waiting or off the contraption. */
  ghost predicate Traced(g: Grid<Tile>, s: Beam, seen: set<Beam>, rays: seq<Beam>)
    requires g.Valid()
  {
    seen <= AllBeams(g) && Within(g, s, seen, rays) && Pending(g, s, seen, rays)
  }

  lemma TraceStart(g: Grid<Tile>, s: Beam)
    requires g.Valid()
    ensures Traced(g, s, {}, [s])
  {
  }

  /** A beam popped off the contraption, or seen before, is dropped. */
  lemma Drop(g: Grid<Tile>, s: Beam, seen: set<Beam>, rest: seq<Beam>, b: Beam)
    requires g.Valid() && Traced(g, s, seen, rest + [b])
    requires b in seen || !g.Contains(b.pos)
    ensures Traced(g, s, seen, rest)
  {
    var rays := rest + [b];
    forall c | Closed(g, c) && s in c
      ensures forall i :: 0 <= i < |rest| && g.Contains(rest[i].pos) ==> rest[i] in c
    {
      assert forall i :: 0 <= i < |rest| ==> rest[i] == rays[i];
    }
    assert forall n :: n in rays ==> n in rest || n == b;
  }

  /** A new beam popped on the contraption is seen, and pushes the beams it
      sends on. */
  lemma Visit(g: Grid<Tile>, s: Beam, seen: set<Beam>, rest: seq<Beam>, b: Beam)
    requires g.Valid() && Traced(g, s, seen, rest + [b])
    requires g.Contains(b.pos) && b !in seen
    ensures Traced(g, s, seen + {b}, rest + Next(g, b))
  {
    var rays, more := rest + [b], rest + Next(g, b);
    InAllBeams(g, b);
    forall c | Closed(g, c) && s in c
      ensures seen + {b} <= c
      ensures forall i :: 0 <= i < |more| && g.Contains(more[i].pos) ==> more[i] in c
    {
      assert rays[|rest|] == b;
      forall i | 0 <= i < |more| && g.Contains(more[i].pos)
        ensures more[i] in c
      {
        if i < |rest| {
          assert rest[i] == rays[i];
        } else {
          assert more[i] in Next(g, b);
        }
      }
    }
    assert forall n :: n in rays ==> n in rest || n == b;
    assert forall n :: n in rest || n in Next(g, b) ==> n in more;
  }

  /** Recording a beam in the map of crossed tiles. */
  lemma Record(energized: map<Position, set<Direction>>, seen: set<Beam>, b: Beam, dirs: set<Direction>)
    requires Tracks(energized, seen)
    requires dirs == if b.pos in energized then energized[b.pos] else {}
    ensures b.dir in dirs <==> b in seen
    ensures Tracks(energized[b.pos := dirs + {b.dir}], seen + {b})
  {
  }

  /** `energize`: the number of tiles energized by a beam entering at
      `start` heading `dir`. Beams wait on a stack; a beam off the
      contraption, or one already seen on its tile in its direction, is
      dropped; any other is recorded and pushes the beams it sends on. */
  method Energize(g: Grid<Tile>, start: Position, dir: Direction) returns (n: nat)
    requires g.Valid()
    ensures n == Energized(g, Beam(start, dir))
  {
    var s := Beam(start, dir);
    var energized: map<Position, set<Direction>> := map[];
    var rays := [s];
    ghost var seen: set<Beam> := {};
    TraceStart(g, s);
    while rays != []
      invariant Tracks(energized, seen) && Traced(g, s, seen, rays)
      decreases AllBeams(g) - seen, |rays|
    {
      var b := rays[|rays| - 1];
      ghost var rest := rays[..|rays| - 1];
      assert rays == rest + [b];
      rays := rays[..|rays| - 1];
      if g.Contains(b.pos) {
        var dirs := if b.pos in energized then energized[b.pos] else {};
        Record(energized, seen, b, dirs);
        if b.dir !in dirs {
          Visit(g, s, seen, rest, b);
          energized := energized[b.pos := dirs + {b.dir}];
          seen := seen + {b};
          rays := rays + Next(g, b);
        } else {
          Drop(g, s, seen, rest, b);
        }
      } else {
        Drop(g, s, seen, rest, b);
      }
    }
    LitIs(g, s, seen);
    KeysAreTiles(energized, seen);
    n := |energized.Keys|;
  }

  /** `part1`: the beam enters the top left tile heading right. */
  method Part1(g: Grid<Tile>) returns (n: nat)
    requires g.Valid()
    ensures n == Energized(g, Beam(Position(0, 0), Right))
  {
    n := Energize(g, Position(0, 0), Right);
  }

  /** The beams entering from the edges: down from the top row, up from
      the bottom row, right from the left column and left from the right
      column. A contraption with rows but no columns, or the reverse, makes
      `width - 1` or `height - 1` underflow, which panics. */
  function EdgeStarts(g: Grid<Tile>): (r: Result<seq<Beam>>)
    requires g.Valid()
    ensures r.Err? <==> (g.height == 0) != (g.width == 0)
    ensures r.Ok? ==> |r.value| == 2 * g.width + 2 * g.height
    ensures r.Ok? ==> forall i :: 0 <= i < |r.value| ==> g.Contains(r.value[i].pos)
  {
    if (g.height == 0) != (g.width == 0) then Err(Panic)
    else Ok(
      seq(g.width, x requires 0 <= x < g.width => Beam(Position(x, 0), Down)) +
      seq(g.width, x requires 0 <= x < g.width => Beam(Position(x, g.height - 1), Up)) +
      seq(g.height, y requires 0 <= y < g.height => Beam(Position(0, y), Right)) +
      seq(g.height, y requires 0 <= y < g.height => Beam(Position(g.width - 1, y), Left)))
  }

  /** `part2`: the most tiles energized by a beam entering from an edge,
      0 for an empty contraption, and the underflow panic where
      `EdgeStarts` has it. */
  method Part2(g: Grid<Tile>) returns (r: Result<nat>)
    requires g.Valid()
    ensures r.Err? <==> EdgeStarts(g).Err?
    ensures r.Ok? ==> forall i :: 0 <= i < |EdgeStarts(g).value| ==> Energized(g, EdgeStarts(g).value[i]) <= r.value
    ensures r.Ok? && EdgeStarts(g).value == [] ==> r.value == 0
    ensures r.Ok? && EdgeStarts(g).value != [] ==>
      exists i :: 0 <= i < |EdgeStarts(g).value| && r.value == Energized(g, EdgeStarts(g).value[i])
  {
    var edges := EdgeStarts(g);
    if edges.Err? {
      return Err(Panic);
    }
    var starts := edges.value;
    var best := 0;
    var k := 0;
    while k < |starts|
      invariant k <= |starts|
      invariant forall i :: 0 <= i < k ==> Energized(g, starts[i]) <= best
      invariant k > 0 ==> exists i :: 0 <= i < k && best == Energized(g, starts[i])
      invariant k == 0 ==> best == 0
    {
      var n := Energize(g, starts[k].pos, starts[k].dir);
      if k == 0 || n > best {
        best := n;
      }
      k := k + 1;
    }
    r := Ok(best);
  }

  /** The text "\n" reads as one row without columns, on which part two
      panics. */
  lemma RowsWithoutColumns()
    ensures ContraptionOf("\n").Ok? && EdgeStarts(ContraptionOf("\n").value).Err?
  {
    LinesOfJoin([""]);
    assert Join([""], '\n') + "\n" == "\n";
    assert Concat([""]) == [];
  }

  /** The start of part one is among those of part two. */
  lemma Part1Start(g: Grid<Tile>)
    requires g.Valid() && 0 < g.height && 0 < g.width
    ensures EdgeStarts(g).Ok? && Beam(Position(0, 0), Right) in EdgeStarts(g).value
  {
    assert EdgeStarts(g).value[2 * g.width] == Beam(Position(0, 0), Right);
  }
}
