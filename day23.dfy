/** Day 23, "A Long Walk": the longest hike across the island's trail map,
    from the gap in the top row to the gap in the bottom row, never stepping
    on a tile twice. On the icy map a slope can only be walked downhill; on
    the dry map it is walked like any path. */
module Day23 {
  import opened Wrappers
  import opened Text
  import opened Grid

  datatype Tile = Path | Forest | UpSlope | DownSlope | LeftSlope | RightSlope

  /** `HikingTrail`: the map, one tile per position. */
  type Trail = Grid<Tile>

  // ---------------------------------------------------------------------
  // Reading the map

  function TileChar(t: Tile): char {
    match t
    case Path => '.'
    case Forest => '#'
    case UpSlope => '^'
    case DownSlope => 'v'
    case LeftSlope => '<'
    case RightSlope => '>'
  }

  /** `Tile::try_from`: one of the six map characters, or that character
      refused. */
  function TileOf(c: char): (r: Result<Tile>)
    ensures r.Ok? <==> c in ".#^v<>"
    ensures r.Ok? ==> TileChar(r.value) == c
  {
    match c
    case '.' => Ok(Path)
    case '#' => Ok(Forest)
    case '^' => Ok(UpSlope)
    case 'v' => Ok(DownSlope)
    case '<' => Ok(LeftSlope)
    case '>' => Ok(RightSlope)
    case _ => Err(Bad([c]))
  }

  lemma TileRoundTrip(t: Tile)
    ensures TileOf(TileChar(t)) == Ok(t)
  {
  }

  /** `HikingTrail::from_str`: as many rows as lines, as wide as the first
      line (whose absence panics), every character a tile; `Grid::new`
      panics unless the tiles fill the rectangle. */
  function TrailOf(s: string): (r: Result<Trail>)
    ensures Lines(s) == [] ==> r == Err(Panic)
    ensures r.Ok? ==> r.value.Valid() && r.value.height == |Lines(s)| && r.value.width == |Lines(s)[0]|
    ensures r.Ok? ==> MapResult(Concat(Lines(s)), TileOf) == Ok(Concat(r.value.rows))
  {
    var lines := Lines(s);
    if lines == [] then Err(Panic)
    else
      match MapResult(Concat(lines), TileOf)
      case Err(e) => Err(e)
      case Ok(tiles) =>
        match NewGrid(|lines|, |lines[0]|, tiles)
        case None => Err(Panic)
        case Some(g) =>
          ChunksConcat(tiles, |lines[0]|, |lines|);
          Ok(g)
  }

  // ---------------------------------------------------------------------
  // The two gaps

  /** The column of the leftmost path tile of a row, if there is one. */
  function FirstPath(row: seq<Tile>): (r: Option<nat>)
    ensures r.Some? ==> r.value < |row| && row[r.value] == Path
    ensures r.Some? ==> forall x :: 0 <= x < r.value ==> row[x] != Path
    ensures r.None? <==> Path !in row
  {
    if row == [] then None
    else if row[0] == Path then Some(0)
    else
      var rest := FirstPath(row[1..]);
      assert forall x :: 1 <= x < |row| ==> row[x] == row[1..][x - 1];
      assert Path in row <==> Path in row[1..];
      match rest
      case None => None
      case Some(x) => Some(x + 1)
  }

  /** The leftmost path tile of row `y`; unwrapping the search panics when
      the row has none. */
  function Gap(g: Trail, y: nat): (r: Result<Position>)
    requires g.Valid()
    ensures r.Ok? ==> r.value.y == y && g.Get(r.value) == Some(Path)
    ensures r.Ok? ==> forall x: nat :: x < r.value.x ==> g.Get(Position(x, y)) != Some(Path)
    ensures r.Err? <==> forall x: nat :: x < g.width ==> g.Get(Position(x, y)) != Some(Path)
  {
    if y >= g.height then Err(Panic)
    else
      g.RowSpec(y);
      match FirstPath(g.Row(y))
      case None => Err(Panic)
      case Some(x) => Ok(Position(x, y))
  }

  /** `starting_point`: the gap in the top row. */
  function StartingPoint(g: Trail): (r: Result<Position>)
    requires g.Valid()
    ensures r.Ok? ==> r.value.y == 0 && g.Get(r.value) == Some(Path)
    ensures r.Ok? ==> forall x: nat :: x < r.value.x ==> g.Get(Position(x, 0)) != Some(Path)
    ensures r.Err? <==> forall x: nat :: x < g.width ==> g.Get(Position(x, 0)) != Some(Path)
  {
    Gap(g, 0)
  }

  /** `ending_point`: the gap in the bottom row; an empty map underflows
      `height - 1` and panics. */
  function EndingPoint(g: Trail): (r: Result<Position>)
    requires g.Valid()
    ensures r.Ok? ==> r.value.y + 1 == g.height && g.Get(r.value) == Some(Path)
    ensures r.Ok? ==> forall x: nat :: x < r.value.x ==> g.Get(Position(x, r.value.y)) != Some(Path)
    ensures g.height == 0 ==> r == Err(Panic)
    ensures r.Err? ==> forall p: Position :: p.y + 1 == g.height ==> g.Get(p) != Some(Path)
  {
    if g.height == 0 then Err(Panic) else Gap(g, g.height - 1)
  }

  // ---------------------------------------------------------------------
  // Hikes

  /** The direction an icy slope forces; none for path and forest. */
  function SlopeOf(t: Tile): Option<Direction> {
    match t
    case UpSlope => Some(Up)
    case DownSlope => Some(Down)
    case LeftSlope => Some(Left)
    case RightSlope => Some(Right)
    case _ => None
  }

  /** A tile a hiker can stand on: on the map and not forest. */
  predicate Open(g: Trail, p: Position)
    requires g.Valid()
  {
    g.Get(p).Some? && g.Get(p).value != Forest
  }

  /** The search's rules: the map, where it starts and ends, and whether the
      slopes are icy. */
  datatype Hiking = Hiking(trail: Trail, start: Position, end: Position, slippery: bool)

  /** The direction a hiker on `p` is forced to take: only on an icy slope. */
  function Forced(h: Hiking, p: Position): Option<Direction>
    requires h.trail.Valid()
  {
    if h.slippery && h.trail.Get(p).Some? then SlopeOf(h.trail.Get(p).value) else None
  }

  /** From `p` the hiker may go on to `q`: down the icy slope it stands on,
      whatever lies there, or else to any open neighbour. */
  predicate Move(h: Hiking, p: Position, q: Position)
    requires h.trail.Valid()
  {
    match Forced(h, p)
    case Some(d) => Step(p, d) == Some(q)
    case None => q in Neighbours(p) && Open(h.trail, q)
  }

  predicate Distinct(w: seq<Position>) {
    forall i, j :: 0 <= i < j < |w| ==> w[i] != w[j]
  }

  function Elements(w: seq<Position>): set<Position> {
    set p | p in w
  }

  /** Step `i` of `w` leaves an open tile other than the end by a move. */
  predicate Leg(h: Hiking, w: seq<Position>, i: nat)
    requires h.trail.Valid() && i + 1 < |w|
  {
    Open(h.trail, w[i]) && w[i] != h.end && Move(h, w[i], w[i + 1])
  }

  /** `w` is the beginning of a hike: it leaves the start and never returns
      to a tile; only its last tile may be the end, forest or off the map. */
  predicate Partial(h: Hiking, w: seq<Position>)
    requires h.trail.Valid()
  {
    |w| > 0 && w[0] == h.start && Distinct(w) &&
    forall i: nat :: i + 1 < |w| ==> Leg(h, w, i)
  }

  /** A hike: from the start to the end, its length the number of steps,
      `|w| - 1`. */
  predicate Hike(h: Hiking, w: seq<Position>)
    requires h.trail.Valid()
  {
    Partial(h, w) && w[|w| - 1] == h.end
  }

  /** `r` is the length of the longest hike, 0 when there is none. */
  ghost predicate Longest(h: Hiking, r: nat)
    requires h.trail.Valid()
  {
    (forall w :: Hike(h, w) ==> |w| - 1 <= r) &&
    (r == 0 || exists w :: Hike(h, w) && |w| - 1 == r)
  }

  /** The longest hike has one length. */
  lemma LongestUnique(h: Hiking, r1: nat, r2: nat)
    requires h.trail.Valid() && Longest(h, r1) && Longest(h, r2)
    ensures r1 == r2
  {
    if r1 > 0 {
      var w :| Hike(h, w) && |w| - 1 == r1;
    }
    if r2 > 0 {
      var w :| Hike(h, w) && |w| - 1 == r2;
    }
  }

  lemma {:induction false} DistinctCard(w: seq<Position>)
    requires Distinct(w)
    ensures |Elements(w)| == |w|
  {
    if w != [] {
      var init := w[..|w| - 1];
      assert Elements(w) == Elements(init) + {w[|w| - 1]};
      assert w[|w| - 1] !in Elements(init);
      DistinctCard(init);
    }
  }

  lemma SubsetSize<T>(a: set<T>, b: set<T>)
    requires a <= b
    ensures |a| <= |b|
  {
    assert b == a + (b - a);
  }

  /** The open tiles of the map. */
  function OpenTiles(g: Trail): set<Position>
    requires g.Valid()
  {
    set p | p in Cells(g.width, g.height) && Open(g, p)
  }

  /** Every tile of a hike but the last is open, so a hike is no longer
      than the map has tiles. */
  lemma {:induction false} WalkBound(h: Hiking, w: seq<Position>)
    requires h.trail.Valid() && Partial(h, w)
    ensures |w| <= h.trail.width * h.trail.height + 1
  {
    var init := w[..|w| - 1];
    forall p | p in Elements(init)
      ensures p in Cells(h.trail.width, h.trail.height)
    {
      var i :| 0 <= i < |init| && init[i] == p;
      assert Leg(h, w, i);
    }
    DistinctCard(init);
    SubsetSize(Elements(init), Cells(h.trail.width, h.trail.height));
    CellsCount(h.trail.width, h.trail.height);
  }

  /** With an open end, no hike steps on more tiles than the map has open
      ones. */
  lemma LongestBound(h: Hiking, r: nat)
    requires h.trail.Valid() && Longest(h, r) && Open(h.trail, h.end)
    ensures r + 1 <= |OpenTiles(h.trail)|
  {
    if r > 0 {
      var w :| Hike(h, w) && |w| - 1 == r;
      forall p | p in Elements(w)
        ensures p in OpenTiles(h.trail)
      {
        var i :| 0 <= i < |w| && w[i] == p;
        if i + 1 < |w| {
          assert Leg(h, w, i);
        }
      }
      DistinctCard(w);
      SubsetSize(Elements(w), OpenTiles(h.trail));
    } else {
      assert h.end in OpenTiles(h.trail);
    }
  }

  /** Going down an icy slope is also a way to walk over a dry one. */
  lemma SlipperyIsHike(h: Hiking, w: seq<Position>)
    requires h.trail.Valid() && h.slippery && Hike(h, w) && Open(h.trail, h.end)
    ensures Hike(h.(slippery := false), w)
  {
    var dry := h.(slippery := false);
    forall i: nat | i + 1 < |w|
      ensures Leg(dry, w, i)
    {
      assert Leg(h, w, i);
      if i + 2 < |w| {
        assert Leg(h, w, i + 1);
      }
      assert Open(h.trail, w[i + 1]);
      NeighboursSpec(w[i]);
    }
  }

  /** The icy map's longest hike is no longer than the dry map's. */
  lemma SlipperyNoLonger(h: Hiking, icy: nat, dry: nat)
    requires h.trail.Valid() && h.slippery && Open(h.trail, h.end)
    requires Longest(h, icy) && Longest(h.(slippery := false), dry)
    ensures icy <= dry
  {
    if icy > 0 {
      var w :| Hike(h, w) && |w| - 1 == icy;
      SlipperyIsHike(h, w);
    }
  }

  // ---------------------------------------------------------------------
  // The search

  /** A hike still to be followed: where it stands and the tiles it has
      visited. */
  type Branch = (Position, set<Position>)

  /** The open neighbours of `p`, up, down, left then right, that the
      visited tiles do not hold. */
  function Possibles(g: Trail, p: Position, path: set<Position>): (r: seq<Position>)
    requires g.Valid()
    ensures |r| <= 4
  {
    Somes([Unvisited(g, path, Step(p, Up)), Unvisited(g, path, Step(p, Down)),
           Unvisited(g, path, Step(p, Left)), Unvisited(g, path, Step(p, Right))])
  }

  function Unvisited(g: Trail, path: set<Position>, o: Option<Position>): Option<Position>
    requires g.Valid()
  {
    if o.Some? && o.value !in path && Open(g, o.value) then o else None
  }

  lemma PossiblesSpec(g: Trail, p: Position, path: set<Position>)
    requires g.Valid()
    ensures forall q :: q in Possibles(g, p, path) <==> q in Neighbours(p) && q !in path && Open(g, q)
  {
    var all := [Unvisited(g, path, Step(p, Up)), Unvisited(g, path, Step(p, Down)),
                Unvisited(g, path, Step(p, Left)), Unvisited(g, path, Step(p, Right))];
    SomesSpec(all);
    NeighboursSpec(p);
    assert forall d :: Unvisited(g, path, Step(p, d)) in all;
  }

  /** The branch follows the beginning of a hike `w`. */
  ghost predicate Tracks(h: Hiking, b: Branch, w: seq<Position>)
    requires h.trail.Valid()
  {
    Partial(h, w) && b.0 == w[|w| - 1] && b.1 == Elements(w)
  }

  /** Some walk of `walks` is where hike `w` begins. */
  ghost predicate Begun(walks: seq<seq<Position>>, w: seq<Position>) {
    exists k :: 0 <= k < |walks| && walks[k] <= w
  }

  /** Every hike longer than `longest` begins with one of `walks`. */
  ghost predicate Complete(h: Hiking, walks: seq<seq<Position>>, longest: nat)
    requires h.trail.Valid()
  {
    forall w :: Hike(h, w) && |w| - 1 > longest ==> Begun(walks, w)
  }

  /** `longest` is 0 or the length of some hike. */
  ghost predicate Achieved(h: Hiking, longest: nat)
    requires h.trail.Valid()
  {
    longest == 0 || exists w :: Hike(h, w) && |w| - 1 == longest
  }

  /** The stack and the hikes it follows. */
  ghost predicate Frontier(h: Hiking, stack: seq<Branch>, walks: seq<seq<Position>>)
    requires h.trail.Valid()
  {
    |stack| == |walks| && forall k :: 0 <= k < |walks| ==> Tracks(h, stack[k], walks[k])
  }

  /** The search between two pops: the stack follows hikes, `longest` is
      achieved and every longer hike begins with a stacked one. */
  ghost predicate Searching(h: Hiking, stack: seq<Branch>, walks: seq<seq<Position>>, longest: nat)
    requires h.trail.Valid()
  {
    Frontier(h, stack, walks) && Achieved(h, longest) && Complete(h, walks, longest)
  }

  /** The search while following one hike `walk` from `current`. */
  ghost predicate Climbing(h: Hiking, stack: seq<Branch>, walks: seq<seq<Position>>,
                           current: Position, path: set<Position>, walk: seq<Position>, longest: nat)
    requires h.trail.Valid()
  {
    Frontier(h, stack, walks) && Tracks(h, (current, path), walk) &&
    Achieved(h, longest) && Complete(h, walks + [walk], longest)
  }

  function Pow5(n: nat): (r: nat)
    ensures r >= 1
  {
    if n == 0 then 1 else 5 * Pow5(n - 1)
  }

  /** No walk steps on more tiles than the map has, plus one. */
  function Bound(h: Hiking): nat {
    h.trail.width * h.trail.height + 1
  }

  /** The share of the work left to a walk of `n` tiles: a step on costs a
      fifth, and a junction makes at most four walks one tile longer. */
  function Weight(bound: nat, n: nat): nat {
    if n <= bound then Pow5(bound - n) else 0
  }

  function Potential(bound: nat, walks: seq<seq<Position>>): nat {
    if walks == [] then 0
    else Potential(bound, walks[..|walks| - 1]) + Weight(bound, |walks[|walks| - 1]|)
  }

  lemma PotentialPush(bound: nat, walks: seq<seq<Position>>, w: seq<Position>)
    ensures Potential(bound, walks + [w]) == Potential(bound, walks) + Weight(bound, |w|)
  {
    assert (walks + [w])[..|walks|] == walks;
  }

  /** Four walks a tile longer weigh less than the one they grow from. */
  lemma Lighter(bound: nat, n: nat, m: nat)
    requires n + 1 <= bound && m <= 3
    ensures Weight(bound, n + 1) * m + Weight(bound, n + 1) < Weight(bound, n)
  {
    assert Pow5(bound - n) == 5 * Pow5(bound - (n + 1));
  }

  /** A hike longer than a walk it begins with, the walk not standing on the
      end, goes on by a move to a tile the walk has not visited. */
  lemma {:induction false} Continues(h: Hiking, walk: seq<Position>, w: seq<Position>)
    requires h.trail.Valid() && Partial(h, walk) && Hike(h, w) && walk <= w
    requires walk[|walk| - 1] != h.end
    ensures |walk| < |w|
    ensures Open(h.trail, walk[|walk| - 1]) && Move(h, walk[|walk| - 1], w[|walk|])
    ensures w[|walk|] !in Elements(walk)
    ensures walk + [w[|walk|]] <= w
  {
    var i := |walk| - 1;
    assert walk[i] == w[i];
    assert Leg(h, w, i);
    assert walk + [w[|walk|]] == w[..|walk| + 1];
  }

  /** One step on from a walk, by a move to an unvisited tile, is a walk. */
  lemma StepOn(h: Hiking, walk: seq<Position>, q: Position)
    requires h.trail.Valid() && Partial(h, walk)
    requires Open(h.trail, walk[|walk| - 1]) && walk[|walk| - 1] != h.end
    requires Move(h, walk[|walk| - 1], q) && q !in Elements(walk)
    ensures Partial(h, walk + [q]) && Elements(walk + [q]) == Elements(walk) + {q}
  {
    var w := walk + [q];
    forall i: nat | i + 1 < |w|
      ensures Leg(h, w, i)
    {
      if i + 1 < |walk| {
        assert Leg(h, walk, i);
      }
    }
    forall i, j | 0 <= i < j < |w|
      ensures w[i] != w[j]
    {
      if j == |walk| {
        assert w[i] in Elements(walk);
      }
    }
  }

  /** Reaching the end records the walk: longer hikes begin elsewhere. */
  lemma Arrive(h: Hiking, walks: seq<seq<Position>>, walk: seq<Position>, longest: nat)
    requires h.trail.Valid() && Partial(h, walk) && walk[|walk| - 1] == h.end
    requires Complete(h, walks + [walk], longest)
    ensures Complete(h, walks, if longest < |walk| - 1 then |walk| - 1 else longest)
  {
    var longer := if longest < |walk| - 1 then |walk| - 1 else longest;
    forall w | Hike(h, w) && |w| - 1 > longer
      ensures Begun(walks, w)
    {
      var k :| 0 <= k < |walks| + 1 && (walks + [walk])[k] <= w;
      if k == |walks| {
        assert false;
      }
      assert walks[k] <= w;
    }
  }

  /** A walk that cannot move on begins no longer hike. */
  lemma Stuck(h: Hiking, walks: seq<seq<Position>>, walk: seq<Position>, longest: nat)
    requires h.trail.Valid() && Partial(h, walk) && walk[|walk| - 1] != h.end
    requires !Open(h.trail, walk[|walk| - 1]) ||
             forall q :: Move(h, walk[|walk| - 1], q) ==> q in Elements(walk)
    requires Complete(h, walks + [walk], longest)
    ensures Complete(h, walks, longest)
  {
    forall w | Hike(h, w) && |w| - 1 > longest
      ensures Begun(walks, w)
    {
      var k :| 0 <= k < |walks| + 1 && (walks + [walk])[k] <= w;
      if k == |walks| {
        Continues(h, walk, w);
        assert false;
      }
      assert walks[k] <= w;
    }
  }

  /** A forced step to a new tile: hikes begun by the walk begin with the
      longer one. */
  lemma Slide(h: Hiking, walks: seq<seq<Position>>, walk: seq<Position>, q: Position, longest: nat)
    requires h.trail.Valid() && Partial(h, walk) && walk[|walk| - 1] != h.end
    requires Open(h.trail, walk[|walk| - 1])
    requires Forced(h, walk[|walk| - 1]).Some? && Step(walk[|walk| - 1], Forced(h, walk[|walk| - 1]).value) == Some(q)
    requires q !in Elements(walk)
    requires Complete(h, walks + [walk], longest)
    ensures Partial(h, walk + [q]) && Elements(walk + [q]) == Elements(walk) + {q}
    ensures Complete(h, walks + [walk + [q]], longest)
  {
    StepOn(h, walk, q);
    forall w | Hike(h, w) && |w| - 1 > longest
      ensures Begun(walks + [walk + [q]], w)
    {
      var k :| 0 <= k < |walks| + 1 && (walks + [walk])[k] <= w;
      if k == |walks| {
        Continues(h, walk, w);
        assert (walks + [walk + [q]])[k] == walk + [q];
      } else {
        assert (walks + [walk + [q]])[k] == walks[k];
      }
    }
  }

  /** The walks one step on to each of `ps`. */
  ghost function Branches(walk: seq<Position>, ps: seq<Position>): (r: seq<seq<Position>>)
    ensures |r| == |ps|
  {
    seq(|ps|, i requires 0 <= i < |ps| => walk + [ps[i]])
  }

  /** At a junction, hikes begun by the walk begin with one of its branches. */
  lemma Split(h: Hiking, walks: seq<seq<Position>>, walk: seq<Position>, longest: nat)
    requires h.trail.Valid() && Partial(h, walk) && walk[|walk| - 1] != h.end
    requires Open(h.trail, walk[|walk| - 1]) && Forced(h, walk[|walk| - 1]).None?
    requires Complete(h, walks + [walk], longest)
    ensures Complete(h, walks + Branches(walk, Possibles(h.trail, walk[|walk| - 1], Elements(walk))), longest)
  {
    var ps := Possibles(h.trail, walk[|walk| - 1], Elements(walk));
    var after := walks + Branches(walk, ps);
    forall w | Hike(h, w) && |w| - 1 > longest
      ensures Begun(after, w)
    {
      var k :| 0 <= k < |walks| + 1 && (walks + [walk])[k] <= w;
      if k == |walks| {
        Continues(h, walk, w);
        PossiblesSpec(h.trail, walk[|walk| - 1], Elements(walk));
        var i :| 0 <= i < |ps| && ps[i] == w[|walk|];
        assert after[|walks| + i] == walk + [ps[i]];
      } else {
        assert after[k] == walks[k];
      }
    }
  }

  /** Each branch of a junction is a walk. */
  lemma BranchTracks(h: Hiking, walk: seq<Position>, ps: seq<Position>, i: nat)
    requires h.trail.Valid() && Partial(h, walk) && walk[|walk| - 1] != h.end
    requires Open(h.trail, walk[|walk| - 1]) && Forced(h, walk[|walk| - 1]).None?
    requires ps == Possibles(h.trail, walk[|walk| - 1], Elements(walk)) && i < |ps|
    ensures Tracks(h, (ps[i], Elements(walk) + {ps[i]}), walk + [ps[i]])
  {
    PossiblesSpec(h.trail, walk[|walk| - 1], Elements(walk));
    StepOn(h, walk, ps[i]);
  }

  /** The stack entries of `others`, each the visited tiles and itself. */
  function Forks(path: set<Position>, others: seq<Position>): (r: seq<Branch>)
    ensures |r| == |others|
    ensures forall i :: 0 <= i < |others| ==> r[i] == (others[i], path + {others[i]})
  {
    seq(|others|, i requires 0 <= i < |others| => (others[i], path + {others[i]}))
  }

  lemma ForksSnoc(path: set<Position>, others: seq<Position>, k: nat)
    requires k < |others|
    ensures Forks(path, others[..k + 1]) == Forks(path, others[..k]) + [(others[k], path + {others[k]})]
  {
  }

  lemma BranchesSnoc(walk: seq<Position>, others: seq<Position>, k: nat)
    requires k < |others|
    ensures Branches(walk, others[..k + 1]) == Branches(walk, others[..k]) + [walk + [others[k]]]
  {
  }

  /** The last possible, followed in place, completes the branches. */
  lemma BranchesLast(walks: seq<seq<Position>>, walk: seq<Position>, ps: seq<Position>)
    requires ps != []
    ensures walks + Branches(walk, ps[..|ps| - 1]) + [walk + [ps[|ps| - 1]]] == walks + Branches(walk, ps)
  {
    BranchesSnoc(walk, ps, |ps| - 1);
    assert ps[..|ps|] == ps;
  }

  lemma FrontierPush(h: Hiking, stack: seq<Branch>, walks: seq<seq<Position>>, b: Branch, w: seq<Position>)
    requires h.trail.Valid() && Frontier(h, stack, walks) && Tracks(h, b, w)
    ensures Frontier(h, stack + [b], walks + [w])
  {
    assert forall k :: 0 <= k < |walks| ==> (walks + [w])[k] == walks[k] && (stack + [b])[k] == stack[k];
  }

  /** The first `k` of `others` are pushed, both on the stack and as walks. */
  ghost predicate Forking(h: Hiking, stack: seq<Branch>, walks: seq<seq<Position>>, path: set<Position>,
                          walk: seq<Position>, others: seq<Position>, k: nat,
                          pushed: seq<Branch>, grown: seq<seq<Position>>)
    requires h.trail.Valid() && k <= |others|
  {
    pushed == stack + Forks(path, others[..k]) &&
    grown == walks + Branches(walk, others[..k]) &&
    Frontier(h, pushed, grown) &&
    Potential(Bound(h), grown) == Potential(Bound(h), walks) + Weight(Bound(h), |walk| + 1) * k
  }

  lemma ForkStep(h: Hiking, stack: seq<Branch>, walks: seq<seq<Position>>, path: set<Position>,
                 walk: seq<Position>, others: seq<Position>, k: nat,
                 pushed: seq<Branch>, grown: seq<seq<Position>>)
    requires h.trail.Valid() && Partial(h, walk) && k < |others|
    requires walk[|walk| - 1] != h.end && Open(h.trail, walk[|walk| - 1]) && Forced(h, walk[|walk| - 1]).None?
    requires path == Elements(walk) && others <= Possibles(h.trail, walk[|walk| - 1], path)
    requires Forking(h, stack, walks, path, walk, others, k, pushed, grown)
    ensures Forking(h, stack, walks, path, walk, others, k + 1,
                    pushed + [(others[k], path + {others[k]})], grown + [walk + [others[k]]])
  {
    var other := others[k];
    var step := Weight(Bound(h), |walk| + 1);
    BranchTracks(h, walk, Possibles(h.trail, walk[|walk| - 1], path), k);
    FrontierPush(h, pushed, grown, (other, path + {other}), walk + [other]);
    PotentialPush(Bound(h), grown, walk + [other]);
    MulSucc(step, k);
    ForksSnoc(path, others, k);
    BranchesSnoc(walk, others, k);
  }

  /** At a junction, the branches for all possibles but the last are
      pushed: `for other in possibles`, each with a copy of the visited
      tiles and itself. */
  method Fork(h: Hiking, stack: seq<Branch>, path: set<Position>, others: seq<Position>,
              ghost walks: seq<seq<Position>>, ghost walk: seq<Position>)
    returns (pushed: seq<Branch>, ghost grown: seq<seq<Position>>)
    requires h.trail.Valid() && Frontier(h, stack, walks) && Partial(h, walk)
    requires walk[|walk| - 1] != h.end && Open(h.trail, walk[|walk| - 1]) && Forced(h, walk[|walk| - 1]).None?
    requires path == Elements(walk)
    requires others <= Possibles(h.trail, walk[|walk| - 1], path)
    ensures pushed == stack + Forks(path, others)
    ensures grown == walks + Branches(walk, others)
    ensures Frontier(h, pushed, grown)
    ensures Potential(Bound(h), grown) == Potential(Bound(h), walks) + Weight(Bound(h), |walk| + 1) * |others|
  {
    pushed, grown := stack, walks;
    assert others[..0] == [];
    for k := 0 to |others|
      invariant Forking(h, stack, walks, path, walk, others, k, pushed, grown)
    {
      ForkStep(h, stack, walks, path, walk, others, k, pushed, grown);
      pushed := pushed + [(others[k], path + {others[k]})];
      grown := grown + [walk + [others[k]]];
    }
    assert others[..|others|] == others;
  }

  /** Arriving at the end records the hike followed. */
  lemma Arrived(h: Hiking, stack: seq<Branch>, walks: seq<seq<Position>>, current: Position,
                path: set<Position>, walk: seq<Position>, longest: nat, longest': nat)
    requires h.trail.Valid() && Climbing(h, stack, walks, current, path, walk, longest)
    requires current == h.end && longest' == if longest < |path| - 1 then |path| - 1 else longest
    ensures Searching(h, stack, walks, longest')
  {
    DistinctCard(walk);
    Arrive(h, walks, walk, longest);
  }

  /** A hike that is stopped, or cannot go on, leaves the stack to
      account for the longer hikes. */
  lemma Halted(h: Hiking, stack: seq<Branch>, walks: seq<seq<Position>>, current: Position,
               path: set<Position>, walk: seq<Position>, longest: nat)
    requires h.trail.Valid() && Climbing(h, stack, walks, current, path, walk, longest)
    requires current != h.end
    requires !Open(h.trail, current) || forall q :: Move(h, current, q) ==> q in path
    ensures Searching(h, stack, walks, longest)
  {
    Stuck(h, walks, walk, longest);
  }

  /** Sliding down an icy slope to a new tile keeps the search's
      invariant and costs a fifth of the walk's weight. */
  lemma SlideOn(h: Hiking, stack: seq<Branch>, walks: seq<seq<Position>>, current: Position,
                path: set<Position>, walk: seq<Position>, longest: nat, next: Position, budget: nat)
    requires h.trail.Valid() && Climbing(h, stack, walks, current, path, walk, longest)
    requires Potential(Bound(h), walks) + Weight(Bound(h), |walk|) <= budget
    requires current != h.end && Open(h.trail, current)
    requires Forced(h, current).Some? && Step(current, Forced(h, current).value) == Some(next)
    requires next !in path
    ensures Climbing(h, stack, walks, next, path + {next}, walk + [next], longest)
    ensures |walk| + 1 <= Bound(h)
    ensures Potential(Bound(h), walks) + Weight(Bound(h), |walk| + 1) <= budget
  {
    Slide(h, walks, walk, next, longest);
    WalkBound(h, walk + [next]);
    Lighter(Bound(h), |walk|, 0);
  }

  /** At a junction: all possibles but the last are pushed as branches and
      the last is followed; the search's invariant holds and the weight
      drops. */
  method Junction(h: Hiking, stack: seq<Branch>, ghost walks: seq<seq<Position>>, current: Position,
                  path: set<Position>, ghost walk: seq<Position>, longest: nat, ghost budget: nat)
    returns (stack': seq<Branch>, ghost walks': seq<seq<Position>>)
    requires h.trail.Valid() && Climbing(h, stack, walks, current, path, walk, longest)
    requires Potential(Bound(h), walks) + Weight(Bound(h), |walk|) <= budget
    requires current != h.end && Open(h.trail, current) && Forced(h, current).None?
    requires Possibles(h.trail, current, path) != []
    ensures var ps := Possibles(h.trail, current, path);
      var next := ps[|ps| - 1];
      stack' == stack + Forks(path, ps[..|ps| - 1]) &&
      Climbing(h, stack', walks', next, path + {next}, walk + [next], longest) &&
      |walk| + 1 <= Bound(h) &&
      Potential(Bound(h), walks') + Weight(Bound(h), |walk| + 1) <= budget
  {
    var possibles := Possibles(h.trail, current, path);
    var next := possibles[|possibles| - 1];
    Split(h, walks, walk, longest);
    stack', walks' := Fork(h, stack, path, possibles[..|possibles| - 1], walks, walk);
    BranchTracks(h, walk, possibles, |possibles| - 1);
    BranchesLast(walks, walk, possibles);
    WalkBound(h, walk + [next]);
    Lighter(Bound(h), |walk|, |possibles| - 1);
  }

  /** Follows one hike from `current` until it arrives, is stopped or runs
      out of new tiles, pushing the branches it passes: the inner `loop`. */
  method Climb(h: Hiking, stack: seq<Branch>, current: Position, path: set<Position>, longest: nat,
               ghost walks: seq<seq<Position>>, ghost walk: seq<Position>)
    returns (stack': seq<Branch>, longest': nat, ghost walks': seq<seq<Position>>)
    requires h.trail.Valid() && Climbing(h, stack, walks, current, path, walk, longest)
    ensures Searching(h, stack', walks', longest')
    ensures Potential(Bound(h), walks') < Potential(Bound(h), walks) + Weight(Bound(h), |walk|)
  {
    var current, path, longest := current, path, longest;
    ghost var walk := walk;
    ghost var budget := Potential(Bound(h), walks) + Weight(Bound(h), |walk|);
    stack', walks' := stack, walks;
    WalkBound(h, walk);
    while true
      invariant Climbing(h, stack', walks', current, path, walk, longest)
      invariant |walk| <= Bound(h)
      invariant Potential(Bound(h), walks') + Weight(Bound(h), |walk|) <= budget
      decreases Bound(h) - |walk|
    {
      if current == h.end {
        longest' := if longest < |path| - 1 then |path| - 1 else longest;
        Arrived(h, stack', walks', current, path, walk, longest, longest');
        return;
      }
      var tile := h.trail.Get(current);
      if tile.None? || tile.value == Forest {
        Halted(h, stack', walks', current, path, walk, longest);
        longest' := longest;
        return;
      }
      var slope := if h.slippery then SlopeOf(tile.value) else None;
      var next: Position;
      if slope.Some? {
        var step := Step(current, slope.value);
        if step.None? || step.value in path {
          Halted(h, stack', walks', current, path, walk, longest);
          longest' := longest;
          return;
        }
        next := step.value;
        SlideOn(h, stack', walks', current, path, walk, longest, next, budget);
      } else {
        var possibles := Possibles(h.trail, current, path);
        if possibles == [] {
          assert forall q :: Move(h, current, q) ==> q in path by {
            PossiblesSpec(h.trail, current, path);
          }
          Halted(h, stack', walks', current, path, walk, longest);
          longest' := longest;
          return;
        }
        next := possibles[|possibles| - 1];
        stack', walks' := Junction(h, stack', walks', current, path, walk, longest, budget);
      }
      current, path, walk := next, path + {next}, walk + [next];
    }
  }

  /** The search over all hikes, depth first from a stack of branches
      (`longest_slippery_hike`, `longest_hike`): arriving at the end
      records the hike's length; forest or the map's edge stops it; on an
      icy slope it slides on, unless that revisits a tile; elsewhere every
      open unvisited neighbour but the last is pushed as a branch of its
      own and the last is followed. */
  method Explore(h: Hiking) returns (longest: nat)
    requires h.trail.Valid()
    ensures Longest(h, longest)
  {
    longest := 0;
    var stack: seq<Branch> := [(h.start, {h.start})];
    ghost var walks := [[h.start]];
    assert Elements([h.start]) == {h.start};
    forall w | Hike(h, w) && |w| - 1 > 0
      ensures Begun(walks, w)
    {
      assert walks[0] <= w;
    }
    while stack != []
      invariant Searching(h, stack, walks, longest)
      decreases Potential(Bound(h), walks)
    {
      var current, path := stack[|stack| - 1].0, stack[|stack| - 1].1;
      ghost var walk := walks[|walks| - 1];
      assert walks == walks[..|walks| - 1] + [walk];
      stack, walks := stack[..|stack| - 1], walks[..|walks| - 1];
      stack, longest, walks := Climb(h, stack, current, path, longest, walks, walk);
    }
  }

  /** `longest_slippery_hike`: the longest hike with icy slopes. */
  method LongestSlipperyHike(g: Trail, start: Position, end: Position) returns (longest: nat)
    requires g.Valid()
    ensures Longest(Hiking(g, start, end, true), longest)
  {
    longest := Explore(Hiking(g, start, end, true));
  }

  /** `longest_hike`: the longest hike with dry slopes. */
  method LongestHike(g: Trail, start: Position, end: Position) returns (longest: nat)
    requires g.Valid()
    ensures Longest(Hiking(g, start, end, false), longest)
  {
    longest := Explore(Hiking(g, start, end, false));
  }
}
