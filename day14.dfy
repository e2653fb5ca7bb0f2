/** Day 14: a platform of round rocks, which roll, and cube rocks, which do
    not. Tilting the platform rolls every round rock as far as it goes; the
    load on the north beams weighs the round rocks by their distance from
    the south edge; a spin cycle tilts north, west, south and east. */
module Day14 {
  import opened Wrappers
  import opened Text
  import opened Arith
  import opened Grid

  datatype Rock = Round | Cube | Empty

  /** `Rock::try_from`. */
  function RockOf(c: char): (r: Result<Rock>)
    ensures r.Ok? <==> c in "O#."
    ensures r.Ok? ==> Symbol(r.value) == c
    ensures r.Err? ==> r.error == Bad([c])
  {
    match c
    case 'O' => Ok(Round)
    case '#' => Ok(Cube)
    case '.' => Ok(Empty)
    case _ => Err(Bad([c]))
  }

  /** The character a rock is written as. */
  function Symbol(r: Rock): char {
    match r
    case Round => 'O'
    case Cube => '#'
    case Empty => '.'
  }

  lemma RockRoundTrip(r: Rock)
    ensures RockOf(Symbol(r)) == Ok(r)
  {
  }

  /** `Platform::from_str`: the rocks line after line, the first line setting
      the width; a refused character is the error, and a ragged platform
      panics in `unwrap`. */
  function PlatformOf(s: string): (r: Result<Grid<Rock>>)
    ensures r.Ok? ==> r.value.Valid() && r.value.height == |Lines(s)|
    ensures r.Ok? ==> r.value.width == (if Lines(s) == [] then 0 else |Lines(s)[0]|)
  {
    var lines := Lines(s);
    var width := if lines == [] then 0 else |lines[0]|;
    match MapResult(Concat(lines), RockOf)
    case Err(e) => Err(e)
    case Ok(rocks) =>
      match NewGrid(|lines|, width, rocks)
      case None => Err(Panic)
      case Some(g) => Ok(g)
  }

  // ---------------------------------------------------------------------
  // One line of rocks

  /** The number of rocks of kind `k` in `s`. */
  function Count(s: seq<Rock>, k: Rock): nat {
    multiset(s)[k]
  }

  lemma CountAppend(a: seq<Rock>, b: seq<Rock>)
    ensures forall k :: Count(a + b, k) == Count(a, k) + Count(b, k)
  {
    assert multiset(a + b) == multiset(a) + multiset(b);
  }

  /** Every rock is of one of the three kinds. */
  lemma {:induction false} CountAll(s: seq<Rock>)
    ensures Count(s, Round) + Count(s, Cube) + Count(s, Empty) == |s|
  {
    if s != [] {
      var init := s[..|s| - 1];
      assert s == init + [s[|s| - 1]];
      CountAll(init);
      CountLast(init, s[|s| - 1]);
    }
  }

  /** One more rock adds one to the count of its kind only. */
  lemma CountLast(s: seq<Rock>, x: Rock)
    ensures Count(s + [x], x) == Count(s, x) + 1
    ensures forall k :: k != x ==> Count(s + [x], k) == Count(s, k)
  {
    assert multiset(s + [x]) == multiset(s) + multiset{x};
  }

  function Fill(k: Rock, n: nat): (r: seq<Rock>)
    ensures |r| == n && forall i :: 0 <= i < n ==> r[i] == k
  {
    seq(n, _ => k)
  }

  lemma {:induction false} FillCount(k: Rock, n: nat)
    ensures Count(Fill(k, n), k) == n
    ensures forall j :: j != k ==> Count(Fill(k, n), j) == 0
  {
    if n > 0 {
      assert Fill(k, n) == Fill(k, n - 1) + [k];
      FillCount(k, n - 1);
    }
  }

  /** A stretch without cubes with its round rocks rolled to the front. */
  function Pack(s: seq<Rock>): (r: seq<Rock>)
    ensures Cube !in s ==> |r| == |s|
  {
    CountAll(s);
    Fill(Round, Count(s, Round)) + Fill(Empty, Count(s, Empty))
  }

  /** The last cube of `s`. */
  function LastCube(s: seq<Rock>): (r: Option<nat>)
    ensures r.Some? ==> r.value < |s| && s[r.value] == Cube && Cube !in s[r.value + 1..]
    ensures r.None? ==> Cube !in s
  {
    if s == [] then None
    else if s[|s| - 1] == Cube then Some(|s| - 1)
    else
      var init := s[..|s| - 1];
      assert s == init + [s[|s| - 1]];
      match LastCube(init)
      case None => None
      case Some(i) =>
        assert s[i + 1..] == init[i + 1..] + [s[|s| - 1]];
        Some(i)
  }

  /** A line after a tilt towards its front: in every stretch between cubes
      the round rocks come first. */
  function Tilted(s: seq<Rock>): (r: seq<Rock>)
    ensures |r| == |s|
    decreases |s|
  {
    match LastCube(s)
    case None =>
      CountAll(s);
      Pack(s)
    case Some(i) =>
      CountAll(s[i + 1..]);
      Tilted(s[..i]) + [Cube] + Pack(s[i + 1..])
  }

  /** No round rock has an empty place in front of it. */
  predicate Packed(s: seq<Rock>) {
    forall i :: 0 < i < |s| ==> Stays(s, i)
  }

  /** The rock at `i`, if round, cannot roll to `i - 1`. */
  predicate Stays(s: seq<Rock>, i: nat)
    requires 0 < i < |s|
  {
    s[i] == Round ==> s[i - 1] != Empty
  }

  /** Every stretch of a packed line is packed. */
  lemma PackedSlice(s: seq<Rock>, lo: nat, hi: nat)
    requires Packed(s) && lo <= hi <= |s|
    ensures Packed(s[lo..hi])
  {
    var t := s[lo..hi];
    forall i | 0 < i < |t|
      ensures Stays(t, i)
    {
      assert Stays(s, lo + i);
      assert t[i] == s[lo + i] && t[i - 1] == s[lo + i - 1];
    }
  }

  /** Two packed lines joined by a cube make a packed line. */
  lemma PackedJoin(a: seq<Rock>, b: seq<Rock>)
    requires Packed(a) && Packed(b)
    ensures Packed(a + [Cube] + b)
  {
    var t := a + [Cube] + b;
    forall i | 0 < i < |t|
      ensures Stays(t, i)
    {
      if i < |a| {
        assert Stays(a, i);
        assert t[i] == a[i] && t[i - 1] == a[i - 1];
      } else if i > |a| + 1 {
        assert Stays(b, i - |a| - 1);
        assert t[i] == b[i - |a| - 1] && t[i - 1] == b[i - |a| - 2];
      }
    }
  }

  /** With its last cube at `seg - 1`, or none, a line tilts as its prefix
      up to that cube followed by the stretch after it, packed. */
  lemma TiltedSegment(s: seq<Rock>, seg: nat)
    requires seg <= |s| && (seg == 0 || s[seg - 1] == Cube) && Cube !in s[seg..]
    ensures Tilted(s) == Tilted(s[..seg]) + Pack(s[seg..])
  {
    NoCubeAfter(s, seg);
    if seg == 0 {
      TiltedNoCube(s);
    } else {
      TiltedAfterCube(s, seg);
    }
  }

  lemma TiltedNoCube(s: seq<Rock>)
    requires LastCube(s).None?
    ensures Tilted(s) == Tilted(s[..0]) + Pack(s[0..])
  {
    assert s[0..] == s && s[..0] == [];
    TiltedNothing();
    assert Tilted(s) == Pack(s);
  }

  lemma TiltedAfterCube(s: seq<Rock>, seg: nat)
    requires 0 < seg <= |s| && LastCube(s) == Some(seg - 1)
    ensures Tilted(s) == Tilted(s[..seg]) + Pack(s[seg..])
  {
    TiltedAtCube(s[..seg]);
    assert s[..seg][..seg - 1] == s[..seg - 1];
    var t, rest := Tilted(s[..seg - 1]), Pack(s[seg..]);
    assert Tilted(s) == t + [Cube] + rest;
    assert Tilted(s[..seg]) + rest == t + [Cube] + rest;
  }

  lemma TiltedNothing()
    ensures Tilted([]) == [] && Pack([]) == []
  {
    var none: seq<Rock> := [];
    assert multiset(none) == multiset{};
  }

  /** A line that ends in a cube. */
  lemma TiltedAtCube(s: seq<Rock>)
    requires s != [] && s[|s| - 1] == Cube
    ensures Tilted(s) == Tilted(s[..|s| - 1]) + [Cube]
  {
    assert s[|s|..] == [];
    TiltedNothing();
  }

  /** Where the last cube is, given that no cube comes after `seg - 1`. */
  lemma NoCubeAfter(s: seq<Rock>, seg: nat)
    requires seg <= |s| && (seg == 0 || s[seg - 1] == Cube) && Cube !in s[seg..]
    ensures seg == 0 ==> LastCube(s).None?
    ensures seg > 0 ==> LastCube(s) == Some(seg - 1)
  {
  }

  /** `a` and `b` have cubes at the same places and nowhere else. */
  predicate SameCubes(a: seq<Rock>, b: seq<Rock>) {
    |a| == |b| && forall i :: 0 <= i < |a| ==> (a[i] == Cube <==> b[i] == Cube)
  }

  lemma SameCubesConcat(a: seq<Rock>, b: seq<Rock>, c: seq<Rock>, d: seq<Rock>)
    requires SameCubes(a, c) && SameCubes(b, d)
    ensures SameCubes(a + b, c + d)
  {
    forall i | 0 <= i < |a + b|
      ensures (a + b)[i] == Cube <==> (c + d)[i] == Cube
    {
      if i >= |a| {
        assert (a + b)[i] == b[i - |a|] && (c + d)[i] == d[i - |a|];
      }
    }
  }

  /** A stretch without cubes packs into one without cubes. */
  lemma PackSameCubes(s: seq<Rock>)
    requires Cube !in s
    ensures SameCubes(Pack(s), s)
  {
    CountAll(s);
    assert Count(s, Cube) == 0;
  }

  /** A tilt keeps every cube where it is and puts no cube anywhere else. */
  lemma {:induction false} TiltedCubes(s: seq<Rock>)
    ensures SameCubes(Tilted(s), s)
    decreases |s|
  {
    match LastCube(s)
    case None =>
      PackSameCubes(s);
    case Some(c) =>
      var pre, tail := s[..c], s[c + 1..];
      TiltedCubes(pre);
      PackSameCubes(tail);
      SameCubesConcat(Tilted(pre), [Cube], pre, [Cube]);
      SameCubesConcat(Tilted(pre) + [Cube], Pack(tail), pre + [Cube], tail);
      assert s == pre + [Cube] + tail;
  }

  /** A tilt keeps the number of rocks of every kind. */
  lemma {:induction false} TiltedCounts(s: seq<Rock>)
    ensures forall k :: Count(Tilted(s), k) == Count(s, k)
    decreases |s|
  {
    match LastCube(s)
    case None =>
      PackCounts(s);
    case Some(c) =>
      var pre, tail := s[..c], s[c + 1..];
      PackCounts(tail);
      TiltedCounts(pre);
      assert s == pre + [Cube] + tail;
      CountAppend(pre + [Cube], tail);
      CountAppend(pre, [Cube]);
      CountAppend(Tilted(pre) + [Cube], Pack(tail));
      CountAppend(Tilted(pre), [Cube]);
  }

  lemma PackCounts(s: seq<Rock>)
    requires Cube !in s
    ensures forall k :: Count(Pack(s), k) == Count(s, k)
  {
    FillCount(Round, Count(s, Round));
    FillCount(Empty, Count(s, Empty));
    CountAppend(Fill(Round, Count(s, Round)), Fill(Empty, Count(s, Empty)));
    assert Count(s, Cube) == 0;
  }

  /** After a tilt no round rock can roll any further. */
  lemma {:induction false} TiltedPacked(s: seq<Rock>)
    ensures Packed(Tilted(s))
    decreases |s|
  {
    match LastCube(s)
    case None =>
      PackPacked(s);
    case Some(c) =>
      TiltedPacked(s[..c]);
      PackPacked(s[c + 1..]);
      PackedJoin(Tilted(s[..c]), Pack(s[c + 1..]));
  }

  /** Round rocks first, then empty places: nothing can roll. */
  lemma PackPacked(s: seq<Rock>)
    ensures Packed(Pack(s))
  {
    var p := Pack(s);
    var r := Count(s, Round);
    forall i | 0 < i < |p|
      ensures Stays(p, i)
    {
      if p[i] == Round {
        assert i < r;
      }
    }
  }

  /** A packed stretch without cubes is already tilted. */
  lemma {:induction false} PackedStretch(s: seq<Rock>)
    requires Cube !in s && Packed(s)
    ensures Pack(s) == s
    decreases |s|
  {
    if s != [] {
      var init := s[..|s| - 1];
      var last := s[|s| - 1];
      assert s == init + [last];
      PackedInit(s);
      PackedStretch(init);
      if last == Round && init != [] {
        assert Stays(s, |s| - 1);
        if Count(init, Empty) > 0 {
          EndsEmpty(init);
          assert false;
        }
      }
      PackSnoc(init, last);
    }
  }

  /** One more rock at the end of a packed stretch. */
  lemma PackSnoc(init: seq<Rock>, last: Rock)
    requires last != Cube && (last == Round ==> Count(init, Empty) == 0)
    ensures Pack(init + [last]) == Pack(init) + [last]
  {
    var r, e := Count(init, Round), Count(init, Empty);
    CountLast(init, last);
    if last == Empty {
      assert Fill(Empty, e + 1) == Fill(Empty, e) + [Empty];
    } else {
      assert Fill(Round, r + 1) == Fill(Round, r) + [Round];
      assert Fill(Empty, 0) == [];
    }
  }

  lemma PackedInit(s: seq<Rock>)
    requires s != [] && Packed(s)
    ensures Packed(s[..|s| - 1])
  {
    PackedSlice(s, 0, |s| - 1);
    assert s[0..|s| - 1] == s[..|s| - 1];
  }

  lemma EndsEmpty(s: seq<Rock>)
    requires Pack(s) == s && Count(s, Empty) > 0
    ensures s != [] && s[|s| - 1] == Empty
  {
    var f := Fill(Empty, Count(s, Empty));
    assert s[|s| - 1] == f[|f| - 1];
  }

  /** A packed line is already tilted. */
  lemma {:induction false} PackedIsTilted(s: seq<Rock>)
    requires Packed(s)
    ensures Tilted(s) == s
    decreases |s|
  {
    match LastCube(s)
    case None =>
      PackedStretch(s);
    case Some(c) =>
      var pre, tail := s[..c], s[c + 1..];
      assert Packed(pre) by {
        PackedSlice(s, 0, c);
        assert s[0..c] == pre;
      }
      assert Packed(tail) by {
        PackedSlice(s, c + 1, |s|);
        assert s[c + 1..|s|] == tail;
      }
      PackedIsTilted(pre);
      PackedIsTiltedAt(s, c);
  }

  lemma PackedIsTiltedAt(s: seq<Rock>, c: nat)
    requires LastCube(s) == Some(c) && Packed(s[c + 1..]) && Tilted(s[..c]) == s[..c]
    ensures Tilted(s) == s
  {
    PackedStretch(s[c + 1..]);
    TiltedSplit(s, c);
    Rejoin(s, c);
  }

  /** A line is what lies before a cube, the cube and what lies after. */
  lemma Rejoin(s: seq<Rock>, c: nat)
    requires c < |s| && s[c] == Cube
    ensures s[..c] + [Cube] + s[c + 1..] == s
  {
  }

  /** Tilting twice is tilting once. */
  lemma TiltedIdempotent(s: seq<Rock>)
    ensures Tilted(Tilted(s)) == Tilted(s)
  {
    TiltedPacked(s);
    PackedIsTilted(Tilted(s));
  }

  // ---------------------------------------------------------------------
  // The lines of a platform

  predicate Vertical(d: Direction) {
    d == Up || d == Down
  }

  /** A tilt towards `d` rolls the rocks along the columns (north, south)
      or along the rows (west, east). */
  function LineCount(d: Direction, height: nat, width: nat): nat {
    if Vertical(d) then width else height
  }

  function LineLength(d: Direction, height: nat, width: nat): nat {
    if Vertical(d) then height else width
  }

  /** The row of place `k` of line `i`, the places counted from the side the
      rocks roll to: `column_mut` for north, `column_mut(..).rev()` for
      south, `row_mut` for west and `row_mut(..).rev()` for east. */
  function CellY(d: Direction, i: nat, k: nat, height: nat, width: nat): (y: nat)
    requires i < LineCount(d, height, width) && k < LineLength(d, height, width)
    ensures y < height
  {
    match d
    case Up => k
    case Down => height - 1 - k
    case Left => i
    case Right => i
  }

  /** The column of place `k` of line `i`. */
  function CellX(d: Direction, i: nat, k: nat, height: nat, width: nat): (x: nat)
    requires i < LineCount(d, height, width) && k < LineLength(d, height, width)
    ensures x < width
    ensures LineOfCell(d, CellY(d, i, k, height, width), x) == i
    ensures PlaceOfCell(d, CellY(d, i, k, height, width), x, height, width) == k
  {
    match d
    case Up => i
    case Down => i
    case Left => k
    case Right => width - 1 - k
  }

  /** The line the cell in row `y` and column `x` lies on. */
  function LineOfCell(d: Direction, y: nat, x: nat): nat {
    if Vertical(d) then x else y
  }

  /** The place of that cell on its line. */
  function PlaceOfCell(d: Direction, y: nat, x: nat, height: nat, width: nat): nat
    requires y < height && x < width
  {
    match d
    case Up => y
    case Down => height - 1 - y
    case Left => x
    case Right => width - 1 - x
  }

  /** Every cell is the cell of its place on its line. */
  lemma CellOfPlace(d: Direction, y: nat, x: nat, height: nat, width: nat)
    requires y < height && x < width
    ensures LineOfCell(d, y, x) < LineCount(d, height, width)
    ensures PlaceOfCell(d, y, x, height, width) < LineLength(d, height, width)
    ensures CellY(d, LineOfCell(d, y, x), PlaceOfCell(d, y, x, height, width), height, width) == y
    ensures CellX(d, LineOfCell(d, y, x), PlaceOfCell(d, y, x, height, width), height, width) == x
  {
  }

  /** Line `i` of the platform, in the order the tilt towards `d` walks it. */
  function Line(g: Grid<Rock>, d: Direction, i: nat): (r: seq<Rock>)
    requires g.Valid() && i < LineCount(d, g.height, g.width)
    ensures |r| == LineLength(d, g.height, g.width)
  {
    seq(LineLength(d, g.height, g.width), k requires 0 <= k < LineLength(d, g.height, g.width) =>
      g.rows[CellY(d, i, k, g.height, g.width)][CellX(d, i, k, g.height, g.width)])
  }

  /** The platform tilted towards `d`: every line tilted on its own. */
  function TiltGrid(g: Grid<Rock>, d: Direction): (r: Grid<Rock>)
    requires g.Valid()
    ensures r.Valid() && r.height == g.height && r.width == g.width
  {
    Grid(g.width, g.height, seq(g.height, y requires 0 <= y < g.height =>
      seq(g.width, x requires 0 <= x < g.width =>
        CellOfPlace(d, y, x, g.height, g.width);
        Tilted(Line(g, d, LineOfCell(d, y, x)))[PlaceOfCell(d, y, x, g.height, g.width)])))
  }

  /** Each line of the tilted platform is that line tilted. */
  lemma TiltGridLine(g: Grid<Rock>, d: Direction, i: nat)
    requires g.Valid() && i < LineCount(d, g.height, g.width)
    ensures Line(TiltGrid(g, d), d, i) == Tilted(Line(g, d, i))
  {
    var t := TiltGrid(g, d);
    forall k | 0 <= k < LineLength(d, g.height, g.width)
      ensures Line(t, d, i)[k] == Tilted(Line(g, d, i))[k]
    {
      var y, x := CellY(d, i, k, g.height, g.width), CellX(d, i, k, g.height, g.width);
      assert Line(t, d, i)[k] == t.rows[y][x];
    }
  }

  /** A tilt moves no cube, and makes none. */
  lemma TiltKeepsCubes(g: Grid<Rock>, d: Direction)
    requires g.Valid()
    ensures forall y, x :: 0 <= y < g.height && 0 <= x < g.width ==>
      (TiltGrid(g, d).rows[y][x] == Cube <==> g.rows[y][x] == Cube)
  {
    forall y, x | 0 <= y < g.height && 0 <= x < g.width
      ensures TiltGrid(g, d).rows[y][x] == Cube <==> g.rows[y][x] == Cube
    {
      CellOfPlace(d, y, x, g.height, g.width);
      var i, k := LineOfCell(d, y, x), PlaceOfCell(d, y, x, g.height, g.width);
      TiltedCubes(Line(g, d, i));
      assert Line(g, d, i)[k] == g.rows[y][x];
    }
  }

  /** Every line the rocks roll along keeps its numbers of round rocks,
      cubes and empty places. */
  lemma TiltKeepsCounts(g: Grid<Rock>, d: Direction, i: nat)
    requires g.Valid() && i < LineCount(d, g.height, g.width)
    ensures forall k :: Count(Line(TiltGrid(g, d), d, i), k) == Count(Line(g, d, i), k)
  {
    TiltGridLine(g, d, i);
    TiltedCounts(Line(g, d, i));
  }

  /** The rock in row `y` and column `x` lies in the top row or on
      something: a cube or another round rock. */
  predicate Rests(g: Grid<Rock>, y: nat, x: nat)
    requires g.Valid() && y < g.height && x < g.width
  {
    y == 0 || g.rows[y - 1][x] != Empty
  }

  /** After a tilt north every round rock lies in the top row, or below a
      cube or another round rock. */
  lemma TiltNorthPacked(g: Grid<Rock>)
    requires g.Valid()
    ensures var t := TiltGrid(g, Up);
      forall y, x :: 0 <= y < g.height && 0 <= x < g.width && t.rows[y][x] == Round ==> Rests(t, y, x)
  {
    var t := TiltGrid(g, Up);
    forall y, x | 0 < y < g.height && 0 <= x < g.width && t.rows[y][x] == Round
      ensures Rests(t, y, x)
    {
      TiltGridLine(g, Up, x);
      TiltedPacked(Line(g, Up, x));
      assert Stays(Line(t, Up, x), y);
      assert Line(t, Up, x)[y] == t.rows[y][x];
      assert Line(t, Up, x)[y - 1] == t.rows[y - 1][x];
    }
  }

  /** A second tilt the same way moves nothing. */
  lemma TiltIdempotent(g: Grid<Rock>, d: Direction)
    requires g.Valid()
    ensures TiltGrid(TiltGrid(g, d), d) == TiltGrid(g, d)
  {
    var t := TiltGrid(g, d);
    var tt := TiltGrid(t, d);
    forall y | 0 <= y < g.height
      ensures tt.rows[y] == t.rows[y]
    {
      forall x | 0 <= x < g.width
        ensures tt.rows[y][x] == t.rows[y][x]
      {
        CellOfPlace(d, y, x, g.height, g.width);
        var i := LineOfCell(d, y, x);
        TiltGridLine(g, d, i);
        TiltedIdempotent(Line(g, d, i));
      }
    }
  }

  /** A spin cycle: north, then west, then south, then east. */
  function Spin(g: Grid<Rock>): (r: Grid<Rock>)
    requires g.Valid()
    ensures r.Valid() && r.height == g.height && r.width == g.width
  {
    TiltGrid(TiltGrid(TiltGrid(TiltGrid(g, Up), Left), Down), Right)
  }

  /** `n` spin cycles. */
  function Spins(g: Grid<Rock>, n: nat): (r: Grid<Rock>)
    requires g.Valid()
    ensures r.Valid() && r.height == g.height && r.width == g.width
  {
    if n == 0 then g else Spin(Spins(g, n - 1))
  }

  /** `CYCLES`: the number of spin cycles of part two. */
  const Cycles: nat := 1000000000

  /** Some state comes back within `Cycles` spin cycles. */
  ghost predicate Recurs(g: Grid<Rock>)
    requires g.Valid()
  {
    exists i: nat, j: nat :: i < j <= Cycles && Spins(g, i) == Spins(g, j)
  }

  lemma SpinsNext(g: Grid<Rock>, n: nat, m: nat)
    requires g.Valid() && m == n + 1
    ensures Spins(g, m) == Spin(Spins(g, n))
  {
  }

  /** Spinning `a` times and then `b` times is spinning `a + b` times. */
  lemma {:induction false} SpinsAdd(g: Grid<Rock>, a: nat, b: nat)
    requires g.Valid()
    ensures Spins(Spins(g, a), b) == Spins(g, a + b)
  {
    if b > 0 {
      SpinsAdd(g, a, b - 1);
      assert Spins(g, a + b) == Spin(Spins(g, a + b - 1));
    }
  }

  /** Once the platform is back where it was `period` cycles before, every
      later state comes back `period` cycles on. */
  lemma SpinsPeriodic(g: Grid<Rock>, start: nat, period: nat, n: nat)
    requires g.Valid() && Spins(g, start) == Spins(g, start + period) && start <= n
    ensures Spins(g, n + period) == Spins(g, n)
  {
    SpinsAdd(g, start, n - start);
    SpinsAdd(g, start + period, n - start);
  }

  /** The platform spun `total` cycles, found again after `current`
      cycles where it had been after `previous`: whole periods are skipped
      and only the cycles left over are spun. */
  lemma {:induction false} FastForward(g: Grid<Rock>, previous: nat, current: nat, total: nat)
    requires g.Valid() && previous < current <= total
    requires Spins(g, previous) == Spins(g, current)
    ensures Spins(g, current + (total - current) % (current - previous)) == Spins(g, total)
    decreases total
  {
    var period := current - previous;
    var x := total - current;
    if x >= period {
      var rest := total - period;
      FastForward(g, previous, current, rest);
      ModuloShift(x - period, period);
      assert (rest - current) % period == x % period by {
        assert rest - current == x - period && x - period + period == x;
      }
      SpinsPeriodic(g, previous, period, rest);
      assert rest + period == total;
    } else {
      SmallModulo(x, period);
    }
  }

  // ---------------------------------------------------------------------
  // The load on the north beams

  /** The load of the rocks of a column `s` whose top lies `h` rows from
      the south edge: every round rock weighs its distance from that edge,
      its own row included. */
  function Load(s: seq<Rock>, h: nat): nat
    requires |s| <= h
  {
    if s == [] then 0 else (if s[0] == Round then h else 0) + Load(s[1..], h - 1)
  }

  /** `total_load`: the loads of all columns. */
  function TotalLoad(g: Grid<Rock>): nat
    requires g.Valid()
  {
    ColumnsLoad(g, g.width)
  }

  function ColumnsLoad(g: Grid<Rock>, n: nat): nat
    requires g.Valid() && n <= g.width
  {
    if n == 0 then 0 else ColumnsLoad(g, n - 1) + Load(g.Column(n - 1), g.height)
  }

  /** The answer of part one: the load after a tilt north. */
  function Part1(g: Grid<Rock>): nat
    requires g.Valid()
  {
    TotalLoad(TiltGrid(g, Up))
  }

  lemma {:induction false} LoadAppend(a: seq<Rock>, b: seq<Rock>, h: nat)
    requires |a| + |b| <= h
    ensures Load(a + b, h) == Load(a, h) + Load(b, h - |a|)
  {
    if a != [] {
      assert (a + b)[1..] == a[1..] + b && (a + b)[0] == a[0];
      LoadAppend(a[1..], b, h - 1);
      assert Load(a + b, h) == (if a[0] == Round then h else 0) + Load(a[1..] + b, h - 1);
    } else {
      assert a + b == b;
    }
  }

  /** A cube weighs nothing. */
  lemma LoadJoin(a: seq<Rock>, b: seq<Rock>, h: nat)
    requires |a| + 1 + |b| <= h
    ensures Load(a + [Cube] + b, h) == Load(a, h) + Load(b, h - |a| - 1)
  {
    LoadAppend(a + [Cube], b, h);
    LoadAppend(a, [Cube], h);
  }

  /** Raising a column raises its load. */
  lemma {:induction false} LoadRaised(s: seq<Rock>, h: nat)
    requires |s| <= h
    ensures Load(s, h) <= Load(s, h + 1)
  {
    if s != [] {
      LoadRaised(s[1..], h - 1);
    }
  }

  /** Empty places weigh nothing. */
  lemma {:induction false} LoadEmpties(n: nat, h: nat)
    requires n <= h
    ensures Load(Fill(Empty, n), h) == 0
  {
    if n > 0 {
      assert Fill(Empty, n)[1..] == Fill(Empty, n - 1);
      LoadEmpties(n - 1, h - 1);
    }
  }

  /** Only the round rocks of a packed stretch weigh anything. */
  lemma PackLoad(s: seq<Rock>, h: nat)
    requires |s| <= h && Cube !in s
    ensures Load(Pack(s), h) == Load(Fill(Round, Count(s, Round)), h)
  {
    var r, e := Count(s, Round), Count(s, Empty);
    assert r + e == |s| by {
      CountAll(s);
      assert Cube !in multiset(s);
    }
    LoadAppend(Fill(Round, r), Fill(Empty, e), h);
    LoadEmpties(e, h - r);
  }

  lemma RoundsLoad(n: nat, h: nat)
    requires n + 1 <= h
    ensures Load(Fill(Round, n + 1), h) == h + Load(Fill(Round, n), h - 1)
  {
    assert Fill(Round, n + 1)[1..] == Fill(Round, n);
  }

  /** Rolling the round rocks of a stretch to its front never lightens it. */
  lemma {:induction false} PackHeavier(s: seq<Rock>, h: nat)
    requires |s| <= h && Cube !in s
    ensures Load(s, h) <= Load(Pack(s), h)
  {
    if s != [] {
      var t := s[1..];
      assert s == [s[0]] + t;
      CountAppend([s[0]], t);
      PackHeavier(t, h - 1);
      PackLoad(t, h - 1);
      PackLoad(s, h);
      var r := Count(t, Round);
      if s[0] == Round {
        assert Load(s, h) == h + Load(t, h - 1);
        assert Count(s, Round) == r + 1;
        RoundsLoad(r, h);
      } else {
        assert Load(s, h) == Load(t, h - 1);
        assert Count(s, Round) == r;
        LoadRaised(Fill(Round, r), h - 1);
      }
    }
  }

  /** A tilt towards the front of a column never lightens it. */
  lemma {:induction false} TiltedHeavier(s: seq<Rock>, h: nat)
    requires |s| <= h
    ensures Load(s, h) <= Load(Tilted(s), h)
    decreases |s|
  {
    match LastCube(s)
    case None =>
      PackHeavier(s, h);
    case Some(i) =>
      TiltedHeavier(s[..i], h);
      TiltedHeavierAt(s, i, h);
  }

  lemma TiltedHeavierAt(s: seq<Rock>, i: nat, h: nat)
    requires |s| <= h && LastCube(s) == Some(i)
    requires Load(s[..i], h) <= Load(Tilted(s[..i]), h)
    ensures Load(s, h) <= Load(Tilted(s), h)
  {
    var pre, post := s[..i], s[i + 1..];
    TiltedSplit(s, i);
    Rejoin(s, i);
    LoadJoin(pre, post, h);
    LoadJoin(Tilted(pre), Pack(post), h);
    PackHeavier(post, h - i - 1);
  }

  /** A line with a last cube at `i`, and its tilt. */
  lemma TiltedSplit(s: seq<Rock>, i: nat)
    requires LastCube(s) == Some(i)
    ensures Tilted(s) == Tilted(s[..i]) + [Cube] + Pack(s[i + 1..])
  {
  }

  /** Column `x` is line `x` of a tilt north. */
  lemma ColumnIsLine(g: Grid<Rock>, x: nat)
    requires g.Valid() && x < g.width
    ensures g.Column(x) == Line(g, Up, x)
  {
  }

  /** A platform whose every column is at least as heavy as the same
      column of another is at least as heavy in all. */
  lemma {:induction false} ColumnsHeavier(g: Grid<Rock>, t: Grid<Rock>, n: nat)
    requires g.Valid() && t.Valid() && g.width == t.width && g.height == t.height && n <= g.width
    requires forall x :: 0 <= x < g.width ==> Load(g.Column(x), g.height) <= Load(t.Column(x), t.height)
    ensures ColumnsLoad(g, n) <= ColumnsLoad(t, n)
  {
    if n > 0 {
      ColumnsHeavier(g, t, n - 1);
    }
  }

  /** Tilting north never lightens column `x`. */
  lemma ColumnHeavier(g: Grid<Rock>, x: nat)
    requires g.Valid() && x < g.width
    ensures Load(g.Column(x), g.height) <= Load(TiltGrid(g, Up).Column(x), g.height)
  {
    ColumnIsLine(g, x);
    ColumnIsLine(TiltGrid(g, Up), x);
    TiltGridLine(g, Up, x);
    TiltedHeavier(Line(g, Up, x), g.height);
  }

  /** The answer of part one is at least the load before the tilt. */
  lemma Part1Heavier(g: Grid<Rock>)
    requires g.Valid()
    ensures TotalLoad(g) <= Part1(g)
  {
    forall x | 0 <= x < g.width
      ensures Load(g.Column(x), g.height) <= Load(TiltGrid(g, Up).Column(x), g.height)
    {
      ColumnHeavier(g, x);
    }
    ColumnsHeavier(g, TiltGrid(g, Up), g.width);
  }

  // ---------------------------------------------------------------------
  // The tilt of one line in place

  /** After `k` of the places of `line` have been visited, the rocks
      before the last cube seen are tilted, and the stretch since then holds
      its round rocks on `seg..lo` and its empty places on `lo..k`. */
  predicate Scanned(line: seq<Rock>, seg: nat, lo: nat, k: nat) {
    && seg <= lo <= k <= |line|
    && (seg == 0 || line[seg - 1] == Cube)
    && Cube !in line[seg..k]
    && lo - seg == Count(line[seg..k], Round)
    && k - lo == Count(line[seg..k], Empty)
  }

  /** The line as the scan leaves it: `done`, the part up to the last cube
      seen, tilted; then round rocks up to `lo`; then empty places. */
  function Expected(done: seq<Rock>, lo: nat, j: nat): Rock {
    if j < |done| then done[j] else if j < lo then Round else Empty
  }

  /** The queue of empty places, `lo` first and `k - 1` last. */
  function Places(lo: nat, k: nat): (r: seq<nat>)
    requires lo <= k
    ensures |r| == k - lo && forall j :: 0 <= j < |r| ==> r[j] == lo + j
  {
    seq(k - lo, j requires 0 <= j < k - lo => lo + j)
  }

  /** `pop_front` and then `push_back(k)`. */
  lemma PlacesShift(lo: nat, k: nat)
    requires lo < k
    ensures Places(lo, k)[1..] + [k] == Places(lo + 1, k + 1)
  {
  }

  /** `push_back(k)`. */
  lemma PlacesSnoc(lo: nat, k: nat)
    requires lo <= k
    ensures Places(lo, k) + [k] == Places(lo, k + 1)
  {
  }

  /** `cur`, the line as it stands, holds the expected rocks before `k` and
      the untouched rocks of `line` from `k` on. */
  predicate Laid(line: seq<Rock>, done: seq<Rock>, lo: nat, k: nat, cur: seq<Rock>) {
    && |cur| == |line| && k <= |line|
    && (forall j :: 0 <= j < k ==> cur[j] == Expected(done, lo, j))
    && (forall j :: k <= j < |line| ==> cur[j] == line[j])
  }

  /** Visiting one more place that is not a cube. */
  lemma ScanRock(line: seq<Rock>, seg: nat, lo: nat, k: nat)
    requires Scanned(line, seg, lo, k) && k < |line| && line[k] != Cube
    ensures line[k] == Round ==> Scanned(line, seg, lo + 1, k + 1)
    ensures line[k] == Empty ==> Scanned(line, seg, lo, k + 1)
  {
    assert line[seg..k + 1] == line[seg..k] + [line[k]];
    CountLast(line[seg..k], line[k]);
  }

  /** A round rock swaps with the first queued empty place. */
  lemma LaidSwap(line: seq<Rock>, done: seq<Rock>, lo: nat, k: nat, cur: seq<Rock>)
    requires Laid(line, done, lo, k, cur) && |done| <= lo < k < |line| && line[k] == Round
    ensures Laid(line, done, lo + 1, k + 1, cur[k := cur[lo]][lo := cur[k]])
  {
    var next := cur[k := cur[lo]][lo := cur[k]];
    assert cur[lo] == Empty;
    forall j | 0 <= j < k + 1
      ensures next[j] == Expected(done, lo + 1, j)
    {
      if j != lo && j != k {
        assert next[j] == cur[j];
      }
    }
  }

  /** A round rock with no empty place before it stays. */
  lemma LaidStay(line: seq<Rock>, done: seq<Rock>, k: nat, cur: seq<Rock>)
    requires Laid(line, done, k, k, cur) && |done| <= k < |line| && line[k] == Round
    ensures Laid(line, done, k + 1, k + 1, cur)
  {
  }

  /** An empty place stays, and joins the queue. */
  lemma LaidEmpty(line: seq<Rock>, done: seq<Rock>, lo: nat, k: nat, cur: seq<Rock>)
    requires Laid(line, done, lo, k, cur) && |done| <= lo <= k < |line| && line[k] == Empty
    ensures Laid(line, done, lo, k + 1, cur)
  {
  }

  /** The part visited so far, tilted, is what the scan has laid out. */
  lemma ScannedTilted(line: seq<Rock>, seg: nat, lo: nat, k: nat)
    requires Scanned(line, seg, lo, k)
    ensures |Tilted(line[..k])| == k
    ensures forall j :: 0 <= j < k ==> Tilted(line[..k])[j] == Expected(Tilted(line[..seg]), lo, j)
  {
    var done, pack := Tilted(line[..seg]), Pack(line[seg..k]);
    assert Tilted(line[..k]) == done + pack by {
      var p := line[..k];
      assert p[..seg] == line[..seg] && p[seg..] == line[seg..k];
      TiltedSegment(p, seg);
    }
    ExpectedLayout(done, lo, k - lo);
  }

  /** `done`, then round rocks up to `lo`, then `e` empty places. */
  lemma ExpectedLayout(done: seq<Rock>, lo: nat, e: nat)
    requires |done| <= lo
    ensures var t := done + (Fill(Round, lo - |done|) + Fill(Empty, e));
      forall j :: 0 <= j < |t| ==> t[j] == Expected(done, lo, j)
  {
  }

  /** Visiting a cube: the stretch before it is packed. */
  lemma ScanCube(line: seq<Rock>, seg: nat, lo: nat, k: nat)
    requires Scanned(line, seg, lo, k) && k < |line| && line[k] == Cube
    ensures Scanned(line, k + 1, k + 1, k + 1)
    ensures |Tilted(line[..k + 1])| == k + 1 && Tilted(line[..k + 1])[k] == Cube
    ensures forall j :: 0 <= j < k ==> Tilted(line[..k + 1])[j] == Expected(Tilted(line[..seg]), lo, j)
  {
    var p := line[..k + 1];
    TiltedAtCube(p);
    assert p[..k] == line[..k];
    ScannedTilted(line, seg, lo, k);
    assert line[k + 1..k + 1] == [];
  }

  /** A cube closes the stretch: the line so far is tilted. */
  lemma LaidCube(line: seq<Rock>, seg: nat, lo: nat, k: nat, cur: seq<Rock>)
    requires Scanned(line, seg, lo, k) && k < |line| && line[k] == Cube
    requires Laid(line, Tilted(line[..seg]), lo, k, cur)
    ensures Scanned(line, k + 1, k + 1, k + 1)
    ensures Laid(line, Tilted(line[..k + 1]), k + 1, k + 1, cur)
  {
    ScanCube(line, seg, lo, k);
    var next := Tilted(line[..k + 1]);
    forall j | 0 <= j < k + 1
      ensures cur[j] == Expected(next, k + 1, j)
    {
      if j < k {
        assert cur[j] == Expected(Tilted(line[..seg]), lo, j);
      }
    }
  }

  /** All places visited: the line is tilted. */
  lemma ScanDone(line: seq<Rock>, seg: nat, lo: nat)
    requires Scanned(line, seg, lo, |line|)
    ensures forall j :: 0 <= j < |line| ==> Tilted(line)[j] == Expected(Tilted(line[..seg]), lo, j)
  {
    ScannedTilted(line, seg, lo, |line|);
    assert line[..|line|] == line;
  }

  lemma LaidDone(line: seq<Rock>, seg: nat, lo: nat, cur: seq<Rock>)
    requires Scanned(line, seg, lo, |line|) && Laid(line, Tilted(line[..seg]), lo, |line|, cur)
    ensures cur == Tilted(line)
  {
    ScanDone(line, seg, lo);
  }

  lemma ScanStart(line: seq<Rock>)
    ensures Scanned(line, 0, 0, 0) && Tilted(line[..0]) == [] && Laid(line, [], 0, 0, line)
  {
    TiltedNothing();
    assert line[..0] == [];
    assert line[0..0] == [];
  }

  /** The state of the walk over one line: the line as it stands and the
      queue of empty places. */
  datatype Walk = Walk(cur: seq<Rock>, empties: seq<nat>)

  /** Visiting place `k`: a round rock swaps with the first queued empty
      place, which then queues the place it left; a cube forgets every
      queued place; an empty place joins the queue. */
  function Visit(w: Walk, k: nat): (r: Walk)
    requires k < |w.cur| && forall j :: 0 <= j < |w.empties| ==> w.empties[j] < k
    ensures |r.cur| == |w.cur| && forall j :: 0 <= j < |r.empties| ==> r.empties[j] <= k
  {
    match w.cur[k]
    case Round =>
      if w.empties == [] then w
      else
        var e := w.empties[0];
        Walk(w.cur[k := w.cur[e]][e := w.cur[k]], w.empties[1..] + [k])
    case Cube => Walk(w.cur, [])
    case Empty => Walk(w.cur, w.empties + [k])
  }

  /** The walk after visiting the first `k` places of `line`. */
  function Scan(line: seq<Rock>, k: nat): (r: Walk)
    requires k <= |line|
    ensures |r.cur| == |line| && forall j :: 0 <= j < |r.empties| ==> r.empties[j] < k
  {
    if k == 0 then Walk(line, []) else Visit(Scan(line, k - 1), k - 1)
  }

  /** What the walk over `line` keeps after `k` places: the rocks before
      the last cube seen are tilted, then come the round rocks of the
      stretch since that cube, then its empty places, all queued. */
  ghost predicate ScanInv(line: seq<Rock>, seg: nat, lo: nat, k: nat, w: Walk) {
    && Scanned(line, seg, lo, k)
    && w.empties == Places(lo, k)
    && Laid(line, Tilted(line[..seg]), lo, k, w.cur)
  }

  lemma KeepsRound(line: seq<Rock>, seg: nat, lo: nat, k: nat, n: nat, w: Walk)
    requires ScanInv(line, seg, lo, k, w) && n == k + 1 <= |line| && line[k] == Round
    ensures ScanInv(line, seg, lo + 1, n, Visit(w, k))
  {
    assert w.cur[k] == Round;
    ScanRock(line, seg, lo, k);
    if w.empties != [] {
      assert w.empties[0] == lo;
      assert Visit(w, k) == Walk(w.cur[k := w.cur[lo]][lo := w.cur[k]], w.empties[1..] + [k]);
      LaidSwap(line, Tilted(line[..seg]), lo, k, w.cur);
      PlacesShift(lo, k);
    } else {
      assert Visit(w, k) == w;
      LaidStay(line, Tilted(line[..seg]), k, w.cur);
      assert Places(k + 1, k + 1) == [];
    }
  }

  lemma KeepsEmpty(line: seq<Rock>, seg: nat, lo: nat, k: nat, n: nat, w: Walk)
    requires ScanInv(line, seg, lo, k, w) && n == k + 1 <= |line| && line[k] == Empty
    ensures ScanInv(line, seg, lo, n, Visit(w, k))
  {
    assert w.cur[k] == Empty;
    assert Visit(w, k) == Walk(w.cur, w.empties + [k]);
    ScanRock(line, seg, lo, k);
    LaidEmpty(line, Tilted(line[..seg]), lo, k, w.cur);
    PlacesSnoc(lo, k);
  }

  lemma KeepsCube(line: seq<Rock>, seg: nat, lo: nat, k: nat, n: nat, w: Walk)
    requires ScanInv(line, seg, lo, k, w) && n == k + 1 <= |line| && line[k] == Cube
    ensures ScanInv(line, n, n, n, Visit(w, k))
  {
    assert w.cur[k] == Cube;
    assert Visit(w, k) == Walk(w.cur, []);
    LaidCube(line, seg, lo, k, w.cur);
    assert Places(k + 1, k + 1) == [];
  }

  /** The walk keeps the scan invariant. */
  lemma {:induction false} ScanKeeps(line: seq<Rock>, k: nat) returns (seg: nat, lo: nat)
    requires k <= |line|
    ensures ScanInv(line, seg, lo, k, Scan(line, k))
  {
    if k == 0 {
      ScanStart(line);
      seg, lo := 0, 0;
    } else {
      var s, l := ScanKeeps(line, k - 1);
      seg, lo := Advance(line, s, l, k - 1, k, Scan(line, k - 1));
    }
  }

  /** One more place visited. */
  lemma Advance(line: seq<Rock>, seg: nat, lo: nat, k: nat, n: nat, w: Walk) returns (seg': nat, lo': nat)
    requires ScanInv(line, seg, lo, k, w) && n == k + 1 <= |line|
    ensures ScanInv(line, seg', lo', n, Visit(w, k))
  {
    match line[k]
    case Round =>
      KeepsRound(line, seg, lo, k, n, w);
      seg', lo' := seg, lo + 1;
    case Cube =>
      KeepsCube(line, seg, lo, k, n, w);
      seg', lo' := n, n;
    case Empty =>
      KeepsEmpty(line, seg, lo, k, n, w);
      seg', lo' := seg, lo;
  }

  /** The whole walk leaves the line tilted. */
  lemma ScanTilts(line: seq<Rock>)
    ensures Scan(line, |line|).cur == Tilted(line)
  {
    var seg, lo := ScanKeeps(line, |line|);
    LaidDone(line, seg, lo, Scan(line, |line|).cur);
  }

  /** The body of each tilt on one line, held in a buffer: the walk from
      the side the rocks roll to, with `empties` as the `VecDeque` of empty
      places and `std::mem::swap` as an exchange of two cells. */
  method TiltInPlace(a: array<Rock>)
    modifies a
    ensures a[..] == Tilted(old(a[..]))
  {
    ghost var line := a[..];
    var empties: seq<nat> := [];
    var k: nat := 0;
    while k < a.Length
      invariant |line| == a.Length && k <= a.Length
      invariant Scan(line, k) == Walk(a[..], empties)
    {
      match a[k] {
        case Round =>
          if empties != [] {
            var e := empties[0];
            a[k], a[e] := a[e], a[k];
            empties := empties[1..] + [k];
          }
        case Cube =>
          empties := [];
        case Empty =>
          empties := empties + [k];
      }
      k := k + 1;
    }
    ScanTilts(line);
  }
}
