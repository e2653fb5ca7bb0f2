/** Day 11: galaxies of an image, the empty rows and columns between them
    grown by an age, and the sum of the distances of every pair. */
module Day11 {
  import opened Wrappers
  import opened Text
  import opened Grid

  const GalaxyChar := '#'

  /** The two coordinates of a position. */
  datatype Axis = X | Y

  function Coord(p: Position, a: Axis): nat {
    match a
    case X => p.x
    case Y => p.y
  }

  // ---------------------------------------------------------------------
  // Parsing

  /** The galaxies among the first `k` characters of row `y`, left to right. */
  function RowGalaxies(line: string, y: nat, k: nat): seq<Position>
    requires k <= |line|
  {
    if k == 0 then []
    else RowGalaxies(line, y, k - 1) + (if line[k - 1] == GalaxyChar then [Position(k - 1, y)] else [])
  }

  /** The galaxies of the first `n` rows, in reading order. */
  function Galaxies(lines: seq<string>, n: nat): seq<Position>
    requires n <= |lines|
  {
    if n == 0 then [] else Galaxies(lines, n - 1) + RowGalaxies(lines[n - 1], n - 1, |lines[n - 1]|)
  }

  /** `Image::from_str`: every `#` of every line, as (column, row). */
  function ImageOf(s: string): seq<Position> {
    var lines := Lines(s);
    Galaxies(lines, |lines|)
  }

  /** A position is read as a galaxy exactly when its character is `#`. */
  lemma {:induction false} RowGalaxiesSpec(line: string, y: nat, k: nat, p: Position)
    requires k <= |line|
    ensures p in RowGalaxies(line, y, k) <==> p.y == y && p.x < k && line[p.x] == GalaxyChar
  {
    if k > 0 {
      RowGalaxiesSpec(line, y, k - 1, p);
    }
  }

  lemma {:induction false} GalaxiesSpec(lines: seq<string>, n: nat, p: Position)
    requires n <= |lines|
    ensures p in Galaxies(lines, n) <==> p.y < n && p.x < |lines[p.y]| && lines[p.y][p.x] == GalaxyChar
  {
    if n > 0 {
      GalaxiesSpec(lines, n - 1, p);
      RowGalaxiesSpec(lines[n - 1], n - 1, |lines[n - 1]|, p);
    }
  }

  /** The galaxies of a text are the `#` of its lines. */
  lemma ImageOfSpec(s: string, p: Position)
    ensures var lines := Lines(s);
      p in ImageOf(s) <==> p.y < |lines| && p.x < |lines[p.y]| && lines[p.y][p.x] == GalaxyChar
  {
    GalaxiesSpec(Lines(s), |Lines(s)|, p);
  }

  // ---------------------------------------------------------------------
  // Expansion

  /** The largest coordinate on an axis, 0 for no galaxy: the `fold` of
      `expand`. */
  function Largest(gs: seq<Position>, a: Axis): (m: nat)
    ensures forall i :: 0 <= i < |gs| ==> Coord(gs[i], a) <= m
    ensures gs == [] ==> m == 0
    ensures gs != [] ==> exists i :: 0 <= i < |gs| && Coord(gs[i], a) == m
  {
    if gs == [] then 0
    else
      var m := Largest(gs[..|gs| - 1], a);
      assert forall i :: 0 <= i < |gs| - 1 ==> gs[..|gs| - 1][i] == gs[i];
      if Coord(gs[|gs| - 1], a) > m then Coord(gs[|gs| - 1], a) else m
  }

  /** No galaxy on line `k` of the axis (row `k` for `Y`, column `k` for `X`). */
  predicate EmptyLine(gs: seq<Position>, a: Axis, k: nat) {
    forall i :: 0 <= i < |gs| ==> Coord(gs[i], a) != k
  }

  /** Which of lines `0 .. n-1` are empty. */
  function Flags(gs: seq<Position>, a: Axis, n: nat): (f: seq<bool>)
    ensures |f| == n && forall k :: 0 <= k < n ==> f[k] == EmptyLine(gs, a, k)
  {
    seq(n, k requires 0 <= k => EmptyLine(gs, a, k))
  }

  function Last(s: seq<nat>): nat {
    if s == [] then 0 else s[|s| - 1]
  }

  /** The `scan` of `expand` over the first `n` flags: the expansion so far,
      grown by `age` at each empty line. */
  function Scan(flags: seq<bool>, age: nat, n: nat): (r: seq<nat>)
    requires n <= |flags|
    ensures |r| == n
  {
    if n == 0 then []
    else
      var before := Scan(flags, age, n - 1);
      before + [Last(before) + (if flags[n - 1] then age else 0)]
  }

  /** The number of empty lines before line `k`. */
  function EmptyBefore(gs: seq<Position>, a: Axis, k: nat): nat {
    if k == 0 then 0 else EmptyBefore(gs, a, k - 1) + (if EmptyLine(gs, a, k - 1) then 1 else 0)
  }

  /** The number of `true` among the first `k` flags. */
  function CountTrue(flags: seq<bool>, k: nat): nat
    requires k <= |flags|
  {
    if k == 0 then 0 else CountTrue(flags, k - 1) + (if flags[k - 1] then 1 else 0)
  }

  /** Entry `k` of the scan is `age` times the `true` flags up to `k`. */
  lemma {:induction false} ScanCount(flags: seq<bool>, age: nat, n: nat, k: nat)
    requires n <= |flags| && k < n
    ensures Scan(flags, age, n)[k] == age * CountTrue(flags, k + 1)
  {
    var before := Scan(flags, age, n - 1);
    if k < n - 1 {
      ScanCount(flags, age, n - 1, k);
    } else if k > 0 {
      assert Last(before) == age * CountTrue(flags, k) by {
        ScanCount(flags, age, n - 1, k - 1);
      }
      var c := CountTrue(flags, k);
      assert age * (c + 1) == age * c + age;
    }
  }

  lemma {:induction false} CountFlags(gs: seq<Position>, a: Axis, m: nat, k: nat)
    requires k <= m
    ensures CountTrue(Flags(gs, a, m), k) == EmptyBefore(gs, a, k)
  {
    if k > 0 {
      CountFlags(gs, a, m, k - 1);
    }
  }

  /** Entry `k` of an incrementer is `age` times the empty lines up to
      line `k`, however many lines it covers. */
  lemma ScanSpec(gs: seq<Position>, a: Axis, m: nat, age: nat, k: nat)
    requires k < m
    ensures Scan(Flags(gs, a, m), age, m)[k] == age * EmptyBefore(gs, a, k + 1)
  {
    ScanCount(Flags(gs, a, m), age, m, k);
    CountFlags(gs, a, m, k + 1);
  }

  /** The line of a galaxy is not empty, so counting up to it or before it is
      the same. */
  lemma OwnLine(gs: seq<Position>, a: Axis, i: nat)
    requires i < |gs|
    ensures EmptyBefore(gs, a, Coord(gs[i], a) + 1) == EmptyBefore(gs, a, Coord(gs[i], a))
  {
    assert !EmptyLine(gs, a, Coord(gs[i], a));
  }

  /** The galaxy moved by the two incrementers. */
  function Shift(g: Position, colIncrementer: seq<nat>, rowIncrementer: seq<nat>): Position
    requires g.x < |colIncrementer| && g.y < |rowIncrementer|
  {
    Position(g.x + colIncrementer[g.x], g.y + rowIncrementer[g.y])
  }

  /** `expand(age)` with each incrementer over the lines of its own axis:
      every galaxy moved right by `age` per empty column and down by `age` per
      empty row before it. */
  function Expand(gs: seq<Position>, age: nat): (r: seq<Position>)
    ensures |r| == |gs|
  {
    var maxX := Largest(gs, X);
    var maxY := Largest(gs, Y);
    var colIncrementer := Scan(Flags(gs, X, maxX + 1), age, maxX + 1);
    var rowIncrementer := Scan(Flags(gs, Y, maxY + 1), age, maxY + 1);
    seq(|gs|, i requires 0 <= i < |gs| => Shift(gs[i], colIncrementer, rowIncrementer))
  }

  /** Where `age` puts a galaxy: shifted by `age` for each empty column left
      of it and each empty row above it. */
  function Expanded(gs: seq<Position>, age: nat, g: Position): Position {
    Position(g.x + age * EmptyBefore(gs, X, g.x), g.y + age * EmptyBefore(gs, Y, g.y))
  }

  lemma ExpandSpec(gs: seq<Position>, age: nat, i: nat)
    requires i < |gs|
    ensures Expand(gs, age)[i] == Expanded(gs, age, gs[i])
  {
    var g := gs[i];
    var maxX := Largest(gs, X);
    var maxY := Largest(gs, Y);
    var colIncrementer := Scan(Flags(gs, X, maxX + 1), age, maxX + 1);
    var rowIncrementer := Scan(Flags(gs, Y, maxY + 1), age, maxY + 1);
    assert Expand(gs, age)[i] == Shift(g, colIncrementer, rowIncrementer);
    assert colIncrementer[g.x] == age * EmptyBefore(gs, X, g.x) by {
      Incremented(gs, X, maxX + 1, age, i);
    }
    assert rowIncrementer[g.y] == age * EmptyBefore(gs, Y, g.y) by {
      Incremented(gs, Y, maxY + 1, age, i);
    }
  }

  /** The entry of an incrementer at a galaxy's own line. */
  lemma Incremented(gs: seq<Position>, a: Axis, m: nat, age: nat, i: nat)
    requires i < |gs| && Coord(gs[i], a) < m
    ensures Scan(Flags(gs, a, m), age, m)[Coord(gs[i], a)] == age * EmptyBefore(gs, a, Coord(gs[i], a))
  {
    ScanSpec(gs, a, m, age, Coord(gs[i], a));
    OwnLine(gs, a, i);
  }

  /** `expand(0)` changes nothing. */
  lemma ExpandZero(gs: seq<Position>)
    ensures Expand(gs, 0) == gs
  {
    forall i | 0 <= i < |gs|
      ensures Expand(gs, 0)[i] == gs[i]
    {
      ExpandSpec(gs, 0, i);
    }
  }

  lemma {:induction false} EmptyBeforeMonotone(gs: seq<Position>, a: Axis, j: nat, k: nat)
    requires j <= k
    ensures EmptyBefore(gs, a, j) <= EmptyBefore(gs, a, k)
    decreases k - j
  {
    if j < k {
      EmptyBeforeMonotone(gs, a, j, k - 1);
    }
  }

  lemma MonotoneScale(age: nat, a: nat, b: nat)
    requires a <= b
    ensures age * a <= age * b
  {
  }

  /** Expansion keeps the order of galaxies along each axis, strictly and
      not strictly. */
  lemma ExpandKeepsOrder(gs: seq<Position>, age: nat, i: nat, j: nat, a: Axis)
    requires i < |gs| && j < |gs|
    ensures Coord(gs[i], a) <= Coord(gs[j], a) ==> Coord(Expand(gs, age)[i], a) <= Coord(Expand(gs, age)[j], a)
    ensures Coord(gs[i], a) < Coord(gs[j], a) ==> Coord(Expand(gs, age)[i], a) < Coord(Expand(gs, age)[j], a)
  {
    ExpandSpec(gs, age, i);
    ExpandSpec(gs, age, j);
    var ci := Coord(gs[i], a);
    var cj := Coord(gs[j], a);
    if ci <= cj {
      EmptyBeforeMonotone(gs, a, ci, cj);
      MonotoneScale(age, EmptyBefore(gs, a, ci), EmptyBefore(gs, a, cj));
    }
  }

  /** `expand` exactly as the source writes it: the fold names the largest
      x `max_row` and the largest y `max_col`, so the row incrementer covers
      `max x + 1` rows and the column incrementer `max y + 1` columns. A
      galaxy whose row or column falls outside is an index out of bounds. */
  function ExpandAsWritten(gs: seq<Position>, age: nat): Result<seq<Position>> {
    var maxRow := Largest(gs, X);
    var maxCol := Largest(gs, Y);
    var rowIncrementer := Scan(Flags(gs, Y, maxRow + 1), age, maxRow + 1);
    var colIncrementer := Scan(Flags(gs, X, maxCol + 1), age, maxCol + 1);
    if forall i :: 0 <= i < |gs| ==> gs[i].x <= maxCol && gs[i].y <= maxRow then
      Ok(seq(|gs|, i requires 0 <= i < |gs| => Shift(gs[i], colIncrementer, rowIncrementer)))
    else Err(Panic)
  }

  /** Whenever the source's `expand` does not panic it computes the
      corrected expansion, because an incrementer's entry only depends on the
      lines before it. */
  lemma AsWrittenAgrees(gs: seq<Position>, age: nat)
    ensures ExpandAsWritten(gs, age).Ok? ==> ExpandAsWritten(gs, age).value == Expand(gs, age)
  {
    var r := ExpandAsWritten(gs, age);
    if r.Ok? {
      var maxRow := Largest(gs, X);
      var maxCol := Largest(gs, Y);
      var rowIncrementer := Scan(Flags(gs, Y, maxRow + 1), age, maxRow + 1);
      var colIncrementer := Scan(Flags(gs, X, maxCol + 1), age, maxCol + 1);
      forall i | 0 <= i < |gs|
        ensures r.value[i] == Expand(gs, age)[i]
      {
        assert r.value[i] == Shift(gs[i], colIncrementer, rowIncrementer);
        ExpandSpec(gs, age, i);
        Incremented(gs, X, maxCol + 1, age, i);
        Incremented(gs, Y, maxRow + 1, age, i);
      }
    }
  }

  /** It panics exactly when some galaxy lies right of the largest y or
      below the largest x; never when the two are equal. */
  lemma AsWrittenPanics(gs: seq<Position>, age: nat)
    ensures ExpandAsWritten(gs, age).Err? <==>
      exists i :: 0 <= i < |gs| && (gs[i].x > Largest(gs, Y) || gs[i].y > Largest(gs, X))
    ensures Largest(gs, X) == Largest(gs, Y) ==> ExpandAsWritten(gs, age).Ok?
  {
  }

  /** A single galaxy at column 0, row 1: the source's `expand` indexes a
      one-entry row incrementer at 1. */
  lemma AsWrittenCounterexample()
    ensures ExpandAsWritten([Position(0, 1)], 1) == Err(Panic)
    ensures Expand([Position(0, 1)], 1) == [Position(0, 2)]
  {
    var gs := [Position(0, 1)];
    assert Largest(gs, X) == 0 && Largest(gs, Y) == 1;
    assert EmptyLine(gs, Y, 0) && !EmptyLine(gs, X, 0);
    ExpandSpec(gs, 1, 0);
    assert EmptyBefore(gs, Y, 1) == 1;
  }

  // ---------------------------------------------------------------------
  // Distances

  /** The distances from galaxy `i` to galaxies `j ..` of the list. */
  function DistancesFrom(gs: seq<Position>, i: nat, j: nat): nat
    requires i < |gs| && j <= |gs|
    decreases |gs| - j
  {
    if j == |gs| then 0 else ManhattanDistance(gs[i], gs[j]) + DistancesFrom(gs, i, j + 1)
  }

  /** `sum_shortest_paths` from galaxy `i` on: each galaxy with every later
      one, as the `flat_map` over `self.0[idx + 1..]` does. */
  function SumFrom(gs: seq<Position>, i: nat): nat
    requires i <= |gs|
    decreases |gs| - i
  {
    if i == |gs| then 0 else DistancesFrom(gs, i, i + 1) + SumFrom(gs, i + 1)
  }

  function SumShortestPaths(gs: seq<Position>): nat {
    SumFrom(gs, 0)
  }

  /** The distances from `p` to every galaxy of the list. */
  function DistancesTo(gs: seq<Position>, p: Position): nat {
    if gs == [] then 0 else DistancesTo(gs[..|gs| - 1], p) + ManhattanDistance(gs[|gs| - 1], p)
  }

  /** The sum over unordered pairs, built galaxy by galaxy: a new galaxy
      adds its distance to each one before it. */
  function PairSum(gs: seq<Position>): nat {
    if gs == [] then 0 else PairSum(gs[..|gs| - 1]) + DistancesTo(gs[..|gs| - 1], gs[|gs| - 1])
  }

  lemma {:induction false} DistancesFromSnoc(gs: seq<Position>, p: Position, i: nat, j: nat)
    requires i < |gs| && j <= |gs|
    ensures DistancesFrom(gs + [p], i, j) == DistancesFrom(gs, i, j) + ManhattanDistance(gs[i], p)
    decreases |gs| - j
  {
    var t := gs + [p];
    if j < |gs| {
      DistancesFromSnoc(gs, p, i, j + 1);
      assert t[j] == gs[j];
    } else {
      assert t[j] == p;
    }
    assert t[i] == gs[i];
  }

  /** Adding a galaxy at the end adds its distance to every galaxy from `i`
      on. */
  lemma {:induction false} SumFromSnoc(gs: seq<Position>, p: Position, i: nat)
    requires i <= |gs|
    ensures SumFrom(gs + [p], i) == SumFrom(gs, i) + DistancesTo(gs[i..], p)
    decreases |gs| - i
  {
    var t := gs + [p];
    if i == |gs| {
      assert gs[i..] == [];
      assert DistancesFrom(t, i, i + 1) == 0;
      assert SumFrom(t, i + 1) == 0;
    } else {
      SumFromSnoc(gs, p, i + 1);
      DistancesFromSnoc(gs, p, i, i + 1);
      DistancesToCons(gs[i..], p);
      assert gs[i..][1..] == gs[i + 1..];
    }
  }

  lemma {:induction false} DistancesToCons(gs: seq<Position>, p: Position)
    requires gs != []
    ensures DistancesTo(gs, p) == ManhattanDistance(gs[0], p) + DistancesTo(gs[1..], p)
  {
    if |gs| > 1 {
      DistancesToCons(gs[..|gs| - 1], p);
      assert gs[..|gs| - 1][1..] == gs[1..][..|gs[1..]| - 1];
    } else {
      assert gs[..|gs| - 1] == [];
    }
  }

  /** `sum_shortest_paths` counts each unordered pair of galaxies once. */
  lemma {:induction false} SumShortestPathsIsPairSum(gs: seq<Position>)
    ensures SumShortestPaths(gs) == PairSum(gs)
  {
    if gs != [] {
      var init := gs[..|gs| - 1];
      SumShortestPathsIsPairSum(init);
      SumFromSnoc(init, gs[|gs| - 1], 0);
      assert init + [gs[|gs| - 1]] == gs;
      assert init[0..] == init;
    }
  }

  /** Part one and part two: the expanded image's pair sum. */
  function Solve(gs: seq<Position>, age: nat): nat {
    SumShortestPaths(Expand(gs, age))
  }
  // ---------------------------------------------------------------------
  // The example image

  /** The nine galaxies the example image reads as. */
  predicate IsExample(gs: seq<Position>) {
    && |gs| == 9
    && gs[0] == Position(3, 0)
    && gs[1] == Position(7, 1)
    && gs[2] == Position(0, 2)
    && gs[3] == Position(6, 4)
    && gs[4] == Position(1, 5)
    && gs[5] == Position(9, 6)
    && gs[6] == Position(7, 8)
    && gs[7] == Position(0, 9)
    && gs[8] == Position(4, 9)
  }

  /** The example grown by `age`: columns 2, 5 and 8 and rows 3 and 7 are
      empty. */
  predicate IsExpandedExample(e: seq<Position>, age: nat) {
    && |e| == 9
    && e[0] == Position(3 + 1 * age, 0 + 0 * age)
    && e[1] == Position(7 + 2 * age, 1 + 0 * age)
    && e[2] == Position(0 + 0 * age, 2 + 0 * age)
    && e[3] == Position(6 + 2 * age, 4 + 1 * age)
    && e[4] == Position(1 + 0 * age, 5 + 1 * age)
    && e[5] == Position(9 + 3 * age, 6 + 1 * age)
    && e[6] == Position(7 + 2 * age, 8 + 2 * age)
    && e[7] == Position(0 + 0 * age, 9 + 2 * age)
    && e[8] == Position(4 + 1 * age, 9 + 2 * age)
  }

  lemma ExampleEmptyColumns(gs: seq<Position>)
    requires IsExample(gs)
    ensures EmptyBefore(gs, X, 0) == 0 && EmptyBefore(gs, X, 1) == 0 && EmptyBefore(gs, X, 3) == 1
    ensures EmptyBefore(gs, X, 4) == 1 && EmptyBefore(gs, X, 6) == 2 && EmptyBefore(gs, X, 7) == 2
    ensures EmptyBefore(gs, X, 9) == 3
  {
    assert !EmptyLine(gs, X, 0);
    assert !EmptyLine(gs, X, 1);
    assert EmptyLine(gs, X, 2);
    assert !EmptyLine(gs, X, 3);
    assert !EmptyLine(gs, X, 4);
    assert EmptyLine(gs, X, 5);
    assert !EmptyLine(gs, X, 6);
    assert !EmptyLine(gs, X, 7);
    assert EmptyLine(gs, X, 8);
  }

  lemma ExampleEmptyRows(gs: seq<Position>)
    requires IsExample(gs)
    ensures EmptyBefore(gs, Y, 0) == 0 && EmptyBefore(gs, Y, 1) == 0 && EmptyBefore(gs, Y, 2) == 0
    ensures EmptyBefore(gs, Y, 4) == 1 && EmptyBefore(gs, Y, 5) == 1 && EmptyBefore(gs, Y, 6) == 1
    ensures EmptyBefore(gs, Y, 8) == 2 && EmptyBefore(gs, Y, 9) == 2
  {
    assert !EmptyLine(gs, Y, 0);
    assert !EmptyLine(gs, Y, 1);
    assert !EmptyLine(gs, Y, 2);
    assert EmptyLine(gs, Y, 3);
    assert !EmptyLine(gs, Y, 4);
    assert !EmptyLine(gs, Y, 5);
    assert !EmptyLine(gs, Y, 6);
    assert EmptyLine(gs, Y, 7);
    assert !EmptyLine(gs, Y, 8);
  }

  lemma ExampleExpand(gs: seq<Position>, age: nat)
    requires IsExample(gs)
    ensures IsExpandedExample(Expand(gs, age), age)
  {
    ExampleEmptyColumns(gs);
    ExampleEmptyRows(gs);
    ExpandSpec(gs, age, 0);
    ExpandSpec(gs, age, 1);
    ExpandSpec(gs, age, 2);
    ExpandSpec(gs, age, 3);
    ExpandSpec(gs, age, 4);
    ExpandSpec(gs, age, 5);
    ExpandSpec(gs, age, 6);
    ExpandSpec(gs, age, 7);
    ExpandSpec(gs, age, 8);
  }

  /** The distance of two galaxies grown apart by `age` per empty line
      between them. */
  lemma GrownDistance(x: nat, cx: nat, y: nat, cy: nat, x2: nat, cx2: nat, y2: nat, cy2: nat, age: nat)
    requires (x <= x2 && cx <= cx2) || (x2 <= x && cx2 <= cx)
    requires (y <= y2 && cy <= cy2) || (y2 <= y && cy2 <= cy)
    ensures ManhattanDistance(Position(x + cx * age, y + cy * age), Position(x2 + cx2 * age, y2 + cy2 * age))
      == Abs(x - x2) + Abs(y - y2) + (Abs(cx - cx2) + Abs(cy - cy2)) * age
  {
    GrownGap(x, cx, x2, cx2, age);
    GrownGap(y, cy, y2, cy2, age);
  }

  /** Along one axis. */
  lemma GrownGap(x: nat, cx: nat, x2: nat, cx2: nat, age: nat)
    requires (x <= x2 && cx <= cx2) || (x2 <= x && cx2 <= cx)
    ensures Abs((x + cx * age) - (x2 + cx2 * age)) == Abs(x - x2) + Abs(cx - cx2) * age
  {
    if x <= x2 && cx <= cx2 {
      assert cx2 * age - cx * age == (cx2 - cx) * age;
      assert cx * age <= cx2 * age;
    } else {
      assert cx * age - cx2 * age == (cx - cx2) * age;
      assert cx2 * age <= cx * age;
    }
  }

  lemma ExampleDistances0(e: seq<Position>, age: nat)
    requires IsExpandedExample(e, age)
    ensures DistancesFrom(e, 0, 1) == 70 + 17 * age
  {
    GrownDistance(3, 1, 0, 0, 4, 1, 9, 2, age);
    assert DistancesFrom(e, 0, 8) == 10 + 2 * age;
    GrownDistance(3, 1, 0, 0, 0, 0, 9, 2, age);
    assert DistancesFrom(e, 0, 7) == 22 + 5 * age;
    GrownDistance(3, 1, 0, 0, 7, 2, 8, 2, age);
    assert DistancesFrom(e, 0, 6) == 34 + 8 * age;
    GrownDistance(3, 1, 0, 0, 9, 3, 6, 1, age);
    assert DistancesFrom(e, 0, 5) == 46 + 11 * age;
    GrownDistance(3, 1, 0, 0, 1, 0, 5, 1, age);
    assert DistancesFrom(e, 0, 4) == 53 + 13 * age;
    GrownDistance(3, 1, 0, 0, 6, 2, 4, 1, age);
    assert DistancesFrom(e, 0, 3) == 60 + 15 * age;
    GrownDistance(3, 1, 0, 0, 0, 0, 2, 0, age);
    assert DistancesFrom(e, 0, 2) == 65 + 16 * age;
    GrownDistance(3, 1, 0, 0, 7, 2, 1, 0, age);
    assert DistancesFrom(e, 0, 1) == 70 + 17 * age;
  }

  lemma ExampleDistances1(e: seq<Position>, age: nat)
    requires IsExpandedExample(e, age)
    ensures DistancesFrom(e, 1, 2) == 62 + 17 * age
  {
    GrownDistance(7, 2, 1, 0, 4, 1, 9, 2, age);
    assert DistancesFrom(e, 1, 8) == 11 + 3 * age;
    GrownDistance(7, 2, 1, 0, 0, 0, 9, 2, age);
    assert DistancesFrom(e, 1, 7) == 26 + 7 * age;
    GrownDistance(7, 2, 1, 0, 7, 2, 8, 2, age);
    assert DistancesFrom(e, 1, 6) == 33 + 9 * age;
    GrownDistance(7, 2, 1, 0, 9, 3, 6, 1, age);
    assert DistancesFrom(e, 1, 5) == 40 + 11 * age;
    GrownDistance(7, 2, 1, 0, 1, 0, 5, 1, age);
    assert DistancesFrom(e, 1, 4) == 50 + 14 * age;
    GrownDistance(7, 2, 1, 0, 6, 2, 4, 1, age);
    assert DistancesFrom(e, 1, 3) == 54 + 15 * age;
    GrownDistance(7, 2, 1, 0, 0, 0, 2, 0, age);
    assert DistancesFrom(e, 1, 2) == 62 + 17 * age;
  }

  lemma ExampleDistances2(e: seq<Position>, age: nat)
    requires IsExpandedExample(e, age)
    ensures DistancesFrom(e, 2, 3) == 56 + 17 * age
  {
    GrownDistance(0, 0, 2, 0, 4, 1, 9, 2, age);
    assert DistancesFrom(e, 2, 8) == 11 + 3 * age;
    GrownDistance(0, 0, 2, 0, 0, 0, 9, 2, age);
    assert DistancesFrom(e, 2, 7) == 18 + 5 * age;
    GrownDistance(0, 0, 2, 0, 7, 2, 8, 2, age);
    assert DistancesFrom(e, 2, 6) == 31 + 9 * age;
    GrownDistance(0, 0, 2, 0, 9, 3, 6, 1, age);
    assert DistancesFrom(e, 2, 5) == 44 + 13 * age;
    GrownDistance(0, 0, 2, 0, 1, 0, 5, 1, age);
    assert DistancesFrom(e, 2, 4) == 48 + 14 * age;
    GrownDistance(0, 0, 2, 0, 6, 2, 4, 1, age);
    assert DistancesFrom(e, 2, 3) == 56 + 17 * age;
  }

  lemma ExampleDistances3(e: seq<Position>, age: nat)
    requires IsExpandedExample(e, age)
    ensures DistancesFrom(e, 3, 4) == 34 + 9 * age
  {
    GrownDistance(6, 2, 4, 1, 4, 1, 9, 2, age);
    assert DistancesFrom(e, 3, 8) == 7 + 2 * age;
    GrownDistance(6, 2, 4, 1, 0, 0, 9, 2, age);
    assert DistancesFrom(e, 3, 7) == 18 + 5 * age;
    GrownDistance(6, 2, 4, 1, 7, 2, 8, 2, age);
    assert DistancesFrom(e, 3, 6) == 23 + 6 * age;
    GrownDistance(6, 2, 4, 1, 9, 3, 6, 1, age);
    assert DistancesFrom(e, 3, 5) == 28 + 7 * age;
    GrownDistance(6, 2, 4, 1, 1, 0, 5, 1, age);
    assert DistancesFrom(e, 3, 4) == 34 + 9 * age;
  }

  lemma ExampleDistances4(e: seq<Position>, age: nat)
    requires IsExpandedExample(e, age)
    ensures DistancesFrom(e, 4, 5) == 30 + 9 * age
  {
    GrownDistance(1, 0, 5, 1, 4, 1, 9, 2, age);
    assert DistancesFrom(e, 4, 8) == 7 + 2 * age;
    GrownDistance(1, 0, 5, 1, 0, 0, 9, 2, age);
    assert DistancesFrom(e, 4, 7) == 12 + 3 * age;
    GrownDistance(1, 0, 5, 1, 7, 2, 8, 2, age);
    assert DistancesFrom(e, 4, 6) == 21 + 6 * age;
    GrownDistance(1, 0, 5, 1, 9, 3, 6, 1, age);
    assert DistancesFrom(e, 4, 5) == 30 + 9 * age;
  }

  lemma ExampleDistances5(e: seq<Position>, age: nat)
    requires IsExpandedExample(e, age)
    ensures DistancesFrom(e, 5, 6) == 24 + 9 * age
  {
    GrownDistance(9, 3, 6, 1, 4, 1, 9, 2, age);
    assert DistancesFrom(e, 5, 8) == 8 + 3 * age;
    GrownDistance(9, 3, 6, 1, 0, 0, 9, 2, age);
    assert DistancesFrom(e, 5, 7) == 20 + 7 * age;
    GrownDistance(9, 3, 6, 1, 7, 2, 8, 2, age);
    assert DistancesFrom(e, 5, 6) == 24 + 9 * age;
  }

  lemma ExampleDistances6(e: seq<Position>, age: nat)
    requires IsExpandedExample(e, age)
    ensures DistancesFrom(e, 6, 7) == 12 + 3 * age
  {
    GrownDistance(7, 2, 8, 2, 4, 1, 9, 2, age);
    assert DistancesFrom(e, 6, 8) == 4 + 1 * age;
    GrownDistance(7, 2, 8, 2, 0, 0, 9, 2, age);
    assert DistancesFrom(e, 6, 7) == 12 + 3 * age;
  }

  lemma ExampleDistances7(e: seq<Position>, age: nat)
    requires IsExpandedExample(e, age)
    ensures DistancesFrom(e, 7, 8) == 4 + 1 * age
  {
    GrownDistance(0, 0, 9, 2, 4, 1, 9, 2, age);
    assert DistancesFrom(e, 7, 8) == 4 + 1 * age;
  }

  lemma ExampleSum(e: seq<Position>, age: nat)
    requires IsExpandedExample(e, age)
    ensures SumShortestPaths(e) == 292 + 82 * age
  {
    assert DistancesFrom(e, 8, 9) == 0;
    assert SumFrom(e, 8) == 0;
    ExampleDistances7(e, age);
    assert SumFrom(e, 7) == 4 + 1 * age;
    ExampleDistances6(e, age);
    assert SumFrom(e, 6) == 16 + 4 * age;
    ExampleDistances5(e, age);
    assert SumFrom(e, 5) == 40 + 13 * age;
    ExampleDistances4(e, age);
    assert SumFrom(e, 4) == 70 + 22 * age;
    ExampleDistances3(e, age);
    assert SumFrom(e, 3) == 104 + 31 * age;
    ExampleDistances2(e, age);
    assert SumFrom(e, 2) == 160 + 48 * age;
    ExampleDistances1(e, age);
    assert SumFrom(e, 1) == 222 + 65 * age;
    ExampleDistances0(e, age);
    assert SumFrom(e, 0) == 292 + 82 * age;
  }

  /** On the example the pair sum grows by 82 per unit of age: 374 at age 1,
      1030 at age 9 and 8410 at age 99. */
  lemma ExampleSolve(gs: seq<Position>, age: nat)
    requires IsExample(gs)
    ensures Solve(gs, age) == 292 + 82 * age
    ensures Solve(gs, 1) == 374 && Solve(gs, 9) == 1030 && Solve(gs, 99) == 8410
  {
    ExampleExpand(gs, age);
    ExampleSum(Expand(gs, age), age);
    ExampleExpand(gs, 1);
    ExampleSum(Expand(gs, 1), 1);
    ExampleExpand(gs, 9);
    ExampleSum(Expand(gs, 9), 9);
    ExampleExpand(gs, 99);
    ExampleSum(Expand(gs, 99), 99);
  }

}
