// Advent of Code 2023, day 14 (Parabolic Reflector Dish): the platform as
// a mutable grid of rocks, tilted in place.

module Day14Platform {
  import opened Wrappers
  import opened Grid
  import opened Day14

  // The platform, tilted in place

  /** `Platform`: the rocks in a grid of `height` rows and `width`
      columns. */
  class Platform {
    const height: nat
    const width: nat
    const cells: array2<Rock>

    ghost predicate Valid()
      reads this
    {
      cells.Length0 == height && cells.Length1 == width
    }

    /** The rocks as they now lie. */
    function State(): (g: Grid<Rock>)
      requires Valid()
      reads this, cells
      ensures g.Valid() && g.height == height && g.width == width
    {
      Grid(width, height, seq(height, y requires 0 <= y < height reads cells =>
        seq(width, x requires 0 <= x < width reads cells => cells[y, x])))
    }

    constructor (g: Grid<Rock>)
      requires g.Valid()
      ensures Valid() && fresh(cells) && State() == g
    {
      height, width := g.height, g.width;
      cells := new Rock[g.height, g.width]((y: nat, x: nat) requires y < g.height && x < g.width => g.rows[y][x]);
      new;
      StateIs(g);
    }

    /** The state is `g` when every cell agrees with it. */
    lemma StateIs(g: Grid<Rock>)
      requires Valid() && g.Valid() && g.height == height && g.width == width
      requires forall y, x :: 0 <= y < height && 0 <= x < width ==> cells[y, x] == g.rows[y][x]
      ensures State() == g
    {
      var s := State();
      forall y | 0 <= y < height
        ensures s.rows[y] == g.rows[y]
      {
      }
    }

    /** The rock at place `k` of line `i`. */
    function At(d: Direction, i: nat, k: nat): Rock
      requires Valid() && i < LineCount(d, height, width) && k < LineLength(d, height, width)
      reads this, cells
    {
      cells[CellY(d, i, k, height, width), CellX(d, i, k, height, width)]
    }

    /** `column_mut(i)` for north, `column_mut(i).rev()` for south,
        `row_mut(i)` for west and `row_mut(i).rev()` for east: the rocks of
        line `i`, from the side they roll to, in a buffer of their own. */
    method ReadLine(d: Direction, i: nat) returns (buf: array<Rock>)
      requires Valid() && i < LineCount(d, height, width)
      ensures fresh(buf) && buf[..] == Line(State(), d, i)
    {
      var n := LineLength(d, height, width);
      buf := new Rock[n];
      var k := 0;
      while k < n
        invariant k <= n && buf.Length == n
        invariant forall j :: 0 <= j < k ==> buf[j] == At(d, i, j)
      {
        buf[k] := At(d, i, k);
        k := k + 1;
      }
      assert forall j :: 0 <= j < n ==> Line(State(), d, i)[j] == At(d, i, j);
    }

    /** The buffer's rocks put back in their places on line `i`. */
    method WriteLine(d: Direction, i: nat, buf: array<Rock>)
      requires Valid() && i < LineCount(d, height, width) && buf.Length == LineLength(d, height, width)
      modifies cells
      ensures forall j :: 0 <= j < buf.Length ==> At(d, i, j) == buf[j]
      ensures forall y, x :: 0 <= y < height && 0 <= x < width && LineOfCell(d, y, x) != i ==>
        cells[y, x] == old(cells[y, x])
    {
      var k := 0;
      while k < buf.Length
        invariant k <= buf.Length
        invariant forall j :: 0 <= j < k ==> At(d, i, j) == buf[j]
        invariant forall y, x :: 0 <= y < height && 0 <= x < width && LineOfCell(d, y, x) != i ==>
          cells[y, x] == old(cells[y, x])
      {
        cells[CellY(d, i, k, height, width), CellX(d, i, k, height, width)] := buf[k];
        k := k + 1;
      }
    }

    /** Line `i` tilted in place: read out, walked, written back. */
    method TiltLine(d: Direction, i: nat)
      requires Valid() && i < LineCount(d, height, width)
      modifies cells
      ensures forall y, x :: 0 <= y < height && 0 <= x < width ==>
        cells[y, x] == if LineOfCell(d, y, x) == i
          then Tilted(old(Line(State(), d, i)))[PlaceOfCell(d, y, x, height, width)]
          else old(cells[y, x])
    {
      ghost var line := Line(State(), d, i);
      var buf := ReadLine(d, i);
      TiltInPlace(buf);
      WriteLine(d, i, buf);
      forall y, x | 0 <= y < height && 0 <= x < width && LineOfCell(d, y, x) == i
        ensures cells[y, x] == Tilted(line)[PlaceOfCell(d, y, x, height, width)]
      {
        CellOfPlace(d, y, x, height, width);
        assert cells[y, x] == At(d, i, PlaceOfCell(d, y, x, height, width));
      }
    }

    /** `tilt_north`, `tilt_south`, `tilt_west` and `tilt_east`: every line
        in turn. */
    method Tilt(d: Direction)
      requires Valid()
      modifies cells
      ensures State() == TiltGrid(old(State()), d)
    {
      ghost var start := State();
      ghost var tilted := TiltGrid(start, d);
      var lines := LineCount(d, height, width);
      var i := 0;
      while i < lines
        invariant i <= lines
        invariant forall y, x :: 0 <= y < height && 0 <= x < width ==>
          cells[y, x] == if LineOfCell(d, y, x) < i then tilted.rows[y][x] else start.rows[y][x]
      {
        assert Line(State(), d, i) == Line(start, d, i) by {
          forall k | 0 <= k < LineLength(d, height, width)
            ensures Line(State(), d, i)[k] == Line(start, d, i)[k]
          {
            var y, x := CellY(d, i, k, height, width), CellX(d, i, k, height, width);
            assert Line(State(), d, i)[k] == cells[y, x];
          }
        }
        TiltLine(d, i);
        i := i + 1;
      }
      forall y, x | 0 <= y < height && 0 <= x < width
        ensures cells[y, x] == tilted.rows[y][x]
      {
        CellOfPlace(d, y, x, height, width);
      }
      StateIs(tilted);
    }

    /** `spin_cycle`. */
    method SpinCycle()
      requires Valid()
      modifies cells
      ensures State() == Spin(old(State()))
    {
      Tilt(Up);
      Tilt(Left);
      Tilt(Down);
      Tilt(Right);
    }
  }

  /** `part2`: the load after `Cycles` spin cycles. The states seen are
      remembered with the cycle they were seen after; the first state seen
      twice closes a period, and only the cycles left over after the whole
      periods are spun. When no state comes back, the search itself spins
      the platform `Cycles + 1` times. */
  method Part2(platform: Platform) returns (load: nat)
    requires platform.Valid()
    modifies platform.cells
    ensures var start := old(platform.State());
      load == TotalLoad(Spins(start, if Recurs(start) then Cycles else Cycles + 1))
  {
    ghost var start := platform.State();
    var found := FindRepeat(platform, start);
    ghost var spun: nat := Cycles + 1;
    if found.Some? {
      var (current, previous) := found.value;
      var remainder := (Cycles - current) % (current - previous);
      SpinTimes(platform, remainder, start, current);
      FastForward(start, previous, current, Cycles);
      assert Recurs(start) by {
        assert previous < current <= Cycles && Spins(start, previous) == Spins(start, current);
      }
      spun := Cycles;
    }
    assert spun == if Recurs(start) then Cycles else Cycles + 1;
    assert platform.State() == Spins(start, spun);
    load := TotalLoad(platform.State());
  }

  /** The search of `part2`: the cycle a state first comes back after and
      the cycle it was first seen after, the platform spun until then. */
  method FindRepeat(platform: Platform, ghost start: Grid<Rock>) returns (found: Option<(nat, nat)>)
    requires platform.Valid() && platform.State() == start
    modifies platform.cells
    ensures found.Some? ==> found.value.1 < found.value.0 <= Cycles
    ensures found.Some? ==> Spins(start, found.value.1) == Spins(start, found.value.0)
    ensures found.Some? ==> platform.State() == Spins(start, found.value.0)
    ensures found.None? ==> !Recurs(start) && platform.State() == Spins(start, Cycles + 1)
  {
    var seen: map<Grid<Rock>, nat> := map[];
    var cycle: nat := 0;
    found := None;
    while found.None? && cycle <= Cycles
      invariant platform.Valid() && cycle <= Cycles + 1
      invariant found.None? ==> platform.State() == Spins(start, cycle)
      invariant start.Valid() && Remembers(start, seen, cycle)
      invariant found.Some? ==> found.value.1 < found.value.0 <= Cycles
      invariant found.Some? ==> Spins(start, found.value.1) == Spins(start, found.value.0)
      invariant found.Some? ==> platform.State() == Spins(start, found.value.0)
      decreases Cycles + 1 - cycle, if found.None? then 1 else 0
    {
      var key := platform.State();
      if key in seen {
        Remembered(start, seen, cycle, key);
        found := Some((cycle, seen[key]));
      } else {
        RememberNext(start, seen, cycle);
        seen := seen[key := cycle];
        platform.SpinCycle();
        SpinsNext(start, cycle, cycle + 1);
        cycle := cycle + 1;
      }
    }
    if found.None? {
      NoRecurrence(start, seen);
    }
  }

  /** `n` more spin cycles of a platform spun `done` times. */
  method SpinTimes(platform: Platform, n: nat, ghost start: Grid<Rock>, ghost done: nat)
    requires platform.Valid() && start.Valid() && platform.State() == Spins(start, done)
    modifies platform.cells
    ensures platform.State() == Spins(start, done + n)
  {
    var i: nat := 0;
    while i < n
      invariant platform.Valid() && i <= n
      invariant platform.State() == Spins(start, done + i)
    {
      platform.SpinCycle();
      SpinsNext(start, done + i, done + i + 1);
      i := i + 1;
    }
  }

  /** `seen` maps the state after each of the first `n` spin cycles to
      that cycle, and holds nothing else. */
  ghost predicate Remembers(start: Grid<Rock>, seen: map<Grid<Rock>, nat>, n: nat)
    requires start.Valid()
  {
    (forall j: nat :: j < n ==> Spins(start, j) in seen && seen[Spins(start, j)] == j) &&
    (forall g :: g in seen ==> seen[g] < n && Spins(start, seen[g]) == g)
  }

  lemma RememberNext(start: Grid<Rock>, seen: map<Grid<Rock>, nat>, n: nat)
    requires start.Valid() && Remembers(start, seen, n) && Spins(start, n) !in seen
    ensures Remembers(start, seen[Spins(start, n) := n], n + 1)
  {
    var next := Spins(start, n);
    var more := seen[next := n];
    forall j: nat | j < n + 1
      ensures Spins(start, j) in more && more[Spins(start, j)] == j
    {
      if j < n {
        assert Spins(start, j) in seen;
      }
    }
    forall g | g in more
      ensures more[g] < n + 1 && Spins(start, more[g]) == g
    {
      if g != next {
        assert g in seen;
      }
    }
  }

  lemma Remembered(start: Grid<Rock>, seen: map<Grid<Rock>, nat>, n: nat, g: Grid<Rock>)
    requires start.Valid() && Remembers(start, seen, n) && g in seen
    ensures seen[g] < n && Spins(start, seen[g]) == g
  {
  }

  /** When the first `Cycles + 1` states are all different, none comes
      back. */
  lemma NoRecurrence(start: Grid<Rock>, seen: map<Grid<Rock>, nat>)
    requires start.Valid() && Remembers(start, seen, Cycles + 1)
    ensures !Recurs(start)
  {
  }
}
