/** Day 3: the engine schematic. A number is a maximal run of digits within
    one row; part one adds the numbers next to a symbol, part two multiplies
    the two numbers next to each gear. */
module Day3 {
  import opened Text
  import opened Grid
  import opened Wrappers

  type Schematic = Grid<char>

  /** Anything but a digit or the empty cell '.'. */
  predicate IsSymbol(c: char) {
    !IsDigit(c) && c != '.'
  }

  // ---------------------------------------------------------------------
  // The numbers of a row

  /** Where the run of digits that ends just before `x` begins (`x` itself
      when `r[x - 1]` is not a digit). */
  function RunStart(r: string, x: nat): (s: nat)
    requires x <= |r|
    ensures s <= x
  {
    if x > 0 && IsDigit(r[x - 1]) then RunStart(r, x - 1) else x
  }

  /** The run before `x` is all digits, and cannot be extended leftwards. */
  lemma {:induction false} RunStartSpec(r: string, x: nat)
    requires x <= |r|
    ensures forall k :: RunStart(r, x) <= k < x ==> IsDigit(r[k])
    ensures RunStart(r, x) == 0 || !IsDigit(r[RunStart(r, x) - 1])
  {
    if x > 0 && IsDigit(r[x - 1]) {
      RunStartSpec(r, x - 1);
    }
  }

  /** The runs `[start, end)` that a non-digit before `x` has closed, left to
      right. */
  function ClosedRuns(r: string, x: nat): seq<(nat, nat)>
    requires x <= |r|
  {
    if x == 0 then []
    else if !IsDigit(r[x - 1]) && RunStart(r, x - 1) < x - 1 then
      ClosedRuns(r, x - 1) + [(RunStart(r, x - 1), x - 1)]
    else ClosedRuns(r, x - 1)
  }

  /** The run still open at `x`, if there is one. */
  function OpenRun(r: string, x: nat): seq<(nat, nat)>
    requires x <= |r|
  {
    if RunStart(r, x) < x then [(RunStart(r, x), x)] else []
  }

  /** The numbers of a row, left to right: the runs closed by a non-digit,
      then the one the end of the row closes. */
  function Runs(r: string): seq<(nat, nat)> {
    ClosedRuns(r, |r|) + OpenRun(r, |r|)
  }

  predicate MaximalRun(r: string, s: nat, e: nat) {
    s < e <= |r| && (forall k :: s <= k < e ==> IsDigit(r[k]))
    && (s == 0 || !IsDigit(r[s - 1])) && (e == |r| || !IsDigit(r[e]))
  }

  lemma {:induction false} ClosedRunsMaximal(r: string, x: nat)
    requires x <= |r|
    ensures forall i :: 0 <= i < |ClosedRuns(r, x)| ==> MaximalRun(r, ClosedRuns(r, x)[i].0, ClosedRuns(r, x)[i].1)
  {
    if x > 0 {
      ClosedRunsMaximal(r, x - 1);
      RunStartSpec(r, x - 1);
    }
  }

  /** Every listed run is a maximal run of digits ... */
  lemma RunsAreMaximal(r: string)
    ensures forall i :: 0 <= i < |Runs(r)| ==> MaximalRun(r, Runs(r)[i].0, Runs(r)[i].1)
  {
    ClosedRunsMaximal(r, |r|);
    RunStartSpec(r, |r|);
  }

  /** ... and every digit lies in one of them. */
  lemma {:induction false} RunsCoverDigits(r: string, k: nat)
    requires k < |r| && IsDigit(r[k])
    ensures exists i :: 0 <= i < |Runs(r)| && Runs(r)[i].0 <= k < Runs(r)[i].1
  {
    var e := RunEnd(r, k);
    if e == |r| {
      assert RunStart(r, |r|) <= k by { RunStartBelow(r, k, |r|); }
      assert Runs(r)[|ClosedRuns(r, |r|)|] == (RunStart(r, |r|), |r|);
    } else {
      RunStartBelow(r, k, e);
      ClosedRunsGrow(r, e + 1, |r|);
      var i := |ClosedRuns(r, e)|;
      assert ClosedRuns(r, e + 1)[i] == (RunStart(r, e), e);
      assert Runs(r)[i] == (RunStart(r, e), e);
    }
  }

  /** The first non-digit at or after `k`, or the end of the row. */
  function RunEnd(r: string, k: nat): (e: nat)
    requires k <= |r|
    ensures k <= e <= |r| && (e == |r| || !IsDigit(r[e]))
    ensures forall j :: k <= j < e ==> IsDigit(r[j])
    decreases |r| - k
  {
    if k < |r| && IsDigit(r[k]) then RunEnd(r, k + 1) else k
  }

  lemma {:induction false} RunStartBelow(r: string, k: nat, x: nat)
    requires k < x <= |r|
    requires forall j :: k <= j < x ==> IsDigit(r[j])
    ensures RunStart(r, x) <= k && RunStart(r, x) == RunStart(r, k + 1)
    decreases x
  {
    if x > k + 1 {
      RunStartBelow(r, k, x - 1);
    }
  }

  lemma {:induction false} ClosedRunsGrow(r: string, x: nat, y: nat)
    requires x <= y <= |r|
    ensures ClosedRuns(r, x) <= ClosedRuns(r, y)
    decreases y
  {
    if x < y {
      ClosedRunsGrow(r, x, y - 1);
    }
  }

  /** Reading a digit extends the open run. */
  lemma StepDigit(r: string, x: nat)
    requires x < |r| && IsDigit(r[x])
    ensures RunStart(r, x + 1) == RunStart(r, x)
    ensures ClosedRuns(r, x + 1) == ClosedRuns(r, x)
    ensures RunValue(r, RunStart(r, x), x + 1) == RunValue(r, RunStart(r, x), x) * 10 + DigitValue(r[x])
  {
  }

  /** Reading a non-digit closes the open run, if any. */
  lemma StepOther(r: string, x: nat)
    requires x < |r| && !IsDigit(r[x])
    ensures RunStart(r, x + 1) == x + 1
    ensures ClosedRuns(r, x + 1) == ClosedRuns(r, x) + OpenRun(r, x)
  {
  }

  lemma ClosedRunsStep(r: string, x: nat, s: nat, before: seq<(nat, nat)>)
    requires 0 < x <= |r| && s == RunStart(r, x - 1) && before == ClosedRuns(r, x - 1)
    ensures ClosedRuns(r, x) == if !IsDigit(r[x - 1]) && s < x - 1 then before + [(s, x - 1)] else before
  {
  }

  /** The value of the digits in columns `s .. e`, read left to right as
      `accumulator` reads them. */
  function RunValue(r: string, s: nat, e: nat): nat
    decreases e
  {
    if s < e <= |r| && IsDigit(r[e - 1]) then RunValue(r, s, e - 1) * 10 + DigitValue(r[e - 1]) else 0
  }

  /** On a run of digits that is the decimal value of the digits. */
  lemma {:induction false} RunValueIsDigitsValue(r: string, s: nat, e: nat)
    requires s <= e <= |r| && AllDigits(r[s..e])
    ensures RunValue(r, s, e) == DigitsValue(r[s..e])
    decreases e
  {
    if s < e {
      assert r[s..e][..e - 1 - s] == r[s..e - 1];
      assert r[s..e][e - 1 - s] == r[e - 1];
      RunValueIsDigitsValue(r, s, e - 1);
    }
  }

  // ---------------------------------------------------------------------
  // What part one asks of the grid

  /** `extended_neighbours().any(...)`: one of the positions is a symbol of
      the grid. */
  function AnySymbol(g: Schematic, ps: seq<Position>): bool
    requires g.Valid()
  {
    if ps == [] then false
    else (g.Get(ps[0]).Some? && IsSymbol(g.Get(ps[0]).value)) || AnySymbol(g, ps[1..])
  }

  lemma {:induction false} AnySymbolMeans(g: Schematic, ps: seq<Position>)
    requires g.Valid()
    ensures AnySymbol(g, ps) <==> exists q :: q in ps && g.Get(q).Some? && IsSymbol(g.Get(q).value)
  {
    if ps != [] {
      AnySymbolMeans(g, ps[1..]);
      assert forall q :: q in ps <==> q == ps[0] || q in ps[1..];
    }
  }

  /** The 8-neighbourhood of `(x, y)` holds a symbol. */
  predicate NearSymbol(g: Schematic, x: nat, y: nat)
    requires g.Valid()
  {
    AnySymbol(g, ExtendedNeighbours(Position(x, y)))
  }

  lemma NearSymbolMeans(g: Schematic, x: nat, y: nat)
    requires g.Valid()
    ensures NearSymbol(g, x, y) <==> exists q :: Adjacent(Position(x, y), q) && g.Get(q).Some? && IsSymbol(g.Get(q).value)
  {
    AnySymbolMeans(g, ExtendedNeighbours(Position(x, y)));
    ExtendedNeighboursSpec(Position(x, y));
  }

  /** Column by column, whether a symbol is next to the cell of row `y`. */
  function NearSymbols(g: Schematic, y: nat): (near: seq<bool>)
    requires g.Valid() && y < g.height
    ensures |near| == g.width
  {
    seq(g.width, x requires 0 <= x => NearSymbol(g, x, y))
  }

  function NearSymbolRows(g: Schematic): (nears: seq<seq<bool>>)
    requires g.Valid()
    ensures |nears| == g.height
  {
    seq(g.height, y requires 0 <= y < g.height => NearSymbols(g, y))
  }

  // ---------------------------------------------------------------------
  // Part one, given for each cell whether a symbol is next to it

  /** `near` holds for one of the columns `s .. e`, checked from the left as
      the row is read. */
  predicate PartNumber(near: seq<bool>, s: nat, e: nat)
    decreases e
  {
    s < e <= |near| && (PartNumber(near, s, e - 1) || near[e - 1])
  }

  lemma {:induction false} PartNumberMeans(near: seq<bool>, s: nat, e: nat)
    ensures PartNumber(near, s, e) <==> e <= |near| && exists k :: s <= k < e && near[k]
    decreases e
  {
    if s < e <= |near| {
      PartNumberMeans(near, s, e - 1);
      if exists k :: s <= k < e && near[k] {
        var k :| s <= k < e && near[k];
        if k < e - 1 {
          assert PartNumber(near, s, e - 1);
        }
      }
    }
  }

  /** The part numbers among the numbers `runs` of `row`, added. */
  function PartSum(row: string, near: seq<bool>, runs: seq<(nat, nat)>): nat
    decreases |runs|
  {
    if runs == [] then 0
    else
      var (s, e) := runs[|runs| - 1];
      PartSum(row, near, runs[..|runs| - 1]) + (if PartNumber(near, s, e) then RunValue(row, s, e) else 0)
  }

  lemma PartSumOne(row: string, near: seq<bool>, runs: seq<(nat, nat)>, s: nat, e: nat)
    ensures PartSum(row, near, runs + [(s, e)]) == PartSum(row, near, runs) + (if PartNumber(near, s, e) then RunValue(row, s, e) else 0)
  {
    assert (runs + [(s, e)])[..|runs|] == runs;
  }

  /** The part numbers that a non-digit before column `x` has closed, added:
      what `result` holds while the row is read. */
  function ClosedSum(row: string, near: seq<bool>, x: nat): nat
    requires x <= |row|
  {
    if x == 0 then 0
    else
      var s := RunStart(row, x - 1);
      ClosedSum(row, near, x - 1) + (if !IsDigit(row[x - 1]) && PartNumber(near, s, x - 1) then RunValue(row, s, x - 1) else 0)
  }

  /** The number still open at column `x`, if it is a part number. */
  function OpenSum(row: string, near: seq<bool>, x: nat): nat
    requires x <= |row|
  {
    var s := RunStart(row, x);
    if PartNumber(near, s, x) then RunValue(row, s, x) else 0
  }

  /** The sum of the part numbers of a row: those closed by a non-digit,
      then the one the end of the row closes. */
  function RowSum(row: string, near: seq<bool>): nat {
    ClosedSum(row, near, |row|) + OpenSum(row, near, |row|)
  }

  /** The running sum is the sum over the numbers closed so far ... */
  lemma {:induction false} ClosedSumIsPartSum(row: string, near: seq<bool>, x: nat)
    requires x <= |row|
    ensures ClosedSum(row, near, x) == PartSum(row, near, ClosedRuns(row, x))
  {
    if x > 0 {
      var s := RunStart(row, x - 1);
      var c := if !IsDigit(row[x - 1]) && PartNumber(near, s, x - 1) then RunValue(row, s, x - 1) else 0;
      assert ClosedSum(row, near, x) == ClosedSum(row, near, x - 1) + c;
      ClosedSumIsPartSum(row, near, x - 1);
      ClosedStep(row, near, x, s, ClosedRuns(row, x - 1));
    }
  }

  lemma ClosedStep(row: string, near: seq<bool>, x: nat, s: nat, before: seq<(nat, nat)>)
    requires 0 < x <= |row| && s == RunStart(row, x - 1) && before == ClosedRuns(row, x - 1)
    ensures PartSum(row, near, ClosedRuns(row, x)) == PartSum(row, near, before)
      + (if !IsDigit(row[x - 1]) && PartNumber(near, s, x - 1) then RunValue(row, s, x - 1) else 0)
  {
    ClosedRunsStep(row, x, s, before);
    if IsDigit(row[x - 1]) {
    } else if s < x - 1 {
      PartSumOne(row, near, before, s, x - 1);
    } else {
      assert !PartNumber(near, s, x - 1);
    }
  }

  /** ... so a row adds up the part numbers among its maximal runs of
      digits. */
  lemma RowSumIsPartSum(row: string, near: seq<bool>)
    ensures RowSum(row, near) == PartSum(row, near, Runs(row))
  {
    var closed := ClosedRuns(row, |row|);
    var s := RunStart(row, |row|);
    ClosedSumIsPartSum(row, near, |row|);
    if s < |row| {
      assert Runs(row) == closed + [(s, |row|)];
      PartSumOne(row, near, closed, s, |row|);
    } else {
      assert Runs(row) == closed;
      assert !PartNumber(near, s, |row|);
    }
  }

  /** The sums of the rows before `y`, added. */
  function SumRows(rows: seq<string>, nears: seq<seq<bool>>, y: nat): nat
    requires y <= |rows| && y <= |nears|
  {
    if y == 0 then 0 else SumRows(rows, nears, y - 1) + RowSum(rows[y - 1], nears[y - 1])
  }

  /** Reading a digit extends the open number. */
  lemma SumDigit(row: string, near: seq<bool>, x: nat, s: nat)
    requires x < |row| && x < |near| && IsDigit(row[x]) && s == RunStart(row, x)
    ensures RunStart(row, x + 1) == s
    ensures RunValue(row, s, x + 1) == RunValue(row, s, x) * 10 + DigitValue(row[x])
    ensures PartNumber(near, s, x + 1) == (PartNumber(near, s, x) || near[x])
    ensures ClosedSum(row, near, x + 1) == ClosedSum(row, near, x)
  {
    StepDigit(row, x);
  }

  /** Reading a non-digit closes the open number, which counts when it is
      a part number. */
  lemma SumOther(row: string, near: seq<bool>, x: nat, s: nat)
    requires x < |row| && !IsDigit(row[x]) && s == RunStart(row, x)
    ensures RunStart(row, x + 1) == x + 1
    ensures RunValue(row, x + 1, x + 1) == 0 && !PartNumber(near, x + 1, x + 1)
    ensures ClosedSum(row, near, x + 1) == ClosedSum(row, near, x) + (if PartNumber(near, s, x) then RunValue(row, s, x) else 0)
  {
  }

  /** `part1`: the part numbers of every row added. */
  method Part1(schematic: Schematic) returns (result: nat)
    requires schematic.Valid()
    ensures result == SumRows(schematic.rows, NearSymbolRows(schematic), schematic.height)
  {
    ghost var nears := NearSymbolRows(schematic);
    result := 0;
    for y := 0 to schematic.height
      invariant result == SumRows(schematic.rows, nears, y)
    {
      var sum := RowPartSum(schematic, y);
      assert sum == RowSum(schematic.rows[y], nears[y]);
      result := result + sum;
    }
  }

  /** The body of `part1` for row `y`: `accumulator` holds the number being
      read and `to_add` whether a symbol has been seen next to it. */
  method RowPartSum(schematic: Schematic, y: nat) returns (result: nat)
    requires schematic.Valid() && y < schematic.height
    ensures result == RowSum(schematic.Row(y), NearSymbols(schematic, y))
  {
    var row := schematic.Row(y);
    ghost var near := NearSymbols(schematic, y);
    var accumulator := 0;
    var toAdd := false;
    result := 0;
    for x := 0 to |row|
      invariant accumulator == RunValue(row, RunStart(row, x), x)
      invariant toAdd == PartNumber(near, RunStart(row, x), x)
      invariant result == ClosedSum(row, near, x)
    {
      var s := RunStart(row, x);
      if IsDigit(row[x]) {
        SumDigit(row, near, x, s);
        accumulator := accumulator * 10 + DigitValue(row[x]);
        if !toAdd {
          assert near[x] == NearSymbol(schematic, x, y);
          toAdd := NearSymbol(schematic, x, y);
        }
      } else {
        SumOther(row, near, x, s);
        if toAdd {
          result := result + accumulator;
        }
        accumulator := 0;
        toAdd := false;
      }
    }
    if toAdd {
      result := result + accumulator;
    }
  }

  // ---------------------------------------------------------------------
  // What part two asks of the grid

  const Gear := '*'

  /** The gears among the eight neighbours of `(x, y)`. */
  function GearsAround(g: Schematic, x: nat, y: nat): set<Position>
    requires g.Valid()
  {
    GearsIn(g, ExtendedNeighbours(Position(x, y)))
  }

  /** `filter(|&p| schematic.get(p) == Some(&GEAR))`, collected. */
  function GearsIn(g: Schematic, ps: seq<Position>): set<Position>
    requires g.Valid()
  {
    if ps == [] then {}
    else (if g.Get(ps[0]) == Some(Gear) then {ps[0]} else {}) + GearsIn(g, ps[1..])
  }

  lemma {:induction false} GearsInMeans(g: Schematic, ps: seq<Position>)
    requires g.Valid()
    ensures forall q :: q in GearsIn(g, ps) <==> q in ps && g.Get(q) == Some(Gear)
  {
    if ps != [] {
      GearsInMeans(g, ps[1..]);
      assert forall q :: q in ps <==> q == ps[0] || q in ps[1..];
    }
  }

  lemma GearsAroundMeans(g: Schematic, x: nat, y: nat)
    requires g.Valid()
    ensures forall q :: q in GearsAround(g, x, y) <==> Adjacent(Position(x, y), q) && g.Get(q) == Some(Gear)
  {
    ExtendedNeighboursSpec(Position(x, y));
    GearsInMeans(g, ExtendedNeighbours(Position(x, y)));
  }

  /** Column by column, the gears around the cells of row `y`. */
  function GearsAroundRow(g: Schematic, y: nat): (around: seq<set<Position>>)
    requires g.Valid() && y < g.height
    ensures |around| == g.width
  {
    seq(g.width, x requires 0 <= x => GearsAround(g, x, y))
  }

  function GearsAroundRows(g: Schematic): (arounds: seq<seq<set<Position>>>)
    requires g.Valid()
    ensures |arounds| == g.height
  {
    seq(g.height, y requires 0 <= y < g.height => GearsAroundRow(g, y))
  }

  // ---------------------------------------------------------------------
  // Part two, given for each cell the gears around it

  /** The gears next to one of the columns `s .. e`. */
  function GearsNear(around: seq<set<Position>>, s: nat, e: nat): set<Position>
    decreases e
  {
    if e <= s || |around| < e then {} else GearsNear(around, s, e - 1) + around[e - 1]
  }

  lemma {:induction false} GearsNearMeans(around: seq<set<Position>>, s: nat, e: nat, p: Position)
    requires e <= |around|
    ensures p in GearsNear(around, s, e) <==> exists k :: s <= k < e && p in around[k]
    decreases e
  {
    if s < e {
      GearsNearMeans(around, s, e - 1, p);
      if p in around[e - 1] {
        assert s <= e - 1 < e;
      }
    }
  }

  /** On the grid: the gears adjacent to one of the cells `s .. e` of row
      `y`. */
  lemma GearsNearOnGrid(g: Schematic, y: nat, s: nat, e: nat, p: Position)
    requires g.Valid() && y < g.height && e <= g.width
    ensures p in GearsNear(GearsAroundRow(g, y), s, e)
      <==> g.Get(p) == Some(Gear) && exists k :: s <= k < e && Adjacent(Position(k, y), p)
  {
    var around := GearsAroundRow(g, y);
    GearsNearMeans(around, s, e, p);
    if p in GearsNear(around, s, e) {
      var k :| s <= k < e && p in around[k];
      GearsAroundMeans(g, k, y);
    }
    if g.Get(p) == Some(Gear) && exists k :: s <= k < e && Adjacent(Position(k, y), p) {
      var k :| s <= k < e && Adjacent(Position(k, y), p);
      GearsAroundMeans(g, k, y);
      assert p in around[k];
    }
  }

  /** What `gear_locations.entry(p).or_default()` reads. */
  function Numbers(m: map<Position, seq<nat>>, p: Position): seq<nat> {
    if p in m then m[p] else []
  }

  /** A number as part two sees it: the gears next to one of its digits and
      its value. */
  type Reading = (set<Position>, nat)

  /** The readings of the numbers `runs` of `row`, left to right. */
  function Readings(row: string, around: seq<set<Position>>, runs: seq<(nat, nat)>): (rs: seq<Reading>)
    ensures |rs| == |runs|
    decreases |runs|
  {
    if runs == [] then []
    else
      var (s, e) := runs[|runs| - 1];
      Readings(row, around, runs[..|runs| - 1]) + [(GearsNear(around, s, e), RunValue(row, s, e))]
  }

  lemma ReadingsOne(row: string, around: seq<set<Position>>, runs: seq<(nat, nat)>, s: nat, e: nat)
    ensures Readings(row, around, runs + [(s, e)]) == Readings(row, around, runs) + [(GearsNear(around, s, e), RunValue(row, s, e))]
  {
    assert (runs + [(s, e)])[..|runs|] == runs;
  }

  /** The readings of the numbers of the rows before `y`, in reading order. */
  function AllReadings(rows: seq<string>, arounds: seq<seq<set<Position>>>, y: nat): seq<Reading>
    requires y <= |rows| && y <= |arounds|
  {
    if y == 0 then [] else AllReadings(rows, arounds, y - 1) + Readings(rows[y - 1], arounds[y - 1], Runs(rows[y - 1]))
  }

  /** The values of the readings next to gear `p`, in order: an independent
      statement of what `gear_locations[p]` ends up holding. */
  function NumbersNear(rs: seq<Reading>, p: Position): seq<nat> {
    if rs == [] then []
    else (if p in rs[0].0 then [rs[0].1] else []) + NumbersNear(rs[1..], p)
  }

  lemma {:induction false} NumbersNearAppend(a: seq<Reading>, b: seq<Reading>, p: Position)
    ensures NumbersNear(a + b, p) == NumbersNear(a, p) + NumbersNear(b, p)
    decreases |a|
  {
    if a == [] {
      assert a + b == b;
    } else {
      assert (a + b)[1..] == a[1..] + b;
      NumbersNearAppend(a[1..], b, p);
    }
  }

  lemma NumbersNearOne(r: Reading, p: Position)
    ensures NumbersNear([r], p) == if p in r.0 then [r.1] else []
  {
    assert [r][1..] == [];
  }

  /** Gear `p`'s list, from `base`, once each non-digit before column `x`
      has drained the gears of the number it closes. */
  function ClosedNear(row: string, around: seq<set<Position>>, x: nat, p: Position, base: seq<nat>): seq<nat>
    requires x <= |row|
  {
    if x == 0 then base
    else
      var s := RunStart(row, x - 1);
      ClosedNear(row, around, x - 1, p, base)
        + (if !IsDigit(row[x - 1]) && p in GearsNear(around, s, x - 1) then [RunValue(row, s, x - 1)] else [])
  }

  /** The keys of `gear_locations`, from `keys`, at the same point. */
  function ClosedGears(row: string, around: seq<set<Position>>, x: nat, keys: set<Position>): set<Position>
    requires x <= |row|
  {
    if x == 0 then keys
    else
      ClosedGears(row, around, x - 1, keys)
        + (if !IsDigit(row[x - 1]) then GearsNear(around, RunStart(row, x - 1), x - 1) else {})
  }

  /** Gear `p`'s list once the row is read: the numbers a non-digit closes,
      then the one the end of the row closes. */
  function RowNear(row: string, around: seq<set<Position>>, p: Position, base: seq<nat>): seq<nat> {
    var s := RunStart(row, |row|);
    ClosedNear(row, around, |row|, p, base) + (if p in GearsNear(around, s, |row|) then [RunValue(row, s, |row|)] else [])
  }

  function RowGearSet(row: string, around: seq<set<Position>>, keys: set<Position>): set<Position> {
    ClosedGears(row, around, |row|, keys) + GearsNear(around, RunStart(row, |row|), |row|)
  }

  /** `gear_locations[p]` after the rows before `y`. */
  function AllNear(rows: seq<string>, arounds: seq<seq<set<Position>>>, y: nat, p: Position): seq<nat>
    requires y <= |rows| && y <= |arounds|
  {
    if y == 0 then [] else RowNear(rows[y - 1], arounds[y - 1], p, AllNear(rows, arounds, y - 1, p))
  }

  /** The keys of `gear_locations` after the rows before `y`. */
  function AllGears(rows: seq<string>, arounds: seq<seq<set<Position>>>, y: nat): set<Position>
    requires y <= |rows| && y <= |arounds|
  {
    if y == 0 then {} else RowGearSet(rows[y - 1], arounds[y - 1], AllGears(rows, arounds, y - 1))
  }

  /** `gear_locations` once every row is read. */
  function GearMap(rows: seq<string>, arounds: seq<seq<set<Position>>>): map<Position, seq<nat>>
    requires |rows| <= |arounds|
  {
    map p | p in AllGears(rows, arounds, |rows|) :: AllNear(rows, arounds, |rows|, p)
  }

  /** Column by column, gear `p` gains the values of the closed numbers next
      to it, in order ... */
  lemma {:induction false} ClosedNearIsReadings(row: string, around: seq<set<Position>>, x: nat, p: Position, base: seq<nat>)
    requires x <= |row|
    ensures ClosedNear(row, around, x, p, base) == base + NumbersNear(Readings(row, around, ClosedRuns(row, x)), p)
  {
    if x == 0 {
      assert base + [] == base;
    } else {
      var s := RunStart(row, x - 1);
      var before := ClosedRuns(row, x - 1);
      var extra := if !IsDigit(row[x - 1]) && p in GearsNear(around, s, x - 1) then [RunValue(row, s, x - 1)] else [];
      assert ClosedNear(row, around, x, p, base) == ClosedNear(row, around, x - 1, p, base) + extra;
      ClosedNearIsReadings(row, around, x - 1, p, base);
      NearStep(row, around, x, p, s, before, extra);
      var n := NumbersNear(Readings(row, around, before), p);
      assert (base + n) + extra == base + (n + extra);
    }
  }

  lemma NearStep(row: string, around: seq<set<Position>>, x: nat, p: Position, s: nat, before: seq<(nat, nat)>, extra: seq<nat>)
    requires 0 < x <= |row| && s == RunStart(row, x - 1) && before == ClosedRuns(row, x - 1)
    requires extra == if !IsDigit(row[x - 1]) && p in GearsNear(around, s, x - 1) then [RunValue(row, s, x - 1)] else []
    ensures NumbersNear(Readings(row, around, ClosedRuns(row, x)), p) == NumbersNear(Readings(row, around, before), p) + extra
  {
    ClosedRunsStep(row, x, s, before);
    var rs := Readings(row, around, before);
    if IsDigit(row[x - 1]) {
      assert NumbersNear(rs, p) + extra == NumbersNear(rs, p);
    } else if s < x - 1 {
      var r := (GearsNear(around, s, x - 1), RunValue(row, s, x - 1));
      ReadingsOne(row, around, before, s, x - 1);
      NumbersNearAppend(rs, [r], p);
      NumbersNearOne(r, p);
    } else {
      assert GearsNear(around, s, x - 1) == {};
      assert NumbersNear(rs, p) + extra == NumbersNear(rs, p);
    }
  }

  /** ... and becomes a key once it has gained one. */
  lemma {:induction false} ClosedGearsMeans(row: string, around: seq<set<Position>>, x: nat, p: Position, keys: set<Position>, base: seq<nat>)
    requires x <= |row|
    ensures |ClosedNear(row, around, x, p, base)| >= |base|
    ensures p in ClosedGears(row, around, x, keys) <==> p in keys || |ClosedNear(row, around, x, p, base)| > |base|
  {
    if x > 0 {
      ClosedGearsMeans(row, around, x - 1, p, keys, base);
      var s := RunStart(row, x - 1);
      var extra := if !IsDigit(row[x - 1]) && p in GearsNear(around, s, x - 1) then [RunValue(row, s, x - 1)] else [];
      assert ClosedNear(row, around, x, p, base) == ClosedNear(row, around, x - 1, p, base) + extra;
    }
  }

  /** The same holds for a whole row ... */
  lemma RowNearIsReadings(row: string, around: seq<set<Position>>, p: Position, base: seq<nat>)
    ensures RowNear(row, around, p, base) == base + NumbersNear(Readings(row, around, Runs(row)), p)
  {
    var s := RunStart(row, |row|);
    var closed := ClosedRuns(row, |row|);
    var n := NumbersNear(Readings(row, around, closed), p);
    ClosedNearIsReadings(row, around, |row|, p, base);
    var extra := if p in GearsNear(around, s, |row|) then [RunValue(row, s, |row|)] else [];
    assert RowNear(row, around, p, base) == (base + n) + extra;
    assert (base + n) + extra == base + (n + extra);
    if s < |row| {
      var r := (GearsNear(around, s, |row|), RunValue(row, s, |row|));
      assert Runs(row) == closed + [(s, |row|)];
      ReadingsOne(row, around, closed, s, |row|);
      NumbersNearAppend(Readings(row, around, closed), [r], p);
      NumbersNearOne(r, p);
    } else {
      assert Runs(row) == closed;
      assert GearsNear(around, s, |row|) == {};
      assert n + extra == n;
    }
  }

  lemma RowGearSetMeans(row: string, around: seq<set<Position>>, p: Position, keys: set<Position>, base: seq<nat>)
    ensures |RowNear(row, around, p, base)| >= |base|
    ensures p in RowGearSet(row, around, keys) <==> p in keys || |RowNear(row, around, p, base)| > |base|
  {
    ClosedGearsMeans(row, around, |row|, p, keys, base);
    var s := RunStart(row, |row|);
    var extra := if p in GearsNear(around, s, |row|) then [RunValue(row, s, |row|)] else [];
    assert RowNear(row, around, p, base) == ClosedNear(row, around, |row|, p, base) + extra;
  }

  /** ... and for the rows before `y`: the list of `p` is the values of the
      numbers next to it in reading order ... */
  lemma {:induction false} AllNearIsReadings(rows: seq<string>, arounds: seq<seq<set<Position>>>, y: nat, p: Position)
    requires y <= |rows| && y <= |arounds|
    ensures AllNear(rows, arounds, y, p) == NumbersNear(AllReadings(rows, arounds, y), p)
  {
    if y > 0 {
      var before := AllNear(rows, arounds, y - 1, p);
      var rs := AllReadings(rows, arounds, y - 1);
      assert before == NumbersNear(rs, p) by {
        AllNearIsReadings(rows, arounds, y - 1, p);
      }
      AllNearStep(rows, arounds, y, p, before, rs);
    }
  }

  lemma AllNearStep(rows: seq<string>, arounds: seq<seq<set<Position>>>, y: nat, p: Position, before: seq<nat>, rs: seq<Reading>)
    requires 0 < y <= |rows| && y <= |arounds|
    requires before == AllNear(rows, arounds, y - 1, p) && rs == AllReadings(rows, arounds, y - 1)
    requires before == NumbersNear(rs, p)
    ensures AllNear(rows, arounds, y, p) == NumbersNear(AllReadings(rows, arounds, y), p)
  {
    var row := Readings(rows[y - 1], arounds[y - 1], Runs(rows[y - 1]));
    RowNearIsReadings(rows[y - 1], arounds[y - 1], p, before);
    NumbersNearAppend(rs, row, p);
  }

  /** ... and `p` is a key exactly when there is one. */
  lemma {:induction false} AllGearsMeans(rows: seq<string>, arounds: seq<seq<set<Position>>>, y: nat, p: Position)
    requires y <= |rows| && y <= |arounds|
    ensures p in AllGears(rows, arounds, y) <==> AllNear(rows, arounds, y, p) != []
  {
    if y > 0 {
      AllGearsMeans(rows, arounds, y - 1, p);
      RowGearSetMeans(rows[y - 1], arounds[y - 1], p, AllGears(rows, arounds, y - 1), AllNear(rows, arounds, y - 1, p));
    }
  }

  /** The map part two builds, as the readings describe it. */
  lemma GearMapSpec(rows: seq<string>, arounds: seq<seq<set<Position>>>, p: Position)
    requires |rows| <= |arounds|
    ensures p in GearMap(rows, arounds) <==> NumbersNear(AllReadings(rows, arounds, |rows|), p) != []
    ensures Numbers(GearMap(rows, arounds), p) == NumbersNear(AllReadings(rows, arounds, |rows|), p)
  {
    AllNearIsReadings(rows, arounds, |rows|, p);
    AllGearsMeans(rows, arounds, |rows|, p);
  }

  /** `numbers[0] * numbers[1]` for a real gear, nothing otherwise. */
  function Ratio(numbers: seq<nat>): nat {
    if |numbers| == 2 then numbers[0] * numbers[1] else 0
  }

  /** The ratios of the gears `keys`, added in any order. */
  ghost function RatioSum(m: map<Position, seq<nat>>, keys: set<Position>): nat
    requires keys <= m.Keys
    decreases |keys|
  {
    if keys == {} then 0
    else
      var p :| p in keys;
      Ratio(m[p]) + RatioSum(m, keys - {p})
  }

  /** The sum does not depend on the order the keys are taken in. */
  lemma {:induction false} RatioSumRemove(m: map<Position, seq<nat>>, keys: set<Position>, p: Position)
    requires keys <= m.Keys && p in keys
    ensures RatioSum(m, keys) == Ratio(m[p]) + RatioSum(m, keys - {p})
    decreases |keys|
  {
    var q :| q in keys && RatioSum(m, keys) == Ratio(m[q]) + RatioSum(m, keys - {q});
    if q != p {
      RatioSumRemove(m, keys - {q}, p);
      RatioSumRemove(m, keys - {p}, q);
      assert keys - {q} - {p} == keys - {p} - {q};
    }
  }

  /** `gear_positions.drain().for_each(...)`: `value` pushed onto the list
      of each of `gears`, a missing list created empty first. */
  method Drain(m: map<Position, seq<nat>>, gears: set<Position>, value: nat) returns (r: map<Position, seq<nat>>)
    ensures r.Keys == m.Keys + gears
    ensures forall p :: Numbers(r, p) == Numbers(m, p) + (if p in gears then [value] else [])
  {
    r := m;
    var remaining := gears;
    while remaining != {}
      invariant remaining <= gears
      invariant r.Keys == m.Keys + (gears - remaining)
      invariant forall p :: Numbers(r, p) == Numbers(m, p) + (if p in gears - remaining then [value] else [])
      decreases |remaining|
    {
      var p :| p in remaining;
      DrainOne(m, r, gears, remaining, p, value);
      r := r[p := Numbers(r, p) + [value]];
      remaining := remaining - {p};
    }
  }

  lemma DrainOne(m: map<Position, seq<nat>>, r: map<Position, seq<nat>>, gears: set<Position>, remaining: set<Position>, p: Position, value: nat)
    requires p in remaining && remaining <= gears
    requires r.Keys == m.Keys + (gears - remaining)
    requires forall q :: Numbers(r, q) == Numbers(m, q) + (if q in gears - remaining then [value] else [])
    ensures r[p := Numbers(r, p) + [value]].Keys == m.Keys + (gears - (remaining - {p}))
    ensures forall q :: (Numbers(r[p := Numbers(r, p) + [value]], q)
      == Numbers(m, q) + (if q in gears - (remaining - {p}) then [value] else []))
  {
    var r' := r[p := Numbers(r, p) + [value]];
    forall q
      ensures Numbers(r', q) == Numbers(m, q) + (if q in gears - (remaining - {p}) then [value] else [])
    {
      if q == p {
        assert Numbers(r, p) == Numbers(m, p);
      }
    }
  }

  /** Reading a digit extends the open number and its gears. */
  lemma GearDigit(row: string, around: seq<set<Position>>, m: map<Position, seq<nat>>, x: nat, s: nat)
    requires x < |row| && x < |around| && IsDigit(row[x]) && s == RunStart(row, x)
    ensures RunStart(row, x + 1) == s
    ensures RunValue(row, s, x + 1) == RunValue(row, s, x) * 10 + DigitValue(row[x])
    ensures GearsNear(around, s, x + 1) == GearsNear(around, s, x) + around[x]
    ensures ClosedGears(row, around, x + 1, m.Keys) == ClosedGears(row, around, x, m.Keys)
    ensures forall p :: ClosedNear(row, around, x + 1, p, Numbers(m, p)) == ClosedNear(row, around, x, p, Numbers(m, p))
  {
    StepDigit(row, x);
    forall p
      ensures ClosedNear(row, around, x + 1, p, Numbers(m, p)) == ClosedNear(row, around, x, p, Numbers(m, p))
    {
      var c := ClosedNear(row, around, x, p, Numbers(m, p));
      assert c + [] == c;
    }
  }

  /** Reading a non-digit drains the gears of the open number. */
  lemma GearOther(row: string, around: seq<set<Position>>, m: map<Position, seq<nat>>, x: nat, s: nat)
    requires x < |row| && !IsDigit(row[x]) && s == RunStart(row, x)
    ensures RunStart(row, x + 1) == x + 1
    ensures RunValue(row, x + 1, x + 1) == 0 && GearsNear(around, x + 1, x + 1) == {}
    ensures ClosedGears(row, around, x + 1, m.Keys) == ClosedGears(row, around, x, m.Keys) + GearsNear(around, s, x)
    ensures forall p :: (ClosedNear(row, around, x + 1, p, Numbers(m, p))
      == ClosedNear(row, around, x, p, Numbers(m, p)) + (if p in GearsNear(around, s, x) then [RunValue(row, s, x)] else []))
  {
  }

  /** The body of `part2` for row `y`: the lists of `locations` grow by the
      numbers of the row next to each gear. */
  method RowGears(schematic: Schematic, y: nat, locations: map<Position, seq<nat>>) returns (r: map<Position, seq<nat>>)
    requires schematic.Valid() && y < schematic.height
    ensures r.Keys == RowGearSet(schematic.Row(y), GearsAroundRow(schematic, y), locations.Keys)
    ensures forall p :: Numbers(r, p) == RowNear(schematic.Row(y), GearsAroundRow(schematic, y), p, Numbers(locations, p))
  {
    var row := schematic.Row(y);
    ghost var around := GearsAroundRow(schematic, y);
    var accumulator := 0;
    var gearPositions: set<Position> := {};
    r := locations;
    for x := 0 to |row|
      invariant accumulator == RunValue(row, RunStart(row, x), x)
      invariant gearPositions == GearsNear(around, RunStart(row, x), x)
      invariant r.Keys == ClosedGears(row, around, x, locations.Keys)
      invariant forall p :: Numbers(r, p) == ClosedNear(row, around, x, p, Numbers(locations, p))
    {
      var s := RunStart(row, x);
      if IsDigit(row[x]) {
        GearDigit(row, around, locations, x, s);
        accumulator := accumulator * 10 + DigitValue(row[x]);
        assert around[x] == GearsAround(schematic, x, y);
        gearPositions := gearPositions + GearsAround(schematic, x, y);
      } else {
        GearOther(row, around, locations, x, s);
        r := Drain(r, gearPositions, accumulator);
        accumulator := 0;
        gearPositions := {};
      }
    }
    r := Drain(r, gearPositions, accumulator);
  }

  /** `part2`: the numbers next to each gear collected row by row, then the
      products of the lists of exactly two numbers added. */
  method Part2(schematic: Schematic) returns (result: nat)
    requires schematic.Valid()
    ensures result == RatioSum(GearMap(schematic.rows, GearsAroundRows(schematic)), GearMap(schematic.rows, GearsAroundRows(schematic)).Keys)
  {
    var gearLocations := CollectGears(schematic);
    result := SumRatios(gearLocations);
  }

  /** The first loop of `part2`: `gear_locations` built row by row. */
  method CollectGears(schematic: Schematic) returns (gearLocations: map<Position, seq<nat>>)
    requires schematic.Valid()
    ensures gearLocations == GearMap(schematic.rows, GearsAroundRows(schematic))
  {
    ghost var rows := schematic.rows;
    ghost var arounds := GearsAroundRows(schematic);
    gearLocations := map[];
    for y := 0 to schematic.height
      invariant gearLocations.Keys == AllGears(rows, arounds, y)
      invariant forall p :: Numbers(gearLocations, p) == AllNear(rows, arounds, y, p)
    {
      ghost var before := gearLocations;
      gearLocations := RowGears(schematic, y, gearLocations);
      assert schematic.Row(y) == rows[y] && GearsAroundRow(schematic, y) == arounds[y];
      CollectStep(rows, arounds, y, before, gearLocations);
    }
    CollectDone(rows, arounds, gearLocations);
  }

  /** One more row read keeps the loop invariant of `CollectGears`. */
  lemma CollectStep(rows: seq<string>, arounds: seq<seq<set<Position>>>, y: nat, before: map<Position, seq<nat>>, after: map<Position, seq<nat>>)
    requires y < |rows| && y < |arounds|
    requires before.Keys == AllGears(rows, arounds, y)
    requires forall p :: Numbers(before, p) == AllNear(rows, arounds, y, p)
    requires after.Keys == RowGearSet(rows[y], arounds[y], before.Keys)
    requires forall p :: Numbers(after, p) == RowNear(rows[y], arounds[y], p, Numbers(before, p))
    ensures after.Keys == AllGears(rows, arounds, y + 1)
    ensures forall p :: Numbers(after, p) == AllNear(rows, arounds, y + 1, p)
  {
  }

  /** A map whose keys and entries are those of every row is `GearMap`. */
  lemma CollectDone(rows: seq<string>, arounds: seq<seq<set<Position>>>, m: map<Position, seq<nat>>)
    requires |rows| <= |arounds|
    requires m.Keys == AllGears(rows, arounds, |rows|)
    requires forall p :: Numbers(m, p) == AllNear(rows, arounds, |rows|, p)
    ensures m == GearMap(rows, arounds)
  {
    forall p | p in m
      ensures m[p] == GearMap(rows, arounds)[p]
    {
      assert Numbers(m, p) == AllNear(rows, arounds, |rows|, p);
    }
  }

  /** The ratios of the gears of `m` added, in the map's own order. */
  method SumRatios(m: map<Position, seq<nat>>) returns (result: nat)
    ensures result == RatioSum(m, m.Keys)
  {
    result := 0;
    var remaining := m.Keys;
    while remaining != {}
      invariant remaining <= m.Keys
      invariant result + RatioSum(m, remaining) == RatioSum(m, m.Keys)
      decreases |remaining|
    {
      var p :| p in remaining;
      RatioSumRemove(m, remaining, p);
      result := result + Ratio(m[p]);
      remaining := remaining - {p};
    }
  }
}
