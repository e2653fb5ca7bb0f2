/** Day 13: patterns of ash and rock, and the line of reflection between
    rows or columns that allows exactly a given number of smudges. */
module Day13 {
  import opened Wrappers
  import opened Text
  import opened Grid

  datatype Location = Ash | Rock

  /** `Location::try_from`. */
  function LocationOf(c: char): Result<Location> {
    if c == '.' then Ok(Ash)
    else if c == '#' then Ok(Rock)
    else Err(Bad("Invalid character: " + [c]))
  }

  /** `Pattern::from_str`: as many rows as lines, as wide as the first line;
      a refused character is its error, a ragged pattern panics in
      `Grid::new(..).unwrap()`. */
  function PatternOf(s: string): Result<Grid<Location>> {
    var lines := Lines(s);
    var height := |lines|;
    var width := if lines == [] then 0 else |lines[0]|;
    match MapResult(Concat(lines), LocationOf)
    case Err(e) => Err(e)
    case Ok(cells) =>
      match NewGrid(height, width, cells)
      case None => Err(Panic)
      case Some(g) => Ok(g)
  }

  // ---------------------------------------------------------------------
  // Reflection, over the rows or the columns of a pattern

  /** The cells that differ among the first `k` of two lines (the `zip` and
      `filter` of the source). */
  function Mismatches<T(==)>(a: seq<T>, b: seq<T>, k: nat): nat
    requires k <= |a| && k <= |b|
  {
    if k == 0 then 0 else Mismatches(a, b, k - 1) + (if a[k - 1] != b[k - 1] then 1 else 0)
  }

  function Min(a: nat, b: nat): nat {
    if a <= b then a else b
  }

  /** The mismatches of the first `i` pairs of lines mirrored about line
      `m`: line `m - 1 - j` against line `m + j`. */
  function MirrorDiff<T(==)>(lines: seq<seq<T>>, m: nat, i: nat): nat
    requires i <= m && m + i <= |lines|
  {
    if i == 0 then 0
    else
      var a := lines[m - i];
      var b := lines[m + i - 1];
      MirrorDiff(lines, m, i - 1) + Mismatches(a, b, Min(|a|, |b|))
  }

  /** The smudges a line of reflection before line `m` needs: the mismatches
      of all overlapping mirrored lines. */
  function Smudges<T(==)>(lines: seq<seq<T>>, m: nat): nat
    requires m <= |lines|
  {
    MirrorDiff(lines, m, Min(m, |lines| - m))
  }

  /** The `find` over `m ..` of the lines: the first line of reflection
      with exactly `smudges` smudges. */
  function FindLine<T(==)>(lines: seq<seq<T>>, smudges: nat, m: nat): Option<nat>
    requires m <= |lines|
    decreases |lines| - m
  {
    if m == |lines| then None
    else if Smudges(lines, m) == smudges then Some(m)
    else FindLine(lines, smudges, m + 1)
  }

  /** The first line that qualifies, or none at all. */
  lemma {:induction false} FindLineSpec<T>(lines: seq<seq<T>>, smudges: nat, m: nat)
    requires m <= |lines|
    ensures var r := FindLine(lines, smudges, m);
      r.Some? ==>
        (m <= r.value < |lines| && Smudges(lines, r.value) == smudges &&
         forall j :: m <= j < r.value ==> Smudges(lines, j) != smudges)
    ensures FindLine(lines, smudges, m).None? <==> forall j :: m <= j < |lines| ==> Smudges(lines, j) != smudges
    decreases |lines| - m
  {
    if m < |lines| && Smudges(lines, m) != smudges {
      FindLineSpec(lines, smudges, m + 1);
    }
  }

  /** Two lines of a length agree nowhere before `k` exactly when they have
      no mismatch there. */
  lemma {:induction false} MismatchesZero<T>(a: seq<T>, b: seq<T>, k: nat)
    requires k <= |a| && k <= |b|
    ensures Mismatches(a, b, k) == 0 <==> a[..k] == b[..k]
  {
    if k > 0 {
      MismatchesZero(a, b, k - 1);
      assert a[..k] == a[..k - 1] + [a[k - 1]];
      assert b[..k] == b[..k - 1] + [b[k - 1]];
      if a[..k] == b[..k] {
        assert a[..k - 1] == a[..k][..k - 1];
        assert b[..k - 1] == b[..k][..k - 1];
        assert a[k - 1] == a[..k][k - 1];
      }
    }
  }

  /** Line `m - 1 - j` equals line `m + j`. */
  predicate Mirrored<T(==)>(lines: seq<seq<T>>, m: nat, j: nat)
    requires j < m && m + j < |lines|
  {
    lines[m - 1 - j] == lines[m + j]
  }

  /** Lines of one length have no mirrored mismatch exactly when each
      mirrored pair is equal. */
  lemma {:induction false} MirrorDiffZero<T>(lines: seq<seq<T>>, m: nat, i: nat, width: nat)
    requires i <= m && m + i <= |lines|
    requires forall y :: 0 <= y < |lines| ==> |lines[y]| == width
    ensures MirrorDiff(lines, m, i) == 0 <==> forall j :: 0 <= j < i ==> Mirrored(lines, m, j)
  {
    if i > 0 {
      MirrorDiffZero(lines, m, i - 1, width);
      var a := lines[m - i];
      var b := lines[m + i - 1];
      assert Mismatches(a, b, width) == 0 <==> Mirrored(lines, m, i - 1) by {
        MismatchesZero(a, b, width);
        assert a[..width] == a && b[..width] == b;
      }
    }
  }

  /** With no smudge, a line of reflection is a true mirror: all overlapping
      mirrored lines are equal. */
  lemma PerfectMirror<T>(lines: seq<seq<T>>, m: nat, width: nat)
    requires m <= |lines|
    requires forall y :: 0 <= y < |lines| ==> |lines[y]| == width
    ensures Smudges(lines, m) == 0 <==> forall j :: 0 <= j < Min(m, |lines| - m) ==> Mirrored(lines, m, j)
  {
    MirrorDiffZero(lines, m, Min(m, |lines| - m), width);
  }

  // ---------------------------------------------------------------------
  // Patterns

  /** The columns of a pattern, left to right. */
  function Columns<T>(p: Grid<T>): (r: seq<seq<T>>)
    requires p.Valid()
    ensures |r| == p.width && forall x :: 0 <= x < p.width ==> r[x] == p.Column(x)
  {
    seq(p.width, x requires 0 <= x < p.width => p.Column(x))
  }

  /** `find_horizontal_line_of_reflection`: a row in `1 .. height`. */
  function Horizontal(p: Grid<Location>, smudges: nat): Option<nat>
    requires p.Valid()
  {
    if p.height == 0 then None else FindLine(p.rows, smudges, 1)
  }

  /** `find_vertical_line_of_reflection`: a column in `1 .. width`. */
  function Vertical(p: Grid<Location>, smudges: nat): Option<nat>
    requires p.Valid()
  {
    if p.width == 0 then None else FindLine(Columns(p), smudges, 1)
  }

  /** `summarize`: 100 times the horizontal line when there is one, else the
      vertical line; a pattern with neither panics. */
  function Summarize(p: Grid<Location>, smudges: nat): Result<nat>
    requires p.Valid()
  {
    match Horizontal(p, smudges)
    case Some(row) => Ok(row * 100)
    case None =>
      match Vertical(p, smudges)
      case Some(column) => Ok(column)
      case None => Err(Panic)
  }

  /** Line `m` is the first line of reflection with `smudges` smudges. */
  predicate FirstLine<T(==)>(lines: seq<seq<T>>, smudges: nat, m: nat) {
    && 1 <= m < |lines| && Smudges(lines, m) == smudges
    && forall j :: 1 <= j < m ==> Smudges(lines, j) != smudges
  }

  /** No line of reflection has `smudges` smudges. */
  predicate NoLine<T(==)>(lines: seq<seq<T>>, smudges: nat) {
    forall j :: 1 <= j < |lines| ==> Smudges(lines, j) != smudges
  }

  lemma FindFirst<T>(lines: seq<seq<T>>, smudges: nat)
    requires lines != []
    ensures var r := FindLine(lines, smudges, 1);
      (r.None? <==> NoLine(lines, smudges)) && (r.Some? ==> FirstLine(lines, smudges, r.value))
  {
    FindLineSpec(lines, smudges, 1);
  }

  /** What `summarize` promises: the first qualifying row, times 100, wins;
      the first qualifying column counts only when no row qualifies; with
      neither it panics. */
  lemma SummarizeSpec(p: Grid<Location>, smudges: nat)
    requires p.Valid()
    ensures !NoLine(p.rows, smudges) ==>
      Summarize(p, smudges).Ok? && Summarize(p, smudges).value % 100 == 0
      && FirstLine(p.rows, smudges, Summarize(p, smudges).value / 100)
    ensures NoLine(p.rows, smudges) && !NoLine(Columns(p), smudges) ==>
      Summarize(p, smudges).Ok? && FirstLine(Columns(p), smudges, Summarize(p, smudges).value)
    ensures NoLine(p.rows, smudges) && NoLine(Columns(p), smudges) ==> Summarize(p, smudges) == Err(Panic)
  {
    if p.height > 0 {
      FindFirst(p.rows, smudges);
    }
    if p.width > 0 {
      FindFirst(Columns(p), smudges);
    }
  }

  /** The patterns of the input, separated by blank lines. */
  function PatternsOf(input: string): Result<seq<Grid<Location>>> {
    MapResult(SplitStr(input, "\n\n"), PatternOf)
  }

  /** The sum of `summarize(smudges)` over the patterns, the first panic
      ending it. */
  function SumSummaries(ps: seq<Grid<Location>>, smudges: nat): Result<nat>
    requires forall i :: 0 <= i < |ps| ==> ps[i].Valid()
  {
    if ps == [] then Ok(0)
    else
      match Summarize(ps[0], smudges)
      case Err(e) => Err(e)
      case Ok(v) =>
        match SumSummaries(ps[1..], smudges)
        case Err(e) => Err(e)
        case Ok(rest) => Ok(v + rest)
  }

  // ---------------------------------------------------------------------
  // The examples

  /** A cell where two lines differ is a mismatch. */
  lemma {:induction false} MismatchAt<T>(a: seq<T>, b: seq<T>, k: nat, x: nat)
    requires x < k <= |a| && k <= |b| && a[x] != b[x]
    ensures Mismatches(a, b, k) > 0
  {
    if x < k - 1 {
      MismatchAt(a, b, k - 1, x);
    }
  }

  /** Two cells where two lines differ are two mismatches. */
  lemma {:induction false} MismatchPair<T>(a: seq<T>, b: seq<T>, k: nat, x1: nat, x2: nat)
    requires x1 < x2 < k <= |a| && k <= |b| && a[x1] != b[x1] && a[x2] != b[x2]
    ensures Mismatches(a, b, k) >= 2
  {
    if x2 < k - 1 {
      MismatchPair(a, b, k - 1, x1, x2);
    } else {
      MismatchAt(a, b, k - 1, x1);
    }
  }

  /** Two lines that differ in the one cell `x` have one mismatch. */
  lemma {:induction false} MismatchOnly<T>(a: seq<T>, b: seq<T>, k: nat, x: nat)
    requires x < k <= |a| && k <= |b| && a[x] != b[x]
    requires forall i :: 0 <= i < k && i != x ==> a[i] == b[i]
    ensures Mismatches(a, b, k) == 1
  {
    if x < k - 1 {
      MismatchOnly(a, b, k - 1, x);
    } else {
      MismatchesZero(a, b, k - 1);
      assert a[..k - 1] == b[..k - 1];
    }
  }

  /** The mismatches of one mirrored pair count towards the line's. */
  lemma {:induction false} MirrorDiffAt<T>(lines: seq<seq<T>>, m: nat, i: nat, j: nat)
    requires j < i <= m && m + i <= |lines|
    ensures MirrorDiff(lines, m, i) >= Mismatches(lines[m - 1 - j], lines[m + j], Min(|lines[m - 1 - j]|, |lines[m + j]|))
  {
    if j < i - 1 {
      MirrorDiffAt(lines, m, i - 1, j);
    }
  }

  /** Mirrored pairs that are all equal but one, which has one mismatch,
      make one smudge. */
  lemma {:induction false} MirrorDiffOne<T>(lines: seq<seq<T>>, m: nat, i: nat, j: nat, width: nat)
    requires j < i <= m && m + i <= |lines|
    requires forall y :: 0 <= y < |lines| ==> |lines[y]| == width
    requires Mismatches(lines[m - 1 - j], lines[m + j], width) == 1
    requires forall k :: 0 <= k < i && k != j ==> Mirrored(lines, m, k)
    ensures MirrorDiff(lines, m, i) == 1
  {
    if j == i - 1 {
      MirrorDiffZero(lines, m, i - 1, width);
    } else {
      MirrorDiffOne(lines, m, i - 1, j, width);
      assert Mirrored(lines, m, i - 1);
      MismatchesZero(lines[m - i], lines[m + i - 1], width);
      assert lines[m - i][..width] == lines[m + i - 1][..width];
    }
  }

  /** A cell that differs between two mirrored lines is a smudge. */
  lemma LineMismatch<T>(lines: seq<seq<T>>, m: nat, j: nat, x: nat)
    requires j < m && m + j < |lines| && x < |lines[m - 1 - j]| && x < |lines[m + j]|
    requires lines[m - 1 - j][x] != lines[m + j][x]
    ensures Smudges(lines, m) > 0
  {
    MismatchAt(lines[m - 1 - j], lines[m + j], Min(|lines[m - 1 - j]|, |lines[m + j]|), x);
    MirrorDiffAt(lines, m, Min(m, |lines| - m), j);
  }

  /** Two cells that differ between two mirrored lines are two smudges. */
  lemma LineMismatches<T>(lines: seq<seq<T>>, m: nat, j: nat, x1: nat, x2: nat)
    requires j < m && m + j < |lines| && x1 < x2 < |lines[m - 1 - j]| && x2 < |lines[m + j]|
    requires lines[m - 1 - j][x1] != lines[m + j][x1] && lines[m - 1 - j][x2] != lines[m + j][x2]
    ensures Smudges(lines, m) >= 2
  {
    MismatchPair(lines[m - 1 - j], lines[m + j], Min(|lines[m - 1 - j]|, |lines[m + j]|), x1, x2);
    MirrorDiffAt(lines, m, Min(m, |lines| - m), j);
  }

  /** A row where two mirrored columns differ is a smudge. */
  lemma ColumnMismatch<T>(p: Grid<T>, m: nat, j: nat, y: nat)
    requires p.Valid() && j < m && m + j < p.width && y < p.height
    requires p.rows[y][m - 1 - j] != p.rows[y][m + j]
    ensures Smudges(Columns(p), m) > 0
  {
    var columns := Columns(p);
    assert columns[m - 1 - j][y] != columns[m + j][y];
    LineMismatch(columns, m, j, y);
  }

  /** Two columns that agree in every row are equal. */
  lemma ColumnsAgree<T>(p: Grid<T>, a: nat, b: nat)
    requires p.Valid() && a < p.width && b < p.width
    requires forall y :: 0 <= y < p.height ==> p.rows[y][a] == p.rows[y][b]
    ensures Columns(p)[a] == Columns(p)[b]
  {
  }

  /** The pattern holds the locations of the lines of a text. */
  predicate PatternIs(p: Grid<Location>, lines: seq<string>) {
    && p.Valid() && p.height == |lines|
    && (forall y :: 0 <= y < |lines| ==> |lines[y]| == p.width)
    && forall y, x :: 0 <= y < |lines| && 0 <= x < p.width ==> LocationOf(lines[y][x]) == Ok(p.rows[y][x])
  }

  /** The first pattern of the examples. */
  function Example1(): seq<string> {
    [ "#.##..##.",
      "..#.##.#.",
      "##......#",
      "##......#",
      "..#.##.#.",
      "..##..##.",
      "#.#.##.#." ]
  }

  /** The second pattern of the examples. */
  function Example2(): seq<string> {
    [ "#...##..#",
      "#....#..#",
      "..##..###",
      "#####.##.",
      "#####.##.",
      "..##..###",
      "#....#..#" ]
  }

  /** The third pattern of the examples. */
  function Example3(): seq<string> {
    [ ".#.##.#.#",
      ".##..##..",
      ".#.##.#..",
      "#......##",
      "#......##",
      ".#.##.#..",
      ".##..##.#" ]
  }

  /** The fourth pattern of the examples. */
  function Example4(): seq<string> {
    [ "#..#....#",
      "###..##..",
      ".##.#####",
      ".##.#####",
      "###..##..",
      "#..#....#",
      "#..##...#" ]
  }

  /** No row of the first example is a line of reflection without smudges. */
  lemma Example1CleanRows(p: Grid<Location>)
    requires PatternIs(p, Example1())
    ensures FindLine(p.rows, 0, 1) == None
  {
    assert |Example1()[0]| == p.width == 9;
    LineMismatch(p.rows, 1, 0, 0);
    LineMismatch(p.rows, 2, 0, 0);
    LineMismatch(p.rows, 3, 2, 0);
    LineMismatch(p.rows, 4, 0, 0);
    LineMismatch(p.rows, 5, 0, 3);
    LineMismatch(p.rows, 6, 0, 0);
    assert FindLine(p.rows, 0, 6) == None;
    assert FindLine(p.rows, 0, 5) == None;
    assert FindLine(p.rows, 0, 4) == None;
    assert FindLine(p.rows, 0, 3) == None;
    assert FindLine(p.rows, 0, 2) == None;
    assert FindLine(p.rows, 0, 1) == None;
  }

  /** No column before column 5 of the first example is a line of
      reflection without smudges. */
  lemma Example1CleanBefore(p: Grid<Location>)
    requires PatternIs(p, Example1())
    ensures |Columns(p)| == 9 && Smudges(Columns(p), 1) > 0 && Smudges(Columns(p), 2) > 0 && Smudges(Columns(p), 3) > 0 && Smudges(Columns(p), 4) > 0
  {
    assert |Example1()[0]| == p.width == 9;
    ColumnMismatch(p, 1, 0, 0);
    ColumnMismatch(p, 2, 0, 0);
    ColumnMismatch(p, 3, 0, 1);
    ColumnMismatch(p, 4, 0, 0);
  }

  /** The inner mirrored columns about column 5 of the first example are equal. */
  lemma Example1CleanMirrorInner(p: Grid<Location>)
    requires PatternIs(p, Example1())
    ensures |Columns(p)| == 9 && Mirrored(Columns(p), 5, 0) && Mirrored(Columns(p), 5, 1)
  {
    assert |Example1()[0]| == p.width == 9;
    assert Mirrored(Columns(p), 5, 0) by {
      assert p.rows[0][4] == p.rows[0][5];
      assert p.rows[1][4] == p.rows[1][5];
      assert p.rows[2][4] == p.rows[2][5];
      assert p.rows[3][4] == p.rows[3][5];
      assert p.rows[4][4] == p.rows[4][5];
      assert p.rows[5][4] == p.rows[5][5];
      assert p.rows[6][4] == p.rows[6][5];
      ColumnsAgree(p, 4, 5);
    }
    assert Mirrored(Columns(p), 5, 1) by {
      assert p.rows[0][3] == p.rows[0][6];
      assert p.rows[1][3] == p.rows[1][6];
      assert p.rows[2][3] == p.rows[2][6];
      assert p.rows[3][3] == p.rows[3][6];
      assert p.rows[4][3] == p.rows[4][6];
      assert p.rows[5][3] == p.rows[5][6];
      assert p.rows[6][3] == p.rows[6][6];
      ColumnsAgree(p, 3, 6);
    }
  }

  /** The outer mirrored columns about column 5 of the first example are equal. */
  lemma Example1CleanMirrorOuter(p: Grid<Location>)
    requires PatternIs(p, Example1())
    ensures |Columns(p)| == 9 && Mirrored(Columns(p), 5, 2) && Mirrored(Columns(p), 5, 3)
  {
    assert |Example1()[0]| == p.width == 9;
    assert Mirrored(Columns(p), 5, 2) by {
      assert p.rows[0][2] == p.rows[0][7];
      assert p.rows[1][2] == p.rows[1][7];
      assert p.rows[2][2] == p.rows[2][7];
      assert p.rows[3][2] == p.rows[3][7];
      assert p.rows[4][2] == p.rows[4][7];
      assert p.rows[5][2] == p.rows[5][7];
      assert p.rows[6][2] == p.rows[6][7];
      ColumnsAgree(p, 2, 7);
    }
    assert Mirrored(Columns(p), 5, 3) by {
      assert p.rows[0][1] == p.rows[0][8];
      assert p.rows[1][1] == p.rows[1][8];
      assert p.rows[2][1] == p.rows[2][8];
      assert p.rows[3][1] == p.rows[3][8];
      assert p.rows[4][1] == p.rows[4][8];
      assert p.rows[5][1] == p.rows[5][8];
      assert p.rows[6][1] == p.rows[6][8];
      ColumnsAgree(p, 1, 8);
    }
  }

  /** Without smudges the first example reflects about column 5, which summarizes to 5. */
  lemma Example1Clean(p: Grid<Location>)
    requires PatternIs(p, Example1())
    ensures Summarize(p, 0).Ok? && Summarize(p, 0).value == 5
  {
    var columns := Columns(p);
    Example1CleanRows(p);
    Example1CleanBefore(p);
    Example1CleanMirrorInner(p);
    Example1CleanMirrorOuter(p);
    PerfectMirror(columns, 5, 7);
    assert FindLine(columns, 0, 5) == Some(5);
    assert FindLine(columns, 0, 4) == Some(5);
    assert FindLine(columns, 0, 3) == Some(5);
    assert FindLine(columns, 0, 2) == Some(5);
    assert FindLine(columns, 0, 1) == Some(5);
  }

  /** With one smudge the first example reflects about row 3, which summarizes to 300. */
  lemma Example1Smudged(p: Grid<Location>)
    requires PatternIs(p, Example1())
    ensures Summarize(p, 1).Ok? && Summarize(p, 1).value == 300
  {
    assert |Example1()[0]| == p.width == 9;
    LineMismatches(p.rows, 1, 0, 0, 3);
    LineMismatches(p.rows, 2, 0, 0, 1);
    assert Smudges(p.rows, 3) == 1 by {
      assert Mirrored(p.rows, 3, 0);
      assert Mirrored(p.rows, 3, 1);
      MismatchOnly(p.rows[0], p.rows[5], 9, 0);
      MirrorDiffOne(p.rows, 3, 3, 2, 9);
    }
    assert FindLine(p.rows, 1, 3) == Some(3);
    assert FindLine(p.rows, 1, 2) == Some(3);
    assert FindLine(p.rows, 1, 1) == Some(3);
  }

  /** Without smudges the second example reflects about row 4, which summarizes to 400. */
  lemma Example2Clean(p: Grid<Location>)
    requires PatternIs(p, Example2())
    ensures Summarize(p, 0).Ok? && Summarize(p, 0).value == 400
  {
    assert |Example2()[0]| == p.width == 9;
    LineMismatch(p.rows, 1, 0, 4);
    LineMismatch(p.rows, 2, 0, 0);
    LineMismatch(p.rows, 3, 0, 0);
    assert Smudges(p.rows, 4) == 0 by {
      assert Mirrored(p.rows, 4, 0);
      assert Mirrored(p.rows, 4, 1);
      assert Mirrored(p.rows, 4, 2);
      PerfectMirror(p.rows, 4, 9);
    }
    assert FindLine(p.rows, 0, 4) == Some(4);
    assert FindLine(p.rows, 0, 3) == Some(4);
    assert FindLine(p.rows, 0, 2) == Some(4);
    assert FindLine(p.rows, 0, 1) == Some(4);
  }

  /** With one smudge the second example reflects about row 1, which summarizes to 100. */
  lemma Example2Smudged(p: Grid<Location>)
    requires PatternIs(p, Example2())
    ensures Summarize(p, 1).Ok? && Summarize(p, 1).value == 100
  {
    assert |Example2()[0]| == p.width == 9;
    assert Smudges(p.rows, 1) == 1 by {
      MismatchOnly(p.rows[0], p.rows[1], 9, 4);
      MirrorDiffOne(p.rows, 1, 1, 0, 9);
    }
    assert FindLine(p.rows, 1, 1) == Some(1);
  }

  /** No row of the third example is a line of reflection without smudges. */
  lemma Example3CleanRows(p: Grid<Location>)
    requires PatternIs(p, Example3())
    ensures FindLine(p.rows, 0, 1) == None
  {
    assert |Example3()[0]| == p.width == 9;
    LineMismatch(p.rows, 1, 0, 2);
    LineMismatch(p.rows, 2, 0, 2);
    LineMismatch(p.rows, 3, 0, 0);
    LineMismatch(p.rows, 4, 2, 8);
    LineMismatch(p.rows, 5, 0, 0);
    LineMismatch(p.rows, 6, 0, 2);
    assert FindLine(p.rows, 0, 6) == None;
    assert FindLine(p.rows, 0, 5) == None;
    assert FindLine(p.rows, 0, 4) == None;
    assert FindLine(p.rows, 0, 3) == None;
    assert FindLine(p.rows, 0, 2) == None;
    assert FindLine(p.rows, 0, 1) == None;
  }

  /** No column before column 4 of the third example is a line of
      reflection without smudges. */
  lemma Example3CleanBefore(p: Grid<Location>)
    requires PatternIs(p, Example3())
    ensures |Columns(p)| == 9 && Smudges(Columns(p), 1) > 0 && Smudges(Columns(p), 2) > 0 && Smudges(Columns(p), 3) > 0
  {
    assert |Example3()[0]| == p.width == 9;
    ColumnMismatch(p, 1, 0, 0);
    ColumnMismatch(p, 2, 0, 0);
    ColumnMismatch(p, 3, 0, 0);
  }

  /** The inner mirrored columns about column 4 of the third example are equal. */
  lemma Example3CleanMirrorInner(p: Grid<Location>)
    requires PatternIs(p, Example3())
    ensures |Columns(p)| == 9 && Mirrored(Columns(p), 4, 0) && Mirrored(Columns(p), 4, 1)
  {
    assert |Example3()[0]| == p.width == 9;
    assert Mirrored(Columns(p), 4, 0) by {
      assert p.rows[0][3] == p.rows[0][4];
      assert p.rows[1][3] == p.rows[1][4];
      assert p.rows[2][3] == p.rows[2][4];
      assert p.rows[3][3] == p.rows[3][4];
      assert p.rows[4][3] == p.rows[4][4];
      assert p.rows[5][3] == p.rows[5][4];
      assert p.rows[6][3] == p.rows[6][4];
      ColumnsAgree(p, 3, 4);
    }
    assert Mirrored(Columns(p), 4, 1) by {
      assert p.rows[0][2] == p.rows[0][5];
      assert p.rows[1][2] == p.rows[1][5];
      assert p.rows[2][2] == p.rows[2][5];
      assert p.rows[3][2] == p.rows[3][5];
      assert p.rows[4][2] == p.rows[4][5];
      assert p.rows[5][2] == p.rows[5][5];
      assert p.rows[6][2] == p.rows[6][5];
      ColumnsAgree(p, 2, 5);
    }
  }

  /** The outer mirrored columns about column 4 of the third example are equal. */
  lemma Example3CleanMirrorOuter(p: Grid<Location>)
    requires PatternIs(p, Example3())
    ensures |Columns(p)| == 9 && Mirrored(Columns(p), 4, 2) && Mirrored(Columns(p), 4, 3)
  {
    assert |Example3()[0]| == p.width == 9;
    assert Mirrored(Columns(p), 4, 2) by {
      assert p.rows[0][1] == p.rows[0][6];
      assert p.rows[1][1] == p.rows[1][6];
      assert p.rows[2][1] == p.rows[2][6];
      assert p.rows[3][1] == p.rows[3][6];
      assert p.rows[4][1] == p.rows[4][6];
      assert p.rows[5][1] == p.rows[5][6];
      assert p.rows[6][1] == p.rows[6][6];
      ColumnsAgree(p, 1, 6);
    }
    assert Mirrored(Columns(p), 4, 3) by {
      assert p.rows[0][0] == p.rows[0][7];
      assert p.rows[1][0] == p.rows[1][7];
      assert p.rows[2][0] == p.rows[2][7];
      assert p.rows[3][0] == p.rows[3][7];
      assert p.rows[4][0] == p.rows[4][7];
      assert p.rows[5][0] == p.rows[5][7];
      assert p.rows[6][0] == p.rows[6][7];
      ColumnsAgree(p, 0, 7);
    }
  }

  /** Without smudges the third example reflects about column 4, which summarizes to 4. */
  lemma Example3Clean(p: Grid<Location>)
    requires PatternIs(p, Example3())
    ensures Summarize(p, 0).Ok? && Summarize(p, 0).value == 4
  {
    var columns := Columns(p);
    Example3CleanRows(p);
    Example3CleanBefore(p);
    Example3CleanMirrorInner(p);
    Example3CleanMirrorOuter(p);
    PerfectMirror(columns, 4, 7);
    assert FindLine(columns, 0, 4) == Some(4);
    assert FindLine(columns, 0, 3) == Some(4);
    assert FindLine(columns, 0, 2) == Some(4);
    assert FindLine(columns, 0, 1) == Some(4);
  }

  /** With one smudge the third example reflects about row 4, which summarizes to 400. */
  lemma Example3Smudged(p: Grid<Location>)
    requires PatternIs(p, Example3())
    ensures Summarize(p, 1).Ok? && Summarize(p, 1).value == 400
  {
    assert |Example3()[0]| == p.width == 9;
    LineMismatches(p.rows, 1, 0, 2, 3);
    LineMismatches(p.rows, 2, 0, 2, 3);
    LineMismatches(p.rows, 3, 0, 0, 1);
    assert Smudges(p.rows, 4) == 1 by {
      assert Mirrored(p.rows, 4, 0);
      assert Mirrored(p.rows, 4, 1);
      MismatchOnly(p.rows[1], p.rows[6], 9, 8);
      MirrorDiffOne(p.rows, 4, 3, 2, 9);
    }
    assert FindLine(p.rows, 1, 4) == Some(4);
    assert FindLine(p.rows, 1, 3) == Some(4);
    assert FindLine(p.rows, 1, 2) == Some(4);
    assert FindLine(p.rows, 1, 1) == Some(4);
  }

  /** Without smudges the fourth example reflects about row 3, which summarizes to 300. */
  lemma Example4Clean(p: Grid<Location>)
    requires PatternIs(p, Example4())
    ensures Summarize(p, 0).Ok? && Summarize(p, 0).value == 300
  {
    assert |Example4()[0]| == p.width == 9;
    LineMismatch(p.rows, 1, 0, 1);
    LineMismatch(p.rows, 2, 0, 0);
    assert Smudges(p.rows, 3) == 0 by {
      assert Mirrored(p.rows, 3, 0);
      assert Mirrored(p.rows, 3, 1);
      assert Mirrored(p.rows, 3, 2);
      PerfectMirror(p.rows, 3, 9);
    }
    assert FindLine(p.rows, 0, 3) == Some(3);
    assert FindLine(p.rows, 0, 2) == Some(3);
    assert FindLine(p.rows, 0, 1) == Some(3);
  }

  /** With one smudge the fourth example reflects about row 6, which summarizes to 600. */
  lemma Example4Smudged(p: Grid<Location>)
    requires PatternIs(p, Example4())
    ensures Summarize(p, 1).Ok? && Summarize(p, 1).value == 600
  {
    assert |Example4()[0]| == p.width == 9;
    LineMismatches(p.rows, 1, 0, 1, 2);
    LineMismatches(p.rows, 2, 0, 0, 4);
    assert Smudges(p.rows, 3) == 0 by {
      assert Mirrored(p.rows, 3, 0);
      assert Mirrored(p.rows, 3, 1);
      assert Mirrored(p.rows, 3, 2);
      PerfectMirror(p.rows, 3, 9);
    }
    LineMismatches(p.rows, 4, 0, 0, 4);
    LineMismatches(p.rows, 5, 0, 1, 2);
    assert Smudges(p.rows, 6) == 1 by {
      MismatchOnly(p.rows[5], p.rows[6], 9, 4);
      MirrorDiffOne(p.rows, 6, 1, 0, 9);
    }
    assert FindLine(p.rows, 1, 6) == Some(6);
    assert FindLine(p.rows, 1, 5) == Some(6);
    assert FindLine(p.rows, 1, 4) == Some(6);
    assert FindLine(p.rows, 1, 3) == Some(6);
    assert FindLine(p.rows, 1, 2) == Some(6);
    assert FindLine(p.rows, 1, 1) == Some(6);
  }

  /** Four patterns sum to the sum of their summaries. */
  lemma SumOfFour(ps: seq<Grid<Location>>, smudges: nat, a: nat, b: nat, c: nat, d: nat)
    requires |ps| == 4 && ps[0].Valid() && ps[1].Valid() && ps[2].Valid() && ps[3].Valid()
    requires Summarize(ps[0], smudges) == Ok(a) && Summarize(ps[1], smudges) == Ok(b)
    requires Summarize(ps[2], smudges) == Ok(c) && Summarize(ps[3], smudges) == Ok(d)
    ensures SumSummaries(ps, smudges) == Ok(a + b + c + d)
  {
    assert SumSummaries(ps[3..], smudges) == Ok(d);
    assert SumSummaries(ps[2..], smudges) == Ok(c + d);
    assert SumSummaries(ps[1..], smudges) == Ok(b + c + d);
  }

  /** The four patterns of the examples sum to 709 without smudges and to
      1400 with one. */
  lemma ExampleTotals(ps: seq<Grid<Location>>)
    requires |ps| == 4
    requires PatternIs(ps[0], Example1()) && PatternIs(ps[1], Example2())
    requires PatternIs(ps[2], Example3()) && PatternIs(ps[3], Example4())
    ensures SumSummaries(ps, 0) == Ok(709) && SumSummaries(ps, 1) == Ok(1400)
  {
    Example1Clean(ps[0]);
    Example2Clean(ps[1]);
    Example3Clean(ps[2]);
    Example4Clean(ps[3]);
    Example1Smudged(ps[0]);
    Example2Smudged(ps[1]);
    Example3Smudged(ps[2]);
    Example4Smudged(ps[3]);
    SumOfFour(ps, 0, 5, 400, 4, 300);
    SumOfFour(ps, 1, 300, 100, 400, 600);
  }
}
