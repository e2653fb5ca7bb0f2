/** Day 9: extrapolating each sequence of readings one step forward (part 1)
    and one step backward (part 2). The puzzle builds the tower of
    differences; the solver instead takes a signed binomial combination of
    the readings. The model keeps the solver's formula and proves it equal
    to the tower. */
module Day9 {
  import opened Wrappers
  import opened Text

  // ---------------------------------------------------------------------
  // Binomial coefficients

  /** Pascal's triangle. */
  function Binomial(n: nat, k: nat): nat {
    if k == 0 then 1
    else if n == 0 then 0
    else Binomial(n - 1, k - 1) + Binomial(n - 1, k)
  }

  lemma {:induction false} BinomialAbove(n: nat, k: nat)
    requires k > n
    ensures Binomial(n, k) == 0
  {
    if n > 0 {
      BinomialAbove(n - 1, k - 1);
      BinomialAbove(n - 1, k);
    }
  }

  /** The step of the scan: `k * C(n, k) == (n + 1 - k) * C(n, k - 1)`. */
  lemma {:induction false} BinomialStep(n: nat, k: nat)
    requires k >= 1
    ensures k * Binomial(n, k) == (n + 1 - k) * Binomial(n, k - 1)
  {
    if n == 0 {
      if k > 1 {
        BinomialAbove(0, k - 1);
      }
    } else if k == 1 {
      BinomialStep(n - 1, 1);
    } else {
      BinomialStep(n - 1, k);
      BinomialStep(n - 1, k - 1);
      StepArith(n, k, Binomial(n - 1, k - 2), Binomial(n - 1, k - 1), Binomial(n - 1, k));
    }
  }

  lemma StepArith(n: int, k: int, a: int, b: int, c: int)
    requires k * c == (n - k) * b && (k - 1) * b == (n - k + 1) * a
    ensures k * (b + c) == (n + 1 - k) * (a + b)
  {
    assert k * (b + c) == k * b + k * c;
    assert k * b + (n - k) * b == n * b;
    assert (n + 1 - k) * (a + b) == (n + 1 - k) * a + (n + 1 - k) * b;
    assert (n + 1 - k) * b == n * b - (k - 1) * b;
  }

  // ---------------------------------------------------------------------
  // The solver's formula

  /** Rust's integer division, which truncates toward zero. */
  function Quot(a: int, b: int): int
    requires b > 0
  {
    if a >= 0 then a / b else -((-a) / b)
  }

  /** `coefficients` from column `col` on: each value is the previous one
      times `l + 1 - col`, divided by `col`; at column 0 the division by
      zero fails and the value is 1. */
  function Scan(l: nat, col: nat, acc: int): (r: seq<int>)
    ensures |r| == if col <= l then l + 1 - col else 0
    decreases l + 1 - col
  {
    if col > l then []
    else
      var next := if col == 0 then 1 else Quot(acc * (l + 1 - col), col);
      [next] + Scan(l, col + 1, next)
  }

  /** `Sequence::coefficients` for a sequence of `l` readings. */
  function Coefficients(l: nat): (r: seq<int>)
    ensures |r| == l + 1
  {
    Scan(l, 0, 0)
  }

  lemma ExactQuot(k: nat, b: nat)
    requires k > 0
    ensures Quot(k * b, k) == b
  {
    assert k * b >= 0;
    assert (k * b) / k == b;
  }

  lemma {:induction false} ScanBinomial(l: nat, col: nat, acc: int, i: nat)
    requires col <= l && (col == 0 || acc == Binomial(l, col - 1))
    requires i < l + 1 - col
    ensures Scan(l, col, acc)[i] == Binomial(l, col + i)
    decreases l + 1 - col
  {
    var next := if col == 0 then 1 else Quot(acc * (l + 1 - col), col);
    if col > 0 {
      BinomialStep(l, col);
      assert acc * (l + 1 - col) == col * Binomial(l, col);
      ExactQuot(col, Binomial(l, col));
    }
    assert next == Binomial(l, col);
    if i > 0 {
      ScanBinomial(l, col + 1, next, i - 1);
    }
  }

  /** `coefficients` yields the row `C(l, 0), ..., C(l, l)`. */
  lemma CoefficientsBinomial(l: nat, k: nat)
    requires k <= l
    ensures Coefficients(l)[k] == Binomial(l, k)
  {
    ScanBinomial(l, 0, 0, k);
  }

  /** The signs `[1, -1].into_iter().cycle()`. */
  function Sign(i: nat): int {
    if i % 2 == 0 then 1 else -1
  }

  /** The signs zipped with `coefficients().skip(1)`: the weights of the
      readings, the nearest reading first. */
  function Weights(l: nat): (r: seq<int>)
    ensures |r| == l
  {
    seq(l, i requires 0 <= i < l => Sign(i) * Coefficients(l)[i + 1])
  }

  /** The fold `acc + weight * reading` over the zipped pairs. */
  function Dot(ws: seq<int>, xs: seq<int>): int
    requires |ws| == |xs|
  {
    if ws == [] then 0 else ws[0] * xs[0] + Dot(ws[1..], xs[1..])
  }

  function Reverse(xs: seq<int>): (r: seq<int>)
    ensures |r| == |xs|
  {
    seq(|xs|, i requires 0 <= i < |xs| => xs[|xs| - 1 - i])
  }

  /** `Sequence::next_value`: the weights against the readings from the
      last one back. */
  function NextValue(xs: seq<int>): int {
    Dot(Weights(|xs|), Reverse(xs))
  }

  /** `Sequence::prev_value`: the weights against the readings from the
      first one on. */
  function PrevValue(xs: seq<int>): int {
    Dot(Weights(|xs|), xs)
  }

  /** `prev_value` is `next_value` of the readings in reverse order. */
  lemma PrevIsNextOfReverse(xs: seq<int>)
    ensures PrevValue(xs) == NextValue(Reverse(xs))
  {
    assert Reverse(Reverse(xs)) == xs;
  }

  // ---------------------------------------------------------------------
  // The puzzle's tower of differences

  function Diffs(xs: seq<int>): (r: seq<int>)
    ensures |r| == if xs == [] then 0 else |xs| - 1
  {
    if xs == [] then [] else seq(|xs| - 1, i requires 0 <= i < |xs| - 1 => xs[i + 1] - xs[i])
  }

  /** The next value by the puzzle's rule: the last reading plus the next
      value of the differences (an empty row extends with zero). */
  function Extrapolate(xs: seq<int>): int
    decreases |xs|
  {
    if xs == [] then 0 else xs[|xs| - 1] + Extrapolate(Diffs(xs))
  }

  /** The previous value by the puzzle's rule: the first reading minus the
      previous value of the differences. */
  function ExtrapolateBack(xs: seq<int>): int
    decreases |xs|
  {
    if xs == [] then 0 else xs[0] - ExtrapolateBack(Diffs(xs))
  }

  // ---------------------------------------------------------------------
  // The formula is the tower

  /** The weights with the binomial coefficients written out. */
  function Row(l: nat): (r: seq<int>)
    ensures |r| == l
  {
    seq(l, i requires 0 <= i < l => Sign(i) * Binomial(l, i + 1))
  }

  lemma WeightsRow(l: nat)
    ensures Weights(l) == Row(l)
  {
    forall i | 0 <= i < l
      ensures Weights(l)[i] == Row(l)[i]
    {
      CoefficientsBinomial(l, i + 1);
    }
  }

  function Add(a: seq<int>, b: seq<int>): (r: seq<int>)
    requires |a| == |b|
    ensures |r| == |a|
  {
    seq(|a|, i requires 0 <= i < |a| => a[i] + b[i])
  }

  function Sub(a: seq<int>, b: seq<int>): (r: seq<int>)
    requires |a| == |b|
    ensures |r| == |a|
  {
    seq(|a|, i requires 0 <= i < |a| => a[i] - b[i])
  }

  function Scale(k: int, a: seq<int>): (r: seq<int>)
    ensures |r| == |a|
  {
    seq(|a|, i requires 0 <= i < |a| => k * a[i])
  }

  /** The fold is linear in the weights. */
  lemma {:induction false} DotAddWeights(a: seq<int>, b: seq<int>, xs: seq<int>)
    requires |a| == |b| == |xs|
    ensures Dot(a, xs) + Dot(b, xs) == Dot(Add(a, b), xs)
  {
    if a != [] {
      DotAddWeights(a[1..], b[1..], xs[1..]);
      assert Add(a, b)[1..] == Add(a[1..], b[1..]);
      assert (a[0] + b[0]) * xs[0] == a[0] * xs[0] + b[0] * xs[0];
    }
  }

  lemma {:induction false} DotSubWeights(a: seq<int>, b: seq<int>, xs: seq<int>)
    requires |a| == |b| == |xs|
    ensures Dot(a, xs) - Dot(b, xs) == Dot(Sub(a, b), xs)
  {
    if a != [] {
      DotSubWeights(a[1..], b[1..], xs[1..]);
      assert Sub(a, b)[1..] == Sub(a[1..], b[1..]);
      assert (a[0] - b[0]) * xs[0] == a[0] * xs[0] - b[0] * xs[0];
    }
  }

  /** The fold is linear in the readings. */
  lemma {:induction false} DotAddReadings(ws: seq<int>, xs: seq<int>, ys: seq<int>)
    requires |ws| == |xs| == |ys|
    ensures Dot(ws, xs) + Dot(ws, ys) == Dot(ws, Add(xs, ys))
  {
    if ws != [] {
      DotAddReadings(ws[1..], xs[1..], ys[1..]);
      assert Add(xs, ys)[1..] == Add(xs[1..], ys[1..]);
      assert ws[0] * (xs[0] + ys[0]) == ws[0] * xs[0] + ws[0] * ys[0];
    }
  }

  lemma {:induction false} DotSubReadings(ws: seq<int>, xs: seq<int>, ys: seq<int>)
    requires |ws| == |xs| == |ys|
    ensures Dot(ws, xs) - Dot(ws, ys) == Dot(ws, Sub(xs, ys))
  {
    if ws != [] {
      DotSubReadings(ws[1..], xs[1..], ys[1..]);
      assert Sub(xs, ys)[1..] == Sub(xs[1..], ys[1..]);
      assert ws[0] * (xs[0] - ys[0]) == ws[0] * xs[0] - ws[0] * ys[0];
    }
  }

  lemma {:induction false} DotScaleReadings(ws: seq<int>, k: int, xs: seq<int>)
    requires |ws| == |xs|
    ensures k * Dot(ws, xs) == Dot(ws, Scale(k, xs))
  {
    if ws != [] {
      DotScaleReadings(ws[1..], k, xs[1..]);
      assert Scale(k, xs)[1..] == Scale(k, xs[1..]);
      assert ws[0] * (k * xs[0]) == k * (ws[0] * xs[0]);
      assert k * (ws[0] * xs[0] + Dot(ws[1..], xs[1..]))
        == k * (ws[0] * xs[0]) + k * Dot(ws[1..], xs[1..]);
    }
  }

  lemma {:induction false} DotSnoc(ws: seq<int>, w: int, xs: seq<int>, x: int)
    requires |ws| == |xs|
    ensures Dot(ws + [w], xs + [x]) == Dot(ws, xs) + w * x
  {
    if ws != [] {
      assert (ws + [w])[1..] == ws[1..] + [w];
      assert (xs + [x])[1..] == xs[1..] + [x];
      DotSnoc(ws[1..], w, xs[1..], x);
    } else {
      assert (ws + [w])[1..] == [];
    }
  }

  /** Weights that are zero after the first pick out the first reading. */
  lemma {:induction false} DotFirst(ws: seq<int>, xs: seq<int>)
    requires |ws| == |xs| && ws != [] && ws[0] == 1
    requires forall i :: 1 <= i < |ws| ==> ws[i] == 0
    ensures Dot(ws, xs) == xs[0]
  {
    DotZeros(ws[1..], xs[1..]);
  }

  lemma {:induction false} DotZeros(ws: seq<int>, xs: seq<int>)
    requires |ws| == |xs|
    requires forall i :: 0 <= i < |ws| ==> ws[i] == 0
    ensures Dot(ws, xs) == 0
  {
    if ws != [] {
      DotZeros(ws[1..], xs[1..]);
    }
  }

  /** The weights of `l + 1` readings from those of `l`: Pascal's rule. */
  lemma RowPascal(m: nat, unit: seq<int>, hi: seq<int>, lo: seq<int>)
    requires |unit| == m + 1 && unit[0] == 1 && forall i :: 1 <= i <= m ==> unit[i] == 0
    requires hi == Row(m) + [0] && lo == [0] + Row(m)
    ensures Sub(Add(unit, hi), lo) == Row(m + 1)
  {
    BinomialAbove(m, m + 1);
    forall i | 0 <= i <= m
      ensures Sub(Add(unit, hi), lo)[i] == Row(m + 1)[i]
    {
      assert hi[i] == Sign(i) * Binomial(m, i + 1);
      if i > 0 {
        assert lo[i] == Row(m)[i - 1];
        PascalWeight(m, i);
      }
    }
  }

  lemma PascalWeight(m: nat, i: nat)
    requires 0 < i <= m
    ensures Sign(i) * Binomial(m, i + 1) - Sign(i - 1) * Binomial(m, i) == Sign(i) * Binomial(m + 1, i + 1)
  {
    assert Sign(i - 1) == -Sign(i);
    assert Binomial(m + 1, i + 1) == Binomial(m, i) + Binomial(m, i + 1);
  }

  /** The differences pair each reading with the one before it. */
  lemma DiffsSplit(ys: seq<int>, m: nat)
    requires m + 1 == |ys|
    ensures Diffs(ys) == Sub(ys[1..], ys[..m])
  {
  }

  /** A zero weight in front skips the first reading; one behind skips the
      last. */
  lemma DotShifted(ws: seq<int>, ys: seq<int>, m: nat)
    requires m + 1 == |ys| && |ws| == m
    ensures Dot([0] + ws, ys) == Dot(ws, ys[1..])
    ensures Dot(ws + [0], ys) == Dot(ws, ys[..m])
  {
    assert ([0] + ws)[1..] == ws;
    assert ys == ys[..m] + [ys[m]];
    DotSnoc(ws, 0, ys[..m], ys[m]);
  }

  /** The weighted sum of `l` readings is the first reading minus the
      weighted sum of their `l - 1` differences. */
  lemma RowStep(ys: seq<int>)
    requires ys != []
    ensures Dot(Row(|ys|), ys) == ys[0] - Dot(Row(|ys| - 1), Diffs(ys))
  {
    var m := |ys| - 1;
    var row := Row(m);
    var unit := seq(m + 1, i requires 0 <= i <= m => if i == 0 then 1 else 0);
    var hi, lo := row + [0], [0] + row;
    DiffsSplit(ys, m);
    DotSubReadings(row, ys[1..], ys[..m]);
    DotShifted(row, ys, m);
    DotFirst(unit, ys);
    DotAddWeights(unit, hi, ys);
    DotSubWeights(Add(unit, hi), lo, ys);
    RowPascal(m, unit, hi, lo);
  }

  /** The binomial combination is the backward extrapolation. */
  lemma {:induction false} RowIsExtrapolateBack(ys: seq<int>)
    ensures Dot(Row(|ys|), ys) == ExtrapolateBack(ys)
    decreases |ys|
  {
    if ys != [] {
      RowStep(ys);
      RowIsExtrapolateBack(Diffs(ys));
    }
  }

  /** Extrapolation backward is linear. */
  lemma {:induction false} ExtrapolateBackScale(k: int, xs: seq<int>)
    ensures ExtrapolateBack(Scale(k, xs)) == k * ExtrapolateBack(xs)
    decreases |xs|
  {
    if xs != [] {
      assert Diffs(Scale(k, xs)) == Scale(k, Diffs(xs)) by {
        forall i | 0 <= i < |xs| - 1
          ensures Diffs(Scale(k, xs))[i] == Scale(k, Diffs(xs))[i]
        {
          assert k * xs[i + 1] - k * xs[i] == k * (xs[i + 1] - xs[i]);
        }
      }
      ExtrapolateBackScale(k, Diffs(xs));
      assert k * xs[0] - k * ExtrapolateBack(Diffs(xs)) == k * (xs[0] - ExtrapolateBack(Diffs(xs)));
    }
  }

  /** Forward extrapolation is backward extrapolation of the reversed
      readings. */
  lemma {:induction false} ExtrapolateReversed(xs: seq<int>)
    ensures Extrapolate(xs) == ExtrapolateBack(Reverse(xs))
    decreases |xs|
  {
    if xs != [] {
      var d := Diffs(xs);
      ExtrapolateReversed(d);
      ReverseDiffs(xs);
      ExtrapolateBackScale(-1, Diffs(Reverse(xs)));
      assert Reverse(xs)[0] == xs[|xs| - 1];
    }
  }

  /** The differences of the reversed readings are the reversed differences
      negated. */
  lemma ReverseDiffs(xs: seq<int>)
    requires xs != []
    ensures Reverse(Diffs(xs)) == Scale(-1, Diffs(Reverse(xs)))
  {
    var r, d, n := Reverse(xs), Diffs(xs), |xs|;
    forall i | 0 <= i < n - 1
      ensures Reverse(d)[i] == Scale(-1, Diffs(r))[i]
    {
      assert Reverse(d)[i] == d[n - 2 - i] == xs[n - 1 - i] - xs[n - 2 - i];
      assert r[i + 1] == xs[n - 2 - i] && r[i] == xs[n - 1 - i];
      assert Diffs(r)[i] == r[i + 1] - r[i];
    }
  }

  /** `prev_value` extrapolates backward by the puzzle's rule. */
  lemma PrevValueIsExtrapolateBack(xs: seq<int>)
    ensures PrevValue(xs) == ExtrapolateBack(xs)
  {
    WeightsRow(|xs|);
    RowIsExtrapolateBack(xs);
  }

  /** `next_value` extrapolates forward by the puzzle's rule. */
  lemma NextValueIsExtrapolate(xs: seq<int>)
    ensures NextValue(xs) == Extrapolate(xs)
  {
    WeightsRow(|xs|);
    RowIsExtrapolateBack(Reverse(xs));
    ExtrapolateReversed(xs);
  }

  // ---------------------------------------------------------------------
  // Consequences

  /** Both extrapolations are linear in the readings. */
  lemma Linear(xs: seq<int>, ys: seq<int>, k: int)
    requires |xs| == |ys|
    ensures NextValue(Add(xs, ys)) == NextValue(xs) + NextValue(ys)
    ensures PrevValue(Add(xs, ys)) == PrevValue(xs) + PrevValue(ys)
    ensures NextValue(Scale(k, xs)) == k * NextValue(xs)
    ensures PrevValue(Scale(k, xs)) == k * PrevValue(xs)
  {
    var ws := Weights(|xs|);
    DotAddReadings(ws, xs, ys);
    DotScaleReadings(ws, k, xs);
    assert Reverse(Add(xs, ys)) == Add(Reverse(xs), Reverse(ys));
    DotAddReadings(ws, Reverse(xs), Reverse(ys));
    assert Reverse(Scale(k, xs)) == Scale(k, Reverse(xs));
    DotScaleReadings(ws, k, Reverse(xs));
  }

  lemma {:induction false} ExtrapolateBackConstant(xs: seq<int>, c: int)
    requires forall i :: 0 <= i < |xs| ==> xs[i] == c
    ensures ExtrapolateBack(xs) == if xs == [] then 0 else c
    decreases |xs|
  {
    if xs != [] {
      ExtrapolateBackConstant(Diffs(xs), 0);
    }
  }

  lemma {:induction false} ExtrapolateConstant(xs: seq<int>, c: int)
    requires forall i :: 0 <= i < |xs| ==> xs[i] == c
    ensures Extrapolate(xs) == if xs == [] then 0 else c
    decreases |xs|
  {
    if xs != [] {
      ExtrapolateConstant(Diffs(xs), 0);
    }
  }

  /** A constant sequence extends with the same constant in both
      directions; no readings extend with zero. */
  lemma Constant(xs: seq<int>, c: int)
    requires forall i :: 0 <= i < |xs| ==> xs[i] == c
    ensures NextValue(xs) == (if xs == [] then 0 else c)
    ensures PrevValue(xs) == (if xs == [] then 0 else c)
  {
    NextValueIsExtrapolate(xs);
    ExtrapolateConstant(xs, c);
    PrevValueIsExtrapolateBack(xs);
    ExtrapolateBackConstant(xs, c);
  }

  // ---------------------------------------------------------------------
  // Parsing and the answers

  function Reading(w: string): Result<int> {
    match ParseInt(w)
    case None => Err(BadNumber)
    case Some(v) => Ok(v)
  }

  /** `Sequence::from_str`: the whitespace-separated readings. */
  function ParseSequence(line: string): Result<seq<int>> {
    MapResult(SplitWhitespace(line), Reading)
  }

  /** A line is a sequence exactly when each of its words is an integer, and
      the readings are those integers in order. */
  lemma ParseSequenceSpec(line: string, xs: seq<int>)
    ensures ParseSequence(line) == Ok(xs) <==>
      var words := SplitWhitespace(line);
      |words| == |xs| && forall i :: 0 <= i < |xs| ==> ParseInt(words[i]) == Some(xs[i])
  {
    var words := SplitWhitespace(line);
    if ParseSequence(line) == Ok(xs) {
      forall i | 0 <= i < |xs|
        ensures ParseInt(words[i]) == Some(xs[i])
      {
        MapResultAt(words, Reading, i);
      }
    }
    if |words| == |xs| && forall i :: 0 <= i < |xs| ==> ParseInt(words[i]) == Some(xs[i]) {
      MapResultAll(words, Reading, xs);
    }
  }

  /** The input: one sequence per line. */
  function ParseInput(input: string): Result<seq<seq<int>>> {
    MapResult(Lines(input), ParseSequence)
  }

  function Part1(sequences: seq<seq<int>>): int {
    if sequences == [] then 0 else Part1(sequences[..|sequences| - 1]) + NextValue(sequences[|sequences| - 1])
  }

  function Part2(sequences: seq<seq<int>>): int {
    if sequences == [] then 0 else Part2(sequences[..|sequences| - 1]) + PrevValue(sequences[|sequences| - 1])
  }

  // ---------------------------------------------------------------------
  // The examples of the puzzle

  predicate IsReadings(xs: seq<int>, a: int, b: int, c: int, d: int, e: int, f: int) {
    |xs| == 6 && xs[0] == a && xs[1] == b && xs[2] == c && xs[3] == d && xs[4] == e && xs[5] == f
  }

  /** The weights of six readings: `6, -15, 20, -15, 6, -1`. */
  lemma WeightsOfSix(ws: seq<int>)
    requires ws == Weights(6)
    ensures IsReadings(ws, 6, -15, 20, -15, 6, -1)
  {
    assert Coefficients(6) == [1, 6, 15, 20, 15, 6, 1];
  }

  lemma DotOfSix(ws: seq<int>, xs: seq<int>)
    requires |ws| == 6 && |xs| == 6
    ensures Dot(ws, xs) == ws[0] * xs[0] + ws[1] * xs[1] + ws[2] * xs[2] + ws[3] * xs[3] + ws[4] * xs[4] + ws[5] * xs[5]
  {
    var w, x := ws, xs;
    var acc := 0;
    for k := 0 to 6
      invariant |w| == 6 - k && w == ws[k..] && x == xs[k..]
      invariant Dot(ws, xs) == acc + Dot(w, x)
      invariant acc == if k == 0 then 0 else if k == 1 then ws[0] * xs[0]
        else if k == 2 then ws[0] * xs[0] + ws[1] * xs[1]
        else if k == 3 then ws[0] * xs[0] + ws[1] * xs[1] + ws[2] * xs[2]
        else if k == 4 then ws[0] * xs[0] + ws[1] * xs[1] + ws[2] * xs[2] + ws[3] * xs[3]
        else if k == 5 then ws[0] * xs[0] + ws[1] * xs[1] + ws[2] * xs[2] + ws[3] * xs[3] + ws[4] * xs[4]
        else ws[0] * xs[0] + ws[1] * xs[1] + ws[2] * xs[2] + ws[3] * xs[3] + ws[4] * xs[4] + ws[5] * xs[5]
    {
      acc := acc + w[0] * x[0];
      w, x := w[1..], x[1..];
    }
  }

  /** Forward, the value after the sixth reading. */
  lemma NextOfSix(xs: seq<int>, a: int, b: int, c: int, d: int, e: int, f: int)
    requires IsReadings(xs, a, b, c, d, e, f)
    ensures NextValue(xs) == 6 * f - 15 * e + 20 * d - 15 * c + 6 * b - a
  {
    var ws := Weights(6);
    WeightsOfSix(ws);
    DotOfSix(ws, Reverse(xs));
  }

  /** Backward, the value before the first reading. */
  lemma PrevOfSix(xs: seq<int>, a: int, b: int, c: int, d: int, e: int, f: int)
    requires IsReadings(xs, a, b, c, d, e, f)
    ensures PrevValue(xs) == 6 * a - 15 * b + 20 * c - 15 * d + 6 * e - f
  {
    var ws := Weights(6);
    WeightsOfSix(ws);
    DotOfSix(ws, xs);
  }

  predicate IsExample(sequences: seq<seq<int>>) {
    |sequences| == 3 &&
    IsReadings(sequences[0], 0, 3, 6, 9, 12, 15) &&
    IsReadings(sequences[1], 1, 3, 6, 10, 15, 21) &&
    IsReadings(sequences[2], 10, 13, 16, 21, 30, 45)
  }

  /** The next values `18`, `28` and `68` add up to `114`. */
  lemma ExamplePart1(sequences: seq<seq<int>>)
    requires IsExample(sequences)
    ensures Part1(sequences) == 114
  {
    NextOfSix(sequences[0], 0, 3, 6, 9, 12, 15);
    NextOfSix(sequences[1], 1, 3, 6, 10, 15, 21);
    NextOfSix(sequences[2], 10, 13, 16, 21, 30, 45);
    SumOfThree(sequences);
  }

  /** The previous values `-3`, `0` and `5` add up to `2`. */
  lemma ExamplePart2(sequences: seq<seq<int>>)
    requires IsExample(sequences)
    ensures Part2(sequences) == 2
  {
    PrevOfSix(sequences[0], 0, 3, 6, 9, 12, 15);
    PrevOfSix(sequences[1], 1, 3, 6, 10, 15, 21);
    PrevOfSix(sequences[2], 10, 13, 16, 21, 30, 45);
    SumOfThree(sequences);
  }

  lemma SumOfThree(sequences: seq<seq<int>>)
    requires |sequences| == 3
    ensures Part1(sequences) == NextValue(sequences[0]) + NextValue(sequences[1]) + NextValue(sequences[2])
    ensures Part2(sequences) == PrevValue(sequences[0]) + PrevValue(sequences[1]) + PrevValue(sequences[2])
  {
    var two, one := sequences[..2], sequences[..1];
    assert two[..1] == one && one[..0] == [];
    assert two[1] == sequences[1] && one[0] == sequences[0];
    assert Part1(one) == NextValue(sequences[0]) && Part2(one) == PrevValue(sequences[0]);
    assert Part1(two) == Part1(one) + NextValue(sequences[1]);
    assert Part2(two) == Part2(one) + PrevValue(sequences[1]);
  }
}
