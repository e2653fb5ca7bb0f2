/** Day 4: scratch cards. A card wins once for every one of its numbers that
    is also a winning number; part one scores each card, part two counts the
    copies that winning hands out. */
module Day4 {
  import opened Wrappers
  import opened Text

  datatype ScratchCard = ScratchCard(winningNumbers: set<nat>, numbers: set<nat>)

  /** `count_matching_numbers`: the size of the intersection. */
  function CountMatching(card: ScratchCard): (m: nat)
    ensures m <= |card.winningNumbers| && m <= |card.numbers|
  {
    var both := card.winningNumbers * card.numbers;
    SubsetSize(both, card.winningNumbers);
    SubsetSize(both, card.numbers);
    |both|
  }

  /** No match exactly when no winning number is among the numbers. */
  lemma NoMatch(card: ScratchCard)
    ensures CountMatching(card) == 0 <==> forall x :: x in card.winningNumbers ==> x !in card.numbers
  {
    var both := card.winningNumbers * card.numbers;
    if both != {} {
      var x :| x in both;
      assert x in card.winningNumbers && x in card.numbers;
    } else {
      forall x | x in card.winningNumbers
        ensures x !in card.numbers
      {
        assert x !in both;
      }
    }
  }

  lemma SubsetSize(a: set<nat>, b: set<nat>)
    requires a <= b
    ensures |a| <= |b|
  {
    if a != {} {
      var x :| x in a;
      SubsetSize(a - {x}, b - {x});
    }
  }

  // ---------------------------------------------------------------------
  // Parsing

  /** `u32::from_str` on one word. */
  function ParseNumber(w: string): Result<nat> {
    match ParseNat(w)
    case Some(n) => Ok(n)
    case None => Err(BadNumber)
  }

  /** The numbers of a whitespace-separated list, duplicates collapsed as in a
      `BTreeSet`. */
  function NumberSet(s: string): (r: Result<set<nat>>)
    ensures r.Ok? <==> MapResult(SplitWhitespace(s), ParseNumber).Ok?
    ensures r.Ok? ==> forall n :: n in r.value <==> n in MapResult(SplitWhitespace(s), ParseNumber).value
  {
    match MapResult(SplitWhitespace(s), ParseNumber)
    case Ok(ns) => Ok(set n | n in ns)
    case Err(e) => Err(e)
  }

  /** `ScratchCard::from_str`: everything after the first ':' (nothing when
      there is none), split at the first '|' (both sides empty when there is
      none). */
  function ParseCard(s: string): (r: Result<ScratchCard>) {
    var afterColon := match SplitOnce(Trim(s), ':') case Some((_, b)) => b case None => "";
    var (left, right) := match SplitOnce(Trim(afterColon), '|') case Some(p) => p case None => ("", "");
    match (NumberSet(left), NumberSet(right))
    case (Ok(w), Ok(n)) => Ok(ScratchCard(w, n))
    case (Err(e), _) => Err(e)
    case (_, Err(e)) => Err(e)
  }

  /** A line with no '|' parses as a card with no numbers at all. */
  lemma NoBarNoNumbers(s: string)
    requires '|' !in s
    ensures ParseCard(s) == Ok(ScratchCard({}, {}))
  {
    var afterColon := match SplitOnce(Trim(s), ':') case Some((_, b)) => b case None => "";
    TrimSubsequence(s);
    SplitOnceSpec(Trim(s), ':');
    if SplitOnce(Trim(s), ':').Some? {
      var (a, b) := SplitOnce(Trim(s), ':').value;
      assert Trim(s) == a + [':'] + b;
      forall c | c in b
        ensures c in Trim(s)
      {
        var i :| 0 <= i < |b| && b[i] == c;
        assert Trim(s)[|a| + 1 + i] == c;
      }
    }
    assert '|' !in afterColon;
    TrimSubsequence(afterColon);
    SplitOnceSpec(Trim(afterColon), '|');
    assert SplitOnce(Trim(afterColon), '|') == None;
    assert SplitWhitespace("") == [];
    assert MapResult(SplitWhitespace(""), ParseNumber) == Ok([]);
    assert NumberSet("").value == {};
  }

  /** Trimming only removes characters. */
  lemma TrimSubsequence(s: string)
    ensures forall c :: c in Trim(s) ==> c in s
  {
    TrimStartSpec(s);
    var t := TrimStart(s);
    TrimEndSpec(t);
    forall c | c in Trim(s)
      ensures c in s
    {
      var i :| 0 <= i < |Trim(s)| && Trim(s)[i] == c;
      assert t[i] == c;
      assert s[|s| - |t| + i] == c;
    }
  }

  // ---------------------------------------------------------------------
  // Part one

  function Pow2(n: nat): (r: nat)
    ensures r >= 1
  {
    if n == 0 then 1 else 2 * Pow2(n - 1)
  }

  /** `(1 << m) >> 1`. The shift of a `u32` overflows from 32 matches on. */
  function Score(m: nat): nat
    requires m < 32
  {
    Pow2(m) / 2
  }

  /** No match scores nothing, `m` matches score `2^(m - 1)`. */
  lemma ScoreClosedForm(m: nat)
    requires m < 32
    ensures m == 0 ==> Score(m) == 0
    ensures m > 0 ==> Score(m) == Pow2(m - 1)
  {
  }

  function Sum(xs: seq<nat>): nat {
    if xs == [] then 0 else Sum(xs[..|xs| - 1]) + xs[|xs| - 1]
  }

  /** The matches of each card. */
  function Matches(cards: seq<ScratchCard>): (ms: seq<nat>)
    ensures |ms| == |cards| && forall i :: 0 <= i < |cards| ==> ms[i] == CountMatching(cards[i])
  {
    seq(|cards|, i requires 0 <= i < |cards| => CountMatching(cards[i]))
  }

  function Scores(ms: seq<nat>): (r: seq<nat>)
    requires forall i :: 0 <= i < |ms| ==> ms[i] < 32
    ensures |r| == |ms|
  {
    seq(|ms|, i requires 0 <= i < |ms| => Score(ms[i]))
  }

  /** `part1`: the scores added. */
  function Part1(cards: seq<ScratchCard>): nat
    requires forall i :: 0 <= i < |cards| ==> CountMatching(cards[i]) < 32
  {
    Sum(Scores(Matches(cards)))
  }

  // ---------------------------------------------------------------------
  // Part two

  /** `counter[lo..hi]` each raised by `v`, the rest kept. */
  function AddRange(c: seq<nat>, lo: nat, hi: nat, v: nat): (r: seq<nat>)
    ensures |r| == |c|
  {
    seq(|c|, i requires 0 <= i < |c| => if lo <= i < hi then c[i] + v else c[i])
  }

  /** Every line of `part2`'s outer loop may slice `counter[idx + 1..idx + 1 + m]`. */
  predicate InRange(ms: seq<nat>) {
    forall i :: 0 <= i < |ms| ==> i + 1 + ms[i] <= |ms|
  }

  /** The counter after the first `k` cards have handed out their copies. */
  function CountsAfter(ms: seq<nat>, k: nat): (c: seq<nat>)
    requires k <= |ms|
    ensures |c| == |ms|
  {
    if k == 0 then seq(|ms|, _ => 1)
    else
      var before := CountsAfter(ms, k - 1);
      AddRange(before, k, k + ms[k - 1], before[k - 1])
  }

  /** One card of `part2`'s outer loop: its copies are added to each of the
      cards it wins. */
  lemma CountsStep(ms: seq<nat>, k: nat, c: seq<nat>, m: nat, v: nat)
    requires k < |ms| && InRange(ms)
    requires c == CountsAfter(ms, k) && m == ms[k] && v == c[k]
    ensures k + 1 + m <= |c|
    ensures CountsAfter(ms, k + 1) == AddRange(c, k + 1, k + 1 + m, v)
  {
  }

  /** The copies of card `i` as the puzzle defines them: the original plus
      one for every copy of every earlier card `j` whose matches reach `i`. */
  function Copies(ms: seq<nat>, i: nat): nat
    requires i < |ms|
    decreases i, 1
  {
    1 + Incoming(ms, i, i)
  }

  /** The copies that cards `0 .. k` hand to card `i`. */
  function Incoming(ms: seq<nat>, i: nat, k: nat): nat
    requires i < |ms| && k <= i
    decreases k, 0
  {
    if k == 0 then 0
    else Incoming(ms, i, k - 1) + (if i <= k - 1 + ms[k - 1] then Copies(ms, k - 1) else 0)
  }

  /** After `k` cards, the first `k` counts are final and every later card
      holds its original and what cards `0 .. k` gave it. */
  lemma {:induction false} CountsAfterSpec(ms: seq<nat>, k: nat)
    requires k <= |ms|
    ensures forall i :: 0 <= i < k ==> CountsAfter(ms, k)[i] == Copies(ms, i)
    ensures forall i :: k <= i < |ms| ==> CountsAfter(ms, k)[i] == 1 + Incoming(ms, i, k)
  {
    if k > 0 {
      CountsAfterSpec(ms, k - 1);
      var before := CountsAfter(ms, k - 1);
      assert before[k - 1] == Copies(ms, k - 1);
    }
  }

  /** The counter never loses copies: every count is at least 1. */
  lemma {:induction false} CountsAtLeastOne(ms: seq<nat>, k: nat)
    requires k <= |ms|
    ensures forall i :: 0 <= i < |ms| ==> CountsAfter(ms, k)[i] >= 1
  {
    if k > 0 {
      CountsAtLeastOne(ms, k - 1);
    }
  }

  lemma {:induction false} SumAtLeastLength(xs: seq<nat>)
    requires forall i :: 0 <= i < |xs| ==> xs[i] >= 1
    ensures Sum(xs) >= |xs|
  {
    if xs != [] {
      SumAtLeastLength(xs[..|xs| - 1]);
    }
  }

  /** So the total is at least the number of cards. */
  lemma TotalAtLeastCards(ms: seq<nat>)
    ensures Sum(CountsAfter(ms, |ms|)) >= |ms|
  {
    CountsAtLeastOne(ms, |ms|);
    SumAtLeastLength(CountsAfter(ms, |ms|));
  }

  /** `part2`: every card starts with one copy; card `idx` adds its count
      to each of the next `m` cards, `m` its matches. */
  method Part2(cards: seq<ScratchCard>) returns (total: nat)
    requires InRange(Matches(cards))
    ensures total == Sum(CountsAfter(Matches(cards), |cards|))
  {
    var ms := Matches(cards);
    var n := |cards|;
    var counter := new nat[n](_ => 1);
    assert counter[..] == CountsAfter(ms, 0);
    for idx := 0 to n
      invariant counter[..] == CountsAfter(ms, idx)
    {
      var matches := CountMatching(cards[idx]);
      var current := counter[idx];
      CountsStep(ms, idx, counter[..], matches, current);
      AddToEach(counter, idx + 1, idx + 1 + matches, current);
    }
    total := SumArray(counter);
  }

  /** `for item in counter[lo..hi].iter_mut() { *item += v }`. */
  method AddToEach(counter: array<nat>, lo: nat, hi: nat, v: nat)
    requires lo <= hi <= counter.Length
    modifies counter
    ensures counter[..] == AddRange(old(counter[..]), lo, hi, v)
  {
    for item := lo to hi
      invariant counter[..] == AddRange(old(counter[..]), lo, item, v)
    {
      counter[item] := counter[item] + v;
    }
  }

  /** `counter.into_iter().sum()`. */
  method SumArray(a: array<nat>) returns (s: nat)
    ensures s == Sum(a[..])
  {
    s := 0;
    for i := 0 to a.Length
      invariant s == Sum(a[..i])
    {
      assert a[..i + 1][..i] == a[..i];
      s := s + a[i];
    }
    assert a[..a.Length] == a[..];
  }

  lemma SumSnoc(xs: seq<nat>, x: nat)
    ensures Sum(xs + [x]) == Sum(xs) + x
  {
    assert (xs + [x])[..|xs|] == xs;
  }

  lemma SumOfSix(a: nat, b: nat, c: nat, d: nat, e: nat, f: nat)
    ensures Sum([a, b, c, d, e, f]) == a + b + c + d + e + f
  {
    SumSnoc([], a);
    SumSnoc([a], b);
    SumSnoc([a, b], c);
    SumSnoc([a, b, c], d);
    SumSnoc([a, b, c, d], e);
    SumSnoc([a, b, c, d, e], f);
    assert [] + [a] == [a];
    assert [a] + [b] == [a, b];
    assert [a, b] + [c] == [a, b, c];
    assert [a, b, c] + [d] == [a, b, c, d];
    assert [a, b, c, d] + [e] == [a, b, c, d, e];
    assert [a, b, c, d, e] + [f] == [a, b, c, d, e, f];
  }

  /** The example's cards match 4, 2, 2, 1, 0 and 0 numbers: they score 13
      and end up as 30 cards. */
  lemma Example()
    ensures Sum(Scores([4, 2, 2, 1, 0, 0])) == 13
    ensures Sum(CountsAfter([4, 2, 2, 1, 0, 0], 6)) == 30
  {
    var ms := [4, 2, 2, 1, 0, 0];
    assert Score(4) == 8 && Score(2) == 2 && Score(1) == 1 && Score(0) == 0;
    assert Scores(ms) == [8, 2, 2, 1, 0, 0];
    SumOfSix(8, 2, 2, 1, 0, 0);
    assert CountsAfter(ms, 1) == [1, 2, 2, 2, 2, 1];
    assert CountsAfter(ms, 2) == [1, 2, 4, 4, 2, 1];
    assert CountsAfter(ms, 3) == [1, 2, 4, 8, 6, 1];
    assert CountsAfter(ms, 4) == [1, 2, 4, 8, 14, 1];
    assert CountsAfter(ms, 5) == [1, 2, 4, 8, 14, 1];
    assert CountsAfter(ms, 6) == [1, 2, 4, 8, 14, 1];
    SumOfSix(1, 2, 4, 8, 14, 1);
  }
}
