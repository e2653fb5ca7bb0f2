/** Day 2: games of cubes drawn from a bag. A draw is a `CubeSet`; sets are
    partially ordered by dominance and joined by the componentwise maximum. */
module Day2 {
  import opened Wrappers
  import opened Text

  function Reverse(o: Option<Ordering>): Option<Ordering> {
    match o
    case None => None
    case Some(Less) => Some(Greater)
    case Some(Equal) => Some(Equal)
    case Some(Greater) => Some(Less)
  }

  datatype CubeSet = CubeSet(red: nat, green: nat, blue: nat)

  /** `CubeSet::default()`. */
  const NoCubes := CubeSet(0, 0, 0)

  /** The product of the three counts. */
  function Power(c: CubeSet): nat {
    c.red * c.green * c.blue
  }

  /** Componentwise `<=`, the order `partial_cmp` is meant to implement. */
  predicate Dominated(a: CubeSet, b: CubeSet) {
    a.red <= b.red && a.green <= b.green && a.blue <= b.blue
  }

  /** `partial_cmp`, the 27-case table of the source. */
  function PartialCmp(a: CubeSet, b: CubeSet): Option<Ordering> {
    match (Cmp(a.red, b.red), Cmp(a.green, b.green), Cmp(a.blue, b.blue))
    case (Greater, Greater, Greater) => Some(Greater)
    case (Greater, Greater, Equal) => Some(Greater)
    case (Greater, Greater, Less) => None
    case (Greater, Equal, Greater) => Some(Greater)
    case (Greater, Equal, Equal) => Some(Greater)
    case (Greater, Equal, Less) => None
    case (Greater, Less, Greater) => None
    case (Greater, Less, Equal) => None
    case (Greater, Less, Less) => None
    case (Equal, Greater, Greater) => Some(Greater)
    case (Equal, Greater, Equal) => Some(Greater)
    case (Equal, Greater, Less) => None
    case (Equal, Equal, Greater) => Some(Greater)
    case (Equal, Equal, Equal) => Some(Equal)
    case (Equal, Equal, Less) => Some(Less)
    case (Equal, Less, Greater) => None
    case (Equal, Less, Equal) => Some(Less)
    case (Equal, Less, Less) => Some(Less)
    case (Less, Greater, Greater) => None
    case (Less, Greater, Equal) => None
    case (Less, Greater, Less) => None
    case (Less, Equal, Greater) => None
    case (Less, Equal, Equal) => Some(Less)
    case (Less, Equal, Less) => Some(Less)
    case (Less, Less, Greater) => None
    case (Less, Less, Equal) => Some(Less)
    case (Less, Less, Less) => Some(Less)
  }

  /** The table is exactly dominance: equal, below, above, or incomparable. */
  lemma PartialCmpIsDominance(a: CubeSet, b: CubeSet)
    ensures PartialCmp(a, b) == Some(Equal) <==> a == b
    ensures PartialCmp(a, b) == Some(Less) <==> Dominated(a, b) && a != b
    ensures PartialCmp(a, b) == Some(Greater) <==> Dominated(b, a) && a != b
    ensures PartialCmp(a, b).None? <==> !Dominated(a, b) && !Dominated(b, a)
  {
  }

  /** Swapping the operands reverses the answer. */
  lemma PartialCmpReverses(a: CubeSet, b: CubeSet)
    ensures PartialCmp(b, a) == Reverse(PartialCmp(a, b))
  {
  }

  /** Rust's `a <= b` for a `PartialOrd`: `partial_cmp` is `Less` or `Equal`. */
  predicate Le(a: CubeSet, b: CubeSet) {
    PartialCmp(a, b) == Some(Less) || PartialCmp(a, b) == Some(Equal)
  }

  lemma LeIsDominated(a: CubeSet, b: CubeSet)
    ensures Le(a, b) <==> Dominated(a, b)
  {
    PartialCmpIsDominance(a, b);
  }

  function Max(a: nat, b: nat): nat {
    if a < b then b else a
  }

  /** `a | b`: the least cube set that dominates both operands. */
  function BitOr(a: CubeSet, b: CubeSet): (r: CubeSet)
    ensures Dominated(a, r) && Dominated(b, r)
    ensures forall c :: Dominated(a, c) && Dominated(b, c) ==> Dominated(r, c)
  {
    CubeSet(Max(a.red, b.red), Max(a.green, b.green), Max(a.blue, b.blue))
  }

  lemma BitOrLaws(a: CubeSet, b: CubeSet, c: CubeSet)
    ensures BitOr(a, b) == BitOr(b, a)
    ensures BitOr(BitOr(a, b), c) == BitOr(a, BitOr(b, c))
    ensures BitOr(a, a) == a
    ensures BitOr(NoCubes, a) == a
  {
  }

  /** More cubes of every colour never lower the power. */
  lemma PowerMonotone(a: CubeSet, b: CubeSet)
    requires Dominated(a, b)
    ensures Power(a) <= Power(b)
  {
    assert a.red * a.green <= b.red * b.green by {
      MulLe(a.red, b.red, a.green, b.green);
    }
    MulLe(a.red * a.green, b.red * b.green, a.blue, b.blue);
  }

  lemma MulLe(a: nat, b: nat, c: nat, d: nat)
    requires a <= b && c <= d
    ensures a * c <= b * d
  {
    assert a * c <= b * c;
    assert b * c <= b * d;
  }

  datatype Game = Game(id: nat, sets: seq<CubeSet>)

  // ---------------------------------------------------------------------
  // Parsing a game line: "Game 12: 3 blue, 4 red; 1 red, 2 green"

  datatype Colour = Red | Green | Blue

  function ColourOf(name: string): Option<Colour> {
    if name == "red" then Some(Red)
    else if name == "green" then Some(Green)
    else if name == "blue" then Some(Blue)
    else None
  }

  /** The colour and count an item "count colour" names: the count is the
      trimmed text before the first space, the colour all that follows it. */
  function ItemOf(item: string): Option<(Colour, nat)> {
    match SplitOnce(Trim(item), ' ')
    case None => None
    case Some((count, name)) =>
      match (ParseNat(Trim(count)), ColourOf(name))
      case (Some(n), Some(colour)) => Some((colour, n))
      case _ => None
  }

  function Count(cubes: CubeSet, colour: Colour): nat {
    match colour
    case Red => cubes.red
    case Green => cubes.green
    case Blue => cubes.blue
  }

  function SetCount(cubes: CubeSet, colour: Colour, n: nat): (r: CubeSet)
    ensures Count(r, colour) == n
    ensures forall other :: other != colour ==> Count(r, other) == Count(cubes, other)
  {
    match colour
    case Red => cubes.(red := n)
    case Green => cubes.(green := n)
    case Blue => cubes.(blue := n)
  }

  /** One item applied to the set being filled: its count replaces what was
      there for its colour; a malformed item panics. */
  function ApplyItem(cubes: CubeSet, item: string): Result<CubeSet> {
    match ItemOf(item)
    case None => Err(Panic)
    case Some((colour, n)) => Ok(SetCount(cubes, colour, n))
  }

  /** The items applied in order, as the `for` loop does. */
  function ApplyItems(cubes: CubeSet, items: seq<string>): Result<CubeSet>
    decreases |items|
  {
    if items == [] then Ok(cubes)
    else match ApplyItem(cubes, items[0])
      case Err(e) => Err(e)
      case Ok(next) => ApplyItems(next, items[1..])
  }

  /** The count of the last item of `colour`, or `default` when there is
      none. */
  function LastCount(items: seq<string>, colour: Colour, default: nat): nat {
    if items == [] then default
    else
      match ItemOf(items[|items| - 1])
      case Some((c, n)) => if c == colour then n else LastCount(items[..|items| - 1], colour, default)
      case None => LastCount(items[..|items| - 1], colour, default)
  }

  /** Parsing a set fails exactly when one of its items is malformed. */
  lemma {:induction false} ApplyItemsOk(cubes: CubeSet, items: seq<string>)
    ensures ApplyItems(cubes, items).Ok? <==> forall i :: 0 <= i < |items| ==> ItemOf(items[i]).Some?
    decreases |items|
  {
    if items != [] && ItemOf(items[0]).Some? {
      var (c, n) := ItemOf(items[0]).value;
      ApplyItemsOk(SetCount(cubes, c, n), items[1..]);
      assert forall i :: 0 < i < |items| ==> items[1..][i - 1] == items[i];
    }
  }

  /** Parsing a set keeps, for each colour, the count of its last mention
      (the starting count for a colour not mentioned). */
  lemma {:induction false} ApplyItemsLastWins(cubes: CubeSet, items: seq<string>)
    ensures ApplyItems(cubes, items).Ok? ==>
      forall colour :: Count(ApplyItems(cubes, items).value, colour) == LastCount(items, colour, Count(cubes, colour))
    decreases |items|
  {
    if items != [] {
      var front, last := items[..|items| - 1], items[|items| - 1];
      assert items == front + [last];
      ApplyItemsSnoc(cubes, front, last);
      if ApplyItems(cubes, items).Ok? {
        ApplyItemsLastWins(cubes, front);
        LastWinsStep(cubes, items, ApplyItems(cubes, front).value);
      }
    }
  }

  lemma LastWinsStep(cubes: CubeSet, items: seq<string>, before: CubeSet)
    requires items != [] && ApplyItems(cubes, items).Ok?
    requires ApplyItems(cubes, items) == ApplyItem(before, items[|items| - 1])
    requires forall colour :: Count(before, colour) == LastCount(items[..|items| - 1], colour, Count(cubes, colour))
    ensures forall colour :: Count(ApplyItems(cubes, items).value, colour) == LastCount(items, colour, Count(cubes, colour))
  {
    var (c, n) := ItemOf(items[|items| - 1]).value;
    assert ApplyItems(cubes, items).value == SetCount(before, c, n);
  }

  lemma {:induction false} ApplyItemsSnoc(cubes: CubeSet, items: seq<string>, last: string)
    ensures ApplyItems(cubes, items + [last])
      == match ApplyItems(cubes, items) case Err(e) => Err(e) case Ok(c) => ApplyItem(c, last)
    decreases |items|
  {
    if items == [] {
      assert [last][1..] == [];
    } else {
      assert (items + [last])[1..] == items[1..] + [last];
      match ApplyItem(cubes, items[0])
      case Err(_) =>
      case Ok(next) => ApplyItemsSnoc(next, items[1..], last);
    }
  }

  /** A draw "3 blue, 4 red": its comma-separated items applied to the
      empty set. */
  function SetOf(draw: string): Result<CubeSet> {
    ApplyItems(NoCubes, Split(Trim(draw), ','))
  }

  /** A set "3 blue, 4 red" filled by the loop over its items. */
  method ParseSet(draw: string) returns (r: Result<CubeSet>)
    ensures r == SetOf(draw)
  {
    var items := Split(Trim(draw), ',');
    var cubes := NoCubes;
    var i := 0;
    while i < |items|
      invariant 0 <= i <= |items|
      invariant ApplyItems(NoCubes, items) == ApplyItems(cubes, items[i..])
    {
      assert items[i..][1..] == items[i + 1..];
      var split := SplitOnce(Trim(items[i]), ' ');
      if split.None? {
        return Err(Panic);
      }
      var (count, name) := split.value;
      var n := ParseNat(Trim(count));
      if n.None? {
        return Err(Panic);
      }
      if name == "red" {
        cubes := cubes.(red := n.value);
      } else if name == "green" {
        cubes := cubes.(green := n.value);
      } else if name == "blue" {
        cubes := cubes.(blue := n.value);
      } else {
        return Err(Panic);
      }
      i := i + 1;
    }
    return Ok(cubes);
  }

  /** `Game::from_str`: a missing ':' or ' ' panics, a bad id is a
      `ParseIntError`, and a bad set panics. */
  function GameOf(s: string): Result<Game> {
    match SplitOnce(Trim(s), ':')
    case None => Err(Panic)
    case Some((game, sets)) =>
      match SplitOnce(game, ' ')
      case None => Err(Panic)
      case Some((_, id)) =>
        match ParseNat(Trim(id))
        case None => Err(BadNumber)
        case Some(n) =>
          match MapResult(Split(sets, ';'), SetOf)
          case Err(e) => Err(e)
          case Ok(cubes) => Ok(Game(n, cubes))
  }

  /** The sets of a game, parsed one after the other. */
  method ParseDraws(pieces: seq<string>) returns (r: Result<seq<CubeSet>>)
    ensures r == MapResult(pieces, SetOf)
  {
    var sets: seq<CubeSet> := [];
    var i := 0;
    while i < |pieces|
      invariant 0 <= i <= |pieces|
      invariant MapResult(pieces[..i], SetOf) == Ok(sets)
    {
      var parsed := ParseSet(pieces[i]);
      MapResultStep(pieces, i, SetOf, sets);
      if parsed.Err? {
        return Err(parsed.error);
      }
      sets := sets + [parsed.value];
      i := i + 1;
    }
    assert pieces[..i] == pieces;
    return Ok(sets);
  }

  method ParseGame(s: string) returns (r: Result<Game>)
    ensures r == GameOf(s)
  {
    var split := SplitOnce(Trim(s), ':');
    if split.None? {
      return Err(Panic);
    }
    var (game, rest) := split.value;
    var named := SplitOnce(game, ' ');
    if named.None? {
      return Err(Panic);
    }
    var id := ParseNat(Trim(named.value.1));
    if id.None? {
      return Err(BadNumber);
    }
    var sets := ParseDraws(Split(rest, ';'));
    if sets.Err? {
      return Err(sets.error);
    }
    return Ok(Game(id.value, sets.value));
  }

  // ---------------------------------------------------------------------
  // The two answers

  /** The bag of part one. */
  const Bag := CubeSet(12, 13, 14)

  predicate Possible(game: Game) {
    forall i :: 0 <= i < |game.sets| ==> Le(game.sets[i], Bag)
  }

  /** `part1`: the sum of the ids of the possible games. */
  function Part1(games: seq<Game>): nat {
    if games == [] then 0
    else (if Possible(games[0]) then games[0].id else 0) + Part1(games[1..])
  }

  /** A game is possible iff no draw shows more than 12 red, 13 green or 14
      blue cubes. */
  lemma PossibleIffWithinBag(game: Game)
    ensures Possible(game) <==> forall i :: 0 <= i < |game.sets| ==>
      game.sets[i].red <= 12 && game.sets[i].green <= 13 && game.sets[i].blue <= 14
  {
    forall i | 0 <= i < |game.sets| {
      LeIsDominated(game.sets[i], Bag);
    }
  }

  /** Part one is bounded by the sum of all ids and reaches it when every
      game is possible. */
  lemma {:induction false} Part1Bounds(games: seq<Game>)
    ensures Part1(games) <= SumIds(games)
    ensures (forall i :: 0 <= i < |games| ==> Possible(games[i])) ==> Part1(games) == SumIds(games)
  {
    if games != [] {
      Part1Bounds(games[1..]);
      assert forall i :: 0 <= i < |games[1..]| ==> games[1..][i] == games[i + 1];
    }
  }

  function SumIds(games: seq<Game>): nat {
    if games == [] then 0 else games[0].id + SumIds(games[1..])
  }

  /** The fold `sets.iter().fold(default, |acc, s| acc | s)`. */
  function Fewest(sets: seq<CubeSet>): CubeSet {
    if sets == [] then NoCubes else BitOr(Fewest(sets[..|sets| - 1]), sets[|sets| - 1])
  }

  /** The fold is the fewest cubes that make every draw of the game
      possible: it dominates each draw, and every set that dominates each
      draw dominates it. */
  lemma {:induction false} FewestIsLeastBound(sets: seq<CubeSet>, c: CubeSet)
    ensures forall i :: 0 <= i < |sets| ==> Dominated(sets[i], Fewest(sets))
    ensures (forall i :: 0 <= i < |sets| ==> Dominated(sets[i], c)) ==> Dominated(Fewest(sets), c)
  {
    if sets != [] {
      var front := sets[..|sets| - 1];
      FewestIsLeastBound(front, c);
      assert forall i :: 0 <= i < |front| ==> front[i] == sets[i];
    }
  }

  /** `part2`: the sum of the powers of each game's fewest cubes. */
  function Part2(games: seq<Game>): nat {
    if games == [] then 0 else Power(Fewest(games[0].sets)) + Part2(games[1..])
  }

  /** The fewest cubes of a game never have a smaller power than one of its
      draws. */
  lemma FewestPowerAtLeastDraw(sets: seq<CubeSet>, i: nat)
    requires i < |sets|
    ensures Power(sets[i]) <= Power(Fewest(sets))
  {
    FewestIsLeastBound(sets, NoCubes);
    PowerMonotone(sets[i], Fewest(sets));
  }

  /** The five games of the worked example, as parsed. */
  const ExampleGames := [
    Game(1, [CubeSet(4, 0, 3), CubeSet(1, 2, 6), CubeSet(0, 2, 0)]),
    Game(2, [CubeSet(0, 2, 1), CubeSet(1, 3, 4), CubeSet(0, 1, 1)]),
    Game(3, [CubeSet(20, 8, 6), CubeSet(4, 13, 5), CubeSet(1, 5, 0)]),
    Game(4, [CubeSet(3, 1, 6), CubeSet(6, 3, 0), CubeSet(14, 3, 15)]),
    Game(5, [CubeSet(6, 3, 1), CubeSet(1, 2, 2)])]

  lemma FewestOfThree(sets: seq<CubeSet>)
    requires |sets| == 3
    ensures Fewest(sets) == BitOr(BitOr(BitOr(NoCubes, sets[0]), sets[1]), sets[2])
  {
    var two := sets[..2];
    assert two[..1] == [sets[0]] && two[1] == sets[1];
    assert [sets[0]][..0] == [];
    assert Fewest([sets[0]]) == BitOr(NoCubes, sets[0]);
    assert Fewest(two) == BitOr(Fewest(two[..1]), two[1]);
  }

  lemma ExamplePart1()
    ensures Part1(ExampleGames) == 8
  {
    var g := ExampleGames;
    assert Possible(g[0]) && Possible(g[1]) && Possible(g[4]);
    assert !Le(g[2].sets[0], Bag) && !Le(g[3].sets[2], Bag);
    assert Part1(g[4..]) == 5;
    assert Part1(g[3..]) == 5;
    assert Part1(g[2..]) == 5;
  }

  /** The fewest cubes of each example game. */
  lemma ExampleFewest()
    ensures Fewest(ExampleGames[0].sets) == CubeSet(4, 2, 6)
    ensures Fewest(ExampleGames[1].sets) == CubeSet(1, 3, 4)
    ensures Fewest(ExampleGames[2].sets) == CubeSet(20, 13, 6)
    ensures Fewest(ExampleGames[3].sets) == CubeSet(14, 3, 15)
    ensures Fewest(ExampleGames[4].sets) == CubeSet(6, 3, 2)
  {
    var g := ExampleGames;
    FewestOfThree(g[0].sets);
    FewestOfThree(g[1].sets);
    FewestOfThree(g[2].sets);
    FewestOfThree(g[3].sets);
    assert g[4].sets[..1] == [g[4].sets[0]];
  }

  lemma ExamplePart2()
    ensures Part2(ExampleGames) == 2286
  {
    var g := ExampleGames;
    ExampleFewest();
    assert Part2(g[4..]) == 36;
    assert Part2(g[3..]) == 630 + 36;
    assert Part2(g[2..]) == 1560 + 666;
    assert Part2(g[1..]) == 12 + 2226;
  }
}
