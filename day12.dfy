/** Day 12: rows of springs, some of unknown condition, and the number of
    ways to fill in the unknowns so that the runs of broken springs are the
    listed contiguous groups. */
module Day12 {
  import opened Wrappers
  import opened Text
  import opened Sequences

  datatype Condition = Operational | Broken | Unknown

  /** `Condition::from`: any other character is `unreachable!`. */
  function ConditionOf(c: char): Result<Condition> {
    if c == '.' then Ok(Operational)
    else if c == '#' then Ok(Broken)
    else if c == '?' then Ok(Unknown)
    else Err(Panic)
  }

  function Symbol(c: Condition): char {
    match c
    case Operational => '.'
    case Broken => '#'
    case Unknown => '?'
  }

  datatype Row = Row(springs: seq<Condition>, groups: seq<nat>)

  function GroupOf(s: string): Result<nat> {
    match ParseNat(s)
    case Some(n) => Ok(n)
    case None => Err(BadNumber)
  }

  /** `Row::from_str`: the springs, a space, then the groups separated by
      commas. A missing space panics (`expect`), as does an unknown
      condition; a group that is not a number is a parse error. */
  function RowOf(s: string): Result<Row> {
    match SplitOnce(s, ' ')
    case None => Err(Panic)
    case Some((springs, groups)) =>
      match MapResult(springs, ConditionOf)
      case Err(e) => Err(e)
      case Ok(cs) =>
        match MapResult(Split(groups, ','), GroupOf)
        case Err(e) => Err(e)
        case Ok(gs) => Ok(Row(cs, gs))
  }

  /** The text of a row, as the puzzle input writes it. */
  function Format(row: Row): string {
    seq(|row.springs|, i requires 0 <= i < |row.springs| => Symbol(row.springs[i]))
      + " " + Join(seq(|row.groups|, i requires 0 <= i < |row.groups| => NatToString(row.groups[i])), ',')
  }

  /** Reading back the text of a row with at least one group gives the
      row. */
  lemma FormatRoundTrip(row: Row)
    requires |row.groups| >= 1
    ensures RowOf(Format(row)) == Ok(row)
  {
    var springs := seq(|row.springs|, i requires 0 <= i < |row.springs| => Symbol(row.springs[i]));
    var pieces := seq(|row.groups|, i requires 0 <= i < |row.groups| => NatToString(row.groups[i]));
    assert ' ' !in springs;
    SplitOnceAt(springs, ' ', Join(pieces, ','));
    MapResultAll(springs, ConditionOf, row.springs);
    assert forall i :: 0 <= i < |pieces| ==> ',' !in pieces[i];
    JoinSplit(pieces, ',');
    forall i | 0 <= i < |pieces|
      ensures GroupOf(pieces[i]) == Ok(row.groups[i])
    {
      ParseNatToString(row.groups[i]);
    }
    MapResultAll(pieces, GroupOf, row.groups);
  }

  // ---------------------------------------------------------------------
  // The recursion

  /** `contiguous_groups.get(group).copied().unwrap_or_default()`. */
  function GroupAt(groups: seq<nat>, group: nat): nat {
    if group < |groups| then groups[group] else 0
  }

  /** `Row::recursive` without its cache: the arrangements of the springs
      from `spring` on, given a run of `damaged` broken springs just before
      it and `group` groups already closed. */
  function Count(row: Row, spring: nat, damaged: nat, group: nat): nat
    decreases |row.springs| - spring, 1
  {
    if spring >= |row.springs| then
      if damaged == GroupAt(row.groups, group) && group + 1 >= |row.groups| then 1 else 0
    else
      match row.springs[spring]
      case Operational => Operate(row, spring, damaged, group)
      case Broken => Count(row, spring + 1, damaged + 1, group)
      case Unknown => Count(row, spring + 1, damaged + 1, group) + Operate(row, spring, damaged, group)
  }

  /** The branch of the recursion for a working spring at `spring`: a run
      that it ends must be the current group, and the next group is then
      current. */
  function Operate(row: Row, spring: nat, damaged: nat, group: nat): nat
    requires spring < |row.springs|
    decreases |row.springs| - spring, 0
  {
    if damaged == 0 then Count(row, spring + 1, damaged, group)
    else if damaged == GroupAt(row.groups, group) then Count(row, spring + 1, 0, group + 1)
    else 0
  }

  /** A cache that holds only values of the recursion. */
  predicate Cached(row: Row, cache: map<(nat, nat, nat), nat>) {
    forall k :: k in cache ==> cache[k] == Count(row, k.0, k.1, k.2)
  }

  /** `Row::recursive`: the recursion with the cache threaded through it.
      The count is the uncached one, and the cache grows with values of the
      recursion only. */
  method Recursive(row: Row, spring: nat, damaged: nat, group: nat, cache: map<(nat, nat, nat), nat>)
    returns (count: nat, updated: map<(nat, nat, nat), nat>)
    requires Cached(row, cache)
    ensures count == Count(row, spring, damaged, group)
    ensures Cached(row, updated) && (spring, damaged, group) in updated
    ensures forall k :: k in cache ==> k in updated
    decreases |row.springs| - spring, 1
  {
    if (spring, damaged, group) in cache {
      return cache[(spring, damaged, group)], cache;
    }
    count := 0;
    updated := cache;
    if spring < |row.springs| {
      var c: nat;
      match row.springs[spring]
      case Operational =>
        c, updated := RecursiveOperate(row, spring, damaged, group, updated);
        count := count + c;
      case Broken =>
        c, updated := Recursive(row, spring + 1, damaged + 1, group, updated);
        count := count + c;
      case Unknown =>
        c, updated := Recursive(row, spring + 1, damaged + 1, group, updated);
        count := count + c;
        c, updated := RecursiveOperate(row, spring, damaged, group, updated);
        count := count + c;
    } else if damaged == GroupAt(row.groups, group) && group + 1 >= |row.groups| {
      count := count + 1;
    }
    updated := updated[(spring, damaged, group) := count];
  }

  /** The working-spring branch of `Row::recursive`, written out twice in
      the source. */
  method RecursiveOperate(row: Row, spring: nat, damaged: nat, group: nat, cache: map<(nat, nat, nat), nat>)
    returns (count: nat, updated: map<(nat, nat, nat), nat>)
    requires spring < |row.springs| && Cached(row, cache)
    ensures count == Operate(row, spring, damaged, group)
    ensures Cached(row, updated) && forall k :: k in cache ==> k in updated
    decreases |row.springs| - spring, 0
  {
    count, updated := 0, cache;
    if damaged == 0 {
      count, updated := Recursive(row, spring + 1, damaged, group, cache);
    } else if damaged == GroupAt(row.groups, group) {
      count, updated := Recursive(row, spring + 1, 0, group + 1, cache);
    }
  }

  /** `Row::count_possible_arrangements`: the recursion from the first
      spring, on an empty cache. With positive groups it is the number of
      arrangements. */
  method CountPossibleArrangements(row: Row) returns (count: nat)
    ensures count == Count(row, 0, 0, 0)
    ensures Positive(row.groups) ==> count == Arrangements(row)
  {
    var cache;
    count, cache := Recursive(row, 0, 0, 0, map[]);
    if Positive(row.groups) {
      CountIsArrangements(row, 0, []);
    }
  }

  // ---------------------------------------------------------------------
  // What the recursion counts

  /** The number of broken springs at the end of `a` (`true` is broken). */
  function Trailing(a: seq<bool>): nat {
    if a == [] || !a[|a| - 1] then 0 else Trailing(a[..|a| - 1]) + 1
  }

  /** The lengths of the runs of broken springs of `a` that a working spring
      has ended, left to right. */
  function Closed(a: seq<bool>): seq<nat> {
    if a == [] then []
    else
      var init := a[..|a| - 1];
      if a[|a| - 1] then Closed(init)
      else if Trailing(init) > 0 then Closed(init) + [Trailing(init)]
      else Closed(init)
  }

  /** The lengths of all runs of broken springs of `a`, left to right. */
  function Runs(a: seq<bool>): seq<nat> {
    Closed(a) + (if Trailing(a) > 0 then [Trailing(a)] else [])
  }

  function CountTrue(a: seq<bool>): nat {
    if a == [] then 0 else CountTrue(a[..|a| - 1]) + (if a[|a| - 1] then 1 else 0)
  }

  function Sum(xs: seq<nat>): nat {
    if xs == [] then 0 else Sum(xs[..|xs| - 1]) + xs[|xs| - 1]
  }

  predicate Positive(xs: seq<nat>) {
    forall i :: 0 <= i < |xs| ==> xs[i] > 0
  }

  /** Every run has a broken spring, and together the runs hold all the
      broken springs. */
  lemma {:induction false} RunsSpec(a: seq<bool>)
    ensures Positive(Runs(a)) && Sum(Runs(a)) == CountTrue(a)
  {
    ClosedSpec(a);
    var r := Runs(a);
    if Trailing(a) > 0 {
      assert r[..|r| - 1] == Closed(a);
    } else {
      assert r == Closed(a);
    }
  }

  lemma {:induction false} ClosedSpec(a: seq<bool>)
    ensures Positive(Closed(a)) && Sum(Closed(a)) + Trailing(a) == CountTrue(a)
  {
    if a != [] {
      var init := a[..|a| - 1];
      ClosedSpec(init);
      if !a[|a| - 1] && Trailing(init) > 0 {
        var c := Closed(a);
        assert c[..|c| - 1] == Closed(init);
      }
    }
  }

  /** The runs of `[#, #, ., #]` are `[2, 1]`. */
  lemma RunsExample()
    ensures Runs([true, true, false, true]) == [2, 1]
  {
    var a := [true, true, false, true];
    assert a[..3] == [true, true, false];
    assert [true, true, false][..2] == [true, true];
    assert [true, true][..1] == [true];
    assert [true][..0] == [];
    assert Trailing([true]) == 1 && Closed([true]) == [];
    assert Trailing([true, true]) == 2 && Closed([true, true]) == [];
    assert Trailing([true, true, false]) == 0 && Closed([true, true, false]) == [2];
    assert Trailing(a) == 1 && Closed(a) == [2];
  }

  /** The arrangements that extend `pre` over the springs from `i` on: each
      unknown spring is tried both working and broken, and a complete
      arrangement counts when its runs are the groups. */
  function ArrangementsFrom(row: Row, i: nat, pre: seq<bool>): nat
    decreases |row.springs| - i
  {
    if i >= |row.springs| then
      if Runs(pre) == row.groups then 1 else 0
    else
      match row.springs[i]
      case Operational => ArrangementsFrom(row, i + 1, pre + [false])
      case Broken => ArrangementsFrom(row, i + 1, pre + [true])
      case Unknown => ArrangementsFrom(row, i + 1, pre + [true]) + ArrangementsFrom(row, i + 1, pre + [false])
  }

  /** The number of arrangements of a row. */
  function Arrangements(row: Row): nat {
    ArrangementsFrom(row, 0, [])
  }

  /** One more spring: a broken one extends the last run, a working one
      closes it. */
  lemma Snoc(pre: seq<bool>, b: bool)
    ensures b ==> Trailing(pre + [b]) == Trailing(pre) + 1 && Closed(pre + [b]) == Closed(pre)
    ensures !b ==>
      Trailing(pre + [b]) == 0 &&
      Closed(pre + [b]) == Closed(pre) + (if Trailing(pre) > 0 then [Trailing(pre)] else [])
  {
    assert (pre + [b])[..|pre|] == pre;
  }

  /** Once the closed runs leave the groups, no arrangement is left. */
  lemma {:induction false} Dead(row: Row, i: nat, pre: seq<bool>)
    requires !(Closed(pre) <= row.groups)
    ensures ArrangementsFrom(row, i, pre) == 0
    decreases |row.springs| - i
  {
    if i >= |row.springs| {
      assert Closed(pre) <= Runs(pre);
    } else {
      Snoc(pre, true);
      Snoc(pre, false);
      assert !(Closed(pre + [false]) <= row.groups) by {
        PrefixOfPrefix(Closed(pre), [Trailing(pre)], row.groups);
      }
      Dead(row, i + 1, pre + [true]);
      Dead(row, i + 1, pre + [false]);
    }
  }

  lemma PrefixOfPrefix(xs: seq<nat>, ys: seq<nat>, zs: seq<nat>)
    ensures xs + ys <= zs ==> xs <= zs
  {
    assert (xs + ys)[..|xs|] == xs;
  }

  /** With positive groups, the recursion from `i` in the state that `pre`
      leaves (its last run, the number of its closed runs) counts the
      arrangements that extend `pre`. */
  lemma {:induction false} CountIsArrangements(row: Row, i: nat, pre: seq<bool>)
    requires Positive(row.groups)
    requires Closed(pre) <= row.groups
    ensures ArrangementsFrom(row, i, pre) == Count(row, i, Trailing(pre), |Closed(pre)|)
    decreases |row.springs| - i, 1
  {
    var d := Trailing(pre);
    var g := |Closed(pre)|;
    if i >= |row.springs| {
      AtEnd(row.groups, Closed(pre), d);
    } else {
      Snoc(pre, true);
      Snoc(pre, false);
      match row.springs[i]
      case Operational =>
        OperateIsArrangements(row, i, pre);
      case Broken =>
        CountIsArrangements(row, i + 1, pre + [true]);
      case Unknown =>
        CountIsArrangements(row, i + 1, pre + [true]);
        OperateIsArrangements(row, i, pre);
    }
  }

  /** The arrangements with a working spring at `i` are the recursion's
      working branch. */
  lemma {:induction false} OperateIsArrangements(row: Row, i: nat, pre: seq<bool>)
    requires Positive(row.groups) && Closed(pre) <= row.groups && i < |row.springs|
    ensures ArrangementsFrom(row, i + 1, pre + [false]) == Operate(row, i, Trailing(pre), |Closed(pre)|)
    decreases |row.springs| - i, 0
  {
    var d := Trailing(pre);
    var g := |Closed(pre)|;
    Snoc(pre, false);
    if d == 0 {
      CountIsArrangements(row, i + 1, pre + [false]);
    } else if d == GroupAt(row.groups, g) {
      assert Closed(pre + [false]) == row.groups[..g + 1] by {
        assert row.groups[..g + 1] == row.groups[..g] + [row.groups[g]];
      }
      CountIsArrangements(row, i + 1, pre + [false]);
    } else {
      assert !(Closed(pre + [false]) <= row.groups) by {
        NotPrefix(Closed(pre + [false]), row.groups, g);
      }
      Dead(row, i + 1, pre + [false]);
    }
  }

  lemma NotPrefix(xs: seq<nat>, zs: seq<nat>, g: nat)
    requires g < |xs| && (g >= |zs| || xs[g] != zs[g])
    ensures !(xs <= zs)
  {
  }

  /** At the end of the row the recursion accepts exactly when the closed
      runs and the last run are the groups. */
  lemma AtEnd(groups: seq<nat>, closed: seq<nat>, d: nat)
    requires Positive(groups) && closed <= groups
    ensures (closed + (if d > 0 then [d] else []) == groups)
      == (d == GroupAt(groups, |closed|) && |closed| + 1 >= |groups|)
  {
    var g := |closed|;
    assert closed == groups[..g];
    if d > 0 && g < |groups| && d == groups[g] && g + 1 == |groups| {
      assert groups == groups[..g] + [groups[g]];
    }
    if d == 0 && g == |groups| {
      assert closed == groups;
    }
  }

  // ---------------------------------------------------------------------
  // Unfolding

  /** `Row::expand`: the springs cycled with an unknown spring between
      copies, `4 + 5 n` of them, and the groups five times over. */
  function Expand(row: Row): Row {
    Row(Cycle(row.springs + [Unknown], 4 + |row.springs| * 5), Repeat(row.groups, 5))
  }

  /** The unfolded row is five copies of the springs joined by four unknown
      springs, and five copies of the groups. */
  lemma ExpandSpec(row: Row)
    ensures var s := row.springs;
      Expand(row).springs == s + [Unknown] + s + [Unknown] + s + [Unknown] + s + [Unknown] + s
    ensures |Expand(row).springs| == 5 * |row.springs| + 4
  {
    var s := row.springs;
    var t := s + [Unknown];
    var n := |s|;
    assert Cycle(t, 5 * n + 4) == t + Cycle(t, 4 * n + 3);
    assert Cycle(t, 4 * n + 3) == t + Cycle(t, 3 * n + 2);
    assert Cycle(t, 3 * n + 2) == t + Cycle(t, 2 * n + 1);
    if n == 0 {
      assert Cycle(t, 1) == [Unknown];
    } else {
      assert Cycle(t, 2 * n + 1) == t + Cycle(t, n);
      assert Cycle(t, n) == s;
    }
    assert 4 + n * 5 == 5 * n + 4;
  }

  /** The unfolded groups are five copies of the groups. */
  lemma ExpandGroups(row: Row)
    ensures var g := row.groups; Expand(row).groups == g + g + g + g + g
  {
    var g := row.groups;
    assert Repeat(g, 5) == g + Repeat(g, 4);
    assert Repeat(g, 4) == g + Repeat(g, 3);
    assert Repeat(g, 3) == g + Repeat(g, 2);
    assert Repeat(g, 2) == g + Repeat(g, 1);
    assert Repeat(g, 1) == g;
  }

  // ---------------------------------------------------------------------
  // The example

  /** The springs of `row` are written `text`. */
  predicate SpringsAre(row: Row, text: string) {
    |row.springs| == |text| && forall i :: 0 <= i < |text| ==> Symbol(row.springs[i]) == text[i]
  }

  /** The lines of the example, and the springs and groups each of them
      holds. */
  function ExampleLines(): seq<string> {
    ["???.### 1,1,3", ".??..??...?##. 1,1,3", "?#?#?#?#?#?#?#? 1,3,1,6",
     "????.#...#... 4,1,1", "????.######..#####. 1,6,5", "?###???????? 3,2,1"]
  }

  function ExampleSprings(): seq<string> {
    ["???.###", ".??..??...?##.", "?#?#?#?#?#?#?#?",
     "????.#...#...", "????.######..#####.", "?###????????"]
  }

  function ExampleGroups(): seq<seq<nat>> {
    [[1, 1, 3], [1, 1, 3], [1, 3, 1, 6], [4, 1, 1], [1, 6, 5], [3, 2, 1]]
  }

  /** Line `k` of the example reads as the row of its springs and groups. */
  lemma ExampleLine(k: nat, row: Row)
    requires k < 6 && SpringsAre(row, ExampleSprings()[k]) && row.groups == ExampleGroups()[k]
    ensures RowOf(ExampleLines()[k]) == Ok(row)
  {
    assert ExampleLines()[k] == Format(row) by {
      if k == 0 { ExampleFormat1(row); }
      else if k == 1 { ExampleFormat2(row); }
      else if k == 2 { ExampleFormat3(row); }
      else if k == 3 { ExampleFormat4(row); }
      else if k == 4 { ExampleFormat5(row); }
      else { ExampleFormat6(row); }
    }
    FormatRoundTrip(row);
  }

  /** The row with springs `???.###` is written as line 1. */
  lemma ExampleFormat1(row: Row)
    requires SpringsAre(row, "???.###") && row.groups == [1, 1, 3]
    ensures Format(row) == "???.### 1,1,3"
  {
    var springs := seq(|row.springs|, i requires 0 <= i < |row.springs| => Symbol(row.springs[i]));
    assert springs == "???.###";
    var pieces := seq(|row.groups|, i requires 0 <= i < |row.groups| => NatToString(row.groups[i]));
    assert pieces == ["1", "1", "3"];
    assert Join(pieces[2..], ',') == "3";
    assert Join(pieces[1..], ',') == "1,3";
  }

  /** The row with springs `.??..??...?##.` is written as line 2. */
  lemma ExampleFormat2(row: Row)
    requires SpringsAre(row, ".??..??...?##.") && row.groups == [1, 1, 3]
    ensures Format(row) == ".??..??...?##. 1,1,3"
  {
    var springs := seq(|row.springs|, i requires 0 <= i < |row.springs| => Symbol(row.springs[i]));
    assert springs == ".??..??...?##.";
    var pieces := seq(|row.groups|, i requires 0 <= i < |row.groups| => NatToString(row.groups[i]));
    assert pieces == ["1", "1", "3"];
    assert Join(pieces[2..], ',') == "3";
    assert Join(pieces[1..], ',') == "1,3";
  }

  /** The row with springs `?#?#?#?#?#?#?#?` is written as line 3. */
  lemma ExampleFormat3(row: Row)
    requires SpringsAre(row, "?#?#?#?#?#?#?#?") && row.groups == [1, 3, 1, 6]
    ensures Format(row) == "?#?#?#?#?#?#?#? 1,3,1,6"
  {
    var springs := seq(|row.springs|, i requires 0 <= i < |row.springs| => Symbol(row.springs[i]));
    assert springs == "?#?#?#?#?#?#?#?";
    var pieces := seq(|row.groups|, i requires 0 <= i < |row.groups| => NatToString(row.groups[i]));
    assert pieces == ["1", "3", "1", "6"];
    assert Join(pieces[3..], ',') == "6";
    assert Join(pieces[2..], ',') == "1,6";
    assert Join(pieces[1..], ',') == "3,1,6";
  }

  /** The row with springs `????.#...#...` is written as line 4. */
  lemma ExampleFormat4(row: Row)
    requires SpringsAre(row, "????.#...#...") && row.groups == [4, 1, 1]
    ensures Format(row) == "????.#...#... 4,1,1"
  {
    var springs := seq(|row.springs|, i requires 0 <= i < |row.springs| => Symbol(row.springs[i]));
    assert springs == "????.#...#...";
    var pieces := seq(|row.groups|, i requires 0 <= i < |row.groups| => NatToString(row.groups[i]));
    assert pieces == ["4", "1", "1"];
    assert Join(pieces[2..], ',') == "1";
    assert Join(pieces[1..], ',') == "1,1";
  }

  /** The row with springs `????.######..#####.` is written as line 5. */
  lemma ExampleFormat5(row: Row)
    requires SpringsAre(row, "????.######..#####.") && row.groups == [1, 6, 5]
    ensures Format(row) == "????.######..#####. 1,6,5"
  {
    var springs := seq(|row.springs|, i requires 0 <= i < |row.springs| => Symbol(row.springs[i]));
    assert springs == "????.######..#####.";
    var pieces := seq(|row.groups|, i requires 0 <= i < |row.groups| => NatToString(row.groups[i]));
    assert pieces == ["1", "6", "5"];
    assert Join(pieces[2..], ',') == "5";
    assert Join(pieces[1..], ',') == "6,5";
  }

  /** The row with springs `?###????????` is written as line 6. */
  lemma ExampleFormat6(row: Row)
    requires SpringsAre(row, "?###????????") && row.groups == [3, 2, 1]
    ensures Format(row) == "?###???????? 3,2,1"
  {
    var springs := seq(|row.springs|, i requires 0 <= i < |row.springs| => Symbol(row.springs[i]));
    assert springs == "?###????????";
    var pieces := seq(|row.groups|, i requires 0 <= i < |row.groups| => NatToString(row.groups[i]));
    assert pieces == ["3", "2", "1"];
    assert Join(pieces[2..], ',') == "1";
    assert Join(pieces[1..], ',') == "2,1";
  }

  /** `???.### 1,1,3` has 1 arrangement. */
  lemma ExampleCount1(row: Row)
    requires SpringsAre(row, "???.###") && row.groups == [1, 1, 3]
    ensures Count(row, 0, 0, 0) == 1
  {
    assert Count(row, 7, 3, 0) == 0;
    assert Count(row, 7, 3, 1) == 0;
    assert Count(row, 7, 3, 2) == 1;
    assert Count(row, 6, 2, 0) == 0;
    assert Count(row, 6, 2, 1) == 0;
    assert Count(row, 6, 2, 2) == 1;
    assert Count(row, 5, 1, 0) == 0;
    assert Count(row, 5, 1, 1) == 0;
    assert Count(row, 5, 1, 2) == 1;
    assert Count(row, 4, 0, 0) == 0;
    assert Count(row, 4, 0, 1) == 0;
    assert Count(row, 4, 0, 2) == 1;
    assert Count(row, 3, 0, 0) == 0;
    assert Count(row, 3, 0, 1) == 0;
    assert Count(row, 3, 1, 0) == 0;
    assert Count(row, 3, 1, 1) == 1;
    assert Count(row, 3, 2, 0) == 0;
    assert Count(row, 3, 3, 0) == 0;
    assert Count(row, 2, 0, 0) == 0;
    assert Count(row, 2, 0, 1) == 1;
    assert Count(row, 2, 1, 0) == 0;
    assert Count(row, 2, 2, 0) == 0;
    assert Count(row, 1, 0, 0) == 0;
    assert Count(row, 1, 1, 0) == 1;
    assert Count(row, 0, 0, 0) == 1;
  }

  /** `.??..??...?##. 1,1,3` has 4 arrangements. */
  lemma ExampleCount2(row: Row)
    requires SpringsAre(row, ".??..??...?##.") && row.groups == [1, 1, 3]
    ensures Count(row, 0, 0, 0) == 4
  {
    assert Count(row, 14, 0, 3) == 1;
    assert Count(row, 13, 2, 0) == 0;
    assert Count(row, 13, 2, 1) == 0;
    assert Count(row, 13, 2, 2) == 0;
    assert Count(row, 13, 3, 0) == 0;
    assert Count(row, 13, 3, 1) == 0;
    assert Count(row, 13, 3, 2) == 1;
    assert Count(row, 12, 1, 0) == 0;
    assert Count(row, 12, 1, 1) == 0;
    assert Count(row, 12, 1, 2) == 0;
    assert Count(row, 12, 2, 0) == 0;
    assert Count(row, 12, 2, 1) == 0;
    assert Count(row, 12, 2, 2) == 1;
    assert Count(row, 11, 0, 0) == 0;
    assert Count(row, 11, 0, 1) == 0;
    assert Count(row, 11, 0, 2) == 0;
    assert Count(row, 11, 1, 0) == 0;
    assert Count(row, 11, 1, 1) == 0;
    assert Count(row, 11, 1, 2) == 1;
    assert Count(row, 10, 0, 0) == 0;
    assert Count(row, 10, 0, 1) == 0;
    assert Count(row, 10, 0, 2) == 1;
    assert Count(row, 9, 0, 0) == 0;
    assert Count(row, 9, 0, 1) == 0;
    assert Count(row, 9, 0, 2) == 1;
    assert Count(row, 8, 0, 0) == 0;
    assert Count(row, 8, 0, 1) == 0;
    assert Count(row, 8, 0, 2) == 1;
    assert Count(row, 7, 0, 0) == 0;
    assert Count(row, 7, 0, 1) == 0;
    assert Count(row, 7, 0, 2) == 1;
    assert Count(row, 7, 1, 0) == 0;
    assert Count(row, 7, 1, 1) == 1;
    assert Count(row, 7, 2, 0) == 0;
    assert Count(row, 7, 2, 1) == 0;
    assert Count(row, 6, 0, 0) == 0;
    assert Count(row, 6, 0, 1) == 1;
    assert Count(row, 6, 1, 0) == 0;
    assert Count(row, 6, 1, 1) == 1;
    assert Count(row, 5, 0, 0) == 0;
    assert Count(row, 5, 0, 1) == 2;
    assert Count(row, 4, 0, 0) == 0;
    assert Count(row, 4, 0, 1) == 2;
    assert Count(row, 3, 0, 0) == 0;
    assert Count(row, 3, 0, 1) == 2;
    assert Count(row, 3, 1, 0) == 2;
    assert Count(row, 3, 2, 0) == 0;
    assert Count(row, 2, 0, 0) == 2;
    assert Count(row, 2, 1, 0) == 2;
    assert Count(row, 1, 0, 0) == 4;
    assert Count(row, 0, 0, 0) == 4;
  }

  /** `?#?#?#?#?#?#?#? 1,3,1,6` has 1 arrangement. */
  lemma ExampleCount3(row: Row)
    requires SpringsAre(row, "?#?#?#?#?#?#?#?") && row.groups == [1, 3, 1, 6]
    ensures Count(row, 0, 0, 0) == 1
  {
    assert Count(row, 15, 6, 3) == 1;
    assert Count(row, 15, 8, 2) == 0;
    assert Count(row, 15, 12, 1) == 0;
    assert Count(row, 15, 14, 0) == 0;
    assert Count(row, 15, 15, 0) == 0;
    assert Count(row, 14, 5, 3) == 1;
    assert Count(row, 14, 7, 2) == 0;
    assert Count(row, 14, 11, 1) == 0;
    assert Count(row, 14, 13, 0) == 0;
    assert Count(row, 14, 14, 0) == 0;
    assert Count(row, 13, 4, 3) == 1;
    assert Count(row, 13, 6, 2) == 0;
    assert Count(row, 13, 10, 1) == 0;
    assert Count(row, 13, 12, 0) == 0;
    assert Count(row, 13, 13, 0) == 0;
    assert Count(row, 12, 3, 3) == 1;
    assert Count(row, 12, 5, 2) == 0;
    assert Count(row, 12, 9, 1) == 0;
    assert Count(row, 12, 11, 0) == 0;
    assert Count(row, 12, 12, 0) == 0;
    assert Count(row, 11, 2, 3) == 1;
    assert Count(row, 11, 4, 2) == 0;
    assert Count(row, 11, 8, 1) == 0;
    assert Count(row, 11, 10, 0) == 0;
    assert Count(row, 11, 11, 0) == 0;
    assert Count(row, 10, 1, 3) == 1;
    assert Count(row, 10, 3, 2) == 0;
    assert Count(row, 10, 7, 1) == 0;
    assert Count(row, 10, 9, 0) == 0;
    assert Count(row, 10, 10, 0) == 0;
    assert Count(row, 9, 0, 3) == 1;
    assert Count(row, 9, 2, 2) == 0;
    assert Count(row, 9, 6, 1) == 0;
    assert Count(row, 9, 8, 0) == 0;
    assert Count(row, 9, 9, 0) == 0;
    assert Count(row, 8, 1, 2) == 1;
    assert Count(row, 8, 5, 1) == 0;
    assert Count(row, 8, 7, 0) == 0;
    assert Count(row, 8, 8, 0) == 0;
    assert Count(row, 7, 0, 2) == 1;
    assert Count(row, 7, 4, 1) == 0;
    assert Count(row, 7, 6, 0) == 0;
    assert Count(row, 7, 7, 0) == 0;
    assert Count(row, 6, 3, 1) == 1;
    assert Count(row, 6, 5, 0) == 0;
    assert Count(row, 6, 6, 0) == 0;
    assert Count(row, 5, 2, 1) == 1;
    assert Count(row, 5, 4, 0) == 0;
    assert Count(row, 5, 5, 0) == 0;
    assert Count(row, 4, 1, 1) == 1;
    assert Count(row, 4, 3, 0) == 0;
    assert Count(row, 4, 4, 0) == 0;
    assert Count(row, 3, 0, 1) == 1;
    assert Count(row, 3, 2, 0) == 0;
    assert Count(row, 3, 3, 0) == 0;
    assert Count(row, 2, 1, 0) == 1;
    assert Count(row, 2, 2, 0) == 0;
    assert Count(row, 1, 0, 0) == 1;
    assert Count(row, 1, 1, 0) == 0;
    assert Count(row, 0, 0, 0) == 1;
  }

  /** `????.#...#... 4,1,1` has 1 arrangement. */
  lemma ExampleCount4(row: Row)
    requires SpringsAre(row, "????.#...#...") && row.groups == [4, 1, 1]
    ensures Count(row, 0, 0, 0) == 1
  {
    assert Count(row, 13, 0, 3) == 1;
    assert Count(row, 12, 0, 3) == 1;
    assert Count(row, 11, 0, 3) == 1;
    assert Count(row, 10, 1, 2) == 1;
    assert Count(row, 9, 0, 2) == 1;
    assert Count(row, 8, 0, 2) == 1;
    assert Count(row, 7, 0, 2) == 1;
    assert Count(row, 6, 1, 0) == 0;
    assert Count(row, 6, 1, 1) == 1;
    assert Count(row, 5, 0, 0) == 0;
    assert Count(row, 5, 0, 1) == 1;
    assert Count(row, 4, 0, 0) == 0;
    assert Count(row, 4, 1, 0) == 0;
    assert Count(row, 4, 2, 0) == 0;
    assert Count(row, 4, 3, 0) == 0;
    assert Count(row, 4, 4, 0) == 1;
    assert Count(row, 3, 0, 0) == 0;
    assert Count(row, 3, 1, 0) == 0;
    assert Count(row, 3, 2, 0) == 0;
    assert Count(row, 3, 3, 0) == 1;
    assert Count(row, 2, 0, 0) == 0;
    assert Count(row, 2, 1, 0) == 0;
    assert Count(row, 2, 2, 0) == 1;
    assert Count(row, 1, 0, 0) == 0;
    assert Count(row, 1, 1, 0) == 1;
    assert Count(row, 0, 0, 0) == 1;
  }

  /** `????.######..#####. 1,6,5` has 4 arrangements. */
  lemma ExampleCount5(row: Row)
    requires SpringsAre(row, "????.######..#####.") && row.groups == [1, 6, 5]
    ensures Count(row, 0, 0, 0) == 4
  {
    assert Count(row, 19, 0, 3) == 1;
    assert Count(row, 18, 5, 2) == 1;
    assert Count(row, 17, 4, 2) == 1;
    assert Count(row, 16, 3, 2) == 1;
    assert Count(row, 15, 2, 2) == 1;
    assert Count(row, 14, 1, 2) == 1;
    assert Count(row, 13, 0, 2) == 1;
    assert Count(row, 12, 0, 2) == 1;
    assert Count(row, 11, 6, 0) == 0;
    assert Count(row, 11, 6, 1) == 1;
    assert Count(row, 10, 5, 0) == 0;
    assert Count(row, 10, 5, 1) == 1;
    assert Count(row, 9, 4, 0) == 0;
    assert Count(row, 9, 4, 1) == 1;
    assert Count(row, 8, 3, 0) == 0;
    assert Count(row, 8, 3, 1) == 1;
    assert Count(row, 7, 2, 0) == 0;
    assert Count(row, 7, 2, 1) == 1;
    assert Count(row, 6, 1, 0) == 0;
    assert Count(row, 6, 1, 1) == 1;
    assert Count(row, 5, 0, 0) == 0;
    assert Count(row, 5, 0, 1) == 1;
    assert Count(row, 4, 0, 0) == 0;
    assert Count(row, 4, 0, 1) == 1;
    assert Count(row, 4, 1, 0) == 1;
    assert Count(row, 4, 1, 1) == 0;
    assert Count(row, 4, 2, 0) == 0;
    assert Count(row, 4, 2, 1) == 0;
    assert Count(row, 4, 3, 0) == 0;
    assert Count(row, 4, 4, 0) == 0;
    assert Count(row, 3, 0, 0) == 1;
    assert Count(row, 3, 0, 1) == 1;
    assert Count(row, 3, 1, 0) == 1;
    assert Count(row, 3, 1, 1) == 0;
    assert Count(row, 3, 2, 0) == 0;
    assert Count(row, 3, 3, 0) == 0;
    assert Count(row, 2, 0, 0) == 2;
    assert Count(row, 2, 0, 1) == 1;
    assert Count(row, 2, 1, 0) == 1;
    assert Count(row, 2, 2, 0) == 0;
    assert Count(row, 1, 0, 0) == 3;
    assert Count(row, 1, 1, 0) == 1;
    assert Count(row, 0, 0, 0) == 4;
  }

  /** `?###???????? 3,2,1` has 10 arrangements. */
  lemma ExampleCount6(row: Row)
    requires SpringsAre(row, "?###????????") && row.groups == [3, 2, 1]
    ensures Count(row, 0, 0, 0) == 10
  {
    assert Count(row, 12, 0, 1) == 0;
    assert Count(row, 12, 0, 2) == 0;
    assert Count(row, 12, 0, 3) == 1;
    assert Count(row, 12, 1, 1) == 0;
    assert Count(row, 12, 1, 2) == 1;
    assert Count(row, 12, 1, 3) == 0;
    assert Count(row, 12, 2, 1) == 0;
    assert Count(row, 12, 2, 2) == 0;
    assert Count(row, 12, 2, 3) == 0;
    assert Count(row, 12, 3, 1) == 0;
    assert Count(row, 12, 3, 2) == 0;
    assert Count(row, 12, 4, 1) == 0;
    assert Count(row, 12, 4, 2) == 0;
    assert Count(row, 12, 5, 1) == 0;
    assert Count(row, 12, 6, 1) == 0;
    assert Count(row, 12, 7, 1) == 0;
    assert Count(row, 12, 11, 0) == 0;
    assert Count(row, 12, 12, 0) == 0;
    assert Count(row, 11, 0, 1) == 0;
    assert Count(row, 11, 0, 2) == 1;
    assert Count(row, 11, 0, 3) == 1;
    assert Count(row, 11, 1, 1) == 0;
    assert Count(row, 11, 1, 2) == 1;
    assert Count(row, 11, 1, 3) == 0;
    assert Count(row, 11, 2, 1) == 0;
    assert Count(row, 11, 2, 2) == 0;
    assert Count(row, 11, 3, 1) == 0;
    assert Count(row, 11, 3, 2) == 0;
    assert Count(row, 11, 4, 1) == 0;
    assert Count(row, 11, 5, 1) == 0;
    assert Count(row, 11, 6, 1) == 0;
    assert Count(row, 11, 10, 0) == 0;
    assert Count(row, 11, 11, 0) == 0;
    assert Count(row, 10, 0, 1) == 0;
    assert Count(row, 10, 0, 2) == 2;
    assert Count(row, 10, 0, 3) == 1;
    assert Count(row, 10, 1, 1) == 0;
    assert Count(row, 10, 1, 2) == 1;
    assert Count(row, 10, 2, 1) == 1;
    assert Count(row, 10, 2, 2) == 0;
    assert Count(row, 10, 3, 1) == 0;
    assert Count(row, 10, 4, 1) == 0;
    assert Count(row, 10, 5, 1) == 0;
    assert Count(row, 10, 9, 0) == 0;
    assert Count(row, 10, 10, 0) == 0;
    assert Count(row, 9, 0, 1) == 0;
    assert Count(row, 9, 0, 2) == 3;
    assert Count(row, 9, 1, 1) == 1;
    assert Count(row, 9, 1, 2) == 1;
    assert Count(row, 9, 2, 1) == 2;
    assert Count(row, 9, 3, 1) == 0;
    assert Count(row, 9, 4, 1) == 0;
    assert Count(row, 9, 8, 0) == 0;
    assert Count(row, 9, 9, 0) == 0;
    assert Count(row, 8, 0, 1) == 1;
    assert Count(row, 8, 0, 2) == 4;
    assert Count(row, 8, 1, 1) == 2;
    assert Count(row, 8, 2, 1) == 3;
    assert Count(row, 8, 3, 1) == 0;
    assert Count(row, 8, 7, 0) == 0;
    assert Count(row, 8, 8, 0) == 0;
    assert Count(row, 7, 0, 1) == 3;
    assert Count(row, 7, 1, 1) == 3;
    assert Count(row, 7, 2, 1) == 4;
    assert Count(row, 7, 6, 0) == 0;
    assert Count(row, 7, 7, 0) == 0;
    assert Count(row, 6, 0, 1) == 6;
    assert Count(row, 6, 1, 1) == 4;
    assert Count(row, 6, 5, 0) == 0;
    assert Count(row, 6, 6, 0) == 0;
    assert Count(row, 5, 0, 1) == 10;
    assert Count(row, 5, 4, 0) == 0;
    assert Count(row, 5, 5, 0) == 0;
    assert Count(row, 4, 3, 0) == 10;
    assert Count(row, 4, 4, 0) == 0;
    assert Count(row, 3, 2, 0) == 10;
    assert Count(row, 3, 3, 0) == 0;
    assert Count(row, 2, 1, 0) == 10;
    assert Count(row, 2, 2, 0) == 0;
    assert Count(row, 1, 0, 0) == 10;
    assert Count(row, 1, 1, 0) == 0;
    assert Count(row, 0, 0, 0) == 10;
  }

  /** The arrangements of every row, added up: the first answer. */
  function TotalArrangements(rows: seq<Row>): nat {
    if rows == [] then 0 else Count(rows[0], 0, 0, 0) + TotalArrangements(rows[1..])
  }

  /** The rows of the example have 21 arrangements in all. */
  lemma ExampleTotal(rows: seq<Row>)
    requires |rows| == 6
    requires SpringsAre(rows[0], "???.###") && rows[0].groups == [1, 1, 3]
    requires SpringsAre(rows[1], ".??..??...?##.") && rows[1].groups == [1, 1, 3]
    requires SpringsAre(rows[2], "?#?#?#?#?#?#?#?") && rows[2].groups == [1, 3, 1, 6]
    requires SpringsAre(rows[3], "????.#...#...") && rows[3].groups == [4, 1, 1]
    requires SpringsAre(rows[4], "????.######..#####.") && rows[4].groups == [1, 6, 5]
    requires SpringsAre(rows[5], "?###????????") && rows[5].groups == [3, 2, 1]
    ensures TotalArrangements(rows) == 21
  {
    ExampleCount1(rows[0]);
    ExampleCount2(rows[1]);
    ExampleCount3(rows[2]);
    ExampleCount4(rows[3]);
    ExampleCount5(rows[4]);
    ExampleCount6(rows[5]);
    assert TotalArrangements(rows[5..]) == 10;
    assert TotalArrangements(rows[4..]) == 14;
    assert TotalArrangements(rows[3..]) == 15;
    assert TotalArrangements(rows[2..]) == 16;
    assert TotalArrangements(rows[1..]) == 20;
  }
}
