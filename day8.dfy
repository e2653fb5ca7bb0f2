/** Day 8, part 1: a network of nodes, each with a left and a right
    destination, walked by repeating a string of left/right instructions
    from `AAA` until `ZZZ` is reached. */
module Day8 {
  import opened Wrappers
  import opened Text

  datatype Step = Left | Right

  /** Node names and the network: each node's (left, right) destinations. */
  type Node = string
  type Network = map<Node, (Node, Node)>

  /** `Step::try_from`: `L` and `R`; any other character is the error. */
  function StepOf(c: char): Result<Step> {
    if c == 'L' then Ok(Left)
    else if c == 'R' then Ok(Right)
    else Err(Bad([c]))
  }

  function StepChar(s: Step): char {
    match s
    case Left => 'L'
    case Right => 'R'
  }

  /** Exactly `L` and `R` are instructions, and each is read back as the
      instruction it writes. */
  lemma StepRoundTrip(c: char, s: Step)
    ensures StepOf(c).Ok? <==> c == 'L' || c == 'R'
    ensures StepOf(StepChar(s)) == Ok(s)
    ensures StepOf(c) == Ok(s) ==> StepChar(s) == c
  {
  }

  function StepChars(steps: seq<Step>): (r: string)
    ensures |r| == |steps|
  {
    seq(|steps|, i requires 0 <= i < |steps| => StepChar(steps[i]))
  }

  /** Writing instructions out and collecting them back gives them again. */
  lemma {:induction false} StepsRoundTrip(steps: seq<Step>)
    ensures MapResult(StepChars(steps), StepOf) == Ok(steps)
  {
    if steps != [] {
      assert StepChars(steps)[1..] == StepChars(steps[1..]);
      StepsRoundTrip(steps[1..]);
      assert [steps[0]] + steps[1..] == steps;
    }
  }

  // ---------------------------------------------------------------------
  // Walking the network

  /** One move: the chosen destination of `node`; an unknown node is the
      panic of `unwrap` on the failed lookup. */
  function Move(net: Network, node: Node, step: Step): (r: Result<Node>)
    ensures r.Ok? <==> node in net
    ensures r.Ok? ==> r.value == (if step == Left then net[node].0 else net[node].1)
  {
    if node !in net then Err(Panic)
    else if step == Left then Ok(net[node].0)
    else Ok(net[node].1)
  }

  /** The place in the instructions of the `n`-th move, counted from zero:
      `steps.iter().cycle()` starts over after the last instruction. */
  function Index(length: nat, n: nat): (k: nat)
    requires length > 0
    ensures k < length
  {
    if n < length then n else Index(length, n - length)
  }

  /** The cycle moves on by one place and wraps from the last to the
      first. */
  lemma {:induction false} IndexNext(length: nat, n: nat)
    requires length > 0
    ensures Index(length, n + 1) == if Index(length, n) + 1 == length then 0 else Index(length, n) + 1
  {
    if n >= length {
      IndexNext(length, n - length);
    }
  }

  /** The node reached after `n` moves from `start` (`generate_path` yields
      `Walk(1)`, `Walk(2)`, ...). */
  function Walk(net: Network, steps: seq<Step>, start: Node, n: nat): Result<Node>
    requires steps != []
  {
    if n == 0 then Ok(start)
    else match Walk(net, steps, start, n - 1)
      case Err(e) => Err(e)
      case Ok(node) => Move(net, node, steps[Index(|steps|, n - 1)])
  }

  /** A walk that reaches a node has reached a node at every earlier move:
      once a lookup fails, the walk is over. */
  lemma {:induction false} WalkOkBefore(net: Network, steps: seq<Step>, start: Node, j: nat, n: nat)
    requires steps != [] && j <= n && Walk(net, steps, start, n).Ok?
    ensures Walk(net, steps, start, j).Ok?
    decreases n
  {
    if j < n {
      WalkOkBefore(net, steps, start, j, n - 1);
    }
  }

  /** After a whole round of instructions the walk starts over from the node
      it has reached. */
  lemma {:induction false} WalkRound(net: Network, steps: seq<Step>, start: Node, mid: Node, n: nat)
    requires steps != [] && Walk(net, steps, start, |steps|) == Ok(mid)
    ensures Walk(net, steps, start, |steps| + n) == Walk(net, steps, mid, n)
  {
    if n > 0 {
      WalkRound(net, steps, start, mid, n - 1);
      assert Index(|steps|, |steps| + n - 1) == Index(|steps|, n - 1);
    }
  }

  /** `count_steps`' answer: `m` moves reach `end` for the first time. */
  predicate FirstArrival(net: Network, steps: seq<Step>, start: Node, end: Node, m: nat)
    requires steps != []
  {
    1 <= m && Walk(net, steps, start, m) == Ok(end) &&
    forall j :: 1 <= j < m ==> Walk(net, steps, start, j) != Ok(end)
  }

  /** A walk that comes back to `start` after one round without having met
      `end` never meets it: `count_steps` would not return. */
  lemma {:induction false} NeverArrives(net: Network, steps: seq<Step>, start: Node, end: Node, m: nat)
    requires steps != [] && Walk(net, steps, start, |steps|) == Ok(start)
    requires forall j :: 1 <= j <= |steps| ==> Walk(net, steps, start, j) != Ok(end)
    requires 1 <= m
    ensures Walk(net, steps, start, m) != Ok(end)
  {
    if m > |steps| {
      WalkRound(net, steps, start, start, m - |steps|);
      NeverArrives(net, steps, start, end, m - |steps|);
    }
  }

  /** `Network::count_steps`: the number of moves up to and including the
      first arrival at `end` (one when there are no instructions, as the
      empty cycle yields nothing). The walk must arrive: `arrival` is a
      number of moves after which it is at `end`. */
  method CountSteps(net: Network, steps: seq<Step>, start: Node, end: Node, ghost arrival: nat)
    returns (count: nat)
    requires steps == [] || (1 <= arrival && Walk(net, steps, start, arrival) == Ok(end))
    ensures steps == [] ==> count == 1
    ensures steps != [] ==> count <= arrival && FirstArrival(net, steps, start, end, count)
  {
    if steps == [] {
      return 1;
    }
    WalkOkBefore(net, steps, start, 1, arrival);
    var node := if steps[0] == Left then net[start].0 else net[start].1;
    count := 1;
    var k := if |steps| == 1 then 0 else 1;
    IndexNext(|steps|, 0);
    while node != end
      invariant 1 <= count <= arrival && Walk(net, steps, start, count) == Ok(node)
      invariant k == Index(|steps|, count)
      invariant forall j :: 1 <= j < count ==> Walk(net, steps, start, j) != Ok(end)
      decreases arrival - count
    {
      WalkOkBefore(net, steps, start, count + 1, arrival);
      node := if steps[k] == Left then net[node].0 else net[node].1;
      IndexNext(|steps|, count);
      count := count + 1;
      k := if k + 1 == |steps| then 0 else k + 1;
    }
  }

  // ---------------------------------------------------------------------
  // Parsing

  /** One line `origin = (left, right)` of `Network::try_from`: the text
      around `=` and, in the trimmed destinations, around `,`; the left name
      loses its first character and the right name keeps its first three
      (the slices panic on shorter names). */
  function NodeLine(line: string): Result<(Node, (Node, Node))> {
    match SplitOnce(line, '=')
    case None => Err(Bad("Bad format."))
    case Some((origin, destinations)) =>
      match SplitOnce(Trim(destinations), ',')
      case None => Err(Bad("Bad format."))
      case Some((left, right)) =>
        var l, r := Trim(left), Trim(right);
        if |l| < 1 || |r| < 3 then Err(Panic)
        else Ok((Trim(origin), (l[1..], r[..3])))
  }

  /** Three-character names that hold no whitespace, `=`, `,` or
      parentheses, as in the puzzle. */
  predicate IsName(x: string) {
    |x| == 3 && forall i :: 0 <= i < 3 ==>
      !IsWhitespace(x[i]) && x[i] != '=' && x[i] != ',' && x[i] != '(' && x[i] != ')'
  }

  /** A line written `a = (b, c)` is read as the entry `a -> (b, c)`. */
  lemma NodeLineOf(a: string, b: string, c: string)
    requires IsName(a) && IsName(b) && IsName(c)
    ensures NodeLine(a + " = (" + b + ", " + c + ")") == Ok((a, (b, c)))
  {
    var destinations := [' '] + (['('] + b + [','] + ([' '] + c + [')']));
    var origin := a + [' '];
    assert a + " = (" + b + ", " + c + ")" == origin + ['='] + destinations;
    assert '=' !in origin by {
      assert forall i :: 0 <= i < |origin| ==> origin[i] != '=';
    }
    SplitOnceAt(origin, '=', destinations);
    TrimSpaces(a);
    DestinationsOf(b, c, destinations);
  }

  /** The text ` (b, c)` after `=` gives the destinations `b` and `c`. */
  lemma DestinationsOf(b: string, c: string, destinations: string)
    requires IsName(b) && IsName(c)
    requires destinations == [' '] + (['('] + b + [','] + ([' '] + c + [')']))
    ensures SplitOnce(Trim(destinations), ',') == Some((['('] + b, [' '] + c + [')']))
    ensures var l, r := Trim(['('] + b), Trim([' '] + c + [')']);
      1 <= |l| && 3 <= |r| && l[1..] == b && r[..3] == c
  {
    var left, right := ['('] + b, [' '] + (c + [')']);
    var inner := left + [','] + right;
    assert right == [' '] + c + [')'];
    TrimSpaces(inner);
    assert ',' !in left by {
      assert forall i :: 0 <= i < |left| ==> left[i] != ',';
    }
    SplitOnceAt(left, ',', right);
    TrimUnchanged(left);
    TrimSpaces(c + [')']);
    assert left[1..] == b && (c + [')'])[..3] == c;
  }

  /** The network the map insertions build: a later line for the same node
      replaces an earlier one. */
  function Build(entries: seq<(Node, (Node, Node))>): Network {
    if entries == [] then map[]
    else
      var last := entries[|entries| - 1];
      Build(entries[..|entries| - 1])[last.0 := last.1]
  }

  /** The nodes of the network are exactly the origins of the lines. */
  lemma {:induction false} BuildKeys(entries: seq<(Node, (Node, Node))>, x: Node)
    ensures x in Build(entries) <==> exists i :: 0 <= i < |entries| && entries[i].0 == x
  {
    if entries != [] {
      var front := entries[..|entries| - 1];
      BuildKeys(front, x);
      if exists i :: 0 <= i < |front| && front[i].0 == x {
        var i :| 0 <= i < |front| && front[i].0 == x;
        assert entries[i].0 == x;
      }
      if exists i :: 0 <= i < |entries| && entries[i].0 == x {
        var i :| 0 <= i < |entries| && entries[i].0 == x;
        if i < |front| {
          assert front[i].0 == x;
        }
      }
    }
  }

  /** A node's destinations are those of its last line. */
  lemma {:induction false} BuildLast(entries: seq<(Node, (Node, Node))>, i: nat)
    requires i < |entries|
    requires forall j :: i < j < |entries| ==> entries[j].0 != entries[i].0
    ensures entries[i].0 in Build(entries) && Build(entries)[entries[i].0] == entries[i].1
  {
    if i < |entries| - 1 {
      var front := entries[..|entries| - 1];
      assert front[i] == entries[i];
      BuildLast(front, i);
    }
  }

  /** `Network::try_from`'s result: the first bad line's error, or the
      network of all lines. */
  function NetworkOf(lines: seq<string>): Result<Network> {
    match MapResult(lines, NodeLine)
    case Err(e) => Err(e)
    case Ok(entries) => Ok(Build(entries))
  }

  /** `Network::try_from`: inserts the lines into the map one by one. */
  method ParseNetwork(text: string) returns (r: Result<Network>)
    ensures r == NetworkOf(Lines(text))
  {
    var lines := Lines(text);
    var nodes: Network := map[];
    ghost var entries: seq<(Node, (Node, Node))> := [];
    for i := 0 to |lines|
      invariant MapResult(lines[..i], NodeLine) == Ok(entries) && nodes == Build(entries)
    {
      MapResultStep(lines, i, NodeLine, entries);
      match NodeLine(lines[i])
      case Err(e) =>
        return Err(e);
      case Ok(entry) =>
        assert (entries + [entry])[..|entries|] == entries;
        nodes := nodes[entry.0 := entry.1];
        entries := entries + [entry];
    }
    assert lines[..|lines|] == lines;
    return Ok(nodes);
  }

  /** `parse_input`: the instructions, a blank line, then the network; a bad
      instruction is the panic of `unwrap`. */
  function ParseInput(input: string): Result<(seq<Step>, Network)> {
    match SplitOnceStr(input, "\n\n")
    case None => Err(Bad("Bad format."))
    case Some((text, nodes)) =>
      match MapResult(text, StepOf)
      case Err(_) => Err(Panic)
      case Ok(steps) =>
        match NetworkOf(Lines(nodes))
        case Err(e) => Err(e)
        case Ok(net) => Ok((steps, net))
  }

  /** The instructions line is read back as the instructions it writes. */
  lemma ParseInputSteps(steps: seq<Step>, nodes: string, net: Network)
    requires NetworkOf(Lines(nodes)) == Ok(net)
    ensures ParseInput(StepChars(steps) + "\n\n" + nodes) == Ok((steps, net))
  {
    var input := StepChars(steps) + "\n\n" + nodes;
    SplitOnceStrSpec(input, "\n\n");
    assert OccursAt(input, "\n\n", |steps|) by {
      assert input[|steps|..|steps| + 2] == "\n\n";
    }
    var (a, b) := SplitOnceStr(input, "\n\n").value;
    assert |a| <= |steps|;
    assert input[|a|] == '\n';
    assert |a| >= |steps| by {
      assert forall i :: 0 <= i < |steps| ==> input[i] == StepChars(steps)[i] != '\n';
    }
    assert a == StepChars(steps) && b == nodes;
    StepsRoundTrip(steps);
  }

  // ---------------------------------------------------------------------
  // The examples of the puzzle, on the networks their texts describe

  predicate IsExampleNetwork(net: Network) {
    "AAA" in net && net["AAA"] == ("BBB", "CCC") &&
    "CCC" in net && net["CCC"] == ("ZZZ", "GGG")
  }

  /** `RL` from `AAA`: `CCC`, then `ZZZ`, two steps. */
  lemma Example(net: Network, steps: seq<Step>)
    requires IsExampleNetwork(net) && steps == [Right, Left]
    ensures FirstArrival(net, steps, "AAA", "ZZZ", 2)
  {
    assert Walk(net, steps, "AAA", 1) == Ok("CCC");
    assert Walk(net, steps, "AAA", 2) == Ok("ZZZ");
  }

  predicate IsSecondExampleNetwork(net: Network) {
    "AAA" in net && net["AAA"] == ("BBB", "BBB") &&
    "BBB" in net && net["BBB"] == ("AAA", "ZZZ")
  }

  /** `LLR` from `AAA`: `BBB`, `AAA`, `BBB`, `AAA`, `BBB`, `ZZZ`, six
      steps. */
  lemma SecondExample(net: Network, steps: seq<Step>)
    requires IsSecondExampleNetwork(net) && steps == [Left, Left, Right]
    ensures FirstArrival(net, steps, "AAA", "ZZZ", 6)
  {
    assert Walk(net, steps, "AAA", 1) == Ok("BBB");
    assert Walk(net, steps, "AAA", 2) == Ok("AAA");
    assert Walk(net, steps, "AAA", 3) == Ok("BBB");
    assert Walk(net, steps, "AAA", 4) == Ok("AAA");
    assert Walk(net, steps, "AAA", 5) == Ok("BBB");
    assert Walk(net, steps, "AAA", 6) == Ok("ZZZ");
  }
}
