/** Day 18: a dig plan of straight trenches; the lagoon it encloses is
    counted by the shoelace formula and Pick's theorem. Part two reads the
    instructions out of the colour codes. */
module Day18 {
  import opened Wrappers
  import opened Text
  import opened Grid

  /** A signed position of the plane, `x` to the right and `y` down. */
  datatype Point = Point(x: int, y: int)

  datatype Instruction = Instruction(direction: Direction, steps: int)

  /** The signed unit step of a direction (`dx`, `dy`). */
  function Dx(d: Direction): int {
    match d
    case Left => -1
    case Right => 1
    case _ => 0
  }

  function Dy(d: Direction): int {
    match d
    case Up => -1
    case Down => 1
    case _ => 0
  }

  /** `Direction::try_from` for the letters of the plan. */
  function DirectionOf(c: char): Option<Direction> {
    if c == 'U' then Some(Up)
    else if c == 'D' then Some(Down)
    else if c == 'L' then Some(Left)
    else if c == 'R' then Some(Right)
    else None
  }

  function Letter(d: Direction): char {
    match d
    case Up => 'U'
    case Down => 'D'
    case Left => 'L'
    case Right => 'R'
  }

  /** `Instruction::from_str`: a direction letter, then a signed step count;
      a missing word or an unknown letter is an error string and so is a bad
      number. */
  function InstructionOf(s: string): Result<Instruction> {
    var words := SplitWhitespace(s);
    if words == [] then Err(Bad("Missing direction."))
    else
      SplitWhitespaceWords(s);
      match DirectionOf(words[0][0])
      case None => Err(Bad("Invalid direction: " + [words[0][0]] + "."))
      case Some(d) =>
        if |words| < 2 then Err(Bad("Missing number of steps."))
        else
          match ParseInt(words[1])
          case None => Err(BadNumber)
          case Some(n) => Ok(Instruction(d, n))
  }

  /** The line `"D 5"` that describes an instruction. */
  function Format(ins: Instruction): string
    requires ins.steps >= 0
  {
    [Letter(ins.direction), ' '] + NatToString(ins.steps)
  }

  /** Reading a written instruction gives it back. */
  lemma InstructionRoundTrip(ins: Instruction)
    requires ins.steps >= 0
    ensures InstructionOf(Format(ins)) == Ok(ins)
  {
    var n := NatToString(ins.steps);
    ParseIntToString(ins.steps);
    assert IsWord([Letter(ins.direction)]);
    assert Format(ins) == [Letter(ins.direction)] + [' '] + n;
    SplitWhitespaceCons([Letter(ins.direction)], n);
    SplitWhitespaceWord(n);
  }

  /** `DigPlan::from_str`: one instruction per line, the first error
      ending the parse. */
  function PlanOf(s: string): Result<seq<Instruction>> {
    MapResult(Lines(s), InstructionOf)
  }

  // ---------------------------------------------------------------------
  // Part one

  /** One instruction from `p`: `steps` cubes in its direction. */
  function Move(p: Point, ins: Instruction): Point {
    match ins.direction
    case Up => Point(p.x, p.y - ins.steps)
    case Down => Point(p.x, p.y + ins.steps)
    case Left => Point(p.x - ins.steps, p.y)
    case Right => Point(p.x + ins.steps, p.y)
  }

  /** `direction.dx * steps` and `direction.dy * steps` move as `Move`. */
  lemma MoveByDelta(p: Point, ins: Instruction)
    ensures Move(p, ins) == Point(p.x + Dx(ins.direction) * ins.steps, p.y + Dy(ins.direction) * ins.steps)
  {
  }

  /** The cross product of two consecutive corners. */
  function Cross(p: Point, q: Point): int {
    p.x * q.y - p.y * q.x
  }

  /** What the loop of `part1` carries: the position, the shoelace sum (twice
      the signed area swept around the origin) and the cubes dug. */
  datatype Walk = Walk(position: Point, accumulator: int, totalSteps: int)

  const Start := Walk(Point(0, 0), 0, 0)

  /** One instruction of the walk. */
  function Advance(w: Walk, ins: Instruction): Walk {
    var next := Move(w.position, ins);
    Walk(next, w.accumulator + Cross(w.position, next), w.totalSteps + ins.steps)
  }

  /** The walk `w` continued with the instructions from index `k` on. */
  function WalkFrom(w: Walk, plan: seq<Instruction>, k: nat): Walk
    requires k <= |plan|
    decreases |plan| - k
  {
    if k == |plan| then w else WalkFrom(Advance(w, plan[k]), plan, k + 1)
  }

  /** `isize` division, which truncates toward zero. */
  function TruncDiv(a: int, b: int): int
    requires b > 0
  {
    if a >= 0 then a / b else -((-a) / b)
  }

  /** Pick's theorem on the trench: the boundary cubes plus the interior
      ones, `(total_steps + |accumulator|) / 2 + 1`. */
  function Area(w: Walk): int {
    TruncDiv(w.totalSteps + Abs(w.accumulator), 2) + 1
  }

  /** The cubes of the lagoon the whole plan digs, from the origin. */
  function Lagoon(plan: seq<Instruction>): int {
    Area(WalkFrom(Start, plan, 0))
  }

  /** `part1`: the walk from the origin, accumulating the shoelace sum and
      the steps. */
  method Part1(plan: seq<Instruction>) returns (area: int)
    ensures area == Lagoon(plan)
  {
    var position := Point(0, 0);
    var accumulator := 0;
    var totalSteps := 0;
    for i := 0 to |plan|
      invariant WalkFrom(Walk(position, accumulator, totalSteps), plan, i) == WalkFrom(Start, plan, 0)
    {
      var d := plan[i].direction;
      var steps := plan[i].steps;
      var next := Point(position.x + Dx(d) * steps, position.y + Dy(d) * steps);
      MoveByDelta(position, plan[i]);
      accumulator := accumulator + (position.x * next.y - position.y * next.x);
      totalSteps := totalSteps + steps;
      position := next;
    }
    area := TruncDiv(totalSteps + Abs(accumulator), 2) + 1;
  }

  /** The walk continues through one instruction already known. */
  lemma WalkStep(plan: seq<Instruction>, k: nat, w: Walk, ins: Instruction, w2: Walk)
    requires k < |plan| && plan[k] == ins && w2 == Advance(w, ins)
    ensures WalkFrom(w, plan, k) == WalkFrom(w2, plan, k + 1)
  {
  }

  /** A rectangle of `a` by `b` trenches, dug clockwise from its top left
      corner, holds `(a + 1) * (b + 1)` cubes. */
  lemma RectangleLagoon(a: nat, b: nat)
    ensures Lagoon([Instruction(Right, a), Instruction(Down, b), Instruction(Left, a), Instruction(Up, b)]) == (a + 1) * (b + 1)
  {
    var plan := [Instruction(Right, a), Instruction(Down, b), Instruction(Left, a), Instruction(Up, b)];
    var ab := a * b;
    WalkStep(plan, 0, Walk(Point(0, 0), 0, 0), Instruction(Right, a), Walk(Point(a, 0), 0, a));
    WalkStep(plan, 1, Walk(Point(a, 0), 0, a), Instruction(Down, b), Walk(Point(a, b), ab, a + b));
    WalkStep(plan, 2, Walk(Point(a, b), ab, a + b), Instruction(Left, a), Walk(Point(0, b), 2 * ab, 2 * a + b));
    WalkStep(plan, 3, Walk(Point(0, b), 2 * ab, 2 * a + b), Instruction(Up, b), Walk(Point(0, 0), 2 * ab, 2 * a + 2 * b));
    assert TruncDiv(2 * a + 2 * b + 2 * ab, 2) == a + b + ab;
    assert (a + 1) * (b + 1) == ab + a + b + 1;
  }

  /** A trench dug out and back encloses nothing: its `n + 1` cubes are the
      whole lagoon ("L 2" then "R 2" digs 3). */
  lemma OutAndBack(d: Direction, n: nat)
    ensures Lagoon([Instruction(d, n), Instruction(Opposite(d), n)]) == n + 1
  {
    var plan := [Instruction(d, n), Instruction(Opposite(d), n)];
    var p := Move(Point(0, 0), Instruction(d, n));
    assert Cross(Point(0, 0), p) == 0 && Cross(p, Point(0, 0)) == 0;
    assert Move(p, Instruction(Opposite(d), n)) == Point(0, 0) by {
      MoveBack(Point(0, 0), d, n);
    }
    WalkStep(plan, 0, Walk(Point(0, 0), 0, 0), Instruction(d, n), Walk(p, 0, n));
    WalkStep(plan, 1, Walk(p, 0, n), Instruction(Opposite(d), n), Walk(Point(0, 0), 0, 2 * n));
  }

  /** Digging back the way one came returns to the start. */
  lemma MoveBack(p: Point, d: Direction, n: int)
    ensures Move(Move(p, Instruction(d, n)), Instruction(Opposite(d), n)) == p
  {
  }

  /** The quarter turn clockwise of the plane, `(x, y)` to `(-y, x)`. */
  function Turn(p: Point): Point {
    Point(-p.y, p.x)
  }

  /** The plan with every direction turned a quarter clockwise. */
  function TurnPlan(plan: seq<Instruction>): (r: seq<Instruction>)
    ensures |r| == |plan|
    ensures forall i :: 0 <= i < |plan| ==> r[i] == Instruction(RotateRight(plan[i].direction), plan[i].steps)
  {
    seq(|plan|, i requires 0 <= i < |plan| => Instruction(RotateRight(plan[i].direction), plan[i].steps))
  }

  function TurnWalk(w: Walk): Walk {
    Walk(Turn(w.position), w.accumulator, w.totalSteps)
  }

  lemma TurnAdvance(w: Walk, ins: Instruction)
    ensures Advance(TurnWalk(w), Instruction(RotateRight(ins.direction), ins.steps)) == TurnWalk(Advance(w, ins))
  {
    var p := w.position;
    var q := Move(p, ins);
    assert Move(Turn(p), Instruction(RotateRight(ins.direction), ins.steps)) == Turn(q);
    assert Cross(Turn(p), Turn(q)) == Cross(p, q);
  }

  lemma {:induction false} TurnWalkFrom(w: Walk, plan: seq<Instruction>, k: nat)
    requires k <= |plan|
    ensures WalkFrom(TurnWalk(w), TurnPlan(plan), k) == TurnWalk(WalkFrom(w, plan, k))
    decreases |plan| - k
  {
    if k < |plan| {
      TurnAdvance(w, plan[k]);
      TurnWalkFrom(Advance(w, plan[k]), plan, k + 1);
    }
  }

  /** The lagoon does not depend on the plan's orientation: turning every
      instruction a quarter clockwise digs as many cubes. */
  lemma LagoonTurned(plan: seq<Instruction>)
    ensures Lagoon(TurnPlan(plan)) == Lagoon(plan)
  {
    TurnWalkFrom(Start, plan, 0);
  }

  /** The plan of the puzzle's example, "R 6" to "U 2". */
  predicate IsExamplePlan(plan: seq<Instruction>) {
    && |plan| == 14
    && plan[0] == Instruction(Right, 6)
    && plan[1] == Instruction(Down, 5)
    && plan[2] == Instruction(Left, 2)
    && plan[3] == Instruction(Down, 2)
    && plan[4] == Instruction(Right, 2)
    && plan[5] == Instruction(Down, 2)
    && plan[6] == Instruction(Left, 5)
    && plan[7] == Instruction(Up, 2)
    && plan[8] == Instruction(Left, 1)
    && plan[9] == Instruction(Up, 2)
    && plan[10] == Instruction(Right, 2)
    && plan[11] == Instruction(Up, 3)
    && plan[12] == Instruction(Left, 2)
    && plan[13] == Instruction(Up, 2)
  }

  /** The example's walk: the corners run from (6, 0) round to the origin,
      the shoelace sum is 84 and 38 cubes are dug. */
  lemma ExampleWalk(plan: seq<Instruction>)
    requires IsExamplePlan(plan)
    ensures WalkFrom(Walk(Point(0, 0), 0, 0), plan, 0) == Walk(Point(0, 0), 84, 38)
  {
    WalkStep(plan, 0, Walk(Point(0, 0), 0, 0), Instruction(Right, 6), Walk(Point(6, 0), 0, 6));
    WalkStep(plan, 1, Walk(Point(6, 0), 0, 6), Instruction(Down, 5), Walk(Point(6, 5), 30, 11));
    WalkStep(plan, 2, Walk(Point(6, 5), 30, 11), Instruction(Left, 2), Walk(Point(4, 5), 40, 13));
    WalkStep(plan, 3, Walk(Point(4, 5), 40, 13), Instruction(Down, 2), Walk(Point(4, 7), 48, 15));
    WalkStep(plan, 4, Walk(Point(4, 7), 48, 15), Instruction(Right, 2), Walk(Point(6, 7), 34, 17));
    WalkStep(plan, 5, Walk(Point(6, 7), 34, 17), Instruction(Down, 2), Walk(Point(6, 9), 46, 19));
    WalkStep(plan, 6, Walk(Point(6, 9), 46, 19), Instruction(Left, 5), Walk(Point(1, 9), 91, 24));
    WalkStep(plan, 7, Walk(Point(1, 9), 91, 24), Instruction(Up, 2), Walk(Point(1, 7), 89, 26));
    WalkStep(plan, 8, Walk(Point(1, 7), 89, 26), Instruction(Left, 1), Walk(Point(0, 7), 96, 27));
    WalkStep(plan, 9, Walk(Point(0, 7), 96, 27), Instruction(Up, 2), Walk(Point(0, 5), 96, 29));
    WalkStep(plan, 10, Walk(Point(0, 5), 96, 29), Instruction(Right, 2), Walk(Point(2, 5), 86, 31));
    WalkStep(plan, 11, Walk(Point(2, 5), 86, 31), Instruction(Up, 3), Walk(Point(2, 2), 80, 34));
    WalkStep(plan, 12, Walk(Point(2, 2), 80, 34), Instruction(Left, 2), Walk(Point(0, 2), 84, 36));
    WalkStep(plan, 13, Walk(Point(0, 2), 84, 36), Instruction(Up, 2), Walk(Point(0, 0), 84, 38));
  }

  /** The example's lagoon holds 62 cubes. */
  lemma ExamplePart1(plan: seq<Instruction>)
    requires IsExamplePlan(plan)
    ensures Lagoon(plan) == 62
  {
    ExampleWalk(plan);
  }

  /** The example's plan as part two decodes its colour codes, "#70c710"
      to "#7a21e3". */
  predicate IsDecodedExample(plan: seq<Instruction>) {
    && |plan| == 14
    && plan[0] == Instruction(Right, 461937)
    && plan[1] == Instruction(Down, 56407)
    && plan[2] == Instruction(Right, 356671)
    && plan[3] == Instruction(Down, 863240)
    && plan[4] == Instruction(Right, 367720)
    && plan[5] == Instruction(Down, 266681)
    && plan[6] == Instruction(Left, 577262)
    && plan[7] == Instruction(Up, 829975)
    && plan[8] == Instruction(Left, 112010)
    && plan[9] == Instruction(Down, 829975)
    && plan[10] == Instruction(Left, 491645)
    && plan[11] == Instruction(Up, 686074)
    && plan[12] == Instruction(Left, 5411)
    && plan[13] == Instruction(Up, 500254)
  }

  lemma DecodedExampleWalk(plan: seq<Instruction>)
    requires IsDecodedExample(plan)
    ensures WalkFrom(Walk(Point(0, 0), 0, 0), plan, 0) == Walk(Point(0, 0), 1904809882966, 6405262)
  {
    WalkStep(plan, 0, Walk(Point(0, 0), 0, 0), Instruction(Right, 461937), Walk(Point(461937, 0), 0, 461937));
    WalkStep(plan, 1, Walk(Point(461937, 0), 0, 461937), Instruction(Down, 56407), Walk(Point(461937, 56407), 26056480359, 518344));
    WalkStep(plan, 2, Walk(Point(461937, 56407), 26056480359, 518344), Instruction(Right, 356671), Walk(Point(818608, 56407), 5937739262, 875015));
    WalkStep(plan, 3, Walk(Point(818608, 56407), 5937739262, 875015), Instruction(Down, 863240), Walk(Point(818608, 919647), 712592909182, 1738255));
    WalkStep(plan, 4, Walk(Point(818608, 919647), 712592909182, 1738255), Instruction(Right, 367720), Walk(Point(1186328, 919647), 374420314342, 2105975));
    WalkStep(plan, 5, Walk(Point(1186328, 919647), 374420314342, 2105975), Instruction(Down, 266681), Walk(Point(1186328, 1186328), 690791451710, 2372656));
    WalkStep(plan, 6, Walk(Point(1186328, 1186328), 690791451710, 2372656), Instruction(Left, 577262), Walk(Point(609066, 1186328), 1375613525646, 2949918));
    WalkStep(plan, 7, Walk(Point(609066, 1186328), 1375613525646, 2949918), Instruction(Up, 829975), Walk(Point(609066, 356353), 870103972296, 3779893));
    WalkStep(plan, 8, Walk(Point(609066, 356353), 870103972296, 3779893), Instruction(Left, 112010), Walk(Point(497056, 356353), 910019071826, 3891903));
    WalkStep(plan, 9, Walk(Point(497056, 356353), 910019071826, 3891903), Instruction(Down, 829975), Walk(Point(497056, 1186328), 1322563125426, 4721878));
    WalkStep(plan, 10, Walk(Point(497056, 1186328), 1322563125426, 4721878), Instruction(Left, 491645), Walk(Point(5411, 1186328), 1905815354986, 5213523));
    WalkStep(plan, 11, Walk(Point(5411, 1186328), 1905815354986, 5213523), Instruction(Up, 686074), Walk(Point(5411, 500254), 1902103008572, 5899597));
    WalkStep(plan, 12, Walk(Point(5411, 500254), 1902103008572, 5899597), Instruction(Left, 5411), Walk(Point(0, 500254), 1904809882966, 5905008));
    WalkStep(plan, 13, Walk(Point(0, 500254), 1904809882966, 5905008), Instruction(Up, 500254), Walk(Point(0, 0), 1904809882966, 6405262));
  }

  /** The decoded example's lagoon holds 952408144115 cubes. */
  lemma ExamplePart2(plan: seq<Instruction>)
    requires IsDecodedExample(plan)
    ensures Lagoon(plan) == 952408144115
  {
    DecodedExampleWalk(plan);
  }

  // ---------------------------------------------------------------------
  // Part two: the colour codes

  /** `isize::from_str_radix(s, 16)`: an optional sign, then at least one
      hexadecimal digit. */
  function FromHex(s: string): Option<int> {
    if s != [] && (s[0] == '+' || s[0] == '-') then
      match ParseHex(s[1..])
      case Some(n) =>
        var v: int := if s[0] == '-' then 0 - n as int else n;
        Some(v)
      case None => None
    else
      match ParseHex(s)
      case Some(n) => Some(n)
      case None => None
  }

  /** The direction digit of a colour code. */
  function DirectionDigit(c: char): Option<Direction> {
    if c == '0' then Some(Right)
    else if c == '1' then Some(Down)
    else if c == '2' then Some(Left)
    else if c == '3' then Some(Up)
    else None
  }

  /** One line of `part2`: the last word, past its first two characters
      `(#`, holds five hexadecimal digits of steps and a direction digit.
      A line without a word, a bad number, a missing or unknown direction
      digit all panic. */
  function DecodeLine(line: string): Result<Instruction> {
    var words := SplitWhitespace(line);
    if words == [] then Err(Panic)
    else
      var word := words[|words| - 1];
      var code := if |word| <= 2 then [] else word[2..];
      var digits := if |code| <= 5 then code else code[..5];
      match FromHex(digits)
      case None => Err(Panic)
      case Some(steps) =>
        if |code| <= 5 then Err(Panic)
        else
          match DirectionDigit(code[5])
          case None => Err(Panic)
          case Some(d) => Ok(Instruction(d, steps))
  }

  /** `part2`: every line decoded, then the lagoon of part one. */
  function Part2(input: string): Result<int> {
    match MapResult(Lines(input), DecodeLine)
    case Err(e) => Err(e)
    case Ok(plan) => Ok(Lagoon(plan))
  }

  /** The hexadecimal digit of `d < 16`, in lower case. */
  function HexChar(d: nat): char
    requires d < 16
  {
    if d < 10 then (('0' as int) + d) as char else (('a' as int) + d - 10) as char
  }

  /** The last `width` hexadecimal digits of `n`, most significant first. */
  function Hex(n: nat, width: nat): (s: string)
    ensures |s| == width
  {
    if width == 0 then [] else Hex(n / 16, width - 1) + [HexChar(n % 16)]
  }

  function Power16(k: nat): nat {
    if k == 0 then 1 else 16 * Power16(k - 1)
  }

  /** Digits written by `Hex` read back as the number they came from. */
  lemma {:induction false} ParseHexOfHex(n: nat, width: nat)
    requires 0 < width && n < Power16(width)
    ensures ParseHex(Hex(n, width)) == Some(n)
  {
    var s := Hex(n, width);
    assert HexDigit(HexChar(n % 16)) == Some(n % 16);
    if width > 1 {
      assert n / 16 < Power16(width - 1);
      ParseHexOfHex(n / 16, width - 1);
      assert s[..|s| - 1] == Hex(n / 16, width - 1);
    } else {
      assert n < 16;
    }
  }

  function DirectionCode(d: Direction): char {
    match d
    case Right => '0'
    case Down => '1'
    case Left => '2'
    case Up => '3'
  }

  /** A colour code `(#` + five digits of steps + the direction digit +
      `)`, after any other words, decodes to that instruction. */
  lemma DecodeRoundTrip(front: string, d: Direction, steps: nat)
    requires steps < Power16(5) && (front == [] || IsWord(front))
    ensures var code := "(#" + Hex(steps, 5) + [DirectionCode(d), ')'];
      DecodeLine(if front == [] then code else front + [' '] + code) == Ok(Instruction(d, steps))
  {
    var code := "(#" + Hex(steps, 5) + [DirectionCode(d), ')'];
    var line := if front == [] then code else front + [' '] + code;
    assert IsWord(code) by {
      HexNoSpace(steps, 5);
    }
    SplitWhitespaceWord(code);
    if front != [] {
      SplitWhitespaceCons(front, code);
    }
    var words := SplitWhitespace(line);
    assert words != [] && words[|words| - 1] == code;
    DecodeCode(line, code, d, steps);
  }

  /** The decoding of a line whose last word is a well-formed code. */
  lemma DecodeCode(line: string, code: string, d: Direction, steps: nat)
    requires steps < Power16(5) && code == "(#" + Hex(steps, 5) + [DirectionCode(d), ')']
    requires SplitWhitespace(line) != [] && SplitWhitespace(line)[|SplitWhitespace(line)| - 1] == code
    ensures DecodeLine(line) == Ok(Instruction(d, steps))
  {
    var hex := Hex(steps, 5);
    ParseHexOfHex(steps, 5);
    HexNoSpace(steps, 5);
    assert code[2..][..5] == hex;
    assert code[2..][5] == DirectionCode(d);
  }

  lemma {:induction false} HexNoSpace(n: nat, width: nat)
    ensures forall j :: 0 <= j < width ==> !IsWhitespace(Hex(n, width)[j]) && Hex(n, width)[j] != '+' && Hex(n, width)[j] != '-'
  {
    if width > 0 {
      HexNoSpace(n / 16, width - 1);
    }
  }
}
