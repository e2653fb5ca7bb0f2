/** Day 19: parts rated in four categories go through named workflows of
    rules until one accepts or rejects them. The second part counts the
    accepted rating combinations by splitting ranges of ratings along the
    same rules. */
module Day19 {
  import opened Wrappers
  import opened Text
  import opened RangeExtension

  /** `u64::MAX`, the open end of the range a `>` rule builds. */
  const U64Max: nat := 0xFFFF_FFFF_FFFF_FFFF

  datatype Category = X | M | A | S

  datatype Part = Part(x: nat, m: nat, a: nat, s: nat) {
    /** The part's rating in category `c`. */
    function Get(c: Category): nat {
      match c
      case X => x
      case M => m
      case A => a
      case S => s
    }

    /** `rating`: the sum of the four ratings. */
    function Rating(): nat {
      x + m + a + s
    }
  }

  datatype Outcome = Accept | Reject | Workflow(name: string)

  /** A rule sends a part on to `outcome` when its rating in `category`
      lies in `range`. */
  datatype Rule = Rule(category: Category, range: Range, outcome: Outcome)

  /** `Condition`: a rule, or an outcome for every part. */
  datatype Condition = When(rule: Rule) | Always(outcome: Outcome) {
    /** Where the condition sends what it takes. */
    function Target(): Outcome {
      match this
      case When(rule) => rule.outcome
      case Always(o) => o
    }
  }

  // ---------------------------------------------------------------------
  // Reading a condition

  function OutcomeOf(s: string): Outcome {
    if s == "A" then Accept else if s == "R" then Reject else Workflow(s)
  }

  function CategoryOf(c: char): Option<Category> {
    if c == 'x' then Some(X) else if c == 'm' then Some(M) else if c == 'a' then Some(A) else if c == 's' then Some(S) else None
  }

  function Letter(c: Category): char {
    match c
    case X => 'x'
    case M => 'm'
    case A => 'a'
    case S => 's'
  }

  /** `Condition::new`: `c<v:o` is a rule over `0..v`, `c>v:o` one over
      `v+1..u64::MAX`, and text without a colon is an outcome for every
      part. A test shorter than two characters, an unknown category or
      comparison, a number that is not a `u64` and the overflow of
      `u64::MAX + 1` panic. */
  function ConditionOf(s: string): Result<Condition> {
    match SplitOnce(s, ':')
    case None => Ok(Always(OutcomeOf(s)))
    case Some((test, out)) =>
      if |test| < 2 then Err(Panic)
      else match (CategoryOf(test[0]), ParseNat(test[2..]))
        case (Some(c), Some(v)) =>
          if v > U64Max then Err(Panic)
          else if test[1] == '<' then Ok(When(Rule(c, Range(0, v), OutcomeOf(out))))
          else if test[1] == '>' && v < U64Max then Ok(When(Rule(c, Range(v + 1, U64Max), OutcomeOf(out))))
          else Err(Panic)
        case _ => Err(Panic)
  }

  /** A rule's range starts at 0 or ends at `u64::MAX`. */
  predicate Anchored(c: Condition) {
    c.When? ==> c.rule.range.start == 0 || c.rule.range.end == U64Max
  }

  /** The test of a rule, followed by a colon and the outcome. */
  function RuleText(c: Category, comparison: char, v: nat, out: string): string {
    [Letter(c), comparison] + NatToString(v) + [':'] + out
  }

  /** `c<v:o` reads as a rule over `0..v`, `c>v:o` as one over
      `v+1..u64::MAX`. */
  lemma ConditionOfRule(c: Category, comparison: char, v: nat, out: string)
    requires (comparison == '<' || comparison == '>') && v < U64Max
    ensures ConditionOf(RuleText(c, comparison, v, out)) ==
      Ok(When(Rule(c, if comparison == '<' then Range(0, v) else Range(v + 1, U64Max), OutcomeOf(out))))
  {
    RuleRead(c, comparison, v, out);
  }

  lemma RuleRead(c: Category, comparison: char, v: nat, out: string)
    requires comparison != ':'
    ensures var test := [Letter(c), comparison] + NatToString(v);
      SplitOnce(RuleText(c, comparison, v, out), ':') == Some((test, out)) &&
      test[0] == Letter(c) && test[1] == comparison && ParseNat(test[2..]) == Some(v)
  {
    var digits := NatToString(v);
    var test := [Letter(c), comparison] + digits;
    assert ':' !in test by {
      assert forall i :: 0 <= i < |digits| ==> IsDigit(digits[i]);
      assert Letter(c) != ':';
    }
    SplitOnceAt(test, ':', out);
    assert RuleText(c, comparison, v, out) == test + [':'] + out;
    assert test[2..] == digits;
    ParseNatToString(v);
    assert CategoryOf(Letter(c)) == Some(c) by {
      match c
      case X =>
      case M =>
      case A =>
      case S =>
    }
  }

  /** Text without a colon is an outcome for every part. */
  lemma ConditionOfBare(s: string)
    requires ':' !in s
    ensures ConditionOf(s) == Ok(Always(OutcomeOf(s)))
  {
    SplitOnceSpec(s, ':');
  }

  /** Every rule read is anchored, over the category its text names. */
  lemma ConditionOfAnchored(s: string)
    requires ConditionOf(s).Ok?
    ensures Anchored(ConditionOf(s).value)
    ensures ConditionOf(s).value.When? ==> ':' in s && s[0] == Letter(ConditionOf(s).value.rule.category)
  {
    SplitOnceSpec(s, ':');
    if ConditionOf(s).value.When? {
      var (test, out) := SplitOnce(s, ':').value;
      assert s[0] == test[0];
      var c := ConditionOf(s).value.rule.category;
      assert CategoryOf(test[0]) == Some(c);
      assert Letter(c) == test[0] by {
        match c
        case X =>
        case M =>
        case A =>
        case S =>
      }
    }
  }

  // ---------------------------------------------------------------------
  // Sending one part

  /** `Condition::apply`: the outcome, when the part's rating in the
      rule's category lies in the rule's range or the condition has no
      rule. */
  function Apply(c: Condition, p: Part): Option<Outcome> {
    match c
    case When(rule) => if rule.range.Contains(p.Get(rule.category)) then Some(rule.outcome) else None
    case Always(o) => Some(o)
  }

  /** The outcomes the conditions send parts to. */
  function Targets(rules: seq<Condition>): set<Outcome> {
    if rules == [] then {} else {rules[0].Target()} + Targets(rules[1..])
  }

  /** `find_map` of `apply` over a workflow: the outcome of the first
      condition that applies. */
  function FirstMatch(rules: seq<Condition>, p: Part): Option<Outcome> {
    if rules == [] then None
    else match Apply(rules[0], p)
      case Some(o) => Some(o)
      case None => FirstMatch(rules[1..], p)
  }

  /** A workflow sends a part to one of its conditions' targets, to the
      first that applies to the part, and to none only when no condition
      applies. */
  lemma {:induction false} FirstMatchSpec(rules: seq<Condition>, p: Part)
    ensures FirstMatch(rules, p).Some? ==> FirstMatch(rules, p).value in Targets(rules)
    ensures FirstMatch(rules, p).None? <==> forall i :: 0 <= i < |rules| ==> Apply(rules[i], p).None?
    ensures forall i :: 0 <= i < |rules| && Apply(rules[i], p).Some? && FirstMatch(rules, p) != Apply(rules[i], p) ==>
      exists j :: 0 <= j < i && Apply(rules[j], p).Some?
  {
    if rules != [] {
      FirstMatchSpec(rules[1..], p);
      forall i | 0 <= i < |rules| && Apply(rules[i], p).Some? && FirstMatch(rules, p) != Apply(rules[i], p)
        ensures exists j :: 0 <= j < i && Apply(rules[j], p).Some?
      {
        if Apply(rules[0], p).None? {
          assert rules[i] == rules[1..][i - 1];
          var j :| 0 <= j < i - 1 && Apply(rules[1..][j], p).Some?;
          assert rules[j + 1] == rules[1..][j];
        }
      }
      if FirstMatch(rules, p).None? {
        forall i | 0 <= i < |rules|
          ensures Apply(rules[i], p).None?
        {
          if i > 0 {
            assert rules[i] == rules[1..][i - 1];
          }
        }
      }
    }
  }

  // ---------------------------------------------------------------------
  // Ranges of parts

  /** A range runs forwards and ends by `u64::MAX`. */
  predicate Fits(r: Range) {
    0 <= r.start <= r.end <= U64Max
  }

  function Width(r: Range): nat
    requires r.start <= r.end
  {
    r.end - r.start
  }

  /** `PartRange`: a range of ratings in each category. */
  datatype PartRange = PartRange(x: Range, m: Range, a: Range, s: Range) {
    function Get(c: Category): Range {
      match c
      case X => x
      case M => m
      case A => a
      case S => s
    }

    /** The same ranges but `r` in category `c`. */
    function With(c: Category, r: Range): PartRange {
      match c
      case X => this.(x := r)
      case M => this.(m := r)
      case A => this.(a := r)
      case S => this.(s := r)
    }

    /** `is_empty`: some range has equal ends. */
    predicate IsEmpty() {
      x.start == x.end || m.start == m.end || a.start == a.end || s.start == s.end
    }

    predicate Ordered() {
      Fits(x) && Fits(m) && Fits(a) && Fits(s)
    }

    /** The part's rating in every category lies in that category's range. */
    predicate Holds(p: Part) {
      x.Contains(p.x) && m.Contains(p.m) && a.Contains(p.a) && s.Contains(p.s)
    }

    /** `possible_combinations`: the product of the four widths. */
    function Combinations(): nat
      requires Ordered()
    {
      Width(x) * Width(m) * Width(a) * Width(s)
    }
  }

  /** `PartRange::default`: ratings 1 to 4000 in every category. */
  const Everything := PartRange(Range(1, 4001), Range(1, 4001), Range(1, 4001), Range(1, 4001))

  /** A range of parts is empty exactly when it holds no part, and then it
      has no combinations. */
  lemma EmptySpec(pr: PartRange)
    requires pr.Ordered()
    ensures pr.IsEmpty() <==> forall p :: !pr.Holds(p)
    ensures pr.IsEmpty() <==> pr.Combinations() == 0
  {
    if !pr.IsEmpty() {
      var p := Part(pr.x.start, pr.m.start, pr.a.start, pr.s.start);
      assert pr.Holds(p);
      Positive(Width(pr.x), Width(pr.m), Width(pr.a), Width(pr.s));
    }
  }

  lemma Positive(a: nat, b: nat, c: nat, d: nat)
    requires a > 0 && b > 0 && c > 0 && d > 0
    ensures a * b * c * d > 0
  {
  }

  /** Whether a part lies in a range of parts, by one category and the
      rest. */
  lemma HoldsWith(pr: PartRange, c: Category, r: Range, p: Part)
    ensures pr.Holds(p) <==> pr.Get(c).Contains(p.Get(c)) && Others(pr, c, p)
    ensures pr.With(c, r).Holds(p) <==> r.Contains(p.Get(c)) && Others(pr, c, p)
  {
  }

  /** The part's ratings outside category `c` lie in the ranges. */
  predicate Others(pr: PartRange, c: Category, p: Part) {
    (c == X || pr.x.Contains(p.x)) && (c == M || pr.m.Contains(p.m)) &&
    (c == A || pr.a.Contains(p.a)) && (c == S || pr.s.Contains(p.s))
  }

  /** The product of the widths outside category `c`. */
  function Across(pr: PartRange, c: Category): nat
    requires pr.Ordered()
  {
    match c
    case X => Width(pr.m) * Width(pr.a) * Width(pr.s)
    case M => Width(pr.x) * Width(pr.a) * Width(pr.s)
    case A => Width(pr.x) * Width(pr.m) * Width(pr.s)
    case S => Width(pr.x) * Width(pr.m) * Width(pr.a)
  }

  /** The combinations are the width in one category times those across
      the others. */
  lemma CombinationsAt(pr: PartRange, c: Category, r: Range)
    requires pr.Ordered() && Fits(r)
    ensures pr.Combinations() == Width(pr.Get(c)) * Across(pr, c)
    ensures pr.With(c, r).Ordered() && Across(pr.With(c, r), c) == Across(pr, c)
    ensures pr.With(c, r).Combinations() == Width(r) * Across(pr, c)
  {
    var x, m, a, s := Width(pr.x), Width(pr.m), Width(pr.a), Width(pr.s);
    var w := Width(r);
    match c
    case X =>
      Factor1(x, m, a, s);
      Factor1(w, m, a, s);
    case M =>
      Factor2(x, m, a, s);
      Factor2(x, w, a, s);
    case A =>
      Factor3(x, m, a, s);
      Factor3(x, m, w, s);
    case S =>
      Factor4(x, m, a, s);
      Factor4(x, m, a, w);
  }

  lemma Factor1(x: nat, m: nat, a: nat, s: nat)
    ensures x * m * a * s == x * (m * a * s)
  {
  }

  lemma Factor2(x: nat, m: nat, a: nat, s: nat)
    ensures x * m * a * s == m * (x * a * s)
  {
  }

  lemma Factor3(x: nat, m: nat, a: nat, s: nat)
    ensures x * m * a * s == a * (x * m * s)
  {
  }

  lemma Factor4(x: nat, m: nat, a: nat, s: nat)
    ensures x * m * a * s == s * (x * m * a)
  {
  }

  /** Splitting the range of one category in two splits the
      combinations. */
  lemma CombinationsSplit(pr: PartRange, c: Category, r1: Range, r2: Range)
    requires pr.Ordered() && Fits(r1) && Fits(r2) && Width(r1) + Width(r2) == Width(pr.Get(c))
    ensures pr.Combinations() == pr.With(c, r1).Combinations() + pr.With(c, r2).Combinations()
  {
    CombinationsAt(pr, c, r1);
    CombinationsAt(pr, c, r2);
    var k := Across(pr, c);
    assert (Width(r1) + Width(r2)) * k == Width(r1) * k + Width(r2) * k;
  }

  // ---------------------------------------------------------------------
  // Sending a range of parts

  /** A piece of a range of parts, sent on to an outcome. */
  datatype Piece = Piece(range: PartRange, outcome: Outcome)

  /** `intersection` of the range extension: where two ranges overlap. */
  function Overlap(a: Range, b: Range): Range {
    Range(Max(a.start, b.start), Min(a.end, b.end))
  }

  lemma OverlapIsIntersection(a: Range, b: Range)
    ensures Overlap(a, b) == a.Intersection(b)
  {
  }

  /** `Condition::apply_range`: the piece of the range the condition takes,
      sent on to its target, and the remainder left for the next
      conditions (written back through `&mut` in the source). A rule takes
      the intersection of its range with the category's and leaves what
      lies on the other side of it; a rule whose intersection is empty
      takes nothing and leaves the range as it is. A condition without a
      rule takes the whole range and leaves an empty one. */
  function ApplyRange(c: Condition, pr: PartRange): (Option<Piece>, PartRange) {
    match c
    case When(rule) =>
      var current := pr.Get(rule.category);
      var i := Overlap(rule.range, current);
      if i.IsEmpty() then (None, pr)
      else
        var rest := if i.start == current.start then Range(i.end, current.end) else Range(current.start, i.start);
        (Some(Piece(pr.With(rule.category, i), rule.outcome)), pr.With(rule.category, rest))
    case Always(o) => (Some(Piece(pr, o)), pr.(x := Range(0, 0)))
  }

  /** A part of the range lies in the piece taken iff the condition applies
      to it, and otherwise in the remainder: the piece and the remainder
      split the range between them. */
  lemma ApplyRangeSplits(c: Condition, pr: PartRange, p: Part)
    requires Anchored(c) && pr.Ordered() && pr.Holds(p)
    ensures var (sent, rest) := ApplyRange(c, pr);
      match Apply(c, p)
      case Some(o) => sent.Some? && sent.value.outcome == o && sent.value.range.Holds(p) && !rest.Holds(p)
      case None => rest.Holds(p) && (sent.Some? ==> !sent.value.range.Holds(p))
  {
    if c.When? {
      var rule := c.rule;
      var current := pr.Get(rule.category);
      var i := Overlap(rule.range, current);
      var v := p.Get(rule.category);
      HoldsWith(pr, rule.category, i, p);
      if !i.IsEmpty() {
        var rest := if i.start == current.start then Range(i.end, current.end) else Range(current.start, i.start);
        HoldsWith(pr, rule.category, rest, p);
      }
    }
  }

  /** Nothing outside the range is taken or left. */
  lemma ApplyRangeWithin(c: Condition, pr: PartRange, p: Part)
    ensures var (sent, rest) := ApplyRange(c, pr);
      (rest.Holds(p) ==> pr.Holds(p)) && (sent.Some? && sent.value.range.Holds(p) ==> pr.Holds(p))
  {
    if c.When? {
      var rule := c.rule;
      var current := pr.Get(rule.category);
      var i := Overlap(rule.range, current);
      HoldsWith(pr, rule.category, i, p);
      if !i.IsEmpty() {
        var rest := if i.start == current.start then Range(i.end, current.end) else Range(current.start, i.start);
        HoldsWith(pr, rule.category, rest, p);
      }
    }
  }

  /** What is taken goes to the condition's target; a rule that takes
      nothing leaves the range as it is, and a condition without a rule
      takes all of it and leaves nothing. */
  lemma ApplyRangeShape(c: Condition, pr: PartRange)
    ensures var (sent, rest) := ApplyRange(c, pr);
      (sent.Some? ==> sent.value.outcome == c.Target()) &&
      (sent.None? ==> rest == pr) &&
      (c.Always? ==> sent == Some(Piece(pr, c.outcome)) && rest.IsEmpty())
  {
  }

  /** The piece and the remainder are ranges of parts again. */
  lemma ApplyRangeOrdered(c: Condition, pr: PartRange)
    requires Anchored(c) && pr.Ordered()
    ensures var (sent, rest) := ApplyRange(c, pr);
      rest.Ordered() && (sent.Some? ==> sent.value.range.Ordered())
  {
    if c.When? {
      var rule := c.rule;
      var current := pr.Get(rule.category);
      var i := Overlap(rule.range, current);
      if !i.IsEmpty() {
        var rest := if i.start == current.start then Range(i.end, current.end) else Range(current.start, i.start);
        SplitWidths(rule.range, current, i, rest);
      }
    }
  }

  /** The combinations of the piece and the remainder add up to those of
      the range. */
  lemma ApplyRangeCount(c: Condition, pr: PartRange)
    requires Anchored(c) && pr.Ordered()
    ensures var (sent, rest) := ApplyRange(c, pr);
      rest.Ordered() && (sent.Some? ==> sent.value.range.Ordered()) &&
      pr.Combinations() == (if sent.Some? then sent.value.range.Combinations() else 0) + rest.Combinations()
  {
    match c
    case When(rule) =>
      var current := pr.Get(rule.category);
      var i := Overlap(rule.range, current);
      if !i.IsEmpty() {
        var rest := if i.start == current.start then Range(i.end, current.end) else Range(current.start, i.start);
        SplitWidths(rule.range, current, i, rest);
        CombinationsSplit(pr, rule.category, i, rest);
      }
    case Always(o) =>
      assert Width(pr.(x := Range(0, 0)).x) == 0;
  }

  /** The intersection with an anchored range and what lies beside it
      split a range's width. */
  lemma SplitWidths(rule: Range, current: Range, i: Range, rest: Range)
    requires rule.start == 0 || rule.end == U64Max
    requires Fits(current) && i == Overlap(rule, current) && !i.IsEmpty()
    requires rest == if i.start == current.start then Range(i.end, current.end) else Range(current.start, i.start)
    ensures Fits(i) && Fits(rest) && Width(i) + Width(rest) == Width(current)
  {
  }

  // ---------------------------------------------------------------------
  // Sending a range of parts through a workflow

  predicate AllAnchored(rules: seq<Condition>) {
    forall i :: 0 <= i < |rules| ==> Anchored(rules[i])
  }

  /** The pieces `Workflows::apply_range` collects from a workflow's
      conditions: each takes its piece of what the earlier ones left, and
      the walk stops once nothing is left. */
  function RangePieces(rules: seq<Condition>, pr: PartRange): seq<Piece> {
    if rules == [] then []
    else
      var (sent, rest) := ApplyRange(rules[0], pr);
      (if sent.Some? then [sent.value] else []) + (if rest.IsEmpty() then [] else RangePieces(rules[1..], rest))
  }

  /** What is left of the range when the walk over the conditions ends. */
  function Remainder(rules: seq<Condition>, pr: PartRange): PartRange {
    if rules == [] then pr
    else
      var rest := ApplyRange(rules[0], pr).1;
      if rest.IsEmpty() then rest else Remainder(rules[1..], rest)
  }

  lemma TargetsTail(rules: seq<Condition>)
    requires rules != []
    ensures Targets(rules[1..]) <= Targets(rules) && rules[0].Target() in Targets(rules)
  {
  }

  /** Every piece is a range of parts sent to one of the workflow's
      targets. */
  lemma {:induction false} PiecesWithin(rules: seq<Condition>, pr: PartRange, j: nat)
    requires AllAnchored(rules) && pr.Ordered() && j < |RangePieces(rules, pr)|
    ensures RangePieces(rules, pr)[j].range.Ordered() && RangePieces(rules, pr)[j].outcome in Targets(rules)
  {
    var (sent, rest) := ApplyRange(rules[0], pr);
    ApplyRangeOrdered(rules[0], pr);
    ApplyRangeShape(rules[0], pr);
    TargetsTail(rules);
    var here := if sent.Some? then [sent.value] else [];
    if j >= |here| {
      assert Anchored(rules[0]);
      assert AllAnchored(rules[1..]) by {
        forall i | 0 <= i < |rules[1..]|
          ensures Anchored(rules[1..][i])
        {
          assert rules[1..][i] == rules[i + 1];
        }
      }
      PiecesWithin(rules[1..], rest, j - |here|);
    }
  }

  lemma AnchoredTail(rules: seq<Condition>)
    requires rules != [] && AllAnchored(rules)
    ensures Anchored(rules[0]) && AllAnchored(rules[1..])
  {
    forall i | 0 <= i < |rules[1..]|
      ensures Anchored(rules[1..][i])
    {
      assert rules[1..][i] == rules[i + 1];
    }
  }

  /** A part in a piece is a part of the range that the workflow sends to
      that piece's outcome. */
  lemma {:induction false} PiecesSound(rules: seq<Condition>, pr: PartRange, j: nat, p: Part)
    requires AllAnchored(rules) && pr.Ordered() && j < |RangePieces(rules, pr)|
    requires RangePieces(rules, pr)[j].range.Holds(p)
    ensures pr.Holds(p) && FirstMatch(rules, p) == Some(RangePieces(rules, pr)[j].outcome)
  {
    var (sent, rest) := ApplyRange(rules[0], pr);
    AnchoredTail(rules);
    ApplyRangeOrdered(rules[0], pr);
    ApplyRangeWithin(rules[0], pr, p);
    var here := if sent.Some? then [sent.value] else [];
    if j < |here| {
      ApplyRangeSplits(rules[0], pr, p);
    } else {
      PiecesSound(rules[1..], rest, j - |here|, p);
      ApplyRangeSplits(rules[0], pr, p);
    }
  }

  /** A part of the range that the workflow sends somewhere lies in a
      piece sent there. */
  lemma {:induction false} PiecesComplete(rules: seq<Condition>, pr: PartRange, p: Part)
    requires AllAnchored(rules) && pr.Ordered() && pr.Holds(p) && FirstMatch(rules, p).Some?
    ensures exists j ::
        0 <= j < |RangePieces(rules, pr)| &&
        RangePieces(rules, pr)[j].range.Holds(p) && RangePieces(rules, pr)[j].outcome == FirstMatch(rules, p).value
  {
    var pieces := RangePieces(rules, pr);
    var (sent, rest) := ApplyRange(rules[0], pr);
    AnchoredTail(rules);
    ApplyRangeOrdered(rules[0], pr);
    ApplyRangeSplits(rules[0], pr, p);
    var here := if sent.Some? then [sent.value] else [];
    if Apply(rules[0], p).Some? {
      assert pieces[0] == sent.value;
    } else {
      EmptySpec(rest);
      PiecesComplete(rules[1..], rest, p);
      var k :| 0 <= k < |RangePieces(rules[1..], rest)| && RangePieces(rules[1..], rest)[k].range.Holds(p) &&
        RangePieces(rules[1..], rest)[k].outcome == FirstMatch(rules, p).value;
      assert pieces[|here| + k] == RangePieces(rules[1..], rest)[k];
    }
  }

  /** No part lies in two pieces. */
  lemma {:induction false} PiecesDisjoint(rules: seq<Condition>, pr: PartRange, j: nat, k: nat, p: Part)
    requires AllAnchored(rules) && pr.Ordered() && j < k < |RangePieces(rules, pr)|
    ensures !(RangePieces(rules, pr)[j].range.Holds(p) && RangePieces(rules, pr)[k].range.Holds(p))
  {
    var pieces := RangePieces(rules, pr);
    var step := ApplyRange(rules[0], pr);
    AnchoredTail(rules);
    ApplyRangeOrdered(rules[0], pr);
    PiecesStep(rules, pr);
    var here := if step.0.Some? then [step.0.value] else [];
    if pieces[j].range.Holds(p) && pieces[k].range.Holds(p) {
      var tail := RangePieces(rules[1..], step.1);
      assert !step.1.IsEmpty() && pieces[k] == tail[k - |here|];
      if j < |here| {
        assert pieces[j] == step.0.value;
        PiecesSound(rules[1..], step.1, k - |here|, p);
        ApplyRangeWithin(rules[0], pr, p);
        ApplyRangeSplits(rules[0], pr, p);
      } else {
        assert pieces[j] == tail[j - |here|];
        PiecesDisjoint(rules[1..], step.1, j - |here|, k - |here|, p);
      }
    }
  }

  /** The combinations of the pieces. */
  predicate AllOrdered(pieces: seq<Piece>) {
    forall j :: 0 <= j < |pieces| ==> pieces[j].range.Ordered()
  }

  function Total(pieces: seq<Piece>): nat
    requires AllOrdered(pieces)
  {
    if pieces == [] then 0 else pieces[0].range.Combinations() + Total(pieces[1..])
  }

  lemma PiecesOrdered(rules: seq<Condition>, pr: PartRange)
    requires AllAnchored(rules) && pr.Ordered()
    ensures AllOrdered(RangePieces(rules, pr))
  {
    forall j | 0 <= j < |RangePieces(rules, pr)|
      ensures RangePieces(rules, pr)[j].range.Ordered()
    {
      PiecesWithin(rules, pr, j);
    }
  }

  /** The pieces and what is left split the combinations of the range. */
  lemma {:induction false} PiecesCount(rules: seq<Condition>, pr: PartRange)
    requires AllAnchored(rules) && pr.Ordered()
    ensures Remainder(rules, pr).Ordered() && AllOrdered(RangePieces(rules, pr))
    ensures Total(RangePieces(rules, pr)) + Remainder(rules, pr).Combinations() == pr.Combinations()
  {
    PiecesOrdered(rules, pr);
    if rules != [] {
      var step := ApplyRange(rules[0], pr);
      AnchoredTail(rules);
      ApplyRangeOrdered(rules[0], pr);
      ApplyRangeCount(rules[0], pr);
      var here := if step.0.Some? then [step.0.value] else [];
      var tail := if step.1.IsEmpty() then [] else RangePieces(rules[1..], step.1);
      assert RangePieces(rules, pr) == here + tail;
      if !step.1.IsEmpty() {
        PiecesCount(rules[1..], step.1);
        assert Remainder(rules, pr) == Remainder(rules[1..], step.1);
      } else {
        assert Remainder(rules, pr) == step.1;
      }
      TotalAppend(here, tail);
    }
  }

  lemma {:induction false} TotalAppend(a: seq<Piece>, b: seq<Piece>)
    requires AllOrdered(a) && AllOrdered(b)
    ensures AllOrdered(a + b) && Total(a + b) == Total(a) + Total(b)
  {
    if a == [] {
      assert a + b == b;
    } else {
      assert (a + b)[1..] == a[1..] + b;
      TotalAppend(a[1..], b);
    }
  }

  /** A workflow that ends in a condition without a rule leaves nothing:
      its pieces hold all the combinations of the range. */
  lemma {:induction false} EndsAlways(rules: seq<Condition>, pr: PartRange)
    requires AllAnchored(rules) && pr.Ordered() && rules != [] && rules[|rules| - 1].Always?
    ensures AllOrdered(RangePieces(rules, pr)) && Total(RangePieces(rules, pr)) == pr.Combinations()
  {
    PiecesCount(rules, pr);
    LeavesNothing(rules, pr);
    EmptySpec(Remainder(rules, pr));
  }

  lemma {:induction false} LeavesNothing(rules: seq<Condition>, pr: PartRange)
    requires rules != [] && rules[|rules| - 1].Always?
    ensures Remainder(rules, pr).IsEmpty()
  {
    var rest := ApplyRange(rules[0], pr).1;
    ApplyRangeShape(rules[0], pr);
    if !rest.IsEmpty() && |rules| > 1 {
      assert rules[1..][|rules[1..]| - 1] == rules[|rules| - 1];
      LeavesNothing(rules[1..], rest);
    }
  }

  /** `ranges` are the pieces of the conditions before the `i`-th, and
      `rest` what they leave. */
  predicate Walked(rules: seq<Condition>, pr: PartRange, i: nat, rest: PartRange, ranges: seq<Piece>) {
    i <= |rules| && ranges + RangePieces(rules[i..], rest) == RangePieces(rules, pr)
  }

  lemma WalkStarts(rules: seq<Condition>, pr: PartRange)
    ensures Walked(rules, pr, 0, pr, [])
  {
    assert rules[0..] == rules;
  }

  /** One more condition of the walk: what it takes is collected, and
      the walk ends when nothing is left. */
  lemma WalkSteps(rules: seq<Condition>, pr: PartRange, i: nat, rest: PartRange, ranges: seq<Piece>)
    requires Walked(rules, pr, i, rest, ranges) && i < |rules|
    ensures var step := ApplyRange(rules[i], rest);
      var collected := ranges + (if step.0.Some? then [step.0.value] else []);
      if step.1.IsEmpty() then collected == RangePieces(rules, pr) else Walked(rules, pr, i + 1, step.1, collected)
  {
    assert rules[i..][0] == rules[i] && rules[i..][1..] == rules[i + 1..];
    PiecesStep(rules[i..], rest);
  }

  lemma PiecesStep(rules: seq<Condition>, pr: PartRange)
    requires rules != []
    ensures var step := ApplyRange(rules[0], pr);
      RangePieces(rules, pr) ==
        (if step.0.Some? then [step.0.value] else []) + (if step.1.IsEmpty() then [] else RangePieces(rules[1..], step.1))
  {
  }

  lemma WalkEnds(rules: seq<Condition>, pr: PartRange, rest: PartRange, ranges: seq<Piece>)
    requires Walked(rules, pr, |rules|, rest, ranges)
    ensures ranges == RangePieces(rules, pr)
  {
    assert rules[|rules|..] == [];
  }

  type Workflows = map<string, seq<Condition>>

  /** `Workflows::apply_range`: the pieces the workflow `name` sends on;
      the walk over its conditions stops once nothing is left. A missing
      workflow panics in `unwrap`. */
  method ApplyRanges(ws: Workflows, name: string, pr: PartRange) returns (ranges: seq<Piece>)
    requires name in ws
    ensures ranges == RangePieces(ws[name], pr)
  {
    var rules := ws[name];
    ranges := [];
    var rest := pr;
    var i := 0;
    WalkStarts(rules, pr);
    while i < |rules|
      invariant Walked(rules, pr, i, rest, ranges)
    {
      var step := ApplyRange(rules[i], rest);
      WalkSteps(rules, pr, i, rest, ranges);
      if step.0.Some? {
        ranges := ranges + [step.0.value];
      }
      rest := step.1;
      if rest.IsEmpty() {
        break;
      }
      i := i + 1;
    }
    if i == |rules| {
      WalkEnds(rules, pr, rest, ranges);
    }
  }

  // ---------------------------------------------------------------------
  // Counting the accepted combinations

  /** The workflows can be ranked so that each sends parts on only to
      defined workflows of lower rank, and every rule in them is anchored,
      as every rule read from text is. On a cycle the source goes round
      without end, and a missing name panics in `unwrap`. */
  predicate Ranked(ws: Workflows, rank: map<string, nat>) {
    forall n :: n in ws ==> n in rank && AllAnchored(ws[n]) && LeadsDown(ws, rank, n)
  }

  predicate LeadsDown(ws: Workflows, rank: map<string, nat>, n: string)
    requires n in ws && n in rank
  {
    forall o :: o in Targets(ws[n]) && o.Workflow? ==> o.name in ws && o.name in rank && rank[o.name] < rank[n]
  }

  function Height(rank: map<string, nat>, o: Outcome): nat {
    if o.Workflow? && o.name in rank then rank[o.name] + 1 else 0
  }

  /** The highest height the pieces are sent to. */
  function MaxHeight(rank: map<string, nat>, pieces: seq<Piece>): nat {
    if pieces == [] then 0
    else
      var h := Height(rank, pieces[0].outcome);
      var rest := MaxHeight(rank, pieces[1..]);
      if h < rest then rest else h
  }

  lemma {:induction false} MaxHeightBound(rank: map<string, nat>, pieces: seq<Piece>, top: nat)
    requires forall j :: 0 <= j < |pieces| ==> Height(rank, pieces[j].outcome) <= top
    ensures MaxHeight(rank, pieces) <= top
  {
    if pieces != [] {
      MaxHeightBound(rank, pieces[1..], top);
    }
  }

  /** A piece that can be sent on: a range of parts, sent to a defined
      workflow if to any. */
  predicate Sendable(ws: Workflows, piece: Piece) {
    piece.range.Ordered() && (piece.outcome.Workflow? ==> piece.outcome.name in ws)
  }

  predicate AllSendable(ws: Workflows, pieces: seq<Piece>) {
    forall j :: 0 <= j < |pieces| ==> Sendable(ws, pieces[j])
  }

  /** The pieces of a ranked workflow can be sent on, to workflows of lower
      rank. */
  lemma PiecesRanked(ws: Workflows, rank: map<string, nat>, name: string, pr: PartRange)
    requires Ranked(ws, rank) && name in ws && pr.Ordered()
    ensures AllSendable(ws, RangePieces(ws[name], pr))
    ensures MaxHeight(rank, RangePieces(ws[name], pr)) <= rank[name]
  {
    var pieces := RangePieces(ws[name], pr);
    forall j | 0 <= j < |pieces|
      ensures Sendable(ws, pieces[j]) && Height(rank, pieces[j].outcome) <= rank[name]
    {
      PiecesWithin(ws[name], pr, j);
    }
    MaxHeightBound(rank, pieces, rank[name]);
  }

  /** The combinations of `pr` that end accepted when sent to `o`: all of
      them for `A`, none for `R`, and for a workflow those its pieces end
      accepted in. */
  function Accepted(ws: Workflows, rank: map<string, nat>, o: Outcome, pr: PartRange): nat
    requires Ranked(ws, rank) && Sendable(ws, Piece(pr, o))
    decreases Height(rank, o), 0
  {
    match o
    case Accept => pr.Combinations()
    case Reject => 0
    case Workflow(name) =>
      PiecesRanked(ws, rank, name, pr);
      AcceptedSum(ws, rank, RangePieces(ws[name], pr))
  }

  function AcceptedSum(ws: Workflows, rank: map<string, nat>, pieces: seq<Piece>): nat
    requires Ranked(ws, rank) && AllSendable(ws, pieces)
    decreases MaxHeight(rank, pieces), |pieces| + 1
  {
    if pieces == [] then 0
    else Accepted(ws, rank, pieces[0].outcome, pieces[0].range) + AcceptedSum(ws, rank, pieces[1..])
  }

  /** How many pieces are taken off the stack for a piece, counting those
      it puts back in turn. */
  function Size(ws: Workflows, rank: map<string, nat>, o: Outcome, pr: PartRange): nat
    requires Ranked(ws, rank) && Sendable(ws, Piece(pr, o))
    decreases Height(rank, o), 0
  {
    match o
    case Workflow(name) =>
      PiecesRanked(ws, rank, name, pr);
      1 + SizeSum(ws, rank, RangePieces(ws[name], pr))
    case _ => 1
  }

  function SizeSum(ws: Workflows, rank: map<string, nat>, pieces: seq<Piece>): nat
    requires Ranked(ws, rank) && AllSendable(ws, pieces)
    decreases MaxHeight(rank, pieces), |pieces| + 1
  {
    if pieces == [] then 0
    else Size(ws, rank, pieces[0].outcome, pieces[0].range) + SizeSum(ws, rank, pieces[1..])
  }

  /** The counts of two stacks on top of each other add up. */
  lemma {:induction false} SumsAppend(ws: Workflows, rank: map<string, nat>, a: seq<Piece>, b: seq<Piece>)
    requires Ranked(ws, rank) && AllSendable(ws, a) && AllSendable(ws, b)
    ensures AllSendable(ws, a + b)
    ensures AcceptedSum(ws, rank, a + b) == AcceptedSum(ws, rank, a) + AcceptedSum(ws, rank, b)
    ensures SizeSum(ws, rank, a + b) == SizeSum(ws, rank, a) + SizeSum(ws, rank, b)
  {
    if a == [] {
      assert a + b == b;
    } else {
      assert (a + b)[1..] == a[1..] + b;
      SumsAppend(ws, rank, a[1..], b);
    }
  }

  /** What a piece taken off the stack leaves to count on the rest of the
      stack. */
  lemma Pop(ws: Workflows, rank: map<string, nat>, toDo: seq<Piece>)
    requires Ranked(ws, rank) && AllSendable(ws, toDo) && toDo != []
    ensures var piece := toDo[|toDo| - 1];
      AllSendable(ws, toDo[..|toDo| - 1]) && Sendable(ws, piece) &&
      AcceptedSum(ws, rank, toDo) ==
        AcceptedSum(ws, rank, toDo[..|toDo| - 1]) + Accepted(ws, rank, piece.outcome, piece.range) &&
      SizeSum(ws, rank, toDo) == SizeSum(ws, rank, toDo[..|toDo| - 1]) + Size(ws, rank, piece.outcome, piece.range)
  {
    var piece := toDo[|toDo| - 1];
    assert toDo == toDo[..|toDo| - 1] + [piece];
    SumsAppend(ws, rank, toDo[..|toDo| - 1], [piece]);
  }

  /** The pieces a workflow puts on the stack count what sending the range
      to it counts, less one for the piece itself. */
  lemma Expand(ws: Workflows, rank: map<string, nat>, toDo: seq<Piece>, name: string, pr: PartRange)
    requires Ranked(ws, rank) && AllSendable(ws, toDo) && name in ws && pr.Ordered()
    ensures var pieces := RangePieces(ws[name], pr);
      AllSendable(ws, toDo + pieces) &&
      AcceptedSum(ws, rank, toDo + pieces) == AcceptedSum(ws, rank, toDo) + Accepted(ws, rank, Workflow(name), pr) &&
      SizeSum(ws, rank, toDo + pieces) + 1 == SizeSum(ws, rank, toDo) + Size(ws, rank, Workflow(name), pr)
  {
    PiecesRanked(ws, rank, name, pr);
    SumsAppend(ws, rank, toDo, RangePieces(ws[name], pr));
  }

  /** `part2`: the combinations of ratings from 1 to 4000 that the
      workflows accept, counted with a stack of pieces still to send. */
  method Part2(ws: Workflows, ghost rank: map<string, nat>) returns (total: nat)
    requires Ranked(ws, rank) && "in" in ws
    ensures total == Accepted(ws, rank, Workflow("in"), Everything)
  {
    total := 0;
    var toDo := [Piece(Everything, Workflow("in"))];
    while toDo != []
      invariant AllSendable(ws, toDo)
      invariant total + AcceptedSum(ws, rank, toDo) == Accepted(ws, rank, Workflow("in"), Everything)
      decreases SizeSum(ws, rank, toDo)
    {
      Pop(ws, rank, toDo);
      var piece := toDo[|toDo| - 1];
      toDo := toDo[..|toDo| - 1];
      match piece.outcome
      case Accept =>
        total := total + piece.range.Combinations();
      case Reject =>
      case Workflow(name) =>
        var pieces := ApplyRanges(ws, name, piece.range);
        Expand(ws, rank, toDo, name, piece.range);
        toDo := toDo + pieces;
    }
  }

  /** No more combinations are accepted than the range holds. */
  lemma {:induction false} AcceptedBound(ws: Workflows, rank: map<string, nat>, o: Outcome, pr: PartRange)
    requires Ranked(ws, rank) && Sendable(ws, Piece(pr, o))
    ensures Accepted(ws, rank, o, pr) <= pr.Combinations()
    decreases Height(rank, o), 0
  {
    if o.Workflow? {
      PiecesRanked(ws, rank, o.name, pr);
      AcceptedSumBound(ws, rank, RangePieces(ws[o.name], pr));
      PiecesCount(ws[o.name], pr);
    }
  }

  lemma {:induction false} AcceptedSumBound(ws: Workflows, rank: map<string, nat>, pieces: seq<Piece>)
    requires Ranked(ws, rank) && AllSendable(ws, pieces)
    ensures AllOrdered(pieces) && AcceptedSum(ws, rank, pieces) <= Total(pieces)
    decreases MaxHeight(rank, pieces), |pieces| + 1
  {
    if pieces != [] {
      AcceptedBound(ws, rank, pieces[0].outcome, pieces[0].range);
      AcceptedSumBound(ws, rank, pieces[1..]);
    }
  }

  /** The answer to the second part is at most 4000 to the fourth. */
  lemma Part2Bound(ws: Workflows, rank: map<string, nat>)
    requires Ranked(ws, rank) && "in" in ws
    ensures Accepted(ws, rank, Workflow("in"), Everything) <= 256_000_000_000_000
  {
    AcceptedBound(ws, rank, Workflow("in"), Everything);
  }

  // ---------------------------------------------------------------------
  // Sending parts through the workflows

  /** `Workflows::apply`: follows the first outcome that applies from
      workflow to workflow, until one accepts or rejects the part or none
      applies. A missing workflow panics in `unwrap`; a workflow reached a
      second time is reached over and over, since the part does not
      change, and the source recurses without end. `seen` holds the
      workflows already passed. */
  function Follow(ws: Workflows, name: string, p: Part, seen: set<string>): Result<Option<Outcome>>
    decreases ws.Keys - seen
  {
    if name !in ws then Err(Panic)
    else if name in seen then Err(Diverges)
    else match FirstMatch(ws[name], p)
      case Some(Workflow(next)) => Follow(ws, next, p, seen + {name})
      case o => Ok(o)
  }

  /** Through ranked workflows a part always ends, in an outcome other
      than a workflow or in none. */
  lemma {:induction false} FollowRanked(ws: Workflows, rank: map<string, nat>, name: string, p: Part, seen: set<string>)
    requires Ranked(ws, rank) && name in ws
    requires forall n :: n in seen ==> n in rank && rank[n] > rank[name]
    ensures Follow(ws, name, p, seen).Ok?
    ensures Follow(ws, name, p, seen).value.Some? ==> !Follow(ws, name, p, seen).value.value.Workflow?
    decreases rank[name]
  {
    FirstMatchSpec(ws[name], p);
    match FirstMatch(ws[name], p)
    case Some(Workflow(next)) =>
      assert Workflow(next) in Targets(ws[name]);
      assert LeadsDown(ws, rank, name);
      FollowRanked(ws, rank, next, p, seen + {name});
    case _ =>
  }

  /** `Workflows::accept_part`: whether the part ends accepted, from the
      workflow `in`; a part no rule sends anywhere is `unreachable!`. */
  function AcceptPart(ws: Workflows, p: Part): Result<bool> {
    match Follow(ws, "in", p, {})
    case Ok(Some(Accept)) => Ok(true)
    case Ok(Some(Reject)) => Ok(false)
    case Ok(_) => Err(Panic)
    case Err(e) => Err(e)
  }

  /** Ranked workflows with `in` among them decide every part that some
      rule sends somewhere at each step: the only failure left is a part
      that no rule takes. */
  lemma AcceptPartRanked(ws: Workflows, rank: map<string, nat>, p: Part)
    requires Ranked(ws, rank) && "in" in ws
    ensures AcceptPart(ws, p).Err? <==> Follow(ws, "in", p, {}) == Ok(None)
  {
    FollowRanked(ws, rank, "in", p, {});
  }

  /** The sum of the ratings of the accepted parts, the first failure
      among the parts coming first. */
  function AcceptedRatings(ws: Workflows, parts: seq<Part>): Result<nat> {
    if parts == [] then Ok(0)
    else match AcceptPart(ws, parts[0])
      case Err(e) => Err(e)
      case Ok(accepted) =>
        match AcceptedRatings(ws, parts[1..])
        case Err(e) => Err(e)
        case Ok(rest) => Ok((if accepted then parts[0].Rating() else 0) + rest)
  }

  function RatingSum(parts: seq<Part>): nat {
    if parts == [] then 0 else parts[0].Rating() + RatingSum(parts[1..])
  }

  /** The accepted ratings are some of the ratings: all of them when every
      part is accepted, none when every part is rejected. */
  lemma {:induction false} AcceptedRatingsSpec(ws: Workflows, parts: seq<Part>)
    ensures AcceptedRatings(ws, parts).Ok? <==> forall i :: 0 <= i < |parts| ==> AcceptPart(ws, parts[i]).Ok?
    ensures AcceptedRatings(ws, parts).Ok? ==> AcceptedRatings(ws, parts).value <= RatingSum(parts)
    ensures (forall i :: 0 <= i < |parts| ==> AcceptPart(ws, parts[i]) == Ok(true)) ==>
      AcceptedRatings(ws, parts) == Ok(RatingSum(parts))
    ensures (forall i :: 0 <= i < |parts| ==> AcceptPart(ws, parts[i]) == Ok(false)) ==>
      AcceptedRatings(ws, parts) == Ok(0)
  {
    if parts != [] {
      AcceptedRatingsSpec(ws, parts[1..]);
      assert forall i :: 1 <= i < |parts| ==> parts[1..][i - 1] == parts[i];
    }
  }

  // ---------------------------------------------------------------------
  // Reading the input

  /** `trim_start_matches` of one character. */
  function TrimLeading(s: string, c: char): (r: string)
    ensures |r| <= |s|
  {
    if s != [] && s[0] == c then TrimLeading(s[1..], c) else s
  }

  /** `trim_end_matches` of one character. */
  function TrimTrailing(s: string, c: char): (r: string)
    ensures |r| <= |s|
  {
    if s != [] && s[|s| - 1] == c then TrimTrailing(s[..|s| - 1], c) else s
  }

  predicate IsBrace(c: char) {
    c == '{' || c == '}'
  }

  /** `trim_matches` of both braces, at both ends. */
  function TrimBraces(s: string): (r: string) {
    TrimBracesEnd(TrimBracesStart(s))
  }

  function TrimBracesStart(s: string): (r: string) {
    if s != [] && IsBrace(s[0]) then TrimBracesStart(s[1..]) else s
  }

  function TrimBracesEnd(s: string): (r: string) {
    if s != [] && IsBrace(s[|s| - 1]) then TrimBracesEnd(s[..|s| - 1]) else s
  }

  /** One `name=value` of `Part::from_str`: a known name sets its rating,
      an unknown one is ignored, a piece without `=` is skipped, and a value
      that is not a `u64` panics, whatever the name. */
  function Rate(piece: string, part: Part): Result<Part> {
    match SplitOnce(piece, '=')
    case None => Ok(part)
    case Some((name, value)) =>
      match ParseNat(value)
      case None => Err(Panic)
      case Some(v) =>
        if v > U64Max then Err(Panic)
        else if name == "x" then Ok(part.(x := v))
        else if name == "m" then Ok(part.(m := v))
        else if name == "a" then Ok(part.(a := v))
        else if name == "s" then Ok(part.(s := v))
        else Ok(part)
  }

  function RateAll(pieces: seq<string>, part: Part): Result<Part> {
    if pieces == [] then Ok(part)
    else match Rate(pieces[0], part)
      case Err(e) => Err(e)
      case Ok(next) => RateAll(pieces[1..], next)
  }

  /** `Part::from_str`: the ratings between the braces, split at commas,
      over a part of zeros. */
  function ReadPart(s: string): Result<Part> {
    RateAll(Split(TrimBraces(s), ','), Part(0, 0, 0, 0))
  }

  /** `Part::from_str`, rating by rating. */
  method PartOf(s: string) returns (r: Result<Part>)
    ensures r == ReadPart(s)
  {
    var pieces := Split(TrimBraces(s), ',');
    var part := Part(0, 0, 0, 0);
    var i := 0;
    while i < |pieces|
      invariant 0 <= i <= |pieces|
      invariant RateAll(pieces[i..], part) == ReadPart(s)
    {
      assert pieces[i..][1..] == pieces[i + 1..];
      match Rate(pieces[i], part)
      case Err(e) =>
        return Err(e);
      case Ok(next) =>
        part := next;
      i := i + 1;
    }
    return Ok(part);
  }

  /** `name=value`. */
  function Field(name: char, v: nat): string {
    [name, '='] + NatToString(v)
  }

  function PartFields(p: Part): seq<string> {
    [Field('x', p.x), Field('m', p.m), Field('a', p.a), Field('s', p.s)]
  }

  /** The text of a part as the puzzle writes it. */
  function PartText(p: Part): string {
    "{" + Join(PartFields(p), ',') + "}"
  }

  /** A part with `u64` ratings reads back from its text. */
  lemma ReadPartText(p: Part)
    requires p.x <= U64Max && p.m <= U64Max && p.a <= U64Max && p.s <= U64Max
    ensures ReadPart(PartText(p)) == Ok(p)
  {
    var fields := PartFields(p);
    FieldText('x', p.x, Part(0, 0, 0, 0));
    FieldText('m', p.m, Part(p.x, 0, 0, 0));
    FieldText('a', p.a, Part(p.x, p.m, 0, 0));
    FieldText('s', p.s, Part(p.x, p.m, p.a, 0));
    JoinSplit(fields, ',');
    PartTextBody(p);
    assert RateAll(fields, Part(0, 0, 0, 0)) == Ok(p) by {
      assert fields[3..][1..] == [] && fields[2..][1..] == fields[3..] && fields[1..][1..] == fields[2..];
      assert RateAll(fields[3..], Part(p.x, p.m, p.a, 0)) == Ok(p);
      assert RateAll(fields[2..], Part(p.x, p.m, 0, 0)) == Ok(p);
      assert RateAll(fields[1..], Part(p.x, 0, 0, 0)) == Ok(p);
    }
  }

  /** Within the braces of a part's text lie its fields, glued with
      commas. */
  lemma PartTextBody(p: Part)
    ensures TrimBraces(PartText(p)) == Join(PartFields(p), ',')
  {
    var fields := PartFields(p);
    assert fields[1..][1..] == fields[2..] && fields[2..][1..] == fields[3..];
    var last := Join(fields[3..], ',');
    assert last == fields[3];
    var body := Join(fields, ',');
    assert Join(fields[2..], ',') == fields[2] + [','] + last;
    assert Join(fields[1..], ',') == fields[1] + [','] + Join(fields[2..], ',');
    assert body == fields[0] + [','] + (fields[1] + [','] + (fields[2] + [','] + last));
    assert body[0] == 'x';
    assert body[|body| - 1] == last[|last| - 1];
    assert IsDigit(NatToString(p.s)[|NatToString(p.s)| - 1]);
    BracesOff(body);
  }

  /** A field holds no comma, and sets the rating it names. */
  lemma FieldText(name: char, v: nat, part: Part)
    requires name in "xmas" && v <= U64Max
    ensures ',' !in Field(name, v)
    ensures Rate(Field(name, v), part) ==
      Ok(if name == 'x' then part.(x := v) else if name == 'm' then part.(m := v) else if name == 'a' then part.(a := v) else part.(s := v))
  {
    var digits := NatToString(v);
    assert Field(name, v) == [name] + ['='] + digits;
    assert SplitOnce(Field(name, v), '=') == Some(([name], digits)) by {
      SplitOnceAt([name], '=', digits);
    }
    assert ParseNat(digits) == Some(v) by {
      ParseNatToString(v);
    }
    assert ([name] == "x") == (name == 'x') && ([name] == "m") == (name == 'm');
    assert ([name] == "a") == (name == 'a') && ([name] == "s") == (name == 's');
  }

  /** The braces around a text that neither starts nor ends with a brace
      are trimmed off and nothing else. */
  lemma BracesOff(body: string)
    requires body != [] && !IsBrace(body[0]) && !IsBrace(body[|body| - 1])
    ensures TrimBraces("{" + body + "}") == body
  {
    var text := "{" + body + "}";
    assert text[1..] == body + "}";
    assert TrimBracesStart(text) == TrimBracesStart(body + "}") == body + "}";
    assert (body + "}")[..|body|] == body;
    assert TrimBracesEnd(body + "}") == TrimBracesEnd(body) == body;
  }

  /** One line of `Workflows::new`: the name before `{`, and the
      conditions up to the closing braces, split at commas. A line without
      `{` panics in `unwrap`. */
  function WorkflowOf(line: string): Result<(string, seq<Condition>)> {
    match SplitOnce(line, '{')
    case None => Err(Panic)
    case Some((name, body)) =>
      match MapResult(Split(TrimTrailing(body, '}'), ','), ConditionOf)
      case Err(e) => Err(e)
      case Ok(rules) => Ok((name, rules))
  }

  /** The workflows of the lines added to `ws`, a later line of the same
      name replacing an earlier one as `HashMap::insert` does. */
  function InsertAll(lines: seq<string>, ws: Workflows): Result<Workflows> {
    if lines == [] then Ok(ws)
    else match WorkflowOf(lines[0])
      case Err(e) => Err(e)
      case Ok((name, rules)) => InsertAll(lines[1..], ws[name := rules])
  }

  function WorkflowsOf(s: string): Result<Workflows> {
    InsertAll(Lines(s), map[])
  }

  /** `Workflows::new`, line by line. */
  method NewWorkflows(s: string) returns (r: Result<Workflows>)
    ensures r == WorkflowsOf(s)
  {
    var lines := Lines(s);
    var ws: Workflows := map[];
    var i := 0;
    while i < |lines|
      invariant 0 <= i <= |lines|
      invariant InsertAll(lines[i..], ws) == WorkflowsOf(s)
    {
      assert lines[i..][1..] == lines[i + 1..];
      match WorkflowOf(lines[i])
      case Err(e) =>
        return Err(e);
      case Ok((name, rules)) =>
        ws := ws[name := rules];
      i := i + 1;
    }
    return Ok(ws);
  }

  /** Every line names a workflow, and nothing read before is lost. */
  lemma {:induction false} InsertAllKeys(lines: seq<string>, ws: Workflows)
    requires InsertAll(lines, ws).Ok?
    ensures ws.Keys <= InsertAll(lines, ws).value.Keys
    ensures forall i :: 0 <= i < |lines| ==> WorkflowOf(lines[i]).Ok? && WorkflowOf(lines[i]).value.0 in InsertAll(lines, ws).value
  {
    if lines != [] {
      var (name, rules) := WorkflowOf(lines[0]).value;
      InsertAllKeys(lines[1..], ws[name := rules]);
      forall i | 1 <= i < |lines|
        ensures WorkflowOf(lines[i]).Ok? && WorkflowOf(lines[i]).value.0 in InsertAll(lines, ws).value
      {
        assert lines[1..][i - 1] == lines[i];
      }
    }
  }

  /** Every workflow read comes from a line, or was there before. */
  lemma {:induction false} InsertAllFrom(lines: seq<string>, ws: Workflows, n: string)
    requires InsertAll(lines, ws).Ok? && n in InsertAll(lines, ws).value
    ensures n in ws || exists i :: 0 <= i < |lines| && WorkflowOf(lines[i]).Ok? && WorkflowOf(lines[i]).value.0 == n
  {
    if lines != [] {
      var (name, rules) := WorkflowOf(lines[0]).value;
      InsertAllFrom(lines[1..], ws[name := rules], n);
      if n !in ws[name := rules] {
        var i :| 0 <= i < |lines[1..]| && WorkflowOf(lines[1..][i]).Ok? && WorkflowOf(lines[1..][i]).value.0 == n;
        assert lines[1..][i] == lines[i + 1];
      }
    }
  }

  /** Every rule read into the workflows is anchored. */
  lemma {:induction false} InsertAllAnchored(lines: seq<string>, ws: Workflows)
    requires InsertAll(lines, ws).Ok?
    requires forall n :: n in ws ==> AllAnchored(ws[n])
    ensures forall n :: n in InsertAll(lines, ws).value ==> AllAnchored(InsertAll(lines, ws).value[n])
  {
    if lines != [] {
      var (name, rules) := WorkflowOf(lines[0]).value;
      var body := SplitOnce(lines[0], '{').value.1;
      var conditions := Split(TrimTrailing(body, '}'), ',');
      forall i | 0 <= i < |rules|
        ensures Anchored(rules[i])
      {
        MapResultAt(conditions, ConditionOf, i);
        ConditionOfAnchored(conditions[i]);
      }
      InsertAllAnchored(lines[1..], ws[name := rules]);
    }
  }

  /** `part1`: the sum of the ratings of the accepted parts, the workflows
      above the first blank line and the parts below it. */
  function Part1(input: string): Result<nat> {
    match SplitOnceStr(input, "\n\n")
    case None => Err(Panic)
    case Some((rules, parts)) =>
      match WorkflowsOf(rules)
      case Err(e) => Err(e)
      case Ok(ws) =>
        match MapResult(Lines(parts), ReadPart)
        case Err(e) => Err(e)
        case Ok(ps) => AcceptedRatings(ws, ps)
  }
}
