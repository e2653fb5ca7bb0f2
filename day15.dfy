/** Day 15: the HASH algorithm, an 8-bit fold over the bytes of a step, and
    the HASHMAP procedure: 256 boxes of labelled lenses that the steps of
    the initialisation sequence fill and empty. */
module Day15 {
  import opened Wrappers
  import opened Text

  /** The byte of an ASCII character. */
  function ByteOf(c: char): (b: nat)
    ensures b < 256
  {
    (c as int) % 256
  }

  /** One round on the `u8` accumulator: `acc.wrapping_add(c).wrapping_mul(17)`. */
  function HashRound(acc: nat, c: char): (r: nat)
    ensures r < 256
  {
    ((acc + ByteOf(c)) % 256 * 17) % 256
  }

  /** `bytes().fold(acc, ...)`. */
  function HashFrom(acc: nat, s: string): nat
    decreases |s|
  {
    if s == [] then acc else HashFrom(HashRound(acc, s[0]), s[1..])
  }

  /** `HashMap::hash`: the fold from 0 over the trimmed bytes. */
  function Hash(s: string): nat {
    HashFrom(0, Trim(s))
  }

  /** The fold of a concatenation folds the second part from where the first
      one ended. */
  lemma {:induction false} HashFromAppend(acc: nat, s: string, t: string)
    ensures HashFrom(acc, s + t) == HashFrom(HashFrom(acc, s), t)
    decreases |s|
  {
    if s == [] {
      assert s + t == t;
    } else {
      assert (s + t)[1..] == s[1..] + t;
      HashFromAppend(HashRound(acc, s[0]), s[1..], t);
    }
  }

  /** A hash is a byte; it starts at 0 for the empty string, and whitespace
      around a step does not change it. */
  lemma {:induction false} HashBounds(s: string)
    ensures Hash(s) < 256
    ensures Hash(Trim(s)) == Hash(s)
    ensures Hash("") == 0
  {
    TrimSpec(s);
    HashFromBound(0, Trim(s));
    assert Trim("") == "";
  }

  lemma {:induction false} HashFromBound(acc: nat, s: string)
    requires acc < 256
    ensures HashFrom(acc, s) < 256
    decreases |s|
  {
    if s != [] {
      HashFromBound(HashRound(acc, s[0]), s[1..]);
    }
  }

  /** The sum of the hashes of the pieces. */
  function SumHashes(steps: seq<string>): nat {
    if steps == [] then 0 else Hash(steps[0]) + SumHashes(steps[1..])
  }

  /** `part1`: the hashes of the comma-separated steps, added; the input is
      not trimmed first, `hash` trims each step. */
  function Part1(input: string): nat {
    SumHashes(Split(input, ','))
  }

  /** Part one is at most 255 per step. */
  lemma {:induction false} SumHashesBound(steps: seq<string>)
    ensures SumHashes(steps) <= 255 * |steps|
  {
    if steps != [] {
      HashBounds(steps[0]);
      SumHashesBound(steps[1..]);
    }
  }

  // ---------------------------------------------------------------------
  // The boxes

  datatype Lens = Lens(name: string, focal: nat)

  /** What a step asks for: `label=n`, `label-`, or a step that holds
      neither sign and does nothing. */
  datatype Op = Insert(name: string, focal: nat) | Remove(name: string) | Skip

  /** The first step of `step`: a missing focal length panics, and so does a
      byte below `'0'`, where the `u8` subtraction overflows. */
  function OpOf(s: string): Result<Op> {
    match SplitOnce(s, '=')
    case Some((name, lens)) =>
      if lens == [] || ByteOf(lens[0]) < ByteOf('0') then Err(Panic)
      else Ok(Insert(name, ByteOf(lens[0]) - ByteOf('0')))
    case None =>
      match SplitOnce(s, '-')
      case Some((name, _)) => Ok(Remove(name))
      case None => Ok(Skip)
  }

  /** `iter().find` from slot `i`: the first slot at or after `i` holding
      `name`. */
  function FindLabel(b: seq<Lens>, name: string, i: nat): (r: Option<nat>)
    requires i <= |b|
    ensures r.Some? ==> i <= r.value < |b| && b[r.value].name == name
    decreases |b| - i
  {
    if i == |b| then None
    else if b[i].name == name then Some(i)
    else FindLabel(b, name, i + 1)
  }

  lemma {:induction false} FindLabelSpec(b: seq<Lens>, name: string, i: nat)
    requires i <= |b|
    ensures FindLabel(b, name, i).None? <==> forall j :: i <= j < |b| ==> b[j].name != name
    ensures FindLabel(b, name, i).Some? ==>
      var k := FindLabel(b, name, i).value;
      i <= k < |b| && b[k].name == name && forall j :: i <= j < k ==> b[j].name != name
    decreases |b| - i
  {
    if i < |b| && b[i].name != name {
      FindLabelSpec(b, name, i + 1);
    }
  }

  /** `label=n` in one box: the lens with that name gets the new focal
      length where it stands, or the new lens goes at the back. */
  function Put(b: seq<Lens>, name: string, focal: nat): seq<Lens> {
    match FindLabel(b, name, 0)
    case Some(k) => b[k := Lens(name, focal)]
    case None => b + [Lens(name, focal)]
  }

  /** `retain(|(l, _)| l != &name)`. */
  function Retain(b: seq<Lens>, name: string): seq<Lens> {
    if b == [] then []
    else Retain(b[..|b| - 1], name) + (if b[|b| - 1].name == name then [] else [b[|b| - 1]])
  }

  /** No name occurs twice in a box. */
  predicate Unique(b: seq<Lens>) {
    forall j, k :: 0 <= j < k < |b| ==> b[j].name != b[k].name
  }

  /** When the name is in the box its focal length is replaced in place and
      nothing else changes; otherwise the lens is appended. */
  lemma PutSpec(b: seq<Lens>, name: string, focal: nat)
    requires Unique(b)
    ensures Unique(Put(b, name, focal))
    ensures (exists k :: 0 <= k < |b| && b[k].name == name) ==>
      |Put(b, name, focal)| == |b| &&
      forall j :: 0 <= j < |b| ==> Put(b, name, focal)[j] == if b[j].name == name then Lens(name, focal) else b[j]
    ensures (forall k :: 0 <= k < |b| ==> b[k].name != name) ==> Put(b, name, focal) == b + [Lens(name, focal)]
  {
    FindLabelSpec(b, name, 0);
  }

  /** Removing a name that is absent changes nothing ... */
  lemma {:induction false} RetainAbsent(b: seq<Lens>, name: string)
    requires forall k :: 0 <= k < |b| ==> b[k].name != name
    ensures Retain(b, name) == b
  {
    if b != [] {
      RetainAbsent(b[..|b| - 1], name);
    }
  }

  /** ... and removing one that occurs once, at `k`, takes out exactly its
      lens, the others keeping their order. */
  lemma {:induction false} RetainOne(b: seq<Lens>, name: string, k: nat)
    requires k < |b| && b[k].name == name
    requires forall j :: 0 <= j < |b| && j != k ==> b[j].name != name
    ensures Retain(b, name) == b[..k] + b[k + 1..]
  {
    var front := b[..|b| - 1];
    if k < |b| - 1 {
      RetainOne(front, name, k);
      assert b[..k] + b[k + 1..] == front[..k] + front[k + 1..] + [b[|b| - 1]];
    } else {
      RetainAbsent(front, name);
      assert b[..k] == front;
    }
  }

  /** No lens keeps the removed name, and no other lens is lost. */
  lemma {:induction false} RetainDrops(b: seq<Lens>, name: string)
    ensures forall l :: l in Retain(b, name) <==> l in b && l.name != name
  {
    if b != [] {
      var front := b[..|b| - 1];
      RetainDrops(front, name);
      assert b == front + [b[|b| - 1]];
    }
  }

  /** A box never holds more than it did. */
  lemma {:induction false} RetainUnique(b: seq<Lens>, name: string)
    requires Unique(b)
    ensures Unique(Retain(b, name))
    ensures |Retain(b, name)| <= |b|
  {
    if b != [] {
      var front := b[..|b| - 1];
      assert Unique(front);
      RetainUnique(front, name);
      RetainDrops(front, name);
      var last := b[|b| - 1];
      forall l | l in Retain(front, name)
        ensures l.name != last.name
      {
        var j :| 0 <= j < |front| && front[j] == l;
      }
    }
  }

  /** Every lens sits in the box its name hashes to, once. */
  predicate WellPlaced(boxes: seq<seq<Lens>>) {
    && |boxes| == 256
    && (forall i, j :: 0 <= i < 256 && 0 <= j < |boxes[i]| ==> Hash(boxes[i][j].name) == i)
    && (forall i :: 0 <= i < 256 ==> Unique(boxes[i]))
  }

  /** The 256 empty boxes of `HashMap::default`. */
  function EmptyBoxes(): (r: seq<seq<Lens>>)
    ensures |r| == 256 && forall i :: 0 <= i < 256 ==> r[i] == []
  {
    seq(256, i => [])
  }

  /** One parsed step applied to the boxes: only box `hash(label)` changes. */
  function ApplyOp(boxes: seq<seq<Lens>>, op: Op): (r: seq<seq<Lens>>)
    requires |boxes| == 256
    ensures |r| == 256
  {
    match op
    case Insert(name, focal) =>
      HashBounds(name);
      boxes[Hash(name) := Put(boxes[Hash(name)], name, focal)]
    case Remove(name) =>
      HashBounds(name);
      boxes[Hash(name) := Retain(boxes[Hash(name)], name)]
    case Skip => boxes
  }

  /** A step touches no box but the one of its name, and keeps every lens
      in its box, once. */
  lemma ApplyOpSpec(boxes: seq<seq<Lens>>, op: Op)
    requires WellPlaced(boxes)
    ensures WellPlaced(ApplyOp(boxes, op))
    ensures forall i :: 0 <= i < 256 && (op.Skip? || i != Hash(op.name)) ==> ApplyOp(boxes, op)[i] == boxes[i]
  {
    match op
    case Insert(name, focal) =>
      HashBounds(name);
      var h := Hash(name);
      PutSpec(boxes[h], name, focal);
      FindLabelSpec(boxes[h], name, 0);
      PutPlaced(boxes[h], name, focal, h);
    case Remove(name) =>
      HashBounds(name);
      var h := Hash(name);
      RetainUnique(boxes[h], name);
      RetainDrops(boxes[h], name);
      var r := Retain(boxes[h], name);
      forall j | 0 <= j < |r|
        ensures Hash(r[j].name) == h
      {
        assert r[j] in boxes[h];
      }
    case Skip =>
  }

  lemma PutPlaced(b: seq<Lens>, name: string, focal: nat, h: nat)
    requires Hash(name) == h && forall j :: 0 <= j < |b| ==> Hash(b[j].name) == h
    ensures forall j :: 0 <= j < |Put(b, name, focal)| ==> Hash(Put(b, name, focal)[j].name) == h
  {
  }

  /** The parsed steps applied in order from the empty boxes; the first
      step that panics ends the run. */
  function Steps(steps: seq<string>): (r: Result<seq<seq<Lens>>>)
    ensures r.Ok? ==> |r.value| == 256
  {
    if steps == [] then Ok(EmptyBoxes())
    else match Steps(steps[..|steps| - 1])
      case Err(e) => Err(e)
      case Ok(boxes) =>
        match OpOf(steps[|steps| - 1])
        case Err(e) => Err(e)
        case Ok(op) => Ok(ApplyOp(boxes, op))
  }

  /** Every sequence of steps leaves each lens in its name's box, once. */
  lemma {:induction false} StepsWellPlaced(steps: seq<string>)
    requires Steps(steps).Ok?
    ensures WellPlaced(Steps(steps).value)
  {
    if steps == [] {
      assert WellPlaced(EmptyBoxes());
    } else {
      StepsWellPlaced(steps[..|steps| - 1]);
      ApplyOpSpec(Steps(steps[..|steps| - 1]).value, OpOf(steps[|steps| - 1]).value);
    }
  }

  /** A step that panics ends the whole sequence with its error. */
  lemma {:induction false} StepsErr(steps: seq<string>, i: nat)
    requires i <= |steps| && Steps(steps[..i]).Err?
    ensures Steps(steps) == Steps(steps[..i])
    decreases |steps| - i
  {
    if i < |steps| {
      assert steps[..i + 1][..i] == steps[..i];
      StepsErr(steps, i + 1);
    } else {
      assert steps[..i] == steps;
    }
  }

  /** The slot-weighted focal lengths of one box. */
  function BoxPower(b: seq<Lens>): nat {
    if b == [] then 0 else BoxPower(b[..|b| - 1]) + |b| * b[|b| - 1].focal
  }

  /** `focusing_power` over the first `k` boxes. */
  function FocusingPower(boxes: seq<seq<Lens>>, k: nat): nat
    requires k <= |boxes|
  {
    if k == 0 then 0 else FocusingPower(boxes, k - 1) + k * BoxPower(boxes[k - 1])
  }

  /** Empty boxes at the end add nothing. */
  lemma {:induction false} FocusingPowerEmptyTail(boxes: seq<seq<Lens>>, k: nat, n: nat)
    requires k <= n <= |boxes| && forall i :: k <= i < n ==> boxes[i] == []
    ensures FocusingPower(boxes, n) == FocusingPower(boxes, k)
    decreases n
  {
    if n > k {
      FocusingPowerEmptyTail(boxes, k, n - 1);
    }
  }

  /** `part2`: the steps of the trimmed input, then the focusing power. */
  function Part2(input: string): Result<nat> {
    match Steps(Split(Trim(input), ','))
    case Err(e) => Err(e)
    case Ok(boxes) => Ok(FocusingPower(boxes, 256))
  }

  /** The 256 boxes, updated in place by the steps. */
  class LensBoxes {
    const boxes: array<seq<Lens>>

    constructor ()
      ensures fresh(boxes)
      ensures boxes.Length == 256 && boxes[..] == EmptyBoxes()
    {
      boxes := new seq<Lens>[256](_ => []);
    }

    /** `HashMap::step`; `false` where the source panics, and then no box
        has changed. */
    method Step(s: string) returns (ok: bool)
      requires boxes.Length == 256
      modifies boxes
      ensures ok <==> OpOf(s).Ok?
      ensures ok ==> boxes[..] == ApplyOp(old(boxes[..]), OpOf(s).value)
      ensures !ok ==> boxes[..] == old(boxes[..])
    {
      var op := OpOf(s);
      if op.Err? {
        return false;
      }
      ok := true;
      match op.value
      case Insert(name, focal) =>
        HashBounds(name);
        var h := Hash(name);
        var found := Find(boxes[h], name);
        if found.Some? {
          boxes[h] := boxes[h][found.value := Lens(name, focal)];
        } else {
          boxes[h] := boxes[h] + [Lens(name, focal)];
        }
      case Remove(name) =>
        HashBounds(name);
        var h := Hash(name);
        var kept := RetainLoop(boxes[h], name);
        boxes[h] := kept;
      case Skip =>
    }

    /** The focusing power of the boxes. */
    function Power(): nat
      requires boxes.Length == 256
      reads boxes
    {
      FocusingPower(boxes[..], 256)
    }
  }

  /** The search of `iter_mut().find` over one box. */
  method Find(b: seq<Lens>, name: string) returns (r: Option<nat>)
    ensures r == FindLabel(b, name, 0)
  {
    var i := 0;
    while i < |b|
      invariant 0 <= i <= |b|
      invariant FindLabel(b, name, 0) == FindLabel(b, name, i)
    {
      if b[i].name == name {
        return Some(i);
      }
      i := i + 1;
    }
    return None;
  }

  /** `retain`, one lens after the other. */
  method RetainLoop(b: seq<Lens>, name: string) returns (r: seq<Lens>)
    ensures r == Retain(b, name)
  {
    r := [];
    for i := 0 to |b|
      invariant r == Retain(b[..i], name)
    {
      assert b[..i + 1][..i] == b[..i];
      if b[i].name != name {
        r := r + [b[i]];
      }
    }
    assert b[..|b|] == b;
  }

  /** `part2`: the steps applied to fresh boxes one after the other. */
  method RunPart2(input: string) returns (r: Result<nat>)
    ensures r == Part2(input)
  {
    var steps := Split(Trim(input), ',');
    var lenses := new LensBoxes();
    for i := 0 to |steps|
      invariant fresh(lenses.boxes) && lenses.boxes.Length == 256
      invariant Steps(steps[..i]) == Ok(lenses.boxes[..])
    {
      assert steps[..i + 1][..i] == steps[..i];
      var ok := lenses.Step(steps[i]);
      if !ok {
        StepsErr(steps, i + 1);
        return Err(Panic);
      }
    }
    assert steps[..|steps|] == steps;
    return Ok(lenses.Power());
  }

  // ---------------------------------------------------------------------
  // The worked example

  /** The hash of a three-byte step that needs no trimming, from the
      accumulator after each byte. */
  lemma Hash3(a: char, b: char, c: char, va: nat, vb: nat, vc: nat)
    requires !IsWhitespace(a) && !IsWhitespace(c)
    requires va == HashRound(0, a) && vb == HashRound(va, b) && vc == HashRound(vb, c)
    ensures Hash([a, b, c]) == vc
  {
    var s := [a, b, c];
    TrimUnchanged(s);
    assert HashFrom(0, s) == HashFrom(va, s[1..]);
    assert HashFrom(va, s[1..]) == HashFrom(vb, s[2..]);
    assert HashFrom(vb, s[2..]) == HashFrom(vc, s[3..]);
  }

  /** The same for four bytes. */
  lemma Hash4(a: char, b: char, c: char, d: char, va: nat, vb: nat, vc: nat, vd: nat)
    requires !IsWhitespace(a) && !IsWhitespace(d)
    requires va == HashRound(0, a) && vb == HashRound(va, b) && vc == HashRound(vb, c) && vd == HashRound(vc, d)
    ensures Hash([a, b, c, d]) == vd
  {
    var s := [a, b, c, d];
    TrimUnchanged(s);
    assert HashFrom(0, s) == HashFrom(va, s[1..]);
    assert HashFrom(va, s[1..]) == HashFrom(vb, s[2..]);
    assert HashFrom(vb, s[2..]) == HashFrom(vc, s[3..]);
    assert HashFrom(vc, s[3..]) == HashFrom(vd, s[4..]);
  }

  // The test vector of the HASH algorithm: the eleven steps of the
  // example and their hashes.

  lemma HashVector0()
    ensures Hash("rn=1") == 30
  {
    Hash4('r', 'n', '=', '1', 146, 0, 13, 30);
  }

  lemma HashVector1()
    ensures Hash("cm-") == 253
  {
    Hash3('c', 'm', '-', 147, 0, 253);
  }

  lemma HashVector2()
    ensures Hash("qp=3") == 97
  {
    Hash4('q', 'p', '=', '3', 129, 1, 30, 97);
  }

  lemma HashVector3()
    ensures Hash("cm=2") == 47
  {
    Hash4('c', 'm', '=', '2', 147, 0, 13, 47);
  }

  lemma HashVector4()
    ensures Hash("qp-") == 14
  {
    Hash3('q', 'p', '-', 129, 1, 14);
  }

  lemma HashVector5()
    ensures Hash("pc=4") == 180
  {
    Hash4('p', 'c', '=', '4', 112, 3, 64, 180);
  }

  lemma HashVector6()
    ensures Hash("ot=9") == 9
  {
    Hash4('o', 't', '=', '9', 95, 3, 64, 9);
  }

  lemma HashVector7()
    ensures Hash("ab=5") == 197
  {
    Hash4('a', 'b', '=', '5', 113, 3, 64, 197);
  }

  lemma HashVector8()
    ensures Hash("pc-") == 48
  {
    Hash3('p', 'c', '-', 112, 3, 48);
  }

  lemma HashVector9()
    ensures Hash("pc=6") == 214
  {
    Hash4('p', 'c', '=', '6', 112, 3, 64, 214);
  }

  lemma HashVector10()
    ensures Hash("ot=7") == 231
  {
    Hash4('o', 't', '=', '7', 95, 3, 64, 231);
  }

  /** The hash of a two-byte label. */
  lemma Hash2(a: char, b: char, va: nat, vb: nat)
    requires !IsWhitespace(a) && !IsWhitespace(b)
    requires va == HashRound(0, a) && vb == HashRound(va, b)
    ensures Hash([a, b]) == vb
  {
    var s := [a, b];
    TrimUnchanged(s);
    assert HashFrom(0, s) == HashFrom(va, s[1..]);
    assert HashFrom(va, s[1..]) == HashFrom(vb, s[2..]);
  }

  /** The eleven steps of the example, in order. */
  predicate IsExample(e: seq<string>) {
    && |e| == 11
    && e[0] == "rn=1" && e[1] == "cm-" && e[2] == "qp=3" && e[3] == "cm=2"
    && e[4] == "qp-" && e[5] == "pc=4" && e[6] == "ot=9" && e[7] == "ab=5"
    && e[8] == "pc-" && e[9] == "pc=6" && e[10] == "ot=7"
  }

  /** The example's steps, each between commas, split back apart. */
  lemma ExampleSplit(e: seq<string>)
    requires IsExample(e)
    ensures Split(Join(e, ','), ',') == e
  {
    forall i | 0 <= i < |e|
      ensures ',' !in e[i]
    {
    }
    JoinSplit(e, ',');
  }

  lemma SumHashesFrom(steps: seq<string>, i: nat)
    requires i < |steps|
    ensures SumHashes(steps[i..]) == Hash(steps[i]) + SumHashes(steps[i + 1..])
  {
    assert steps[i..][1..] == steps[i + 1..];
  }

  /** The hashes of the example's steps add up to 1320. */
  lemma ExampleSum(e: seq<string>)
    requires |e| == 11
    requires Hash(e[0]) == 30 && Hash(e[1]) == 253 && Hash(e[2]) == 97 && Hash(e[3]) == 47
    requires Hash(e[4]) == 14 && Hash(e[5]) == 180 && Hash(e[6]) == 9 && Hash(e[7]) == 197
    requires Hash(e[8]) == 48 && Hash(e[9]) == 214 && Hash(e[10]) == 231
    ensures SumHashes(e) == 1320
  {
    assert e[11..] == [];
    SumHashesFrom(e, 10); SumHashesFrom(e, 9); SumHashesFrom(e, 8); SumHashesFrom(e, 7);
    SumHashesFrom(e, 6); SumHashesFrom(e, 5); SumHashesFrom(e, 4); SumHashesFrom(e, 3);
    SumHashesFrom(e, 2); SumHashesFrom(e, 1); SumHashesFrom(e, 0);
    assert e[0..] == e;
  }

  /** Part one of the example adds up the eleven hashes to 1320. */
  lemma ExamplePart1(e: seq<string>, input: string)
    requires IsExample(e) && input == Join(e, ',')
    ensures Part1(input) == 1320
  {
    ExampleSplit(e);
    HashVector0(); HashVector1(); HashVector2(); HashVector3();
    HashVector4(); HashVector5(); HashVector6(); HashVector7();
    HashVector8(); HashVector9(); HashVector10();
    ExampleSum(e);
  }

  /** Boxes 0, 1 and 3 hold the given lenses and every other box is empty. */
  predicate Holds(boxes: seq<seq<Lens>>, b0: seq<Lens>, b1: seq<Lens>, b3: seq<Lens>) {
    && |boxes| == 256 && boxes[0] == b0 && boxes[1] == b1 && boxes[3] == b3
    && forall i :: 0 <= i < 256 && i != 0 && i != 1 && i != 3 ==> boxes[i] == []
  }

  /** What a step does to the one box it touches. */
  function Change(b: seq<Lens>, op: Op): seq<Lens> {
    match op
    case Insert(name, focal) => Put(b, name, focal)
    case Remove(name) => Retain(b, name)
    case Skip => b
  }

  lemma StepsAt(e: seq<string>, k: nat)
    requires k < |e| && Steps(e[..k]).Ok? && OpOf(e[k]).Ok?
    ensures Steps(e[..k + 1]) == Ok(ApplyOp(Steps(e[..k]).value, OpOf(e[k]).value))
  {
    assert e[..k + 1][..k] == e[..k];
  }

  /** `label=d` for a one-digit focal length. */
  lemma OpOfInsert(s: string, name: string, d: char)
    requires s == name + ['='] + [d] && '=' !in name && '0' <= d <= '9'
    ensures OpOf(s) == Ok(Insert(name, ByteOf(d) - ByteOf('0')))
  {
    SplitOnceAt(name, '=', [d]);
  }

  /** `label-`. */
  lemma OpOfRemove(s: string, name: string)
    requires s == name + ['-'] && '=' !in name && '-' !in name
    ensures OpOf(s) == Ok(Remove(name))
  {
    SplitOnceSpec(s, '=');
    SplitOnceAt(name, '-', []);
    assert name + ['-'] + [] == s;
  }

  /** One step of a run over boxes 0, 1 and 3. */
  lemma StepOn(e: seq<string>, k: nat, b0: seq<Lens>, b1: seq<Lens>, b3: seq<Lens>, op: Op, h: nat,
               c0: seq<Lens>, c1: seq<Lens>, c3: seq<Lens>)
    requires k < |e| && Steps(e[..k]).Ok? && Holds(Steps(e[..k]).value, b0, b1, b3) && OpOf(e[k]) == Ok(op)
    requires !op.Skip? && Hash(op.name) == h && (h == 0 || h == 1 || h == 3)
    requires c0 == (if h == 0 then Change(b0, op) else b0)
    requires c1 == (if h == 1 then Change(b1, op) else b1)
    requires c3 == (if h == 3 then Change(b3, op) else b3)
    ensures Steps(e[..k + 1]).Ok? && Holds(Steps(e[..k + 1]).value, c0, c1, c3)
  {
    StepsAt(e, k);
    var boxes := Steps(e[..k]).value;
    assert ApplyOp(boxes, op) == boxes[h := Change(boxes[h], op)];
  }

  /** Each step of the example reads as what it asks for. */
  lemma ExampleOp(e: seq<string>, k: nat)
    requires IsExample(e) && k < 11
    ensures OpOf(e[k]) == Ok(ExampleOpAt(ExampleLabels, k))
  {
    if k == 0 { OpOfInsert(e[k], "rn", '1'); }
    else if k == 1 { OpOfRemove(e[k], "cm"); }
    else if k == 2 { OpOfInsert(e[k], "qp", '3'); }
    else if k == 3 { OpOfInsert(e[k], "cm", '2'); }
    else if k == 4 { OpOfRemove(e[k], "qp"); }
    else if k == 5 { OpOfInsert(e[k], "pc", '4'); }
    else if k == 6 { OpOfInsert(e[k], "ot", '9'); }
    else if k == 7 { OpOfInsert(e[k], "ab", '5'); }
    else if k == 8 { OpOfRemove(e[k], "pc"); }
    else if k == 9 { OpOfInsert(e[k], "pc", '6'); }
    else { OpOfInsert(e[k], "ot", '7'); }
  }

  // The boxes of the example's labels.

  lemma LabelRn()
    ensures Hash("rn") == 0
  {
    Hash2('r', 'n', 146, 0);
  }

  lemma LabelCm()
    ensures Hash("cm") == 0
  {
    Hash2('c', 'm', 147, 0);
  }

  lemma LabelQp()
    ensures Hash("qp") == 1
  {
    Hash2('q', 'p', 129, 1);
  }

  lemma LabelPc()
    ensures Hash("pc") == 3
  {
    Hash2('p', 'c', 112, 3);
  }

  lemma LabelOt()
    ensures Hash("ot") == 3
  {
    Hash2('o', 't', 95, 3);
  }

  lemma LabelAb()
    ensures Hash("ab") == 3
  {
    Hash2('a', 'b', 113, 3);
  }

  /** A lens whose name is not in the box goes at its back. */
  lemma PutNew(b: seq<Lens>, name: string, focal: nat)
    requires forall j :: 0 <= j < |b| ==> b[j].name != name
    ensures Change(b, Insert(name, focal)) == b + [Lens(name, focal)]
  {
    FindLabelSpec(b, name, 0);
  }

  /** A lens whose name is in the box, at `k` only, takes its place. */
  lemma PutAt(b: seq<Lens>, name: string, focal: nat, k: nat)
    requires k < |b| && b[k].name == name && forall j :: 0 <= j < k ==> b[j].name != name
    ensures Change(b, Insert(name, focal)) == b[k := Lens(name, focal)]
  {
    FindLabelSpec(b, name, 0);
  }

  /** Removing a label just inserted into a box without it gives the box back. */
  lemma InsertThenRemove(b: seq<Lens>, name: string, focal: nat)
    requires forall j :: 0 <= j < |b| ==> b[j].name != name
    ensures Change(Change(b, Insert(name, focal)), Remove(name)) == b
  {
    PutNew(b, name, focal);
    RetainOne(b + [Lens(name, focal)], name, |b|);
    assert (b + [Lens(name, focal)])[..|b|] == b;
  }

  /** Of two insertions of one label, the later focal length wins and the
      lens keeps the place the first one gave it. */
  lemma InsertTwice(b: seq<Lens>, name: string, f: nat, g: nat)
    ensures Change(Change(b, Insert(name, f)), Insert(name, g)) == Change(b, Insert(name, g))
  {
    FindLabelSpec(b, name, 0);
    var once := Change(b, Insert(name, f));
    FindLabelSpec(once, name, 0);
    match FindLabel(b, name, 0)
    case None =>
      assert once == b + [Lens(name, f)];
      assert once[|b|].name == name;
      assert forall j :: 0 <= j < |b| ==> once[j] == b[j];
      assert FindLabel(once, name, 0) == Some(|b|);
      assert once[|b| := Lens(name, g)] == b + [Lens(name, g)];
    case Some(k) =>
      assert once == b[k := Lens(name, f)];
      assert once[k].name == name;
      assert forall j :: 0 <= j < k ==> once[j] == b[j];
      assert FindLabel(once, name, 0) == Some(k);
      assert once[k := Lens(name, g)] == b[k := Lens(name, g)];
  }

  /** The labels of the example, as parameters so that no proof about the
      run depends on their letters. */
  datatype Labels = Labels(rn: string, cm: string, qp: string, pc: string, ot: string, ab: string)

  const ExampleLabels := Labels("rn", "cm", "qp", "pc", "ot", "ab")

  /** Labels that hash and differ as the example's do. */
  predicate LabelsLike(l: Labels) {
    && Hash(l.rn) == 0 && Hash(l.cm) == 0 && Hash(l.qp) == 1
    && Hash(l.pc) == 3 && Hash(l.ot) == 3 && Hash(l.ab) == 3
    && l.rn != l.cm && l.pc != l.ot && l.pc != l.ab && l.ot != l.ab
  }

  /** The example's labels go to boxes 0, 0, 1, 3, 3 and 3. */
  lemma ExampleLabelsLike()
    ensures LabelsLike(ExampleLabels)
  {
    LabelRn(); LabelCm(); LabelQp(); LabelPc(); LabelOt(); LabelAb();
  }

  /** The example's steps, parsed. */
  function ExampleOpAt(l: Labels, k: nat): Op {
    if k == 0 then Insert(l.rn, 1) else if k == 1 then Remove(l.cm)
    else if k == 2 then Insert(l.qp, 3) else if k == 3 then Insert(l.cm, 2)
    else if k == 4 then Remove(l.qp) else if k == 5 then Insert(l.pc, 4)
    else if k == 6 then Insert(l.ot, 9) else if k == 7 then Insert(l.ab, 5)
    else if k == 8 then Remove(l.pc) else if k == 9 then Insert(l.pc, 6)
    else Insert(l.ot, 7)
  }

  /** The box of the example's `k`-th step. */
  function ExampleBoxAt(k: nat): nat {
    if k <= 1 || k == 3 then 0 else if k == 2 || k == 4 then 1 else 3
  }

  /** Boxes 0, 1 and 3 after the example's first `k` steps. */
  function Box0After(l: Labels, k: nat): seq<Lens> {
    if k == 0 then [] else if k <= 3 then [Lens(l.rn, 1)] else [Lens(l.rn, 1), Lens(l.cm, 2)]
  }

  function Box1After(l: Labels, k: nat): seq<Lens> {
    if k == 3 || k == 4 then [Lens(l.qp, 3)] else []
  }

  function Box3After(l: Labels, k: nat): seq<Lens> {
    if k <= 5 then []
    else if k == 6 then [Lens(l.pc, 4)]
    else if k == 7 then [Lens(l.pc, 4), Lens(l.ot, 9)]
    else if k == 8 then [Lens(l.pc, 4), Lens(l.ot, 9), Lens(l.ab, 5)]
    else if k == 9 then [Lens(l.ot, 9), Lens(l.ab, 5)]
    else if k == 10 then [Lens(l.ot, 9), Lens(l.ab, 5), Lens(l.pc, 6)]
    else [Lens(l.ot, 7), Lens(l.ab, 5), Lens(l.pc, 6)]
  }

  /** What the example's `k`-th step does to its box. */
  lemma ExampleChange(l: Labels, k: nat)
    requires LabelsLike(l) && k < 11
    ensures !ExampleOpAt(l, k).Skip? && Hash(ExampleOpAt(l, k).name) == ExampleBoxAt(k)
    ensures ExampleBoxAt(k) == 0 || ExampleBoxAt(k) == 1 || ExampleBoxAt(k) == 3
    ensures var op, h := ExampleOpAt(l, k), ExampleBoxAt(k);
      && Box0After(l, k + 1) == (if h == 0 then Change(Box0After(l, k), op) else Box0After(l, k))
      && Box1After(l, k + 1) == (if h == 1 then Change(Box1After(l, k), op) else Box1After(l, k))
      && Box3After(l, k + 1) == (if h == 3 then Change(Box3After(l, k), op) else Box3After(l, k))
  {
    if k < 5 { ExampleChangeEarly(l, k); } else if k < 8 { ExampleChangeLate(l, k); } else { ExampleChangeLast(l, k); }
  }

  /** Steps 0 to 4 fill boxes 0 and 1. */
  lemma ExampleChangeEarly(l: Labels, k: nat)
    requires LabelsLike(l) && k < 5
    ensures var op, h := ExampleOpAt(l, k), ExampleBoxAt(k);
      && Box0After(l, k + 1) == (if h == 0 then Change(Box0After(l, k), op) else Box0After(l, k))
      && Box1After(l, k + 1) == (if h == 1 then Change(Box1After(l, k), op) else Box1After(l, k))
  {
    if k == 0 { PutNew([], l.rn, 1); }
    else if k == 1 { RetainAbsent([Lens(l.rn, 1)], l.cm); }
    else if k == 2 { PutNew([], l.qp, 3); }
    else if k == 3 { PutNew([Lens(l.rn, 1)], l.cm, 2); }
    else { RetainOne([Lens(l.qp, 3)], l.qp, 0); }
  }

  /** Steps 5 to 7 fill box 3. */
  lemma ExampleChangeLate(l: Labels, k: nat)
    requires LabelsLike(l) && 5 <= k < 8
    ensures var op := ExampleOpAt(l, k);
      Box3After(l, k + 1) == Change(Box3After(l, k), op)
  {
    if k == 5 { PutNew([], l.pc, 4); }
    else if k == 6 { PutNew([Lens(l.pc, 4)], l.ot, 9); }
    else { PutNew([Lens(l.pc, 4), Lens(l.ot, 9)], l.ab, 5); }
  }

  /** Steps 8 to 10 move pc to the back of box 3 and refocus ot. */
  lemma ExampleChangeLast(l: Labels, k: nat)
    requires LabelsLike(l) && 8 <= k < 11
    ensures var op := ExampleOpAt(l, k);
      Box3After(l, k + 1) == Change(Box3After(l, k), op)
  {
    if k == 8 { RetainOne([Lens(l.pc, 4), Lens(l.ot, 9), Lens(l.ab, 5)], l.pc, 0); }
    else if k == 9 { PutNew([Lens(l.ot, 9), Lens(l.ab, 5)], l.pc, 6); }
    else { PutAt([Lens(l.ot, 9), Lens(l.ab, 5), Lens(l.pc, 6)], l.ot, 7, 0); }
  }

  /** The boxes after the example's first `k` steps. */
  lemma {:induction false} ExampleUpTo(e: seq<string>, l: Labels, k: nat)
    requires |e| == 11 && LabelsLike(l) && k <= 11
    requires forall j :: 0 <= j < 11 ==> OpOf(e[j]) == Ok(ExampleOpAt(l, j))
    ensures Steps(e[..k]).Ok? && Holds(Steps(e[..k]).value, Box0After(l, k), Box1After(l, k), Box3After(l, k))
  {
    if k == 0 {
      assert e[..0] == [];
      assert Holds(EmptyBoxes(), [], [], []);
    } else {
      ExampleUpTo(e, l, k - 1);
      ExampleChange(l, k - 1);
      StepOn(e, k - 1, Box0After(l, k - 1), Box1After(l, k - 1), Box3After(l, k - 1),
             ExampleOpAt(l, k - 1), ExampleBoxAt(k - 1), Box0After(l, k), Box1After(l, k), Box3After(l, k));
    }
  }

  /** Those boxes have a focusing power of 1 * (1 * 1 + 2 * 2) + 4 * (1 * 7 +
      2 * 5 + 3 * 6) = 145. */
  lemma ExamplePower(boxes: seq<seq<Lens>>, rn: string, cm: string, pc: string, ot: string, ab: string)
    requires Holds(boxes, [Lens(rn, 1), Lens(cm, 2)], [], [Lens(ot, 7), Lens(ab, 5), Lens(pc, 6)])
    ensures FocusingPower(boxes, 256) == 145
  {
    var b0 := [Lens(rn, 1), Lens(cm, 2)];
    var b3 := [Lens(ot, 7), Lens(ab, 5), Lens(pc, 6)];
    FocusingPowerEmptyTail(boxes, 4, 256);
    assert BoxPower(b0) == 5 by {
      assert b0[..1] == [Lens(rn, 1)];
    }
    assert BoxPower(b3) == 35 by {
      var b2 := [Lens(ot, 7), Lens(ab, 5)];
      assert b3[..2] == b2;
      assert b2[..1] == [Lens(ot, 7)];
      assert BoxPower([Lens(ot, 7)]) == 7;
      assert BoxPower(b2) == 17;
    }
    assert FocusingPower(boxes, 1) == 5;
    assert FocusingPower(boxes, 3) == 5;
  }

  /** The example's steps all parse. */
  lemma ExampleOps(e: seq<string>)
    requires IsExample(e)
    ensures forall k :: 0 <= k < 11 ==> OpOf(e[k]) == Ok(ExampleOpAt(ExampleLabels, k))
  {
    forall k | 0 <= k < 11
      ensures OpOf(e[k]) == Ok(ExampleOpAt(ExampleLabels, k))
    {
      ExampleOp(e, k);
    }
  }

  /** The example's eleven steps leave rn=1 and cm=2 in box 0 and ot=7, ab=5
      and pc=6 in box 3. */
  lemma ExampleBoxes(e: seq<string>, l: Labels)
    requires |e| == 11 && LabelsLike(l)
    requires forall k :: 0 <= k < 11 ==> OpOf(e[k]) == Ok(ExampleOpAt(l, k))
    ensures Steps(e).Ok?
    ensures Holds(Steps(e).value, [Lens(l.rn, 1), Lens(l.cm, 2)], [], [Lens(l.ot, 7), Lens(l.ab, 5), Lens(l.pc, 6)])
  {
    ExampleUpTo(e, l, 11);
    assert e[..11] == e;
  }

  /** Part two of the example: the eleven steps leave a focusing power of
      145. */
  lemma ExamplePart2(e: seq<string>, input: string)
    requires IsExample(e) && input == Join(e, ',')
    ensures Part2(input) == Ok(145)
  {
    assert Trim(input) == input by {
      JoinEnds(e, ',');
      TrimUnchanged(input);
    }
    ExampleSplit(e);
    ExampleOps(e);
    ExampleLabelsLike();
    ExampleBoxes(e, ExampleLabels);
    ExamplePower(Steps(e).value, "rn", "cm", "pc", "ot", "ab");
  }
}
