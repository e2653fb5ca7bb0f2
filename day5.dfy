/** Seed remapping: an almanac of maps, each shifting the values that fall in
    one of its source ranges by a fixed offset; the answer is the lowest
    value after every map. */
module Day5 {
  import opened Wrappers
  import opened Text
  import opened RangeExtension

  /** A map line `destination source length`: the source range
      `source..source + length` and the offset `destination - source`. */
  datatype Conversion = Conversion(range: Range, offset: int)

  datatype Map = Map(conversions: seq<Conversion>)

  // ---------------------------------------------------------------------
  // Parsing

  /** The `n`th word, or the empty text when there are fewer
      (`next().unwrap_or_default()`). */
  function NthWord(words: seq<string>, n: nat): string {
    if n < |words| then words[n] else ""
  }

  /** `str::parse::<i64>` with `?`. */
  function ParseId(s: string): Result<int> {
    match ParseInt(s)
    case Some(v) => Ok(v)
    case None => Err(BadNumber)
  }

  /** One map line; the first of the three numbers that fails to parse
      fails the line. */
  function ConversionOf(line: string): Result<Conversion> {
    ConversionOfWords(SplitWhitespace(line))
  }

  function ConversionOfWords(words: seq<string>): Result<Conversion> {
    match ParseId(NthWord(words, 0))
    case Err(e) => Err(e)
    case Ok(destination) =>
      match ParseId(NthWord(words, 1))
      case Err(e) => Err(e)
      case Ok(source) =>
        match ParseId(NthWord(words, 2))
        case Err(e) => Err(e)
        case Ok(length) => Ok(Conversion(Range(source, source + length), destination - source))
  }

  /** A line of three numbers separated by spaces is read as their
      conversion. */
  lemma ConversionOfLine(d: string, s: string, l: string)
    requires IsWord(d) && IsWord(s) && IsWord(l)
    requires ParseInt(d).Some? && ParseInt(s).Some? && ParseInt(l).Some?
    ensures var (destination, source, length) := (ParseInt(d).value, ParseInt(s).value, ParseInt(l).value);
      ConversionOf(d + " " + s + " " + l) == Ok(Conversion(Range(source, source + length), destination - source))
  {
    ThreeWords(d, s, l);
  }

  lemma ThreeWords(d: string, s: string, l: string)
    requires IsWord(d) && IsWord(s) && IsWord(l)
    ensures SplitWhitespace(d + " " + s + " " + l) == [d, s, l]
  {
    SplitWhitespaceWord(l);
    SplitWhitespaceCons(s, l);
    SplitWhitespaceCons(d, s + " " + l);
    assert d + " " + s + " " + l == d + [' '] + (s + [' '] + l);
  }

  /** A line with fewer than three numbers fails, and every failure is a
      number that does not parse. */
  lemma ConversionOfErrors(line: string)
    ensures |SplitWhitespace(line)| < 3 ==> ConversionOf(line) == Err(BadNumber)
    ensures ConversionOf(line).Err? ==> ConversionOf(line).error == BadNumber
  {
    assert ParseInt("") == None;
    assert ConversionOf(line) == ConversionOfWords(SplitWhitespace(line));
  }

  /** The lines after the header line. */
  function BodyLines(s: string): seq<string> {
    var lines := Lines(s);
    if lines == [] then [] else lines[1..]
  }

  /** `Map::from_str`: a conversion per line after the header, or the first
      line's error. */
  function MapOf(s: string): Result<Map> {
    match MapResult(BodyLines(s), ConversionOf)
    case Ok(conversions) => Ok(Map(conversions))
    case Err(e) => Err(e)
  }

  /** Each conversion is the reading of the line at the same place after the
      header; a failure is a number that does not parse on some line. */
  lemma MapOfSpec(s: string)
    ensures MapOf(s).Ok? ==>
      |MapOf(s).value.conversions| == |BodyLines(s)| &&
      forall i :: 0 <= i < |BodyLines(s)| ==> ConversionOf(BodyLines(s)[i]) == Ok(MapOf(s).value.conversions[i])
    ensures MapOf(s).Err? ==>
      MapOf(s).error == BadNumber && exists i :: 0 <= i < |BodyLines(s)| && ConversionOf(BodyLines(s)[i]).Err?
  {
    var lines := BodyLines(s);
    if MapOf(s).Ok? {
      forall i | 0 <= i < |lines|
        ensures ConversionOf(lines[i]) == Ok(MapOf(s).value.conversions[i])
      {
        MapResultAt(lines, ConversionOf, i);
      }
    } else {
      FirstError(lines);
    }
  }

  /** A failed fold over the lines fails on some line, with that line's
      error. */
  lemma {:induction false} FirstError(lines: seq<string>)
    requires MapResult(lines, ConversionOf).Err?
    ensures MapResult(lines, ConversionOf).error == BadNumber
    ensures exists i :: 0 <= i < |lines| && ConversionOf(lines[i]).Err?
  {
    ConversionOfErrors(lines[0]);
    if ConversionOf(lines[0]).Ok? {
      FirstError(lines[1..]);
      var i :| 0 <= i < |lines[1..]| && ConversionOf(lines[1..][i]).Err?;
      assert ConversionOf(lines[i + 1]).Err?;
    }
  }

  /** `Map::from_str` as the source writes it, pushing one conversion per
      line. */
  method ParseMap(s: string) returns (r: Result<Map>)
    ensures r == MapOf(s)
  {
    var lines := BodyLines(s);
    var conversions: seq<Conversion> := [];
    var i := 0;
    while i < |lines|
      invariant 0 <= i <= |lines|
      invariant MapResult(lines[..i], ConversionOf) == Ok(conversions)
    {
      var line := ConversionOf(lines[i]);
      MapResultStep(lines, i, ConversionOf, conversions);
      if line.Err? {
        return Err(line.error);
      }
      conversions := conversions + [line.value];
      i := i + 1;
    }
    assert lines[..i] == lines;
    return Ok(Map(conversions));
  }

  /** The seeds: every word of the first section that parses as a number
      (`filter_map(... .ok())`), in order. */
  function Seeds(words: seq<string>): (r: seq<int>)
    ensures |r| <= |words|
  {
    if words == [] then []
    else (match ParseInt(words[0]) case Some(v) => [v] case None => []) + Seeds(words[1..])
  }

  lemma {:induction false} SeedsSpec(words: seq<string>)
    ensures forall v :: v in Seeds(words) <==> exists i :: 0 <= i < |words| && ParseInt(words[i]) == Some(v)
  {
    if words != [] {
      SeedsSpec(words[1..]);
      forall v | v in Seeds(words)
        ensures exists i :: 0 <= i < |words| && ParseInt(words[i]) == Some(v)
      {
        if ParseInt(words[0]) != Some(v) {
          var i :| 0 <= i < |words[1..]| && ParseInt(words[1..][i]) == Some(v);
          assert ParseInt(words[i + 1]) == Some(v);
        }
      }
      forall v, i | 0 <= i < |words| && ParseInt(words[i]) == Some(v)
        ensures v in Seeds(words)
      {
        if i > 0 {
          assert words[1..][i - 1] == words[i];
        }
      }
    }
  }

  /** `parse_input`: the sections are separated by blank lines; the first
      gives the seeds, each of the others a map, and a map that fails to
      parse is a panic. */
  function ParseInput(input: string): (r: Result<(seq<int>, seq<Map>)>)
    ensures r.Ok? ==> |r.value.1| == |SplitStr(input, "\n\n")| - 1
  {
    var sections := SplitStr(input, "\n\n");
    var seeds := Seeds(SplitWhitespace(sections[0]));
    match MapResult(sections[1..], MapOf)
    case Ok(maps) => Ok((seeds, maps))
    case Err(_) => Err(Panic)
  }

  /** The "seeds:" label is not a number, so the seed list holds just the
      numbers after it. */
  lemma SeedLabel(rest: string)
    ensures Seeds(SplitWhitespace("seeds:" + [' '] + rest)) == Seeds(SplitWhitespace(rest))
  {
    SplitWhitespaceCons("seeds:", rest);
    assert ParseInt("seeds:") == None;
    var words := SplitWhitespace("seeds:" + [' '] + rest);
    assert words[1..] == SplitWhitespace(rest);
  }

  // ---------------------------------------------------------------------
  // Part one

  /** The sum of the offsets of the conversions whose range holds `x`. */
  function Offset(conversions: seq<Conversion>, x: int): int {
    if conversions == [] then 0
    else
      var last := conversions[|conversions| - 1];
      Offset(conversions[..|conversions| - 1], x) + Contribution(last, x)
  }

  /** What one conversion adds to `x`. */
  function Contribution(c: Conversion, x: int): int {
    if c.range.Contains(x) then c.offset else 0
  }

  /** The value `x` becomes through one map: every conversion whose range
      holds `x` adds its offset, checked against `x` itself and not against
      the value earlier conversions produced. */
  function Shift(m: Map, x: int): int {
    x + Offset(m.conversions, x)
  }

  /** The values after one map. */
  function Apply(m: Map, values: set<int>): set<int> {
    set x | x in values :: Shift(m, x)
  }

  /** The values after every map, in order. */
  function Locations(maps: seq<Map>, values: set<int>): set<int> {
    if maps == [] then values
    else Apply(maps[|maps| - 1], Locations(maps[..|maps| - 1], values))
  }

  /** `min().unwrap_or_default()`: the least value, or 0 when there is none. */
  predicate IsAnswer(values: set<int>, r: int) {
    if values == {} then r == 0 else r in values && forall v :: v in values ==> r <= v
  }

  /** `range_mut` panics on a range whose start lies after its end. */
  predicate WellFormed(maps: seq<Map>) {
    forall i, c :: 0 <= i < |maps| && c in maps[i].conversions ==> c.range.start <= c.range.end
  }

  /** `numbers` with every value stored under a key in the range of `c`
      increased by its offset. */
  function Shifted(numbers: map<int, int>, c: Conversion): map<int, int> {
    map k | k in numbers :: if c.range.Contains(k) then numbers[k] + c.offset else numbers[k]
  }

  /** `numbers.range_mut(range)`, adding `offset` to each value met. */
  method AddOffset(numbers: map<int, int>, c: Conversion) returns (r: map<int, int>)
    requires c.range.start <= c.range.end
    ensures r == Shifted(numbers, c)
  {
    var inRange := set k | k in numbers && c.range.Contains(k);
    var todo := inRange;
    r := numbers;
    while todo != {}
      invariant todo <= inRange
      invariant r.Keys == numbers.Keys
      invariant forall k :: k in r ==> r[k] == if k in inRange - todo then numbers[k] + c.offset else numbers[k]
      decreases |todo|
    {
      var k :| k in todo;
      r := r[k := r[k] + c.offset];
      todo := todo - {k};
    }
    assert inRange - todo == inRange;
    assert forall k :: k in r ==> r[k] == Shifted(numbers, c)[k];
  }

  /** `part1`: the values are the keys of an ordered map; each map adds the
      offsets to the values under the keys in each range, then the map is
      rebuilt from its values, so equal values merge. */
  method Part1(seeds: seq<int>, maps: seq<Map>) returns (result: int)
    requires WellFormed(maps)
    ensures IsAnswer(Locations(maps, set s | s in seeds), result)
  {
    ghost var start := set s | s in seeds;
    var numbers: map<int, int> := map n | n in seeds :: n;
    for i := 0 to |maps|
      invariant numbers == map n | n in Locations(maps[..i], start) :: n
    {
      assert maps[..i + 1][..i] == maps[..i];
      ghost var before := Locations(maps[..i], start);
      var conversions := maps[i].conversions;
      for j := 0 to |conversions|
        invariant numbers.Keys == before
        invariant forall k :: k in numbers ==> numbers[k] == k + Offset(conversions[..j], k)
      {
        assert conversions[..j + 1][..j] == conversions[..j];
        assert maps[i].conversions == conversions;
        numbers := AddOffset(numbers, conversions[j]);
      }
      assert conversions[..|conversions|] == conversions;
      ApplyValues(numbers, maps[i], before);
      numbers := map n | n in numbers.Values :: n;
    }
    assert maps[..|maps|] == maps;
    assert numbers.Keys == Locations(maps, start);
    result := MinKey(numbers.Keys);
  }

  /** A map from each value to its image has the images as its values. */
  lemma ApplyValues(numbers: map<int, int>, m: Map, values: set<int>)
    requires numbers.Keys == values
    requires forall k :: k in numbers ==> numbers[k] == Shift(m, k)
    ensures numbers.Values == Apply(m, values)
  {
    forall v | v in numbers.Values
      ensures v in Apply(m, values)
    {
      if forall k :: k in numbers ==> numbers[k] != v {
        assert false;
      }
      var k :| k in numbers && numbers[k] == v;
    }
  }

  /** `into_keys().min().unwrap_or_default()`. */
  method MinKey(keys: set<int>) returns (result: int)
    ensures IsAnswer(keys, result)
  {
    if keys == {} {
      return 0;
    }
    if forall v :: v !in keys {
      assert false;
    }
    result :| result in keys;
    var todo := keys - {result};
    while todo != {}
      invariant todo <= keys && result in keys
      invariant forall v :: v in keys - todo ==> result <= v
      decreases |todo|
    {
      if forall w :: w !in todo {
        assert false;
      }
      var v :| v in todo;
      assert keys - (todo - {v}) == (keys - todo) + {v};
      if v < result {
        result := v;
      }
      todo := todo - {v};
    }
    assert keys - todo == keys;
  }

  /** A value in no range passes a map unchanged. */
  lemma {:induction false} Unmatched(conversions: seq<Conversion>, x: int)
    requires forall c :: c in conversions ==> !c.range.Contains(x)
    ensures Shift(Map(conversions), x) == x
  {
    OffsetNone(conversions, x);
  }

  lemma {:induction false} OffsetNone(conversions: seq<Conversion>, x: int)
    requires forall c :: c in conversions ==> !c.range.Contains(x)
    ensures Offset(conversions, x) == 0
  {
    if conversions != [] {
      var front := conversions[..|conversions| - 1];
      assert forall c :: c in front ==> c in conversions;
      OffsetNone(front, x);
    }
  }

  /** Conversions contribute independently: each adds its offset when its
      range holds the value the map started from. */
  lemma {:induction false} OffsetAppend(a: seq<Conversion>, b: seq<Conversion>, x: int)
    ensures Offset(a + b, x) == Offset(a, x) + Offset(b, x)
  {
    if b != [] {
      var front := b[..|b| - 1];
      assert (a + b)[..|a + b| - 1] == a + front;
      assert (a + b)[|a + b| - 1] == b[|b| - 1];
      OffsetAppend(a, front, x);
    } else {
      assert a + b == a;
    }
  }

  /** A value in exactly one range is moved by exactly that offset. */
  lemma {:induction false} MatchedOnce(conversions: seq<Conversion>, x: int, i: nat)
    requires i < |conversions| && conversions[i].range.Contains(x)
    requires forall j :: 0 <= j < |conversions| && j != i ==> !conversions[j].range.Contains(x)
    ensures Shift(Map(conversions), x) == x + conversions[i].offset
  {
    var before, after := conversions[..i], conversions[i + 1..];
    assert conversions == before + [conversions[i]] + after;
    forall c | c in before
      ensures !c.range.Contains(x)
    {
      var j :| 0 <= j < |before| && before[j] == c;
      assert conversions[j] == c;
    }
    forall c | c in after
      ensures !c.range.Contains(x)
    {
      var j :| 0 <= j < |after| && after[j] == c;
      assert conversions[i + 1 + j] == c;
    }
    OffsetNone(before, x);
    OffsetNone(after, x);
    OffsetAppend(before + [conversions[i]], after, x);
    OffsetAppend(before, [conversions[i]], x);
    assert Offset([conversions[i]], x) == Offset([], x) + conversions[i].offset;
  }

  /** Equal values merge: a map never yields more values than it is given. */
  lemma {:induction false} ApplyNoLarger(m: Map, values: set<int>)
    ensures |Apply(m, values)| <= |values|
    decreases |values|
  {
    if values != {} {
      if forall y :: y !in values {
        assert false;
      }
      var x :| x in values;
      var rest := values - {x};
      ApplyNoLarger(m, rest);
      assert Apply(m, values) == Apply(m, rest) + {Shift(m, x)};
    }
  }

  /** The number of values never grows through the maps. */
  lemma {:induction false} LocationsNoLarger(maps: seq<Map>, values: set<int>)
    ensures |Locations(maps, values)| <= |values|
  {
    if maps != [] {
      LocationsNoLarger(maps[..|maps| - 1], values);
      ApplyNoLarger(maps[|maps| - 1], Locations(maps[..|maps| - 1], values));
    }
  }

  // ---------------------------------------------------------------------
  // The worked example

  function Line(destination: int, source: int, length: int): Conversion {
    Conversion(Range(source, source + length), destination - source)
  }

  /** The seven maps of the worked example, seed-to-soil first. */
  function ExampleMaps(): seq<Map> {
    [ Map([Line(50, 98, 2), Line(52, 50, 48)]),
      Map([Line(0, 15, 37), Line(37, 52, 2), Line(39, 0, 15)]),
      Map([Line(49, 53, 8), Line(0, 11, 42), Line(42, 0, 7), Line(57, 7, 4)]),
      Map([Line(88, 18, 7), Line(18, 25, 70)]),
      Map([Line(45, 77, 23), Line(81, 45, 19), Line(68, 64, 13)]),
      Map([Line(0, 69, 1), Line(1, 0, 69)]),
      Map([Line(60, 56, 37), Line(56, 93, 4)]) ]
  }

  lemma ApplyFour(m: Map, a: int, b: int, c: int, d: int)
    ensures Apply(m, {a, b, c, d}) == {Shift(m, a), Shift(m, b), Shift(m, c), Shift(m, d)}
  {
  }

  lemma OffsetOfFew(cs: seq<Conversion>, x: int)
    ensures |cs| == 2 ==> Offset(cs, x) == Contribution(cs[0], x) + Contribution(cs[1], x)
    ensures |cs| == 3 ==> Offset(cs, x) == Contribution(cs[0], x) + Contribution(cs[1], x) + Contribution(cs[2], x)
    ensures |cs| == 4 ==>
      Offset(cs, x) == Contribution(cs[0], x) + Contribution(cs[1], x) + Contribution(cs[2], x) + Contribution(cs[3], x)
  {
    var n := |cs|;
    if 2 <= n <= 4 {
      assert cs[..1][..0] == [];
      assert Offset(cs[..1], x) == Contribution(cs[0], x);
      assert cs[..2][..1] == cs[..1];
      assert Offset(cs[..2], x) == Offset(cs[..1], x) + Contribution(cs[1], x);
      if n >= 3 {
        assert cs[..3][..2] == cs[..2];
        assert Offset(cs[..3], x) == Offset(cs[..2], x) + Contribution(cs[2], x);
      }
      if n == 4 {
        assert cs[..4][..3] == cs[..3];
        assert Offset(cs[..4], x) == Offset(cs[..3], x) + Contribution(cs[3], x);
      }
      assert cs[..n] == cs;
    }
  }

  lemma LocationsStep(maps: seq<Map>, k: nat, values: set<int>)
    requires k < |maps|
    ensures Locations(maps[..k + 1], values) == Apply(maps[k], Locations(maps[..k], values))
  {
    assert maps[..k + 1][..k] == maps[..k];
  }

  /** One map of the example moves each of four values. */
  lemma ExampleStep(maps: seq<Map>, k: nat, before: seq<int>, after: seq<int>)
    requires k < |maps| && |before| == 4 && |after| == 4
    requires forall i :: 0 <= i < 4 ==> Shift(maps[k], before[i]) == after[i]
    ensures Locations(maps[..k], {79, 14, 55, 13}) == {before[0], before[1], before[2], before[3]}
      ==> Locations(maps[..k + 1], {79, 14, 55, 13}) == {after[0], after[1], after[2], after[3]}
  {
    LocationsStep(maps, k, {79, 14, 55, 13});
    ApplyFour(maps[k], before[0], before[1], before[2], before[3]);
  }

  /** The values of the example's seeds before each map and after the
      last. */
  function ExampleValues(): seq<seq<int>> {
    [[79, 14, 55, 13], [81, 14, 57, 13], [81, 53, 57, 52], [81, 49, 53, 41],
     [74, 42, 46, 34], [78, 42, 82, 34], [78, 43, 82, 35], [82, 43, 86, 35]]
  }

  lemma ExampleShifts(k: nat)
    requires k < 7
    ensures forall i :: 0 <= i < 4 ==> Shift(ExampleMaps()[k], ExampleValues()[k][i]) == ExampleValues()[k + 1][i]
  {
    var m, values := ExampleMaps()[k], ExampleValues();
    forall i | 0 <= i < 4
      ensures Shift(m, values[k][i]) == values[k + 1][i]
    {
      OffsetOfFew(m.conversions, values[k][i]);
    }
  }

  /** Seeds 79, 14, 55 and 13 end at locations 82, 43, 86 and 35, so the
      answer is 35. */
  lemma Example()
    ensures Locations(ExampleMaps(), {79, 14, 55, 13}) == {82, 43, 86, 35}
    ensures forall r :: IsAnswer(Locations(ExampleMaps(), {79, 14, 55, 13}), r) <==> r == 35
  {
    var maps, values := ExampleMaps(), ExampleValues();
    assert maps[..0] == [];
    for k := 0 to 7
      invariant Locations(maps[..k], {79, 14, 55, 13}) == {values[k][0], values[k][1], values[k][2], values[k][3]}
    {
      ExampleShifts(k);
      ExampleStep(maps, k, values[k], values[k + 1]);
    }
    assert maps[..7] == maps;
  }
}
