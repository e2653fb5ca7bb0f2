/** Day 1: calibration values, the first and last digit of each line, where
    part two also reads the digit words "zero" .. "nine". */
module Day1 {
  import opened Wrappers
  import opened Text

  // ---------------------------------------------------------------------
  // Part one: digit characters only

  /** `bytes().find(is_ascii_digit)`: the value of the leftmost digit. */
  function FirstDigit(line: string): (r: Option<nat>)
    ensures r.None? <==> forall i :: 0 <= i < |line| ==> !IsDigit(line[i])
    ensures r.Some? ==> exists i :: 0 <= i < |line| && IsDigit(line[i]) && DigitValue(line[i]) == r.value
                                    && forall j :: 0 <= j < i ==> !IsDigit(line[j])
  {
    if line == [] then None
    else if IsDigit(line[0]) then Some(DigitValue(line[0]))
    else
      var r := FirstDigit(line[1..]);
      if r.Some? then
        var i :| 0 <= i < |line[1..]| && IsDigit(line[1..][i]) && DigitValue(line[1..][i]) == r.value
                 && forall j :: 0 <= j < i ==> !IsDigit(line[1..][j]);
        assert forall j :: 0 <= j < i + 1 ==> !IsDigit(line[j]) by {
          forall j | 0 <= j < i + 1 ensures !IsDigit(line[j]) {
            if j > 0 { assert line[j] == line[1..][j - 1]; }
          }
        }
        r
      else r
  }

  /** `bytes().rfind(is_ascii_digit)`: the value of the rightmost digit. */
  function LastDigit(line: string): (r: Option<nat>)
    ensures r.None? <==> forall i :: 0 <= i < |line| ==> !IsDigit(line[i])
    ensures r.Some? ==> exists i :: 0 <= i < |line| && IsDigit(line[i]) && DigitValue(line[i]) == r.value
                                    && forall j :: i < j < |line| ==> !IsDigit(line[j])
  {
    if line == [] then None
    else if IsDigit(line[|line| - 1]) then Some(DigitValue(line[|line| - 1]))
    else
      var r := LastDigit(line[..|line| - 1]);
      assert forall i :: 0 <= i < |line| - 1 ==> line[..|line| - 1][i] == line[i];
      r
  }

  /** The calibration value of a line: ten times its first digit plus its
      last; `None` where the source panics on a line without a digit. */
  function LineValue(line: string): (r: Option<nat>)
    ensures r.None? <==> forall i :: 0 <= i < |line| ==> !IsDigit(line[i])
    ensures r.Some? ==> r.value <= 99
  {
    match (FirstDigit(line), LastDigit(line))
    case (Some(first), Some(last)) => Some(first * 10 + last)
    case _ => None
  }

  /** A line with exactly one digit `d` is worth `11 * d`. */
  lemma {:induction false} SingleDigitLine(prefix: string, c: char, suffix: string)
    requires IsDigit(c)
    requires forall i :: 0 <= i < |prefix| ==> !IsDigit(prefix[i])
    requires forall i :: 0 <= i < |suffix| ==> !IsDigit(suffix[i])
    ensures LineValue(prefix + [c] + suffix) == Some(11 * DigitValue(c))
  {
    var line := prefix + [c] + suffix;
    assert line[|prefix|] == c;
    var first := FirstDigit(line).value;
    var i :| 0 <= i < |line| && IsDigit(line[i]) && DigitValue(line[i]) == first
             && forall j :: 0 <= j < i ==> !IsDigit(line[j]);
    assert forall j :: 0 <= j < |prefix| ==> line[j] == prefix[j];
    assert forall j :: |prefix| < j < |line| ==> line[j] == suffix[j - |prefix| - 1];
    var last := LastDigit(line).value;
    var k :| 0 <= k < |line| && IsDigit(line[k]) && DigitValue(line[k]) == last
             && forall j :: k < j < |line| ==> !IsDigit(line[j]);
  }

  /** `part1`: the sum of the line values, `None` if some line has no digit. */
  function Part1(input: string): (r: Option<nat>)
    ensures r.Some? ==> r.value <= 99 * |Lines(input)|
  {
    SumLines(Lines(input), LineValue)
  }

  /** The sum of the values of the lines, `None` as soon as one is missing. */
  function SumLines(lines: seq<string>, value: string -> Option<nat>): (r: Option<nat>)
    requires forall l :: value(l).Some? ==> value(l).value <= 99
    ensures r.Some? <==> forall i :: 0 <= i < |lines| ==> value(lines[i]).Some?
    ensures r.Some? ==> r.value <= 99 * |lines|
  {
    if lines == [] then Some(0)
    else match (value(lines[0]), SumLines(lines[1..], value))
      case (Some(v), Some(rest)) => Some(v + rest)
      case (None, _) => None
      case (_, None) =>
        assert exists i :: 0 <= i < |lines[1..]| && value(lines[1..][i]).None?;
        None
  }

  // ---------------------------------------------------------------------
  // Part two: digits and digit words

  const Words: seq<string> :=
    ["zero", "one", "two", "three", "four", "five", "six", "seven", "eight", "nine"]

  predicate StartsWith(s: string, prefix: string) {
    prefix <= s
  }

  /** `s` begins with digit `d`, written as a character or as a word. */
  predicate Spells(s: string, d: nat)
    requires d < 10
  {
    StartsWith(s, [Digit(d)]) || StartsWith(s, Words[d])
  }

  /** `match_convert`: the digit that `s` begins with, trying 0 to 9 in
      turn. */
  function MatchConvert(s: string): (r: Option<nat>)
    ensures r.Some? ==> r.value < 10
  {
    if StartsWith(s, "0") || StartsWith(s, "zero") then Some(0)
    else if StartsWith(s, "1") || StartsWith(s, "one") then Some(1)
    else if StartsWith(s, "2") || StartsWith(s, "two") then Some(2)
    else if StartsWith(s, "3") || StartsWith(s, "three") then Some(3)
    else if StartsWith(s, "4") || StartsWith(s, "four") then Some(4)
    else if StartsWith(s, "5") || StartsWith(s, "five") then Some(5)
    else if StartsWith(s, "6") || StartsWith(s, "six") then Some(6)
    else if StartsWith(s, "7") || StartsWith(s, "seven") then Some(7)
    else if StartsWith(s, "8") || StartsWith(s, "eight") then Some(8)
    else if StartsWith(s, "9") || StartsWith(s, "nine") then Some(9)
    else None
  }

  /** No string spells two digits, so the order of the tests does not
      matter: `match_convert` finds `d` exactly when `s` spells `d`. */
  lemma MatchConvertSpells(s: string, d: nat)
    requires d < 10
    ensures MatchConvert(s) == Some(d) <==> Spells(s, d)
  {
    MatchConvertSound(s);
    if Spells(s, d) {
      MatchConvertComplete(s, d);
      SpellsUnique(s, d, MatchConvert(s).value);
    }
  }

  /** What `match_convert` finds is spelled. */
  lemma MatchConvertSound(s: string)
    ensures MatchConvert(s).Some? ==> Spells(s, MatchConvert(s).value)
  {
  }

  /** A spelled digit is found. */
  lemma MatchConvertComplete(s: string, d: nat)
    requires d < 10 && Spells(s, d)
    ensures MatchConvert(s).Some?
  {
  }

  /** A string spells at most one digit. */
  lemma SpellsUnique(s: string, d: nat, e: nat)
    requires d < 10 && e < 10 && Spells(s, d) && Spells(s, e)
    ensures d == e
  {
    SpellsHead(s, d);
    SpellsHead(s, e);
    if s[0] == Digit(d) && s[0] == Digit(e) {
      assert DigitValue(Digit(d)) == d && DigitValue(Digit(e)) == e;
    }
  }

  /** A spelled digit fixes the first character, and for a word the second
      one as well. */
  lemma SpellsHead(s: string, d: nat)
    requires d < 10 && Spells(s, d)
    ensures s != []
    ensures s[0] == Digit(d) || (|s| >= 2 && !IsDigit(s[0]) && s[0] == Words[d][0] && s[1] == Words[d][1])
  {
    if !StartsWith(s, [Digit(d)]) {
      assert |Words[d]| >= 3 && !IsDigit(Words[d][0]);
      assert s[0] == Words[d][0] && s[1] == Words[d][1];
    }
  }

  lemma MatchConvertNone(s: string)
    ensures MatchConvert(s).None? <==> forall d :: 0 <= d < 10 ==> !Spells(s, d)
  {
    if MatchConvert(s).Some? {
      MatchConvertSpells(s, MatchConvert(s).value);
    } else {
      forall d | 0 <= d < 10 ensures !Spells(s, d) {
        MatchConvertSpells(s, d);
      }
    }
  }

  /** No digit is spelled at any index from `a` up to `b`. */
  predicate NoMatch(line: string, a: nat, b: nat)
    requires b <= |line|
  {
    forall k :: a <= k < b ==> MatchConvert(line[k..]).None?
  }

  /** `(0..len).find_map(...)` from index `i`: the first digit spelled at or
      after `i`. */
  function FirstMatchFrom(line: string, i: nat): (r: Option<nat>)
    requires i <= |line|
    ensures r.Some? ==> r.value < 10
    decreases |line| - i
  {
    if i == |line| then None
    else match MatchConvert(line[i..])
      case Some(d) => Some(d)
      case None => FirstMatchFrom(line, i + 1)
  }

  /** The search finds nothing exactly when nothing is spelled from `i` on,
      and otherwise the digit spelled at the first index that spells one. */
  lemma {:induction false} FirstMatchFromSpec(line: string, i: nat)
    requires i <= |line|
    ensures FirstMatchFrom(line, i).None? <==> NoMatch(line, i, |line|)
    ensures FirstMatchFrom(line, i).Some? ==> exists j :: i <= j < |line| && MatchConvert(line[j..]) == FirstMatchFrom(line, i)
                                                        && NoMatch(line, i, j)
    decreases |line| - i
  {
    if i < |line| {
      if MatchConvert(line[i..]).Some? {
        assert NoMatch(line, i, i);
      } else {
        FirstMatchFromSpec(line, i + 1);
        if FirstMatchFrom(line, i).Some? {
          var j :| i + 1 <= j < |line| && MatchConvert(line[j..]) == FirstMatchFrom(line, i) && NoMatch(line, i + 1, j);
          assert NoMatch(line, i, j);
        }
      }
    }
  }

  /** `(0..len).rev().find_map(...)` below index `i`: the last digit spelled
      before `i`. */
  function LastMatchBelow(line: string, i: nat): (r: Option<nat>)
    requires i <= |line|
    ensures r.Some? ==> r.value < 10
  {
    if i == 0 then None
    else match MatchConvert(line[i - 1..])
      case Some(d) => Some(d)
      case None => LastMatchBelow(line, i - 1)
  }

  /** The search finds nothing exactly when nothing is spelled below `i`,
      and otherwise the digit spelled at the last index that spells one. */
  lemma {:induction false} LastMatchBelowSpec(line: string, i: nat)
    requires i <= |line|
    ensures LastMatchBelow(line, i).None? <==> NoMatch(line, 0, i)
    ensures LastMatchBelow(line, i).Some? ==> exists j :: 0 <= j < i && MatchConvert(line[j..]) == LastMatchBelow(line, i)
                                                        && NoMatch(line, j + 1, i)
  {
    if i > 0 {
      if MatchConvert(line[i - 1..]).Some? {
        assert NoMatch(line, i, i);
      } else {
        LastMatchBelowSpec(line, i - 1);
        if LastMatchBelow(line, i).Some? {
          var j :| 0 <= j < i - 1 && MatchConvert(line[j..]) == LastMatchBelow(line, i) && NoMatch(line, j + 1, i - 1);
          assert NoMatch(line, j + 1, i);
        }
      }
    }
  }

  /** The part-two value of a line: ten times the leftmost spelled digit
      plus the rightmost one; overlapping words both count. */
  function LineValue2(line: string): (r: Option<nat>)
    ensures r.Some? ==> r.value <= 99
  {
    match (FirstMatchFrom(line, 0), LastMatchBelow(line, |line|))
    case (Some(first), Some(last)) => Some(first * 10 + last)
    case _ => None
  }

  /** A line has a part-two value exactly when it spells some digit. */
  lemma LineValue2Some(line: string)
    ensures LineValue2(line).None? <==> NoMatch(line, 0, |line|)
  {
    FirstMatchFromSpec(line, 0);
    LastMatchBelowSpec(line, |line|);
  }

  /** `part2`: the sum of the part-two line values. */
  function Part2(input: string): (r: Option<nat>)
    ensures r.Some? ==> r.value <= 99 * |Lines(input)|
  {
    SumLines(Lines(input), LineValue2)
  }

  lemma PrefixHead(s: string, p: string)
    ensures StartsWith(s, p) && p != [] ==> |p| <= |s| && s[0] == p[0]
  {
  }

  /** A string that starts with neither a digit nor the first letter of a
      digit word, or is too short for any word, spells nothing. */
  lemma SpellsNothing(s: string)
    requires s != [] && !IsDigit(s[0]) && (s[0] !in "zotfsen" || |s| < 3)
    ensures MatchConvert(s).None?
  {
    forall d | 0 <= d < 10 ensures !Spells(s, d) {
      assert |Words[d]| >= 3 && Words[d][0] in "zotfsen";
      PrefixHead(s, Words[d]);
      PrefixHead(s, [Digit(d)]);
    }
    MatchConvertNone(s);
  }

  /** "eightwothree" reads 8 first (its "two" overlaps "eight") and 3 last. */
  lemma EightWoThree()
    ensures LineValue2("eightwothree") == Some(83)
  {
    EightFirst();
    ThreeLast();
  }

  lemma EightFirst()
    ensures FirstMatchFrom("eightwothree", 0) == Some(8)
  {
    var line := "eightwothree";
    assert line[0..] == line;
    MatchConvertSpells(line, 8);
  }

  lemma ThreeLast()
    ensures LastMatchBelow("eightwothree", 12) == Some(3)
  {
    var line := "eightwothree";
    assert line[7..] == "three";
    MatchConvertSpells(line[7..], 3);
    assert LastMatchBelow(line, 8) == Some(3);
    SpellsNothing(line[8..]);
    assert LastMatchBelow(line, 9) == Some(3);
    SpellsNothing(line[9..]);
    assert LastMatchBelow(line, 10) == Some(3);
    SpellsNothing(line[10..]);
    assert LastMatchBelow(line, 11) == Some(3);
    SpellsNothing(line[11..]);
  }

  // ---------------------------------------------------------------------
  // Where the digits are

  /** A line whose first digit is at `i` and last digit at `k` is worth ten
      times the one plus the other. */
  lemma DigitsAt(line: string, i: nat, k: nat)
    requires i <= k < |line| && IsDigit(line[i]) && IsDigit(line[k])
    requires forall j :: 0 <= j < i ==> !IsDigit(line[j])
    requires forall j :: k < j < |line| ==> !IsDigit(line[j])
    ensures LineValue(line).Some? && LineValue(line).value == 10 * DigitValue(line[i]) + DigitValue(line[k])
  {
    var first := FirstDigit(line).value;
    var i' :| 0 <= i' < |line| && IsDigit(line[i']) && DigitValue(line[i']) == first
              && forall j :: 0 <= j < i' ==> !IsDigit(line[j]);
    assert i' == i;
    var last := LastDigit(line).value;
    var k' :| 0 <= k' < |line| && IsDigit(line[k']) && DigitValue(line[k']) == last
              && forall j :: k' < j < |line| ==> !IsDigit(line[j]);
    assert k' == k;
  }

  /** Only spaces. */
  predicate Indent(pad: string) {
    forall i :: 0 <= i < |pad| ==> pad[i] == ' '
  }

  /** Indentation, which `lines` keeps, moves the digits but not the value. */
  lemma PaddedDigits(pad: string, l: string, i: nat, k: nat)
    requires Indent(pad) && i <= k < |l| && IsDigit(l[i]) && IsDigit(l[k])
    requires forall j :: 0 <= j < i ==> !IsDigit(l[j])
    requires forall j :: k < j < |l| ==> !IsDigit(l[j])
    ensures LineValue(pad + l).Some? && LineValue(pad + l).value == 10 * DigitValue(l[i]) + DigitValue(l[k])
  {
    var line, p := pad + l, |pad|;
    forall j | 0 <= j < p + i ensures !IsDigit(line[j]) {
      if j >= p {
        assert line[j] == l[j - p];
      }
    }
    forall j | p + k < j < |line| ensures !IsDigit(line[j]) {
      assert line[j] == l[j - p];
    }
    assert line[p + i] == l[i] && line[p + k] == l[k];
    DigitsAt(line, p + i, p + k);
  }

  /** The sum over some lines is the first one's value plus the sum over
      the rest. */
  lemma SumLinesCons(lines: seq<string>, value: string -> Option<nat>, v: nat, t: nat)
    requires forall l :: value(l).Some? ==> value(l).value <= 99
    requires lines != [] && value(lines[0]).Some? && value(lines[0]).value == v
    requires SumLines(lines[1..], value).Some? && SumLines(lines[1..], value).value == t
    ensures SumLines(lines, value).Some? && SumLines(lines, value).value == v + t
  {
  }

  /** An indented line still holds no line break. */
  lemma IndentedLine(pad: string, l: string)
    requires Indent(pad) && l != [] && '\n' !in l && '\r' !in l
    ensures pad + l != [] && '\n' !in pad + l && '\r' !in pad + l
  {
    assert forall j :: 0 <= j < |pad + l| ==> (pad + l)[j] == ' ' || (pad + l)[j] in l;
  }

  // ---------------------------------------------------------------------
  // The examples, whose lines after the first are indented in the source

  predicate IsExample1(lines: seq<string>, pad: string) {
    && |lines| == 4 && lines[0] == "1abc2" && lines[1] == pad + "pqr3stu8vwx"
    && lines[2] == pad + "a1b2c3d4e5f" && lines[3] == pad + "treb7uchet"
  }

  lemma Value12()
    ensures LineValue("1abc2").Some? && LineValue("1abc2").value == 12
  {
    var l := "1abc2";
    assert l[0] == '1' && l[1] == 'a' && l[2] == 'b' && l[3] == 'c' && l[4] == '2';
    DigitsAt(l, 0, 4);
  }

  lemma Value38(pad: string)
    requires Indent(pad)
    ensures LineValue(pad + "pqr3stu8vwx").Some? && LineValue(pad + "pqr3stu8vwx").value == 38
  {
    var l := "pqr3stu8vwx";
    assert l[0] == 'p' && l[1] == 'q' && l[2] == 'r' && l[3] == '3' && l[7] == '8' && l[8] == 'v' && l[9] == 'w' && l[10] == 'x';
    PaddedDigits(pad, l, 3, 7);
  }

  lemma Value15(pad: string)
    requires Indent(pad)
    ensures LineValue(pad + "a1b2c3d4e5f").Some? && LineValue(pad + "a1b2c3d4e5f").value == 15
  {
    var l := "a1b2c3d4e5f";
    assert l[0] == 'a' && l[1] == '1' && l[9] == '5' && l[10] == 'f';
    PaddedDigits(pad, l, 1, 9);
  }

  lemma Value77(pad: string)
    requires Indent(pad)
    ensures LineValue(pad + "treb7uchet").Some? && LineValue(pad + "treb7uchet").value == 77
  {
    var l := "treb7uchet";
    assert l[0] == 't' && l[1] == 'r' && l[2] == 'e' && l[3] == 'b' && l[4] == '7';
    assert l[5] == 'u' && l[6] == 'c' && l[7] == 'h' && l[8] == 'e' && l[9] == 't';
    PaddedDigits(pad, l, 4, 4);
  }

  /** The example's lines come back out of its text. */
  lemma ExampleLines1(lines: seq<string>, pad: string)
    requires IsExample1(lines, pad) && Indent(pad)
    ensures Lines(Join(lines, '\n')) == lines
  {
    IndentedLine(pad, "pqr3stu8vwx");
    IndentedLine(pad, "a1b2c3d4e5f");
    IndentedLine(pad, "treb7uchet");
    LinesOfUnendedJoin(lines);
  }

  /** The example's calibration values are 12, 38, 15 and 77. */
  lemma ExampleValues1(lines: seq<string>, pad: string)
    requires IsExample1(lines, pad) && Indent(pad)
    ensures LineValue(lines[0]).Some? && LineValue(lines[0]).value == 12
    ensures LineValue(lines[1]).Some? && LineValue(lines[1]).value == 38
    ensures LineValue(lines[2]).Some? && LineValue(lines[2]).value == 15
    ensures LineValue(lines[3]).Some? && LineValue(lines[3]).value == 77
  {
    Value12();
    Value38(pad);
    Value15(pad);
    Value77(pad);
  }

  /** Part one of the example is 142. */
  lemma ExamplePart1(lines: seq<string>, pad: string, input: string)
    requires IsExample1(lines, pad) && Indent(pad) && input == Join(lines, '\n')
    ensures Part1(input).Some? && Part1(input).value == 142
  {
    ExampleLines1(lines, pad);
    ExampleValues1(lines, pad);
    var s := SumLines(lines[4..], LineValue);
    assert s.Some? && s.value == 0 by {
      assert lines[4..] == [];
    }
    SumLinesCons(lines[3..], LineValue, 77, 0);
    SumLinesCons(lines[2..], LineValue, 15, 77);
    SumLinesCons(lines[1..], LineValue, 38, 92);
    SumLinesCons(lines[0..], LineValue, 12, 130);
    assert lines[0..] == lines;
  }
}
