/** The string operations of Rust's `str` that the parsers rely on, on
    `seq<char>`: trimming, splitting, line breaking and integer parsing. */
module Text {
  import opened Wrappers

  /** ASCII whitespace; Rust's `char::is_whitespace` also accepts the Unicode
      spaces, which never occur in the inputs. */
  predicate IsWhitespace(c: char) {
    c == ' ' || c == '\t' || c == '\n' || c == '\r' || c as int == 11 || c as int == 12
  }

  predicate IsDigit(c: char) {
    '0' <= c <= '9'
  }

  function DigitValue(c: char): (d: nat)
    requires IsDigit(c)
    ensures d < 10
  {
    (c as int) - ('0' as int)
  }

  function Digit(d: nat): (c: char)
    requires d < 10
    ensures IsDigit(c) && DigitValue(c) == d
  {
    (('0' as int) + d) as char
  }

  // ---------------------------------------------------------------------
  // Trimming

  function TrimStart(s: string): (r: string)
    ensures |r| <= |s|
  {
    if s != [] && IsWhitespace(s[0]) then TrimStart(s[1..]) else s
  }

  function TrimEnd(s: string): (r: string)
    ensures |r| <= |s|
  {
    if s != [] && IsWhitespace(s[|s| - 1]) then TrimEnd(s[..|s| - 1]) else s
  }

  /** Rust's `str::trim`. */
  function Trim(s: string): string {
    TrimEnd(TrimStart(s))
  }

  /** `trim_start` drops exactly the leading whitespace. */
  lemma {:induction false} TrimStartSpec(s: string)
    ensures var r := TrimStart(s);
      r == s[|s| - |r|..] && (r == [] || !IsWhitespace(r[0])) &&
      forall i :: 0 <= i < |s| - |r| ==> IsWhitespace(s[i])
  {
    if s != [] && IsWhitespace(s[0]) {
      TrimStartSpec(s[1..]);
    }
  }

  /** `trim_end` drops exactly the trailing whitespace. */
  lemma {:induction false} TrimEndSpec(s: string)
    ensures var r := TrimEnd(s);
      r == s[..|r|] && (r == [] || !IsWhitespace(r[|r| - 1])) &&
      forall i :: |r| <= i < |s| ==> IsWhitespace(s[i])
  {
    if s != [] && IsWhitespace(s[|s| - 1]) {
      TrimEndSpec(s[..|s| - 1]);
    }
  }

  /** A trimmed string neither starts nor ends with whitespace, and trimming
      it again changes nothing. */
  lemma TrimSpec(s: string)
    ensures var r := Trim(s); r == [] || (!IsWhitespace(r[0]) && !IsWhitespace(r[|r| - 1]))
    ensures Trim(Trim(s)) == Trim(s)
  {
    TrimStartSpec(s);
    var t := TrimStart(s);
    TrimEndSpec(t);
    var r := TrimEnd(t);
    assert r != [] ==> r[0] == t[0];
    TrimUnchanged(r);
  }

  lemma {:induction false} TrimUnchanged(s: string)
    requires s == [] || (!IsWhitespace(s[0]) && !IsWhitespace(s[|s| - 1]))
    ensures Trim(s) == s
  {
  }

  /** One space before or after a string that neither starts nor ends with
      whitespace is trimmed away. */
  lemma TrimSpaces(s: string)
    requires s != [] && !IsWhitespace(s[0]) && !IsWhitespace(s[|s| - 1])
    ensures Trim([' '] + s) == s && Trim(s + [' ']) == s
  {
    assert ([' '] + s)[1..] == s;
    assert TrimStart([' '] + s) == TrimStart(s) == s;
    assert (s + [' '])[0] == s[0];
    assert TrimStart(s + [' ']) == s + [' '];
    assert (s + [' '])[..|s|] == s;
    assert TrimEnd(s + [' ']) == TrimEnd(s) == s;
  }

  // ---------------------------------------------------------------------
  // Splitting

  /** Rust's `str::split_once` with a one-character pattern: the text before
      and after the first occurrence of `c`. */
  function SplitOnce(s: string, c: char): (r: Option<(string, string)>)
    ensures r.Some? ==> |r.value.0| + 1 + |r.value.1| == |s|
  {
    if s == [] then None
    else if s[0] == c then Some(([], s[1..]))
    else match SplitOnce(s[1..], c)
      case None => None
      case Some(p) => Some(([s[0]] + p.0, p.1))
  }

  /** `split_once` fails iff the character is absent, and otherwise cuts at
      its first occurrence. */
  lemma {:induction false} SplitOnceSpec(s: string, c: char)
    ensures SplitOnce(s, c).None? <==> c !in s
    ensures SplitOnce(s, c).Some? ==> var (a, b) := SplitOnce(s, c).value; s == a + [c] + b && c !in a
  {
    if s != [] && s[0] != c {
      SplitOnceSpec(s[1..], c);
      assert s == [s[0]] + s[1..];
    }
  }

  predicate OccursAt(s: string, sep: string, i: nat) {
    i + |sep| <= |s| && s[i..i + |sep|] == sep
  }

  /** The first position, from `i` on, at which `sep` occurs. */
  function FindFrom(s: string, sep: string, i: nat): (r: Option<nat>)
    requires i <= |s|
    ensures r.Some? ==> i <= r.value && r.value + |sep| <= |s|
    decreases |s| - i
  {
    if OccursAt(s, sep, i) then Some(i)
    else if i == |s| then None
    else FindFrom(s, sep, i + 1)
  }

  lemma {:induction false} FindFromSpec(s: string, sep: string, i: nat)
    requires i <= |s|
    ensures var r := FindFrom(s, sep, i);
      (r.None? ==> forall j :: i <= j <= |s| ==> !OccursAt(s, sep, j)) &&
      (r.Some? ==> OccursAt(s, sep, r.value) && forall j :: i <= j < r.value ==> !OccursAt(s, sep, j))
    decreases |s| - i
  {
    if !OccursAt(s, sep, i) && i < |s| {
      FindFromSpec(s, sep, i + 1);
    }
  }

  /** Rust's `str::split_once` with a string pattern: the text before and
      after the first position at which `sep` occurs. */
  function SplitOnceStr(s: string, sep: string): (r: Option<(string, string)>) {
    match FindFrom(s, sep, 0)
    case None => None
    case Some(i) => Some((s[..i], s[i + |sep|..]))
  }

  /** `split_once` with a string pattern cuts at the first occurrence. */
  lemma SplitOnceStrSpec(s: string, sep: string)
    ensures SplitOnceStr(s, sep).None? ==> forall i :: 0 <= i <= |s| ==> !OccursAt(s, sep, i)
    ensures SplitOnceStr(s, sep).Some? ==> var (a, b) := SplitOnceStr(s, sep).value;
      s == a + sep + b && forall i :: 0 <= i < |a| ==> !OccursAt(s, sep, i)
  {
    FindFromSpec(s, sep, 0);
    if FindFrom(s, sep, 0).Some? {
      var i := FindFrom(s, sep, 0).value;
      assert s == s[..i] + sep + s[i + |sep|..];
    }
  }

  /** Rust's `str::split` with a string pattern: the pieces between the
      successive first occurrences of `sep`. */
  function SplitStr(s: string, sep: string): (r: seq<string>)
    requires sep != []
    ensures |r| >= 1
    decreases |s|
  {
    match FindFrom(s, sep, 0)
    case None => [s]
    case Some(i) => [s[..i]] + SplitStr(s[i + |sep|..], sep)
  }

  /** The pieces glued back together with a string separator. */
  function JoinStr(pieces: seq<string>, sep: string): string {
    if pieces == [] then []
    else if |pieces| == 1 then pieces[0]
    else pieces[0] + sep + JoinStr(pieces[1..], sep)
  }

  /** Joining the pieces of a split gives back the text. */
  lemma {:induction false} SplitStrJoin(s: string, sep: string)
    requires sep != []
    ensures JoinStr(SplitStr(s, sep), sep) == s
    decreases |s|
  {
    match FindFrom(s, sep, 0)
    case None =>
    case Some(i) =>
      var rest := s[i + |sep|..];
      var r := SplitStr(s, sep);
      SplitStrJoin(rest, sep);
      FindFromSpec(s, sep, 0);
      assert r[1..] == SplitStr(rest, sep);
      assert JoinStr(r, sep) == s[..i] + sep + JoinStr(r[1..], sep);
      assert s == s[..i] + sep + rest;
  }

  /** The separator does not start anywhere inside the first piece. */
  lemma SplitStrFirst(s: string, sep: string)
    requires sep != []
    ensures forall j :: 0 <= j < |SplitStr(s, sep)[0]| ==> !OccursAt(s, sep, j)
  {
    FindFromSpec(s, sep, 0);
  }

  /** Rust's `str::split` with a one-character pattern: every piece, empty
      ones included, so there is one more piece than there are separators. */
  function Split(s: string, c: char): (r: seq<string>)
    ensures |r| >= 1
    decreases |s|
  {
    match SplitOnce(s, c)
    case None => [s]
    case Some(p) => [p.0] + Split(p.1, c)
  }

  /** The pieces glued back together with the separator. */
  function Join(pieces: seq<string>, c: char): string {
    if pieces == [] then []
    else if |pieces| == 1 then pieces[0]
    else pieces[0] + [c] + Join(pieces[1..], c)
  }

  /** No piece holds the separator, and joining the pieces gives back the
      text. */
  lemma {:induction false} SplitSpec(s: string, c: char)
    ensures forall i :: 0 <= i < |Split(s, c)| ==> c !in Split(s, c)[i]
    ensures Join(Split(s, c), c) == s
    decreases |s|
  {
    SplitOnceSpec(s, c);
    match SplitOnce(s, c)
    case None =>
    case Some(p) =>
      SplitSpec(p.1, c);
  }

  /** Splitting a join of separator-free pieces gives back the pieces. */
  lemma {:induction false} JoinSplit(pieces: seq<string>, c: char)
    requires |pieces| >= 1
    requires forall i :: 0 <= i < |pieces| ==> c !in pieces[i]
    ensures Split(Join(pieces, c), c) == pieces
  {
    if |pieces| > 1 {
      JoinSplit(pieces[1..], c);
      SplitOnceAt(pieces[0], c, Join(pieces[1..], c));
    } else {
      SplitOnceSpec(pieces[0], c);
    }
  }

  lemma {:induction false} SplitOnceAt(a: string, c: char, b: string)
    requires c !in a
    ensures SplitOnce(a + [c] + b, c) == Some((a, b))
  {
    var s := a + [c] + b;
    if a != [] {
      assert s[0] == a[0] != c;
      assert s[1..] == a[1..] + [c] + b;
      SplitOnceAt(a[1..], c, b);
      assert [a[0]] + a[1..] == a;
    } else {
      assert s[1..] == b;
    }
  }

  /** Rust's `str::split_whitespace`: the maximal runs of non-whitespace. */
  function SplitWhitespace(s: string): (r: seq<string>)
    decreases |s|
  {
    var t := TrimStart(s);
    if t == [] then []
    else
      var w := Word(t);
      TrimStartSpec(s);
      [w] + SplitWhitespace(t[|w|..])
  }

  /** A non-empty run of non-whitespace characters. */
  predicate IsWord(w: string) {
    w != [] && forall j :: 0 <= j < |w| ==> !IsWhitespace(w[j])
  }

  /** Every piece of `split_whitespace` is a word. */
  lemma {:induction false} SplitWhitespaceWords(s: string)
    ensures forall i :: 0 <= i < |SplitWhitespace(s)| ==> IsWord(SplitWhitespace(s)[i])
    decreases |s|
  {
    var t := TrimStart(s);
    TrimStartSpec(s);
    if t != [] {
      var w := Word(t);
      WordSpec(t);
      SplitWhitespaceWords(t[|w|..]);
    }
  }

  /** The longest prefix without whitespace. */
  function Word(s: string): (w: string)
    ensures |w| <= |s|
    ensures s != [] && !IsWhitespace(s[0]) ==> w != []
  {
    if s == [] || IsWhitespace(s[0]) then [] else [s[0]] + Word(s[1..])
  }

  lemma {:induction false} WordSpec(s: string)
    ensures var w := Word(s);
      w == s[..|w|] && (forall j :: 0 <= j < |w| ==> !IsWhitespace(w[j])) &&
      (|w| < |s| ==> IsWhitespace(s[|w|]))
  {
    if s != [] && !IsWhitespace(s[0]) {
      WordSpec(s[1..]);
    }
  }

  /** A word followed by whitespace (or by nothing) is read whole. */
  lemma {:induction false} WordOfWord(w: string, rest: string)
    requires IsWord(w)
    requires rest == [] || IsWhitespace(rest[0])
    ensures Word(w + rest) == w
  {
    var s := w + rest;
    assert s[0] == w[0];
    if |w| > 1 {
      assert s[1..] == w[1..] + rest;
      WordOfWord(w[1..], rest);
      assert [w[0]] + w[1..] == w;
    } else {
      assert s[1..] == rest;
    }
  }

  /** `split_whitespace` reads a leading word, then what follows a space. */
  lemma SplitWhitespaceCons(w: string, rest: string)
    requires IsWord(w)
    ensures SplitWhitespace(w + [' '] + rest) == [w] + SplitWhitespace(rest)
  {
    var s := w + [' '] + rest;
    assert s == w + ([' '] + rest);
    WordOfWord(w, [' '] + rest);
    assert TrimStart(s) == s;
    assert s[|w|..] == [' '] + rest;
    assert ([' '] + rest)[1..] == rest;
  }

  /** A single word splits into itself. */
  lemma SplitWhitespaceWord(w: string)
    requires IsWord(w)
    ensures SplitWhitespace(w) == [w]
  {
    WordOfWord(w, []);
    assert w + [] == w;
    assert w[|w|..] == [];
  }

  /** Rust's `str::lines`: pieces between line feeds, a carriage return
      before a line feed removed, and no empty last line after a final line
      feed. */
  function Lines(s: string): (r: seq<string>) {
    if s == [] then []
    else
      var pieces := Split(s, '\n');
      var kept := if pieces[|pieces| - 1] == [] then pieces[..|pieces| - 1] else pieces;
      StripCarriageReturns(kept)
  }

  function StripCarriageReturns(lines: seq<string>): (r: seq<string>)
    ensures |r| == |lines|
  {
    if lines == [] then []
    else
      var l := lines[0];
      var first := if l != [] && l[|l| - 1] == '\r' then l[..|l| - 1] else l;
      [first] + StripCarriageReturns(lines[1..])
  }

  /** Lines that hold neither a line feed nor a carriage return, each ended
      by a line feed, are read back as they were. */
  lemma {:induction false} LinesOfJoin(lines: seq<string>)
    requires lines != []
    requires forall i :: 0 <= i < |lines| ==> '\n' !in lines[i] && '\r' !in lines[i]
    ensures Lines(Join(lines, '\n') + "\n") == lines
  {
    JoinSnoc(lines, '\n');
    JoinSplit(lines + [[]], '\n');
    assert (lines + [[]])[..|lines|] == lines;
    StripNothing(lines);
  }

  /** Non-empty lines that hold neither a line feed nor a carriage return,
      joined by line feeds with no final one, are read back as they were. */
  lemma LinesOfUnendedJoin(lines: seq<string>)
    requires lines != []
    requires forall i :: 0 <= i < |lines| ==> lines[i] != [] && '\n' !in lines[i] && '\r' !in lines[i]
    ensures Lines(Join(lines, '\n')) == lines
  {
    JoinEnds(lines, '\n');
    JoinSplit(lines, '\n');
    StripNothing(lines);
  }

  /** The first and last characters of a join of non-empty pieces. */
  lemma {:induction false} JoinEnds(pieces: seq<string>, c: char)
    requires pieces != []
    requires forall i :: 0 <= i < |pieces| ==> pieces[i] != []
    ensures var j := Join(pieces, c);
      j != [] && j[0] == pieces[0][0] && j[|j| - 1] == pieces[|pieces| - 1][|pieces[|pieces| - 1]| - 1]
  {
    if |pieces| > 1 {
      JoinEnds(pieces[1..], c);
    }
  }

  lemma {:induction false} JoinSnoc(pieces: seq<string>, c: char)
    requires pieces != []
    ensures Join(pieces + [[]], c) == Join(pieces, c) + [c]
  {
    if |pieces| > 1 {
      assert (pieces + [[]])[1..] == pieces[1..] + [[]];
      JoinSnoc(pieces[1..], c);
    } else {
      assert (pieces + [[]])[1..] == [[]];
    }
  }

  lemma {:induction false} StripNothing(lines: seq<string>)
    requires forall i :: 0 <= i < |lines| ==> '\r' !in lines[i]
    ensures StripCarriageReturns(lines) == lines
  {
    if lines != [] {
      StripNothing(lines[1..]);
    }
  }

  // ---------------------------------------------------------------------
  // Numbers

  predicate AllDigits(s: string) {
    forall i :: 0 <= i < |s| ==> IsDigit(s[i])
  }

  /** The value of a string of decimal digits, most significant first. */
  function DigitsValue(s: string): nat
    requires AllDigits(s)
  {
    if s == [] then 0 else DigitsValue(s[..|s| - 1]) * 10 + DigitValue(s[|s| - 1])
  }

  /** Rust's `str::parse` for an unsigned integer: an optional `+` and at
      least one digit. */
  function ParseNat(s: string): (r: Option<nat>) {
    var d := if s != [] && s[0] == '+' then s[1..] else s;
    if d != [] && AllDigits(d) then Some(DigitsValue(d)) else None
  }

  /** Rust's `str::parse` for a signed integer: an optional sign and at least
      one digit. */
  function ParseInt(s: string): (r: Option<int>)
    ensures r.Some? ==> s != [] && (r.value < 0 ==> s[0] == '-')
  {
    if s != [] && s[0] == '-' then
      var d := s[1..];
      if d != [] && AllDigits(d) then Some(0 - DigitsValue(d) as int) else None
    else
      match ParseNat(s)
      case Some(n) => Some(n as int)
      case None => None
  }

  /** The shortest decimal text of `n`. */
  function NatToString(n: nat): (s: string)
    ensures s != [] && AllDigits(s)
    ensures s[0] != '0' || n == 0
  {
    if n < 10 then [Digit(n)] else NatToString(n / 10) + [Digit(n % 10)]
  }

  lemma {:induction false} ParseNatToString(n: nat)
    ensures ParseNat(NatToString(n)) == Some(n)
  {
    DigitsOfNatToString(n);
  }

  lemma {:induction false} DigitsOfNatToString(n: nat)
    ensures DigitsValue(NatToString(n)) == n
  {
    if n >= 10 {
      DigitsOfNatToString(n / 10);
      var s := NatToString(n);
      assert s[..|s| - 1] == NatToString(n / 10);
    }
  }

  /** The decimal text of `n` is a word that parses back to `n`, as a
      signed integer too. */
  lemma ParseIntToString(n: nat)
    ensures IsWord(NatToString(n))
    ensures ParseInt(NatToString(n)) == Some(n as int)
  {
    ParseNatToString(n);
  }

  /** The value of a hexadecimal digit (either case), as `from_str_radix`
      reads it. */
  function HexDigit(c: char): Option<nat> {
    if '0' <= c <= '9' then Some((c as int) - ('0' as int))
    else if 'a' <= c <= 'f' then Some((c as int) - ('a' as int) + 10)
    else if 'A' <= c <= 'F' then Some((c as int) - ('A' as int) + 10)
    else None
  }

  /** Rust's `u32::from_str_radix(s, 16)` for digits only (no sign). */
  function ParseHex(s: string): (r: Option<nat>)
    ensures r.Some? ==> s != []
  {
    if s == [] then None
    else if |s| == 1 then HexDigit(s[0])
    else match (ParseHex(s[..|s| - 1]), HexDigit(s[|s| - 1]))
      case (Some(high), Some(low)) => Some(high * 16 + low)
      case _ => None
  }
}
