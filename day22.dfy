/** Day 22: falling sand bricks. Each brick is a box given by three
    half-open ranges; the bricks fall until they rest on the floor or on a
    brick below, and the puzzle asks which bricks can be taken away without
    others falling, and how many fall in a chain reaction when one is. */
module Day22 {
  import opened Wrappers
  import opened Text
  import opened RangeExtension
  import opened Grid
  import opened Sorting

  const UsizeMax: nat := 0xFFFF_FFFF_FFFF_FFFF

  /** A `Range<usize>`. */
  type Span = r: Range | 0 <= r.start && 0 <= r.end witness Range(0, 0)

  datatype Brick = Brick(x: Span, y: Span, z: Span)

  /** `move_down_to`: the brick now starts at height `z` and keeps its
      height; `x` and `y` are untouched. The source subtracts in `usize`,
      which requires the sum to be at least the old start. */
  function MoveDownTo(b: Brick, z: nat): (r: Brick)
    requires b.z.start <= z + b.z.end
    ensures r.x == b.x && r.y == b.y && r.z.start == z && r.z.end - r.z.start == b.z.end - b.z.start
  {
    b.(z := Range(z, z + b.z.end - b.z.start))
  }

  /** Only the last move counts. */
  lemma MoveDownTwice(b: Brick, z1: nat, z2: nat)
    requires b.z.start <= b.z.end
    ensures MoveDownTo(MoveDownTo(b, z1), z2) == MoveDownTo(b, z2)
  {
  }

  /** `supports`: `a` lies directly under `b`, their footprints share a
      column, and they are not the same brick. */
  predicate Supports(a: Brick, b: Brick) {
    a != b && a.z.end == b.z.start && a.x.Overlaps(b.x) && a.y.Overlaps(b.y)
  }

  /** `is_supported`: `a` lies directly on `b`. */
  predicate IsSupported(a: Brick, b: Brick) {
    a != b && a.z.start == b.z.end && a.x.Overlaps(b.x) && a.y.Overlaps(b.y)
  }

  /** One brick supports another iff the other is supported by it. */
  lemma SupportsIffIsSupported(a: Brick, b: Brick)
    ensures Supports(a, b) <==> IsSupported(b, a)
  {
    OverlapsIsSymmetric(a.x, b.x);
    OverlapsIsSymmetric(a.y, b.y);
  }

  // ---------------------------------------------------------------------
  // Reading and printing

  /** A coordinate: a `usize`, anything else panics in `unwrap`. */
  function Coordinate(s: string): Result<nat> {
    match ParseNat(s)
    case None => Err(Panic)
    case Some(v) => if v <= UsizeMax then Ok(v) else Err(Panic)
  }

  /** `start..end + 1`; the `+ 1` overflows for the largest `usize`. */
  function SpanOf(start: string, end: string): Result<Span> {
    match Coordinate(start)
    case Err(e) => Err(e)
    case Ok(s) =>
      match Coordinate(end)
      case Err(e) => Err(e)
      case Ok(e) => if e == UsizeMax then Err(Panic) else Ok(Range(s, e + 1))
  }

  /** `Brick::from_str`: the corners before and after `~`, three
      comma-separated coordinates each, the later ones ignored. */
  function BrickOf(s: string): Result<Brick> {
    match SplitOnce(s, '~')
    case None => Err(Panic)
    case Some((first, last)) =>
      var starts := Split(first, ',');
      var ends := Split(last, ',');
      if |starts| < 3 || |ends| < 3 then Err(Panic)
      else
        match SpanOf(starts[0], ends[0])
        case Err(e) => Err(e)
        case Ok(x) =>
          match SpanOf(starts[1], ends[1])
          case Err(e) => Err(e)
          case Ok(y) =>
            match SpanOf(starts[2], ends[2])
            case Err(e) => Err(e)
            case Ok(z) => Ok(Brick(x, y, z))
  }

  /** The inclusive corners `Display` prints. */
  function Corners(b: Brick): (seq<string>, seq<string>)
    requires b.x.end >= 1 && b.y.end >= 1 && b.z.end >= 1
  {
    ([NatToString(b.x.start), NatToString(b.y.start), NatToString(b.z.start)],
     [NatToString(b.x.end - 1), NatToString(b.y.end - 1), NatToString(b.z.end - 1)])
  }

  /** `Display for Brick`: the inclusive corners; the `- 1` panics for an
      empty range ending at 0. */
  function BrickText(b: Brick): string
    requires b.x.end >= 1 && b.y.end >= 1 && b.z.end >= 1
  {
    Join(Corners(b).0, ',') + "~" + Join(Corners(b).1, ',')
  }

  /** A brick whose coordinates are `usize`s is read back from what it
      prints. */
  lemma ReadBrickText(b: Brick)
    requires 1 <= b.x.end <= UsizeMax && 1 <= b.y.end <= UsizeMax && 1 <= b.z.end <= UsizeMax
    requires b.x.start <= UsizeMax && b.y.start <= UsizeMax && b.z.start <= UsizeMax
    ensures BrickOf(BrickText(b)) == Ok(b)
  {
    var (starts, ends) := Corners(b);
    assert SplitOnce(BrickText(b), '~') == Some((Join(starts, ','), Join(ends, ','))) by {
      NumbersJoin(starts);
      SplitOnceAt(Join(starts, ','), '~', Join(ends, ','));
    }
    assert Split(Join(starts, ','), ',') == starts by {
      NumbersJoin(starts);
      JoinSplit(starts, ',');
    }
    assert Split(Join(ends, ','), ',') == ends by {
      NumbersJoin(ends);
      JoinSplit(ends, ',');
    }
    SpanText(b.x);
    SpanText(b.y);
    SpanText(b.z);
  }

  /** A range is read back from its first and last values. */
  lemma SpanText(r: Span)
    requires r.start <= UsizeMax && 1 <= r.end <= UsizeMax
    ensures SpanOf(NatToString(r.start), NatToString(r.end - 1)) == Ok(r)
  {
    ParseNatToString(r.start);
    ParseNatToString(r.end - 1);
  }

  /** Numbers joined with commas hold no `~`, and no number holds a
      comma. */
  lemma NumbersJoin(ns: seq<string>)
    requires forall i :: 0 <= i < |ns| ==> AllDigits(ns[i])
    ensures '~' !in Join(ns, ',')
    ensures forall i :: 0 <= i < |ns| ==> ',' !in ns[i]
  {
    forall i | 0 <= i < |ns| ensures ',' !in ns[i] && '~' !in ns[i] {
      assert forall k :: 0 <= k < |ns[i]| ==> ns[i][k] != ',' && ns[i][k] != '~';
    }
    NoTilde(ns);
  }

  lemma {:induction false} NoTilde(ns: seq<string>)
    requires forall i :: 0 <= i < |ns| ==> '~' !in ns[i]
    ensures '~' !in Join(ns, ',')
  {
    if |ns| > 1 {
      NoTilde(ns[1..]);
    }
  }

  // ---------------------------------------------------------------------
  // Settling

  /** The cells `(x, y)` of one column of the footprint. */
  function Column(x: nat, ys: Span): seq<Position> {
    var n := if ys.start < ys.end then ys.end - ys.start else 0;
    seq(n, k requires 0 <= k < n => Position(x, ys.start + k))
  }

  function SurfaceFrom(b: Brick, x: nat): seq<Position>
    decreases b.x.end - x
  {
    if x >= b.x.end then [] else Column(x, b.y) + SurfaceFrom(b, x + 1)
  }

  /** `surface`: the footprint, column by column. */
  function Surface(b: Brick): seq<Position> {
    SurfaceFrom(b, b.x.start)
  }

  lemma InColumn(x: nat, ys: Span, p: Position)
    ensures p in Column(x, ys) <==> p.x == x && ys.Contains(p.y)
  {
    if p.x == x && ys.Contains(p.y) {
      assert Column(x, ys)[p.y - ys.start] == p;
    }
  }

  lemma {:induction false} InSurfaceFrom(b: Brick, x: nat, p: Position)
    ensures p in SurfaceFrom(b, x) <==> x <= p.x < b.x.end && b.y.Contains(p.y)
    decreases b.x.end - x
  {
    if x < b.x.end {
      InColumn(x, b.y, p);
      InSurfaceFrom(b, x + 1, p);
    }
  }

  /** The footprint holds exactly the cells under the brick. */
  lemma InSurface(b: Brick, p: Position)
    ensures p in Surface(b) <==> b.x.Contains(p.x) && b.y.Contains(p.y)
  {
    InSurfaceFrom(b, b.x.start, p);
  }

  /** The largest height recorded at the given cells, if any is. */
  function Highest(heights: map<Position, nat>, ps: seq<Position>): Option<nat> {
    if ps == [] then None
    else
      var rest := Highest(heights, ps[1..]);
      if ps[0] !in heights then rest
      else match rest
        case None => Some(heights[ps[0]])
        case Some(m) => Some(if m < heights[ps[0]] then heights[ps[0]] else m)
  }

  /** `filter_map(...).max()`: nothing iff no cell has a height, otherwise
      the height of some cell and no less than any. */
  lemma {:induction false} HighestSpec(heights: map<Position, nat>, ps: seq<Position>)
    ensures Highest(heights, ps).None? <==> forall p :: p in ps ==> p !in heights
    ensures Highest(heights, ps).Some? ==>
      (exists p :: p in ps && p in heights && heights[p] == Highest(heights, ps).value) &&
      forall p :: p in ps && p in heights ==> heights[p] <= Highest(heights, ps).value
  {
    if ps != [] {
      HighestSpec(heights, ps[1..]);
      assert forall p :: p in ps <==> p == ps[0] || p in ps[1..];
    }
  }

  /** The height the brick comes to rest at: the top of the highest brick
      under it, or the first level above the floor. */
  function Floor(heights: map<Position, nat>, b: Brick): nat {
    match Highest(heights, Surface(b))
    case None => 1
    case Some(m) => m
  }

  /** The given cells all set to `top`, one after another. */
  function Raise(heights: map<Position, nat>, ps: seq<Position>, top: nat): map<Position, nat> {
    if ps == [] then heights
    else Raise(heights, ps[..|ps| - 1], top)[ps[|ps| - 1] := top]
  }

  lemma {:induction false} RaiseAt(heights: map<Position, nat>, ps: seq<Position>, top: nat, p: Position)
    ensures p in Raise(heights, ps, top) <==> p in heights || p in ps
    ensures p in Raise(heights, ps, top) ==> Raise(heights, ps, top)[p] == if p in ps then top else heights[p]
  {
    if ps != [] {
      RaiseAt(heights, ps[..|ps| - 1], top, p);
      assert p in ps <==> p in ps[..|ps| - 1] || p == ps[|ps| - 1];
    }
  }

  /** The heights left behind by bricks settled in this order: each cell
      holds the top of the last brick over it. */
  function Heights(settled: seq<Brick>): map<Position, nat> {
    if settled == [] then map[]
    else
      var last := settled[|settled| - 1];
      Raise(Heights(settled[..|settled| - 1]), Surface(last), last.z.end)
  }

  /** Every recorded height is the top of a settled brick over that cell. */
  lemma {:induction false} HeightsFrom(settled: seq<Brick>, p: Position)
    requires p in Heights(settled)
    ensures exists j :: 0 <= j < |settled| && p in Surface(settled[j]) && Heights(settled)[p] == settled[j].z.end
  {
    var front := settled[..|settled| - 1];
    var last := settled[|settled| - 1];
    RaiseAt(Heights(front), Surface(last), last.z.end, p);
    if p !in Surface(last) {
      HeightsFrom(front, p);
      var j :| 0 <= j < |front| && p in Surface(front[j]) && Heights(front)[p] == front[j].z.end;
      assert settled[j] == front[j];
    }
  }

  /** A brick whose z range does not run backwards, as `move_down_to`
      needs. */
  predicate Upright(b: Brick) {
    b.z.start <= b.z.end
  }

  predicate AllUpright(bricks: seq<Brick>) {
    forall b :: b in bricks ==> Upright(b)
  }

  /** A brick that fills at least one cell. */
  predicate Solid(b: Brick) {
    b.x.start < b.x.end && b.y.start < b.y.end && b.z.start < b.z.end
  }

  /** One brick of the loop of `settle`, given those settled before it. */
  function Dropped(settled: seq<Brick>, b: Brick): Brick
    requires Upright(b)
  {
    MoveDownTo(b, Floor(Heights(settled), b))
  }

  /** The first `n` bricks of `sorted`, settled one after another. */
  function SettleAll(sorted: seq<Brick>, n: nat): (r: seq<Brick>)
    requires n <= |sorted| && AllUpright(sorted)
    ensures |r| == n
  {
    if n == 0 then []
    else
      var before := SettleAll(sorted, n - 1);
      before + [Dropped(before, sorted[n - 1])]
  }

  /** `d` is `b` moved up or down: same footprint, same height. */
  predicate Keeps(b: Brick, d: Brick) {
    d.x == b.x && d.y == b.y && d.z.end - d.z.start == b.z.end - b.z.start
  }

  /** Settling keeps the footprint and the height of every brick, and the
      order of the bricks. */
  lemma SettleShape(sorted: seq<Brick>, n: nat, i: nat)
    requires i < n <= |sorted| && AllUpright(sorted)
    ensures Keeps(sorted[i], SettleAll(sorted, n)[i])
  {
    var r := SettleAll(sorted, n);
    SettlePrefix(sorted, i + 1, n);
    KeepsLast(sorted, i + 1);
    assert r[i] == r[..i + 1][i];
  }

  lemma KeepsLast(sorted: seq<Brick>, n: nat)
    requires 0 < n <= |sorted| && AllUpright(sorted)
    ensures Keeps(sorted[n - 1], SettleAll(sorted, n)[n - 1])
  {
    assert sorted[n - 1] in sorted;
  }

  /** Bricks already settled stay where they are. */
  lemma {:induction false} SettlePrefix(sorted: seq<Brick>, i: nat, n: nat)
    requires i <= n <= |sorted| && AllUpright(sorted)
    ensures SettleAll(sorted, n)[..i] == SettleAll(sorted, i)
  {
    if i < n {
      var r := SettleAll(sorted, n);
      var before := SettleAll(sorted, n - 1);
      SettlePrefix(sorted, i, n - 1);
      assert r == before + [Dropped(before, sorted[n - 1])];
      assert r[..i] == before[..i] == SettleAll(sorted, i);
    } else {
      var r := SettleAll(sorted, n);
      assert r[..n] == r;
    }
  }

  /** Each settled brick that is not on the lowest level rests on an
      earlier one: the brick that set the height it dropped to supports
      it. */
  lemma RestsAt(sorted: seq<Brick>, i: nat)
    requires i < |sorted| && AllUpright(sorted)
    requires forall b :: b in sorted ==> Solid(b)
    ensures var r := SettleAll(sorted, i + 1);
      r[i].z.start == 1 || exists j :: 0 <= j < i && Supports(r[j], r[i])
  {
    var before := SettleAll(sorted, i);
    assert before == SettleAll(sorted, i + 1)[..i];
    var b := sorted[i];
    assert b in sorted;
    var d := Dropped(before, b);
    HighestSpec(Heights(before), Surface(b));
    var m := Highest(Heights(before), Surface(b));
    if m.Some? {
      var p :| p in Surface(b) && p in Heights(before) && Heights(before)[p] == m.value;
      HeightsFrom(before, p);
      var j :| 0 <= j < |before| && p in Surface(before[j]) && Heights(before)[p] == before[j].z.end;
      var c := before[j];
      assert sorted[j] in sorted;
      SettleShape(sorted, i, j);
      InSurface(c, p);
      InSurface(b, p);
      assert c.x.Contains(p.x) && d.x.Contains(p.x);
      assert c.y.Contains(p.y) && d.y.Contains(p.y);
      assert d.z.start < d.z.end;
      assert SettleAll(sorted, i + 1)[j] == c;
      assert Supports(c, d);
    }
  }

  /** No settled brick floats: it is on level 1 or on a brick settled
      before it. */
  lemma Rests(sorted: seq<Brick>, n: nat, i: nat)
    requires n <= |sorted| && AllUpright(sorted)
    requires forall b :: b in sorted ==> Solid(b)
    requires i < n
    ensures var r := SettleAll(sorted, n);
      r[i].z.start == 1 || exists j :: 0 <= j < i && Supports(r[j], r[i])
  {
    RestsAt(sorted, i);
    var r := SettleAll(sorted, n);
    SettlePrefix(sorted, i + 1, n);
    assert forall j :: 0 <= j <= i ==> r[j] == r[..i + 1][j];
  }

  /** `sort_unstable_by_key(|brick| brick.z.start)`. */
  predicate ZLe(a: Brick, b: Brick) {
    a.z.start <= b.z.start
  }

  lemma ZOrder()
    ensures TotalPreorder(ZLe)
  {
  }

  /** The cells of a footprint set to the brick's top. */
  method RaiseSurface(heights: map<Position, nat>, b: Brick) returns (h: map<Position, nat>)
    ensures h == Raise(heights, Surface(b), b.z.end)
  {
    var ps := Surface(b);
    h := heights;
    for j := 0 to |ps|
      invariant h == Raise(heights, ps[..j], b.z.end)
    {
      assert ps[..j + 1][..j] == ps[..j];
      h := h[ps[j] := b.z.end];
    }
    assert ps[..|ps|] == ps;
  }

  /** The first `i` bricks of `sorted` settled in `a`, the rest as
      sorted, and `heights` what the settled ones left. */
  predicate SettledSoFar(sorted: seq<Brick>, i: nat, a: seq<Brick>, heights: map<Position, nat>)
    requires AllUpright(sorted)
  {
    i <= |sorted| == |a| && a[..i] == SettleAll(sorted, i) && a[i..] == sorted[i..] &&
    heights == Heights(a[..i])
  }

  lemma SettleStep(sorted: seq<Brick>, i: nat, a: seq<Brick>, heights: map<Position, nat>)
    requires AllUpright(sorted) && SettledSoFar(sorted, i, a, heights) && i < |a|
    ensures Upright(a[i])
    ensures var d := MoveDownTo(a[i], Floor(heights, a[i]));
      SettledSoFar(sorted, i + 1, a[i := d], Raise(heights, Surface(d), d.z.end))
  {
    assert a[i] == a[i..][0] == sorted[i];
    assert sorted[i] in sorted;
    var d := MoveDownTo(a[i], Floor(heights, a[i]));
    var a' := a[i := d];
    assert a'[..i + 1] == a[..i] + [d];
    assert a'[..i + 1][..i] == a[..i];
    assert a'[i + 1..] == a[i + 1..];
  }

  /** `settle`: the bricks sorted by their lowest level, then each
      dropped, in place, onto what is under it. */
  method Settle(a: array<Brick>) returns (ghost sorted: seq<Brick>)
    requires AllUpright(a[..])
    modifies a
    ensures multiset(sorted) == multiset(old(a[..])) && Sorted(sorted, ZLe)
    ensures AllUpright(sorted)
    ensures a[..] == SettleAll(sorted, |sorted|)
  {
    ZOrder();
    SortUnstable(a, ZLe);
    sorted := a[..];
    assert forall b :: b in sorted ==> b in multiset(old(a[..]));
    var heights: map<Position, nat> := map[];
    for i := 0 to a.Length
      invariant SettledSoFar(sorted, i, a[..], heights)
    {
      SettleStep(sorted, i, a[..], heights);
      var b := MoveDownTo(a[i], Floor(heights, a[i]));
      a[i] := b;
      heights := RaiseSurface(heights, b);
    }
    assert a[..] == a[..a.Length];
  }

  // ---------------------------------------------------------------------
  // Which bricks hold which

  /** `supported_by`, for one brick: the bricks right under it. */
  function SupportedBy(bricks: set<Brick>, b: Brick): set<Brick> {
    set o | o in bricks && Supports(o, b)
  }

  /** `supports`, for one brick: the bricks right on top of it. */
  function Carried(bricks: set<Brick>, b: Brick): set<Brick> {
    set o | o in bricks && IsSupported(o, b)
  }

  /** The two maps are each other's reverse. */
  lemma CarriedIsSupportedBy(bricks: set<Brick>, a: Brick, b: Brick)
    requires b in bricks
    ensures a in Carried(bricks, b) <==> a in bricks && b in SupportedBy(bricks, a)
  {
    SupportsIffIsSupported(b, a);
  }

  /** `part1`'s filter: `b` is not under any brick that has a single
      support. */
  predicate Disintegrable(bricks: set<Brick>, b: Brick) {
    forall o :: o in bricks && |SupportedBy(bricks, o)| == 1 ==> !Supports(b, o)
  }

  /** A brick can go iff every brick it holds up is held up by another
      brick too. */
  lemma DisintegrableMeans(bricks: set<Brick>, b: Brick)
    requires b in bricks
    ensures Disintegrable(bricks, b) <==>
      forall o :: o in bricks && Supports(b, o) ==> exists c :: c in bricks && c != b && Supports(c, o)
  {
    forall o | o in bricks && Supports(b, o)
      ensures |SupportedBy(bricks, o)| == 1 <==> !exists c :: c in bricks && c != b && Supports(c, o)
    {
      var under := SupportedBy(bricks, o);
      assert b in under;
      if exists c :: c in bricks && c != b && Supports(c, o) {
        var c :| c in bricks && c != b && Supports(c, o);
        assert {b, c} <= under;
        SubsetSize({b, c}, under);
      } else {
        assert under == {b};
      }
    }
  }

  lemma SubsetSize<T>(a: set<T>, b: set<T>)
    requires a <= b
    ensures |a| <= |b|
  {
    assert b == a + (b - a);
  }

  /** How many of `candidates` can go. */
  function CountDisintegrable(bricks: set<Brick>, candidates: seq<Brick>): (r: nat)
    ensures r <= |candidates|
  {
    if candidates == [] then 0
    else (if Disintegrable(bricks, candidates[0]) then 1 else 0) + CountDisintegrable(bricks, candidates[1..])
  }

  function Bricks(bricks: seq<Brick>): set<Brick> {
    set b | b in bricks
  }

  /** `part1`: the bricks, counted as they come, that can go. */
  function Part1(bricks: seq<Brick>): nat {
    CountDisintegrable(Bricks(bricks), bricks)
  }

  /** A brick that holds nothing up can always go. */
  lemma FreeBrickCounts(bricks: seq<Brick>, b: Brick)
    requires b in bricks && forall o :: o in bricks ==> !Supports(b, o)
    ensures Disintegrable(Bricks(bricks), b)
  {
  }

  // ---------------------------------------------------------------------
  // Chain reactions

  /** The bricks that fall next: not fallen yet, resting on one that has
      just fallen, and with every brick under them fallen. */
  function Next(bricks: set<Brick>, fallen: set<Brick>, falling: set<Brick>): set<Brick> {
    set c | c in bricks && c !in fallen && (exists f :: f in falling && c in Carried(bricks, f)) &&
      SupportedBy(bricks, c) != {} && SupportedBy(bricks, c) <= fallen
  }

  lemma Shrinks(bricks: set<Brick>, fallen: set<Brick>, falling: set<Brick>)
    requires falling <= bricks && falling !! fallen && falling != {}
    ensures |bricks - (fallen + falling)| < |bricks - fallen|
  {
    var rest := bricks - (fallen + falling);
    assert bricks - fallen == rest + falling;
    assert rest !! falling;
  }

  /** The loop of `part2` from the given state: `falling` joins `fallen`,
      and the next bricks are found, until none are. */
  function Spread(bricks: set<Brick>, fallen: set<Brick>, falling: set<Brick>): set<Brick>
    requires falling <= bricks && falling !! fallen
    decreases |bricks - fallen|
  {
    if falling == {} then fallen
    else
      var now := fallen + falling;
      Shrinks(bricks, fallen, falling);
      Spread(bricks, now, Next(bricks, now, falling))
  }

  /** The bricks that fall once `initial` is taken away, `initial`
      included. */
  function Fallen(bricks: set<Brick>, initial: Brick): set<Brick>
    requires initial in bricks
  {
    Spread(bricks, {}, {initial})
  }

  /** Every brick whose supports have all fallen has fallen too. */
  predicate Closed(bricks: set<Brick>, fallen: set<Brick>) {
    forall c :: c in bricks && SupportedBy(bricks, c) != {} && SupportedBy(bricks, c) <= fallen ==> c in fallen
  }

  /** Every fallen brick but the first had supports, all of which fell. */
  predicate Justified(bricks: set<Brick>, initial: Brick, fallen: set<Brick>) {
    forall c :: c in fallen ==> c == initial || (SupportedBy(bricks, c) != {} && SupportedBy(bricks, c) <= fallen)
  }

  /** What holds at each round of the loop. */
  predicate Spreading(bricks: set<Brick>, initial: Brick, fallen: set<Brick>, falling: set<Brick>) {
    initial in fallen + falling && fallen <= bricks &&
    (forall c :: c in bricks && SupportedBy(bricks, c) != {} && SupportedBy(bricks, c) <= fallen ==> c in fallen + falling) &&
    (forall c :: c in fallen + falling ==> c == initial || (SupportedBy(bricks, c) != {} && SupportedBy(bricks, c) <= fallen))
  }

  lemma SpreadStep(bricks: set<Brick>, initial: Brick, fallen: set<Brick>, falling: set<Brick>)
    requires falling <= bricks && falling !! fallen && falling != {}
    requires Spreading(bricks, initial, fallen, falling)
    ensures Spreading(bricks, initial, fallen + falling, Next(bricks, fallen + falling, falling))
  {
    var now := fallen + falling;
    var next := Next(bricks, now, falling);
    forall c | c in bricks && SupportedBy(bricks, c) != {} && SupportedBy(bricks, c) <= now
      ensures c in now + next
    {
      if !(SupportedBy(bricks, c) <= fallen) {
        var s :| s in SupportedBy(bricks, c) && s !in fallen;
        assert s in falling;
        CarriedIsSupportedBy(bricks, c, s);
      }
    }
  }

  lemma {:induction false} SpreadSpec(bricks: set<Brick>, initial: Brick, fallen: set<Brick>, falling: set<Brick>)
    requires falling <= bricks && falling !! fallen
    requires Spreading(bricks, initial, fallen, falling)
    ensures var r := Spread(bricks, fallen, falling);
      initial in r && r <= bricks && Closed(bricks, r) && Justified(bricks, initial, r)
    decreases |bricks - fallen|
  {
    if falling != {} {
      Shrinks(bricks, fallen, falling);
      SpreadStep(bricks, initial, fallen, falling);
      SpreadSpec(bricks, initial, fallen + falling, Next(bricks, fallen + falling, falling));
    }
  }

  /** Taking `initial` away, another brick falls iff it had supports and
      all of them fell. */
  lemma FallenMeans(bricks: set<Brick>, initial: Brick, c: Brick)
    requires initial in bricks && c in bricks && c != initial
    ensures c in Fallen(bricks, initial) <==>
      SupportedBy(bricks, c) != {} && SupportedBy(bricks, c) <= Fallen(bricks, initial)
  {
    SpreadSpec(bricks, initial, {}, {initial});
  }

  /** How many other bricks fall when `initial` is taken away. */
  function Falls(bricks: set<Brick>, initial: Brick): nat
    requires initial in bricks
  {
    SpreadSpec(bricks, initial, {}, {initial});
    |Fallen(bricks, initial)| - 1
  }

  /** The falls summed over the given bricks, in any order. */
  ghost function FallTotal(bricks: set<Brick>, initials: set<Brick>): nat
    requires initials <= bricks
  {
    if initials == {} then 0
    else
      var b :| b in initials;
      Falls(bricks, b) + FallTotal(bricks, initials - {b})
  }

  /** The order does not matter: any brick may be taken first. */
  lemma {:induction false} FallTotalPick(bricks: set<Brick>, initials: set<Brick>, b: Brick)
    requires initials <= bricks && b in initials
    ensures FallTotal(bricks, initials) == Falls(bricks, b) + FallTotal(bricks, initials - {b})
    decreases |initials|
  {
    var a :| a in initials && FallTotal(bricks, initials) == Falls(bricks, a) + FallTotal(bricks, initials - {a});
    if a != b {
      FallTotalPick(bricks, initials - {a}, b);
      FallTotalPick(bricks, initials - {b}, a);
      assert initials - {a} - {b} == initials - {b} - {a};
    }
  }

  /** The bricks that hold another up: the keys `part2` keeps in
      `supports`. */
  function Holders(bricks: set<Brick>): set<Brick> {
    set b | b in bricks && Carried(bricks, b) != {}
  }

  /** The inner loop of `part2`: the chain reaction from one brick. */
  method ChainReaction(bricks: set<Brick>, initial: Brick) returns (fallen: set<Brick>)
    requires initial in bricks
    ensures fallen == Fallen(bricks, initial)
  {
    fallen := {};
    var toFall := {initial};
    while toFall != {}
      invariant toFall <= bricks && toFall !! fallen
      invariant Spread(bricks, fallen, toFall) == Fallen(bricks, initial)
      decreases |bricks - fallen|
    {
      Shrinks(bricks, fallen, toFall);
      fallen := fallen + toFall;
      toFall := Next(bricks, fallen, toFall);
    }
  }

  /** `part2`: for every brick that holds another up, how many others fall
      once it is gone, summed. */
  method Part2(bricks: seq<Brick>) returns (result: nat)
    ensures result == FallTotal(Bricks(bricks), Holders(Bricks(bricks)))
  {
    var all := Bricks(bricks);
    var holders := Holders(all);
    result := 0;
    var todo := holders;
    while todo != {}
      invariant todo <= holders
      invariant result + FallTotal(all, todo) == FallTotal(all, holders)
      decreases |todo|
    {
      var initial :| initial in todo;
      var fallen := ChainReaction(all, initial);
      FallTotalPick(all, todo, initial);
      result := result + Falls(all, initial);
      todo := todo - {initial};
    }
  }
}
