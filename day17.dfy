/** Day 17: a crucible crosses the city from the top left block to the
    bottom right one, losing the heat of every block it enters. It must go
    straight for at least `lo` blocks before it turns and may go straight
    for at most `hi` blocks; the least heat loss is found by Dijkstra's
    search over (block, direction, run) states. */
module Day17 {
  import opened Wrappers
  import opened Text
  import opened Grid

  /** A block's heat loss: its character's code minus that of '0' (the
      subtraction panics below '0'). */
  function BlockOf(c: char): (r: Result<nat>)
    ensures r.Ok? <==> c >= '0'
    ensures IsDigit(c) ==> r == Ok(DigitValue(c))
  {
    if c < '0' then Err(Panic) else Ok(c as nat - '0' as nat)
  }

  /** `parse_input`: the blocks line after line; a ragged map panics in
      `unwrap`. */
  function CityOf(s: string): (r: Result<Grid<nat>>)
    ensures r.Ok? ==> r.value.Valid() && r.value.height == |Lines(s)|
    ensures r.Ok? ==> r.value.width == (if Lines(s) == [] then 0 else |Lines(s)[0]|)
  {
    var lines := Lines(s);
    var width := if lines == [] then 0 else |lines[0]|;
    match MapResult(Concat(lines), BlockOf)
    case Err(e) => Err(e)
    case Ok(blocks) =>
      match NewGrid(|lines|, width, blocks)
      case None => Err(Panic)
      case Some(g) => Ok(g)
  }

  // ---------------------------------------------------------------------
  // Moves

  /** The crucible on block `pos`, heading `dir`, having gone straight for
      `straight` blocks. */
  datatype State = State(pos: Position, dir: Direction, straight: nat)

  /** The two states the search starts from: the top left block, heading
      right and heading down, with no run yet. */
  function Starts(): seq<State> {
    [State(Position(0, 0), Right, 0), State(Position(0, 0), Down, 0)]
  }

  /** The bottom right block. */
  function Destination(g: Grid<nat>): Position
    requires 0 < g.width && 0 < g.height
  {
    Position(g.width - 1, g.height - 1)
  }

  /** The heat lost entering block `p`. */
  function Heat(g: Grid<nat>, p: Position): nat
    requires g.Valid()
  {
    if g.Contains(p) then g.rows[p.y][p.x] else 0
  }

  /** One block towards `d`, when that block is in the city. */
  function Go(g: Grid<nat>, p: Position, d: Direction, run: nat): seq<State> {
    match Step(p, d)
    case Some(q) => if g.Contains(q) then [State(q, d, run)] else []
    case None => []
  }

  /** The states one move on, in the order they are pushed: a quarter turn
      left and one right once the run is at least `lo`, each starting a
      run of 1, then straight on while the run is below `hi`. */
  function Moves(g: Grid<nat>, lo: nat, hi: nat, v: State): seq<State> {
    (if v.straight >= lo then Go(g, v.pos, RotateLeft(v.dir), 1) + Go(g, v.pos, RotateRight(v.dir), 1) else []) +
    (if v.straight < hi then Go(g, v.pos, v.dir, v.straight + 1) else [])
  }

  /** `w` is one move on from `v`. */
  predicate Move(g: Grid<nat>, lo: nat, hi: nat, v: State, w: State) {
    w in Moves(g, lo, hi, v)
  }

  /** A move enters a neighbouring block of the city: turning, only after a
      run of at least `lo`, and starting a run of 1; going straight, only
      during a run below `hi`, and lengthening it by one. */
  lemma MovesSpec(g: Grid<nat>, lo: nat, hi: nat, v: State, w: State)
    requires Move(g, lo, hi, v, w)
    ensures g.Contains(w.pos) && Step(v.pos, w.dir) == Some(w.pos)
    ensures w.dir == v.dir ==> v.straight < hi && w.straight == v.straight + 1
    ensures w.dir != v.dir ==>
      v.straight >= lo && w.straight == 1 && (w.dir == RotateLeft(v.dir) || w.dir == RotateRight(v.dir))
  {
    RotationsAreInverse(v.dir);
    assert RotateLeft(v.dir) != v.dir && RotateRight(v.dir) != v.dir by {
      match v.dir
      case Up =>
      case Down =>
      case Left =>
      case Right =>
    }
  }

  // ---------------------------------------------------------------------
  // Routes

  /** `r[i + 1]` is one move on from `r[i]`. */
  predicate Linked(g: Grid<nat>, lo: nat, hi: nat, r: seq<State>, i: nat)
    requires i + 1 < |r|
  {
    Move(g, lo, hi, r[i], r[i + 1])
  }

  /** A legal route of the crucible from a start. */
  ghost predicate Route(g: Grid<nat>, lo: nat, hi: nat, r: seq<State>) {
    |r| >= 1 && r[0] in Starts() && forall i: nat :: i + 1 < |r| ==> Linked(g, lo, hi, r, i)
  }

  function Last(r: seq<State>): State
    requires r != []
  {
    r[|r| - 1]
  }

  /** The heat lost along a route: that of every block entered. */
  function RouteHeat(g: Grid<nat>, r: seq<State>): nat
    requires g.Valid()
  {
    if |r| <= 1 then 0 else RouteHeat(g, r[..|r| - 1]) + Heat(g, r[|r| - 1].pos)
  }

  /** A route ending at the destination. */
  ghost predicate Arrives(g: Grid<nat>, lo: nat, hi: nat, r: seq<State>)
    requires 0 < g.width && 0 < g.height
  {
    Route(g, lo, hi, r) && Last(r).pos == Destination(g)
  }

  lemma RouteExtend(g: Grid<nat>, lo: nat, hi: nat, r: seq<State>, w: State)
    requires g.Valid() && Route(g, lo, hi, r) && Move(g, lo, hi, Last(r), w)
    ensures Route(g, lo, hi, r + [w]) && Last(r + [w]) == w
    ensures RouteHeat(g, r + [w]) == RouteHeat(g, r) + Heat(g, w.pos)
  {
    var r2 := r + [w];
    assert r2[..|r|] == r;
    forall i: nat | i + 1 < |r2|
      ensures Linked(g, lo, hi, r2, i)
    {
      if i + 1 < |r| {
        assert Linked(g, lo, hi, r, i);
      }
    }
  }

  /** A route without its last move. */
  lemma RoutePrefix(g: Grid<nat>, lo: nat, hi: nat, r: seq<State>)
    requires g.Valid() && Route(g, lo, hi, r) && |r| >= 2
    ensures Route(g, lo, hi, r[..|r| - 1])
    ensures Move(g, lo, hi, Last(r[..|r| - 1]), Last(r))
    ensures RouteHeat(g, r) == RouteHeat(g, r[..|r| - 1]) + Heat(g, Last(r).pos)
  {
    var p := r[..|r| - 1];
    forall i: nat | i + 1 < |p|
      ensures Linked(g, lo, hi, p, i)
    {
      assert Linked(g, lo, hi, r, i);
    }
    assert Linked(g, lo, hi, r, |r| - 2);
  }

  /** With `hi` at least 1 no route ever runs straight for more than `hi`
      blocks. */
  lemma {:induction false} RunBound(g: Grid<nat>, lo: nat, hi: nat, r: seq<State>)
    requires g.Valid() && Route(g, lo, hi, r) && hi >= 1
    ensures Last(r).straight <= hi
    decreases |r|
  {
    if |r| >= 2 {
      RoutePrefix(g, lo, hi, r);
      RunBound(g, lo, hi, r[..|r| - 1]);
      MovesSpec(g, lo, hi, Last(r[..|r| - 1]), Last(r));
    }
  }

  // ---------------------------------------------------------------------
  // The search

  /** An entry of the queue: a state reached with `heat` lost. */
  datatype Entry = Entry(heat: nat, state: State)

  /** Every state the crucible can be in. */
  function AllStates(g: Grid<nat>, hi: nat): set<State> {
    set p, d, k | p in Cells(g.width, g.height) && d in {Up, Down, Left, Right} && 0 <= k <= hi + 1 :: State(p, d, k)
  }

  lemma InAllStates(g: Grid<nat>, hi: nat, v: State)
    requires g.Contains(v.pos) && v.straight <= hi + 1
    ensures v in AllStates(g, hi)
  {
    assert v.dir in {Up, Down, Left, Right} by {
      match v.dir
      case Up =>
      case Down =>
      case Left =>
      case Right =>
    }
    assert v.pos in Cells(g.width, g.height);
  }
  /** `r` is a route to `e.state` losing `e.heat`, and that state is one of
      the city's. */
  ghost predicate Reaches(g: Grid<nat>, lo: nat, hi: nat, r: seq<State>, e: Entry)
    requires g.Valid()
  {
    Route(g, lo, hi, r) && Last(r) == e.state && RouteHeat(g, r) == e.heat && e.state in AllStates(g, hi)
  }

  /** No route to `v` loses less heat than `h`. */
  ghost predicate Least(g: Grid<nat>, lo: nat, hi: nat, v: State, h: nat)
    requires g.Valid()
  {
    forall r {:trigger Route(g, lo, hi, r)} :: Route(g, lo, hi, r) && Last(r) == v ==> h <= RouteHeat(g, r)
  }

  /** Every entry of the queue is reached by a route: `routes[i]` is one
      for `q[i]`. */
  ghost predicate Sound(g: Grid<nat>, lo: nat, hi: nat, q: seq<Entry>, routes: seq<seq<State>>)
    requires g.Valid()
  {
    |routes| == |q| && forall i :: 0 <= i < |q| ==> Reaches(g, lo, hi, routes[i], q[i])
  }

  /** The settled states: each reached by its route `via[v]` with the least
      heat loss of any route to it, `heat[v]`. */
  ghost predicate Settled(g: Grid<nat>, lo: nat, hi: nat, heat: map<State, nat>, via: map<State, seq<State>>)
    requires g.Valid()
  {
    via.Keys == heat.Keys && AllLeast(g, lo, hi, heat) &&
    forall v :: v in heat ==> Reaches(g, lo, hi, via[v], Entry(heat[v], v))
  }

  /** No route to a settled state loses less heat than recorded. */
  ghost predicate AllLeast(g: Grid<nat>, lo: nat, hi: nat, heat: map<State, nat>)
    requires g.Valid()
  {
    forall v :: v in heat ==> Least(g, lo, hi, v, heat[v])
  }

  /** Every start not settled waits in the queue, with no heat lost. */
  ghost predicate StartsWait(heat: map<State, nat>, q: seq<Entry>) {
    forall s :: s in Starts() && s !in heat ==> Entry(0, s) in q
  }

  /** Every move on from the settled state `v` to a state not settled
      waits in the queue, with the heat of that move. */
  ghost predicate MovesWait(g: Grid<nat>, lo: nat, hi: nat, heat: map<State, nat>, q: seq<Entry>, v: State)
    requires g.Valid() && v in heat
  {
    forall w {:trigger Move(g, lo, hi, v, w)} :: Move(g, lo, hi, v, w) && w !in heat ==> Entry(heat[v] + Heat(g, w.pos), w) in q
  }

  ghost predicate Frontier(g: Grid<nat>, lo: nat, hi: nat, heat: map<State, nat>, q: seq<Entry>)
    requires g.Valid()
  {
    StartsWait(heat, q) && forall v :: v in heat ==> MovesWait(g, lo, hi, heat, q, v)
  }

  /** The whole state of the search; also, nothing at the destination is
      settled, since reaching it ends the search. */
  ghost predicate Searching(g: Grid<nat>, lo: nat, hi: nat, heat: map<State, nat>, via: map<State, seq<State>>,
                            q: seq<Entry>, routes: seq<seq<State>>)
    requires g.Valid() && 0 < g.width && 0 < g.height
  {
    Sound(g, lo, hi, q, routes) && Settled(g, lo, hi, heat, via) && Frontier(g, lo, hi, heat, q) &&
    forall v :: v in heat ==> v.pos != Destination(g)
  }

  lemma SearchStart(g: Grid<nat>, lo: nat, hi: nat)
    requires g.Valid() && 0 < g.width && 0 < g.height
    ensures Searching(g, lo, hi, map[], map[], [Entry(0, Starts()[0]), Entry(0, Starts()[1])], [[Starts()[0]], [Starts()[1]]])
  {
    InAllStates(g, hi, Starts()[0]);
    InAllStates(g, hi, Starts()[1]);
    var q, routes := [Entry(0, Starts()[0]), Entry(0, Starts()[1])], [[Starts()[0]], [Starts()[1]]];
    assert Reaches(g, lo, hi, routes[0], q[0]) && Reaches(g, lo, hi, routes[1], q[1]);
  }

  /** Any route to a state not settled passes the frontier: some entry of
      the queue has lost no more heat than the route. */
  lemma {:induction false} FrontierReach(g: Grid<nat>, lo: nat, hi: nat, heat: map<State, nat>,
                                         q: seq<Entry>, r: seq<State>)
    requires g.Valid() && AllLeast(g, lo, hi, heat) && Frontier(g, lo, hi, heat, q)
    requires Route(g, lo, hi, r) && Last(r) !in heat
    ensures exists e :: e in q && e.heat <= RouteHeat(g, r)
    decreases |r|
  {
    if |r| == 1 {
      var e := Entry(0, r[0]);
      assert e in q && e.heat <= RouteHeat(g, r);
    } else {
      var p := r[..|r| - 1];
      RoutePrefix(g, lo, hi, r);
      var v, w := Last(p), Last(r);
      if v in heat {
        assert Least(g, lo, hi, v, heat[v]) && MovesWait(g, lo, hi, heat, q, v);
        FrontierStep(g, lo, hi, heat, q, p, w);
        var e := Entry(heat[v] + Heat(g, w.pos), w);
        assert e in q && e.heat <= RouteHeat(g, r);
      } else {
        FrontierReach(g, lo, hi, heat, q, p);
      }
    }
  }

  /** A route to a settled state, one move on to a state not settled:
      that move waits in the queue with no more heat than the route. */
  lemma FrontierStep(g: Grid<nat>, lo: nat, hi: nat, heat: map<State, nat>, q: seq<Entry>, p: seq<State>, w: State)
    requires g.Valid() && Route(g, lo, hi, p) && Last(p) in heat
    requires Least(g, lo, hi, Last(p), heat[Last(p)]) && MovesWait(g, lo, hi, heat, q, Last(p))
    requires Move(g, lo, hi, Last(p), w) && w !in heat
    ensures var e := Entry(heat[Last(p)] + Heat(g, w.pos), w); e in q && e.heat <= RouteHeat(g, p) + Heat(g, w.pos)
  {
  }

  /** An entry with the least heat of the queue has lost no more heat than
      any route to a state not settled. */
  lemma PopLeast(g: Grid<nat>, lo: nat, hi: nat, heat: map<State, nat>, via: map<State, seq<State>>,
                 q: seq<Entry>, e: Entry)
    requires g.Valid() && Settled(g, lo, hi, heat, via) && Frontier(g, lo, hi, heat, q)
    requires forall x :: x in q ==> e.heat <= x.heat
    ensures forall r :: Route(g, lo, hi, r) && Last(r) !in heat ==> e.heat <= RouteHeat(g, r)
  {
    forall r | Route(g, lo, hi, r) && Last(r) !in heat
      ensures e.heat <= RouteHeat(g, r)
    {
      FrontierReach(g, lo, hi, heat, q, r);
    }
  }

  /** Taking an entry out of the queue keeps every other one. */
  lemma Removed<T>(q: seq<T>, i: nat, x: T)
    requires i < |q| && x in q && x != q[i]
    ensures x in q[..i] + q[i + 1..]
  {
    var j :| 0 <= j < |q| && q[j] == x;
    if j < i {
      assert (q[..i] + q[i + 1..])[j] == x;
    } else {
      assert (q[..i] + q[i + 1..])[j - 1] == x;
    }
  }

  lemma SoundRemove(g: Grid<nat>, lo: nat, hi: nat, q: seq<Entry>, routes: seq<seq<State>>, i: nat)
    requires g.Valid() && Sound(g, lo, hi, q, routes) && i < |q|
    ensures Sound(g, lo, hi, q[..i] + q[i + 1..], routes[..i] + routes[i + 1..])
  {
    var q2, routes2 := q[..i] + q[i + 1..], routes[..i] + routes[i + 1..];
    forall j | 0 <= j < |q2|
      ensures Reaches(g, lo, hi, routes2[j], q2[j])
    {
      var k := if j < i then j else j + 1;
      assert q2[j] == q[k] && routes2[j] == routes[k];
    }
  }

  /** Taking out an entry of a state already settled keeps the frontier. */
  lemma DropWaits(g: Grid<nat>, lo: nat, hi: nat, heat: map<State, nat>, q: seq<Entry>, i: nat)
    requires g.Valid() && Frontier(g, lo, hi, heat, q) && i < |q| && q[i].state in heat
    ensures Frontier(g, lo, hi, heat, q[..i] + q[i + 1..])
  {
    var q2 := q[..i] + q[i + 1..];
    forall s | s in Starts() && s !in heat
      ensures Entry(0, s) in q2
    {
      Removed(q, i, Entry(0, s));
    }
    forall v | v in heat
      ensures MovesWait(g, lo, hi, heat, q2, v)
    {
      assert MovesWait(g, lo, hi, heat, q, v);
      forall w | Move(g, lo, hi, v, w) && w !in heat
        ensures Entry(heat[v] + Heat(g, w.pos), w) in q2
      {
        var x := Entry(heat[v] + Heat(g, w.pos), w);
        assert x in q && x.state != q[i].state;
        Removed(q, i, x);
      }
    }
  }

  /** An entry of a state already settled is dropped. */
  lemma Drop(g: Grid<nat>, lo: nat, hi: nat, heat: map<State, nat>, via: map<State, seq<State>>,
             q: seq<Entry>, routes: seq<seq<State>>, i: nat)
    requires g.Valid() && 0 < g.width && 0 < g.height && Searching(g, lo, hi, heat, via, q, routes)
    requires i < |q| && q[i].state in heat
    ensures Searching(g, lo, hi, heat, via, q[..i] + q[i + 1..], routes[..i] + routes[i + 1..])
  {
    SoundRemove(g, lo, hi, q, routes, i);
    DropWaits(g, lo, hi, heat, q, i);
  }

  /** The entries pushed from a settled state reached with `h` lost. */
  function Pushes(g: Grid<nat>, h: nat, ms: seq<State>): (r: seq<Entry>)
    requires g.Valid()
    ensures |r| == |ms| && forall j :: 0 <= j < |ms| ==> r[j] == Entry(h + Heat(g, ms[j].pos), ms[j])
  {
    seq(|ms|, j requires 0 <= j < |ms| => Entry(h + Heat(g, ms[j].pos), ms[j]))
  }

  /** Their routes: that of the settled state, one move longer. */
  ghost function PushRoutes(r: seq<State>, ms: seq<State>): (rs: seq<seq<State>>)
    ensures |rs| == |ms| && forall j :: 0 <= j < |ms| ==> rs[j] == r + [ms[j]]
  {
    seq(|ms|, j requires 0 <= j < |ms| => r + [ms[j]])
  }

  /** An entry of a state not settled with the least heat of the queue
      settles its state: its route is one of least heat. */
  lemma SettleLeast(g: Grid<nat>, lo: nat, hi: nat, heat: map<State, nat>, via: map<State, seq<State>>,
                    q: seq<Entry>, routes: seq<seq<State>>, i: nat)
    requires g.Valid() && 0 < g.width && 0 < g.height && Searching(g, lo, hi, heat, via, q, routes)
    requires i < |q| && q[i].state !in heat
    requires forall x :: x in q ==> q[i].heat <= x.heat
    ensures Settled(g, lo, hi, heat[q[i].state := q[i].heat], via[q[i].state := routes[i]])
  {
    var e := q[i];
    PopLeast(g, lo, hi, heat, via, q, e);
    assert Reaches(g, lo, hi, routes[i], e);
    assert Least(g, lo, hi, e.state, e.heat);
  }

  /** Taking out the entry of the state being settled keeps the rest of
      the frontier. */
  lemma SettleWaits(g: Grid<nat>, lo: nat, hi: nat, heat: map<State, nat>, q: seq<Entry>, i: nat)
    requires g.Valid() && Frontier(g, lo, hi, heat, q) && i < |q| && q[i].state !in heat
    ensures StartsWait(heat[q[i].state := q[i].heat], q[..i] + q[i + 1..])
    ensures forall u :: u in heat ==> MovesWait(g, lo, hi, heat[q[i].state := q[i].heat], q[..i] + q[i + 1..], u)
  {
    var v := q[i].state;
    var heat2, q2 := heat[v := q[i].heat], q[..i] + q[i + 1..];
    forall s | s in Starts() && s !in heat2
      ensures Entry(0, s) in q2
    {
      Removed(q, i, Entry(0, s));
    }
    forall u | u in heat
      ensures MovesWait(g, lo, hi, heat2, q2, u)
    {
      assert MovesWait(g, lo, hi, heat, q, u);
      forall w | Move(g, lo, hi, u, w) && w !in heat2
        ensures Entry(heat2[u] + Heat(g, w.pos), w) in q2
      {
        assert w !in heat && w != v;
        var x := Entry(heat[u] + Heat(g, w.pos), w);
        assert x in q && x.state != q[i].state;
        Removed(q, i, x);
        assert heat2[u] == heat[u];
      }
    }
  }

  /** The entries pushed from a settled state are reached by its route
      one move longer. */
  lemma PushSound(g: Grid<nat>, lo: nat, hi: nat, q: seq<Entry>, routes: seq<seq<State>>,
                  v: State, h: nat, r: seq<State>)
    requires g.Valid() && Sound(g, lo, hi, q, routes) && Reaches(g, lo, hi, r, Entry(h, v))
    ensures var ms := Moves(g, lo, hi, v);
      Sound(g, lo, hi, q + Pushes(g, h, ms), routes + PushRoutes(r, ms))
  {
    var ms := Moves(g, lo, hi, v);
    var q2, routes2 := q + Pushes(g, h, ms), routes + PushRoutes(r, ms);
    forall j | 0 <= j < |q2|
      ensures Reaches(g, lo, hi, routes2[j], q2[j])
    {
      if j < |q| {
        assert q2[j] == q[j] && routes2[j] == routes[j];
      } else {
        var w := ms[j - |q|];
        assert q2[j] == Entry(h + Heat(g, w.pos), w) && routes2[j] == r + [w];
        PushOne(g, lo, hi, v, h, r, w);
      }
    }
  }

  lemma PushOne(g: Grid<nat>, lo: nat, hi: nat, v: State, h: nat, r: seq<State>, w: State)
    requires g.Valid() && Reaches(g, lo, hi, r, Entry(h, v)) && w in Moves(g, lo, hi, v)
    ensures Reaches(g, lo, hi, r + [w], Entry(h + Heat(g, w.pos), w))
  {
    assert Move(g, lo, hi, v, w);
    RouteExtend(g, lo, hi, r, w);
    MovesSpec(g, lo, hi, v, w);
    InAllStates(g, hi, w);
  }

  /** Pushing the moves on from the state just settled completes the
      frontier. */
  lemma PushWaits(g: Grid<nat>, lo: nat, hi: nat, heat: map<State, nat>, q: seq<Entry>, v: State)
    requires g.Valid() && v in heat && StartsWait(heat, q)
    requires forall u :: u in heat && u != v ==> MovesWait(g, lo, hi, heat, q, u)
    ensures Frontier(g, lo, hi, heat, q + Pushes(g, heat[v], Moves(g, lo, hi, v)))
  {
    var ms := Moves(g, lo, hi, v);
    var q2 := q + Pushes(g, heat[v], ms);
    forall u | u in heat
      ensures MovesWait(g, lo, hi, heat, q2, u)
    {
      if u == v {
        forall w | Move(g, lo, hi, u, w) && w !in heat
          ensures Entry(heat[u] + Heat(g, w.pos), w) in q2
        {
          var j :| 0 <= j < |ms| && ms[j] == w;
          assert q2[|q| + j] == Entry(heat[u] + Heat(g, w.pos), w);
        }
      } else {
        assert MovesWait(g, lo, hi, heat, q, u);
      }
    }
  }

  /** An entry of a state not settled and not at the destination, with
      the least heat of the queue, settles its state and pushes the moves
      on from it. */
  lemma Settle(g: Grid<nat>, lo: nat, hi: nat, heat: map<State, nat>, via: map<State, seq<State>>,
               q: seq<Entry>, routes: seq<seq<State>>, i: nat)
    requires g.Valid() && 0 < g.width && 0 < g.height && Searching(g, lo, hi, heat, via, q, routes)
    requires i < |q| && q[i].state !in heat && q[i].state.pos != Destination(g)
    requires forall x :: x in q ==> q[i].heat <= x.heat
    ensures var e := q[i];
      var ms := Moves(g, lo, hi, e.state);
      Searching(g, lo, hi, heat[e.state := e.heat], via[e.state := routes[i]],
        q[..i] + q[i + 1..] + Pushes(g, e.heat, ms), routes[..i] + routes[i + 1..] + PushRoutes(routes[i], ms))
  {
    var e := q[i];
    var heat2, via2 := heat[e.state := e.heat], via[e.state := routes[i]];
    SettleLeast(g, lo, hi, heat, via, q, routes, i);
    SoundRemove(g, lo, hi, q, routes, i);
    SettleWaits(g, lo, hi, heat, q, i);
    assert Reaches(g, lo, hi, routes[i], e);
    PushSound(g, lo, hi, q[..i] + q[i + 1..], routes[..i] + routes[i + 1..], e.state, e.heat, routes[i]);
    PushWaits(g, lo, hi, heat2, q[..i] + q[i + 1..], e.state);
  }

  /** Reaching the destination with the least heat of the queue: that
      heat is the least of any route to the destination, and the entry's
      route is one. */
  lemma Found(g: Grid<nat>, lo: nat, hi: nat, heat: map<State, nat>, via: map<State, seq<State>>,
              q: seq<Entry>, routes: seq<seq<State>>, i: nat)
    requires g.Valid() && 0 < g.width && 0 < g.height && Searching(g, lo, hi, heat, via, q, routes)
    requires i < |q| && q[i].state.pos == Destination(g)
    requires forall x :: x in q ==> q[i].heat <= x.heat
    ensures forall r :: Arrives(g, lo, hi, r) ==> q[i].heat <= RouteHeat(g, r)
    ensures Arrives(g, lo, hi, routes[i]) && RouteHeat(g, routes[i]) == q[i].heat
  {
    PopLeast(g, lo, hi, heat, via, q, q[i]);
    assert Reaches(g, lo, hi, routes[i], q[i]);
  }

  /** With the queue empty, no route reaches the destination. */
  lemma NoArrival(g: Grid<nat>, lo: nat, hi: nat, heat: map<State, nat>, via: map<State, seq<State>>,
                  routes: seq<seq<State>>)
    requires g.Valid() && 0 < g.width && 0 < g.height && Searching(g, lo, hi, heat, via, [], routes)
    ensures forall r :: !Arrives(g, lo, hi, r)
  {
    forall r | Arrives(g, lo, hi, r)
      ensures false
    {
      FrontierReach(g, lo, hi, heat, [], r);
    }
  }

  /** The index of an entry with the least heat: the top of the heap. */
  method LeastIndex(q: seq<Entry>) returns (i: nat)
    requires q != []
    ensures i < |q| && forall x :: x in q ==> q[i].heat <= x.heat
  {
    i := 0;
    var k := 1;
    while k < |q|
      invariant i < k <= |q|
      invariant forall j :: 0 <= j < k ==> q[i].heat <= q[j].heat
    {
      if q[k].heat < q[i].heat {
        i := k;
      }
      k := k + 1;
    }
  }

  /** `minimize_heat_loss::<lo, hi>`: the least heat lost by a route from
      the top left block to the bottom right one, or 0 when there is no
      such route. The queue yields an entry with the least heat; reaching
      the destination ends the search, an entry of a settled state is
      dropped, and any other settles its state and pushes the moves on. */
  method MinimizeHeatLoss(g: Grid<nat>, lo: nat, hi: nat) returns (loss: nat)
    requires g.Valid() && 0 < g.width && 0 < g.height
    ensures forall r :: Arrives(g, lo, hi, r) ==> loss <= RouteHeat(g, r)
    ensures (exists r :: Arrives(g, lo, hi, r) && RouteHeat(g, r) == loss) ||
      (loss == 0 && forall r :: !Arrives(g, lo, hi, r))
  {
    var destination := Destination(g);
    var toVisit := [Entry(0, Starts()[0]), Entry(0, Starts()[1])];
    var visited: set<State> := {};
    ghost var heat: map<State, nat> := map[];
    ghost var via: map<State, seq<State>> := map[];
    ghost var routes := [[Starts()[0]], [Starts()[1]]];
    SearchStart(g, lo, hi);
    while toVisit != []
      invariant Searching(g, lo, hi, heat, via, toVisit, routes) && visited == heat.Keys
      decreases AllStates(g, hi) - visited, |toVisit|
    {
      var i := LeastIndex(toVisit);
      var e := toVisit[i];
      if e.state.pos == destination {
        Found(g, lo, hi, heat, via, toVisit, routes, i);
        return e.heat;
      }
      if e.state in visited {
        Drop(g, lo, hi, heat, via, toVisit, routes, i);
        toVisit := toVisit[..i] + toVisit[i + 1..];
        routes := routes[..i] + routes[i + 1..];
      } else {
        assert Reaches(g, lo, hi, routes[i], e);
        var ms := Moves(g, lo, hi, e.state);
        ghost var r := routes[i];
        Settle(g, lo, hi, heat, via, toVisit, routes, i);
        visited := visited + {e.state};
        toVisit := toVisit[..i] + toVisit[i + 1..] + Pushes(g, e.heat, ms);
        routes := routes[..i] + routes[i + 1..] + PushRoutes(r, ms);
        heat := heat[e.state := e.heat];
        via := via[e.state := r];
      }
    }
    NoArrival(g, lo, hi, heat, via, routes);
    return 0;
  }
}
