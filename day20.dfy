/** Day 20, part 1: pulses travel through a network of broadcaster,
    flip-flop and conjunction modules, one transmission at a time in the
    order they are sent; the answer multiplies the low and the high pulses
    counted over a number of button presses. */
module Day20 {
  import opened Wrappers
  import opened Text

  datatype Pulse = Low | High

  datatype Transmission = Transmission(pulse: Pulse, origin: string, destination: string)

  /** `Transmission::default`: the button's low pulse to the broadcaster. */
  const ButtonPress := Transmission(Low, "button", "broadcaster")

  /** A module with the state it keeps: a flip-flop whether it is on, a
      conjunction the last pulse from each of its inputs. The source keeps
      that state in `Cell`s; here a module value carries it. */
  datatype Module =
    | Broadcaster(name: string, destinations: seq<string>)
    | FlipFlop(name: string, on: bool, destinations: seq<string>)
    | Conjunction(name: string, inputs: map<string, Pulse>, destinations: seq<string>)

  /** The modules by name. */
  type Config = map<string, Module>

  /** The same pulse from `origin` to every destination, in order. */
  function Send(p: Pulse, origin: string, destinations: seq<string>): (r: seq<Transmission>)
    ensures |r| == |destinations|
    ensures forall i :: 0 <= i < |r| ==> r[i] == Transmission(p, origin, destinations[i])
  {
    seq(|destinations|, i requires 0 <= i < |destinations| => Transmission(p, origin, destinations[i]))
  }

  /** Whether the last pulse from every input was high. */
  predicate AllHigh(inputs: map<string, Pulse>) {
    forall k :: k in inputs ==> inputs[k] == High
  }

  /** `Module::recv`: the module after it receives `t`, and what it sends.
      A conjunction that hears from a module that is not one of its inputs
      panics in `unwrap`. */
  function Recv(m: Module, t: Transmission): Result<(Module, seq<Transmission>)> {
    match m
    case Broadcaster(name, ds) => Ok((m, Send(t.pulse, name, ds)))
    case FlipFlop(name, on, ds) =>
      if t.pulse == High then Ok((m, []))
      else Ok((m.(on := !on), Send(if on then Low else High, name, ds)))
    case Conjunction(name, inputs, ds) =>
      if t.origin !in inputs then Err(Panic)
      else
        var remembered := inputs[t.origin := t.pulse];
        Ok((m.(inputs := remembered), Send(if AllHigh(remembered) then Low else High, name, ds)))
  }

  /** The broadcaster sends what it receives to every destination. */
  lemma BroadcasterForwards(m: Module, t: Transmission)
    requires m.Broadcaster?
    ensures Recv(m, t).Ok? && Recv(m, t).value.0 == m
    ensures var out := Recv(m, t).value.1;
      |out| == |m.destinations| &&
      forall i :: 0 <= i < |out| ==> out[i] == Transmission(t.pulse, m.name, m.destinations[i])
  {
  }

  /** A flip-flop ignores a high pulse: it sends nothing and stays as it
      is. */
  lemma FlipFlopIgnoresHigh(m: Module, t: Transmission)
    requires m.FlipFlop? && t.pulse == High
    ensures Recv(m, t) == Ok((m, []))
  {
  }

  /** On a low pulse a flip-flop turns over, and sends high to every
      destination if it was off, low if it was on. */
  lemma FlipFlopToggles(m: Module, t: Transmission)
    requires m.FlipFlop? && t.pulse == Low
    ensures Recv(m, t).Ok?
    ensures var (after, out) := Recv(m, t).value;
      after.FlipFlop? && after.on == !m.on && after.name == m.name && after.destinations == m.destinations &&
      |out| == |m.destinations| &&
      forall i :: 0 <= i < |out| ==> out[i] == Transmission(if m.on then Low else High, m.name, m.destinations[i])
  {
  }

  /** Two low pulses bring a flip-flop back to where it was, the first
      sending the opposite of the second. */
  lemma FlipFlopTwice(m: Module, t: Transmission, u: Transmission)
    requires m.FlipFlop? && t.pulse == Low && u.pulse == Low
    ensures var (once, out1) := Recv(m, t).value;
      var (twice, out2) := Recv(once, u).value;
      twice == m && |out1| == |out2| &&
      forall i :: 0 <= i < |out1| ==> out1[i].pulse != out2[i].pulse && out1[i].destination == out2[i].destination
  {
  }

  /** A conjunction first remembers the pulse from its origin, then sends
      low to every destination iff the last pulse from each input was
      high. Its inputs stay the same modules. */
  lemma ConjunctionRemembers(m: Module, t: Transmission)
    requires m.Conjunction?
    ensures Recv(m, t).Ok? <==> t.origin in m.inputs
    ensures Recv(m, t).Ok? ==> var (after, out) := Recv(m, t).value;
      after.Conjunction? && after.name == m.name && after.destinations == m.destinations &&
      after.inputs.Keys == m.inputs.Keys && after.inputs[t.origin] == t.pulse &&
      (forall k :: k in m.inputs && k != t.origin ==> after.inputs[k] == m.inputs[k]) &&
      |out| == |m.destinations| &&
      forall i :: 0 <= i < |out| ==>
        out[i].origin == m.name && out[i].destination == m.destinations[i] &&
        (out[i].pulse == Low <==> forall k :: k in after.inputs ==> after.inputs[k] == High)
  {
  }

  /** Two modules that differ at most in their state. */
  predicate SameWiring(a: Module, b: Module) {
    match a
    case Broadcaster(_, _) => b == a
    case FlipFlop(name, _, ds) => b.FlipFlop? && b.name == name && b.destinations == ds
    case Conjunction(name, inputs, ds) =>
      b.Conjunction? && b.name == name && b.destinations == ds && b.inputs.Keys == inputs.Keys
  }

  predicate SameConfig(c1: Config, c2: Config) {
    c1.Keys == c2.Keys && forall n :: n in c1 ==> SameWiring(c1[n], c2[n])
  }

  /** A module only ever changes its state, and sends only as itself to
      its own destinations. */
  lemma RecvKeepsWiring(m: Module, t: Transmission)
    requires Recv(m, t).Ok?
    ensures SameWiring(m, Recv(m, t).value.0)
    ensures forall u :: u in Recv(m, t).value.1 ==> u.origin == m.name && u.destination in m.destinations
  {
  }

  /** One transmission: the module it is for receives it; one that is not
      in the network receives nothing and sends nothing. */
  function Deliver(config: Config, t: Transmission): Result<(Config, seq<Transmission>)> {
    if t.destination !in config then Ok((config, []))
    else match Recv(config[t.destination], t)
      case Err(e) => Err(e)
      case Ok((m, out)) => Ok((config[t.destination := m], out))
  }

  lemma DeliverKeepsWiring(config: Config, t: Transmission)
    requires Deliver(config, t).Ok?
    ensures SameConfig(config, Deliver(config, t).value.0)
  {
    if t.destination in config {
      RecvKeepsWiring(config[t.destination], t);
    }
  }

  /** The network and the pulses counted so far. */
  datatype Tally = Tally(config: Config, low: nat, high: nat)

  function Count(tally: Tally, p: Pulse): Tally {
    if p == Low then tally.(low := tally.low + 1) else tally.(high := tally.high + 1)
  }

  /** The queue drained first in, first out: each transmission counted,
      then delivered, and what it causes queued behind the rest. A press
      whose pulses never die out would keep the source busy for ever; the
      model gives up after `fuel` transmissions. */
  function Drain(tally: Tally, queue: seq<Transmission>, fuel: nat): Result<Tally>
    decreases fuel
  {
    if queue == [] then Ok(tally)
    else if fuel == 0 then Err(Diverges)
    else
      var counted := Count(tally, queue[0].pulse);
      match Deliver(counted.config, queue[0])
      case Err(e) => Err(e)
      case Ok((config, out)) => Drain(counted.(config := config), queue[1..] + out, fuel - 1)
  }

  /** Every transmission in the queue is counted, and the network keeps its
      wiring. */
  lemma {:induction false} DrainCounts(tally: Tally, queue: seq<Transmission>, fuel: nat)
    requires Drain(tally, queue, fuel).Ok?
    ensures var after := Drain(tally, queue, fuel).value;
      after.low >= tally.low && after.high >= tally.high &&
      after.low + after.high >= tally.low + tally.high + |queue| &&
      SameConfig(tally.config, after.config)
    decreases fuel
  {
    if queue != [] {
      var counted := Count(tally, queue[0].pulse);
      DeliverKeepsWiring(counted.config, queue[0]);
      var (config, out) := Deliver(counted.config, queue[0]).value;
      DrainCounts(counted.(config := config), queue[1..] + out, fuel - 1);
    }
  }

  /** One press of the button: its pulse and all it causes. */
  function Press(tally: Tally, fuel: nat): Result<Tally> {
    Drain(tally, [ButtonPress], fuel)
  }

  /** `fuel` transmissions at most for each press. */
  function Presses(config: Config, n: nat, fuel: nat): Result<Tally> {
    if n == 0 then Ok(Tally(config, 0, 0))
    else match Presses(config, n - 1, fuel)
      case Err(e) => Err(e)
      case Ok(tally) => Press(tally, fuel)
  }

  /** Each press counts at least the button's own low pulse. */
  lemma {:induction false} PressesCount(config: Config, n: nat, fuel: nat)
    requires Presses(config, n, fuel).Ok?
    ensures Presses(config, n, fuel).value.low >= n
    ensures SameConfig(config, Presses(config, n, fuel).value.config)
  {
    if n > 0 {
      PressesCount(config, n - 1, fuel);
      var tally := Presses(config, n - 1, fuel).value;
      DrainCounts(tally, [ButtonPress], fuel);
      var after := Press(tally, fuel).value;
      assert after.low >= tally.low + 1 by {
        DrainFirst(tally, ButtonPress, fuel);
      }
    }
  }

  /** The first transmission of the queue is counted with its own
      pulse. */
  lemma DrainFirst(tally: Tally, t: Transmission, fuel: nat)
    requires Drain(tally, [t], fuel).Ok?
    ensures t.pulse == Low ==> Drain(tally, [t], fuel).value.low >= tally.low + 1
    ensures t.pulse == High ==> Drain(tally, [t], fuel).value.high >= tally.high + 1
  {
    var counted := Count(tally, t.pulse);
    var (config, out) := Deliver(counted.config, t).value;
    assert [t][1..] + out == out;
    DrainCounts(counted.(config := config), out, fuel - 1);
  }

  /** One button press, the queue drained in a loop. */
  method PressButton(tally: Tally, fuel: nat) returns (r: Result<Tally>)
    ensures r == Press(tally, fuel)
  {
    var config := tally.config;
    var low, high := tally.low, tally.high;
    var transmissions := [ButtonPress];
    var left := fuel;
    while transmissions != []
      invariant Drain(Tally(config, low, high), transmissions, left) == Press(tally, fuel)
      decreases left
    {
      if left == 0 {
        return Err(Diverges);
      }
      var t := transmissions[0];
      transmissions := transmissions[1..];
      if t.pulse == Low {
        low := low + 1;
      } else {
        high := high + 1;
      }
      var delivered := Deliver(config, t);
      if delivered.Err? {
        return Err(delivered.error);
      }
      config := delivered.value.0;
      transmissions := transmissions + delivered.value.1;
      left := left - 1;
    }
    return Ok(Tally(config, low, high));
  }

  /** `part1`: the low pulses times the high pulses over `presses` presses
      of the button. */
  method Part1(config: Config, presses: nat, fuel: nat) returns (r: Result<nat>)
    ensures Presses(config, presses, fuel).Ok? ==> r == Ok(Presses(config, presses, fuel).value.low * Presses(config, presses, fuel).value.high)
    ensures Presses(config, presses, fuel).Err? ==> r == Err(Presses(config, presses, fuel).error)
  {
    var tally := Tally(config, 0, 0);
    var k := 0;
    while k < presses
      invariant 0 <= k <= presses
      invariant Presses(config, k, fuel) == Ok(tally)
    {
      var next := PressButton(tally, fuel);
      if next.Err? {
        PressesFail(config, k + 1, presses, fuel);
        return Err(next.error);
      }
      tally := next.value;
      k := k + 1;
    }
    return Ok(tally.low * tally.high);
  }

  /** Once a press fails, every later count fails the same way. */
  lemma {:induction false} PressesFail(config: Config, k: nat, n: nat, fuel: nat)
    requires k <= n && Presses(config, k, fuel).Err?
    ensures Presses(config, n, fuel) == Presses(config, k, fuel)
    decreases n - k
  {
    if k < n {
      PressesFail(config, k, n - 1, fuel);
    }
  }

  // ---------------------------------------------------------------------
  // Reading the network

  /** The destinations after ` -> `: split at commas, each trimmed. */
  function DestinationsOf(s: string): (r: seq<string>)
    ensures |r| == |Split(Trim(s), ',')|
  {
    var pieces := Split(Trim(s), ',');
    seq(|pieces|, i requires 0 <= i < |pieces| => Trim(pieces[i]))
  }

  /** `Module::new`: the kind from the name's prefix, flip-flops off and
      conjunctions without inputs; a line without ` -> ` or with a name of
      no known kind panics. */
  function ModuleOf(line: string): Result<Module> {
    match SplitOnceStr(line, " -> ")
    case None => Err(Panic)
    case Some((name, rest)) =>
      var ds := DestinationsOf(rest);
      if name == "broadcaster" then Ok(Broadcaster(name, ds))
      else if name != [] && name[0] == '%' then Ok(FlipFlop(name[1..], false, ds))
      else if name != [] && name[0] == '&' then Ok(Conjunction(name[1..], map[], ds))
      else Err(Panic)
  }

  /** A module as `Module::new` leaves it: no state yet. */
  predicate Fresh(m: Module) {
    match m
    case Broadcaster(name, _) => name == "broadcaster"
    case FlipFlop(_, on, _) => !on
    case Conjunction(_, inputs, _) => inputs == map[]
  }

  lemma ModuleOfFresh(line: string)
    requires ModuleOf(line).Ok?
    ensures Fresh(ModuleOf(line).value)
  {
  }

  /** A module name as the puzzle writes them. */
  predicate Label(s: string) {
    s != [] && forall i :: 0 <= i < |s| ==> 'a' <= s[i] <= 'z'
  }

  function Prefix(m: Module): string {
    match m
    case Broadcaster(_, _) => ""
    case FlipFlop(_, _, _) => "%"
    case Conjunction(_, _, _) => "&"
  }

  /** The line that describes a module. */
  function ModuleLine(m: Module): string {
    Prefix(m) + m.name + " -> " + Join(m.destinations, ',')
  }

  /** Reading a module's line gives the module back. */
  lemma ModuleOfLine(m: Module)
    requires Fresh(m) && Label(m.name) && m.destinations != []
    requires forall i :: 0 <= i < |m.destinations| ==> Label(m.destinations[i])
    ensures ModuleOf(ModuleLine(m)) == Ok(m)
  {
    var head := Prefix(m) + m.name;
    var joined := Join(m.destinations, ',');
    assert ModuleLine(m) == head + " -> " + joined;
    LineSplits(head, joined);
    assert DestinationsOf(joined) == m.destinations by {
      DestinationsOfJoin(m.destinations);
    }
    if !m.Broadcaster? {
      assert head[1..] == m.name;
    }
  }

  /** Destinations written with commas between them are read back. */
  lemma DestinationsOfJoin(ds: seq<string>)
    requires ds != [] && forall i :: 0 <= i < |ds| ==> Label(ds[i])
    ensures DestinationsOf(Join(ds, ',')) == ds
  {
    var joined := Join(ds, ',');
    JoinEnds(ds, ',');
    TrimUnchanged(joined);
    forall i | 0 <= i < |ds|
      ensures ',' !in ds[i] && Trim(ds[i]) == ds[i]
    {
      TrimUnchanged(ds[i]);
    }
    JoinSplit(ds, ',');
  }

  /** ` -> ` is found right after a name that holds no space. */
  lemma LineSplits(head: string, rest: string)
    requires forall i :: 0 <= i < |head| ==> head[i] != ' '
    ensures SplitOnceStr(head + " -> " + rest, " -> ") == Some((head, rest))
  {
    var s := head + " -> " + rest;
    SplitOnceStrSpec(s, " -> ");
    assert OccursAt(s, " -> ", |head|) by {
      assert s[|head|..|head| + 4] == " -> ";
    }
    var (a, b) := SplitOnceStr(s, " -> ").value;
    assert s[|a|] == ' ' by {
      assert s == a + " -> " + b;
    }
    assert |a| == |head|;
    assert a == s[..|a|] == head;
  }

  /** The modules by name; a later line with the same name replaces an
      earlier one, as `HashMap::insert` does. */
  function Named(mods: seq<Module>): Config {
    if mods == [] then map[]
    else Named(mods[..|mods| - 1])[mods[|mods| - 1].name := mods[|mods| - 1]]
  }

  /** The position of the last module named `n`, or -1 if there is
      none. */
  function LastIndex(mods: seq<Module>, n: string): (r: int)
    ensures -1 <= r < |mods|
    ensures r >= 0 ==> LastNamed(mods, r, n)
    ensures r == -1 ==> forall i :: 0 <= i < |mods| ==> mods[i].name != n
  {
    if mods == [] then -1
    else if mods[|mods| - 1].name == n then |mods| - 1
    else LastIndex(mods[..|mods| - 1], n)
  }

  /** The `i`th module is the last one named `n`. */
  predicate LastNamed(mods: seq<Module>, i: int, n: string) {
    0 <= i < |mods| && mods[i].name == n && forall j :: i < j < |mods| ==> mods[j].name != n
  }

  /** The name of a module is kept, with the last module of that name. */
  lemma {:induction false} NamedLast(mods: seq<Module>, n: string)
    ensures n in Named(mods) <==> LastIndex(mods, n) >= 0
    ensures n in Named(mods) ==> Named(mods)[n] == mods[LastIndex(mods, n)]
  {
    if mods != [] && mods[|mods| - 1].name != n {
      NamedLast(mods[..|mods| - 1], n);
    }
  }

  /** For each destination, the modules that send to it, each last heard
      low. */
  type Inputs = map<string, map<string, Pulse>>

  /** One module recorded as an input of each of its destinations. */
  function AddSender(inputs: Inputs, name: string, ds: seq<string>): Inputs {
    if ds == [] then inputs
    else
      var before := AddSender(inputs, name, ds[..|ds| - 1]);
      var d := ds[|ds| - 1];
      before[d := (if d in before then before[d] else map[])[name := Low]]
  }

  /** The first loop of `parse_input`: every line's module recorded as an
      input of each of its destinations. */
  function InputsOf(mods: seq<Module>): Inputs {
    if mods == [] then map[]
    else
      var last := mods[|mods| - 1];
      AddSender(InputsOf(mods[..|mods| - 1]), last.name, last.destinations)
  }

  /** The names of the modules that list `d` among their destinations. */
  function Senders(mods: seq<Module>, d: string): set<string> {
    set i | 0 <= i < |mods| && d in mods[i].destinations :: mods[i].name
  }

  /** What recording one module does to the entry of `d`. */
  lemma {:induction false} AddSenderAt(inputs: Inputs, name: string, ds: seq<string>, d: string)
    ensures var r := AddSender(inputs, name, ds);
      (d in r <==> d in inputs || d in ds) &&
      (d in r ==> r[d].Keys == (if d in inputs then inputs[d].Keys else {}) + (if d in ds then {name} else {})) &&
      (forall k :: d in r && k in r[d] ==> r[d][k] == if d in ds && k == name then Low else inputs[d][k])
  {
    if ds != [] {
      var front := ds[..|ds| - 1];
      AddSenderAt(inputs, name, front, d);
      assert d in ds <==> d in front || d == ds[|ds| - 1];
    }
  }

  /** A destination has an entry iff some module sends to it; the entry
      names exactly those modules, all last heard low. */
  lemma {:induction false} InputsAt(mods: seq<Module>, d: string)
    ensures d in InputsOf(mods) <==> Senders(mods, d) != {}
    ensures d in InputsOf(mods) ==> InputsOf(mods)[d].Keys == Senders(mods, d)
    ensures forall k :: d in InputsOf(mods) && k in InputsOf(mods)[d] ==> InputsOf(mods)[d][k] == Low
  {
    if mods != [] {
      var before := mods[..|mods| - 1];
      var last := mods[|mods| - 1];
      InputsAt(before, d);
      AddSenderAt(InputsOf(before), last.name, last.destinations, d);
      assert before + [last] == mods;
      SendersSnoc(before, last, d);
    }
  }

  lemma SendersSnoc(mods: seq<Module>, m: Module, d: string)
    ensures Senders(mods + [m], d) == Senders(mods, d) + (if d in m.destinations then {m.name} else {})
  {
    var all := mods + [m];
    forall k | k in Senders(all, d) ensures k in Senders(mods, d) + (if d in m.destinations then {m.name} else {}) {
      var i :| 0 <= i < |all| && d in all[i].destinations && all[i].name == k;
      if i < |mods| {
        assert mods[i] == all[i];
      }
    }
    forall k | k in Senders(mods, d) ensures k in Senders(all, d) {
      var i :| 0 <= i < |mods| && d in mods[i].destinations && mods[i].name == k;
      assert all[i] == mods[i];
    }
    if d in m.destinations {
      assert all[|mods|] == m;
    }
  }

  /** The second loop of `parse_input`, for the destinations in `done`: a
      conjunction gets the inputs recorded for it. */
  function Wired(modules: Config, inputs: Inputs, done: set<string>): (r: Config)
    ensures r.Keys == modules.Keys
  {
    map n | n in modules :: if n in done && n in inputs && modules[n].Conjunction? then modules[n].(inputs := inputs[n]) else modules[n]
  }

  /** `parse_input`. */
  function ParseConfig(input: string): Result<Config> {
    match MapResult(Lines(input), ModuleOf)
    case Err(e) => Err(e)
    case Ok(mods) =>
      var inputs := InputsOf(mods);
      Ok(Wired(Named(mods), inputs, inputs.Keys))
  }

  /** A conjunction that remembers exactly the modules that send to it,
      each as low. */
  predicate WiredFrom(mods: seq<Module>, m: Module) {
    m.Conjunction? ==>
      m.inputs.Keys == Senders(mods, m.name) && forall k :: k in m.inputs ==> m.inputs[k] == Low
  }

  /** A module with its state forgotten. */
  function Reset(m: Module): (r: Module)
    ensures Fresh(r) || r.Broadcaster?
  {
    match m
    case Broadcaster(_, _) => m
    case FlipFlop(_, _, _) => m.(on := false)
    case Conjunction(_, _, _) => m.(inputs := map[])
  }

  predicate AllFresh(mods: seq<Module>) {
    forall i :: 0 <= i < |mods| ==> Fresh(mods[i])
  }

  /** The network read from the lines: a module under each name that
      some line gives, with the wiring of the last such line, and each
      conjunction wired to exactly the modules that send to it, all
      remembered as low. */
  lemma WiredInputs(input: string)
    requires ParseConfig(input).Ok?
    ensures var mods := MapResult(Lines(input), ModuleOf).value;
      var config := ParseConfig(input).value;
      forall n :: (n in config <==> LastIndex(mods, n) >= 0) &&
        (n in config ==> Reset(config[n]) == mods[LastIndex(mods, n)] && WiredFrom(mods, config[n]))
  {
    var lines := Lines(input);
    var mods := MapResult(lines, ModuleOf).value;
    forall i | 0 <= i < |mods| ensures Fresh(mods[i]) {
      MapResultAt(lines, ModuleOf, i);
      ModuleOfFresh(lines[i]);
    }
    forall n ensures var config := Wired(Named(mods), InputsOf(mods), InputsOf(mods).Keys);
      (n in config <==> LastIndex(mods, n) >= 0) &&
      (n in config ==> Reset(config[n]) == mods[LastIndex(mods, n)] && WiredFrom(mods, config[n]))
    {
      NamedLast(mods, n);
      if n in Named(mods) {
        WiredOne(mods, n);
      }
    }
  }

  lemma WiredOne(mods: seq<Module>, n: string)
    requires AllFresh(mods) && LastIndex(mods, n) >= 0
    requires n in Named(mods) && Named(mods)[n] == mods[LastIndex(mods, n)]
    ensures var config := Wired(Named(mods), InputsOf(mods), InputsOf(mods).Keys);
      Reset(config[n]) == mods[LastIndex(mods, n)] && WiredFrom(mods, config[n])
  {
    var inputs := InputsOf(mods);
    var m := mods[LastIndex(mods, n)];
    var config := Wired(Named(mods), inputs, inputs.Keys);
    assert Fresh(m);
    assert config[n] == if n in inputs && m.Conjunction? then m.(inputs := inputs[n]) else m;
    if m.Conjunction? {
      assert WiredFrom(mods, config[n]) by {
        InputsAt(mods, n);
      }
    }
  }

  /** The destinations of one module recorded, one at a time. */
  method Record(inputs: Inputs, name: string, ds: seq<string>) returns (r: Inputs)
    ensures r == AddSender(inputs, name, ds)
  {
    r := inputs;
    var j := 0;
    while j < |ds|
      invariant j <= |ds|
      invariant r == AddSender(inputs, name, ds[..j])
    {
      var d := ds[j];
      var known := if d in r then r[d] else map[];
      r := r[d := known[name := Low]];
      assert ds[..j + 1][..j] == ds[..j];
      j := j + 1;
    }
    assert ds[..j] == ds;
  }

  /** The second loop of `parse_input`: each recorded destination that is
      a conjunction gets its inputs. */
  method Wire(named: Config, inputs: Inputs) returns (modules: Config)
    ensures modules == Wired(named, inputs, inputs.Keys)
  {
    modules := named;
    var todo := inputs.Keys;
    while todo != {}
      invariant todo <= inputs.Keys
      invariant modules == Wired(named, inputs, inputs.Keys - todo)
      decreases |todo|
    {
      var d :| d in todo;
      if d in modules && modules[d].Conjunction? {
        modules := modules[d := modules[d].(inputs := inputs[d])];
      }
      todo := todo - {d};
    }
  }

  /** The first `i` lines read into `mods`, recorded in `inputs` and
      `modules`. */
  predicate ReadSoFar(lines: seq<string>, i: nat, mods: seq<Module>, inputs: Inputs, modules: Config) {
    i <= |lines| && MapResult(lines[..i], ModuleOf) == Ok(mods) &&
    inputs == InputsOf(mods) && modules == Named(mods)
  }

  lemma ReadStep(lines: seq<string>, i: nat, mods: seq<Module>, inputs: Inputs, modules: Config)
    requires ReadSoFar(lines, i, mods, inputs, modules) && i < |lines| && ModuleOf(lines[i]).Ok?
    ensures var m := ModuleOf(lines[i]).value;
      ReadSoFar(lines, i + 1, mods + [m], AddSender(inputs, m.name, m.destinations), modules[m.name := m])
  {
    MapResultStep(lines, i, ModuleOf, mods);
    var m := ModuleOf(lines[i]).value;
    assert (mods + [m])[..|mods|] == mods;
  }

  /** `parse_input`: each line read and its module recorded, then the
      conjunctions wired. */
  method ParseInput(input: string) returns (r: Result<Config>)
    ensures r == ParseConfig(input)
  {
    var lines := Lines(input);
    ghost var mods: seq<Module> := [];
    var inputs: Inputs := map[];
    var modules: Config := map[];
    var i := 0;
    while i < |lines|
      invariant ReadSoFar(lines, i, mods, inputs, modules)
    {
      var parsed := ModuleOf(lines[i]);
      if parsed.Err? {
        MapResultStep(lines, i, ModuleOf, mods);
        return Err(parsed.error);
      }
      ReadStep(lines, i, mods, inputs, modules);
      var m := parsed.value;
      inputs := Record(inputs, m.name, m.destinations);
      modules := modules[m.name := m];
      mods := mods + [m];
      i := i + 1;
    }
    assert lines[..i] == lines;
    modules := Wire(modules, inputs);
    return Ok(modules);
  }
}
