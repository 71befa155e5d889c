/** Day 20, Pulse Propagation: modules wired to each other pass high and low pulses.
    A flip-flop toggles on a low pulse, a conjunction remembers the last pulse from each
    of its inputs, and the broadcaster repeats what it receives. Pressing the button
    sends a low pulse to the broadcaster; pulses are handled in the order they were sent.
    Part 1 multiplies the numbers of high and low pulses over 1000 presses. */
module Day20 {
  import opened Wrappers

  datatype Pulse = High | Low

  datatype State = On | Off

  datatype Module =
    | FlipFlop(state: State, targets: seq<string>)
    | Conjunction(memory: map<string, Pulse>, targets: seq<string>)
    | Broadcaster(targets: seq<string>)
    | Sink

  /** The modules a module sends to; a sink sends to none. */
  function Targets(m: Module): seq<string> {
    if m.Sink? then [] else m.targets
  }

  /** One queued pulse: who sent it, who receives it, and which pulse it is. */
  datatype Message = Message(source: string, target: string, pulse: Pulse)

  // ---------------------------------------------------------------------------------
  // Construction of the modules (`parse`, after the line pattern has been matched)
  // ---------------------------------------------------------------------------------

  /** One matched line: the type indicator ("", "%" or "&"), the name and the targets. */
  datatype Declaration = Declaration(prefix: string, name: string, targets: seq<string>)

  /** The name once for every occurrence of `t` among the targets, in order. */
  function Mentions(name: string, targets: seq<string>, t: string): (r: seq<string>)
    ensures forall k :: 0 <= k < |r| ==> r[k] == name
    ensures r != [] <==> t in targets
  {
    if targets == [] then []
    else Mentions(name, targets[..|targets| - 1], t) + (if targets[|targets| - 1] == t then [name] else [])
  }

  /** The modules that send to `t`, once per mention, in the order the fold of `parse`
      pushes them. */
  function SourcesOf(decls: seq<Declaration>, t: string): seq<string> {
    if decls == [] then []
    else
      var last := decls[|decls| - 1];
      SourcesOf(decls[..|decls| - 1], t) + Mentions(last.name, last.targets, t)
  }

  /** The line declares `name` and lists `t` among its targets. */
  predicate Sends(d: Declaration, name: string, t: string) {
    d.name == name && t in d.targets
  }

  /** The mentions hold the name exactly when the targets hold `t`. */
  lemma MentionsHold(name: string, targets: seq<string>, t: string, x: string)
    ensures x in Mentions(name, targets, t) <==> x == name && t in targets
  {
    var m := Mentions(name, targets, t);
    if x in m {
      assert m[0] == name;
    }
    if x == name && t in targets {
      assert m[0] == x;
    }
  }

  /** A module sends to `t` exactly when it is among the sources of `t`. */
  lemma {:induction false} SourcesOfNames(decls: seq<Declaration>, t: string, name: string)
    ensures name in SourcesOf(decls, t) <==> exists k :: 0 <= k < |decls| && Sends(decls[k], name, t)
  {
    if decls != [] {
      var init, last := decls[..|decls| - 1], decls[|decls| - 1];
      SourcesOfNames(init, t, name);
      MentionsHold(last.name, last.targets, t, name);
      assert forall k :: 0 <= k < |init| ==> init[k] == decls[k];
      if Sends(last, name, t) {
        assert Sends(decls[|decls| - 1], name, t);
      }
    }
  }

  /** The lists built so far: those of the lines `decls`, and of the line `name` up to
      the targets `targets`. */
  ghost predicate Tracks(sources: map<string, seq<string>>, decls: seq<Declaration>, name: string, targets: seq<string>) {
    forall t ::
      (t in sources <==> SourcesOf(decls, t) + Mentions(name, targets, t) != []) &&
      (t in sources ==> sources[t] == SourcesOf(decls, t) + Mentions(name, targets, t))
  }

  /** Pushing the name onto the list of one more target. */
  lemma PushTracks(sources: map<string, seq<string>>, decls: seq<Declaration>, name: string, targets: seq<string>, target: string)
    requires Tracks(sources, decls, name, targets)
    ensures Tracks(sources[target := (if target in sources then sources[target] else []) + [name]], decls, name, targets + [target])
  {
    var pushed := sources[target := (if target in sources then sources[target] else []) + [name]];
    var more := targets + [target];
    forall t
      ensures t in pushed <==> SourcesOf(decls, t) + Mentions(name, more, t) != []
      ensures t in pushed ==> pushed[t] == SourcesOf(decls, t) + Mentions(name, more, t)
    {
      MentionsPush(name, targets, target, t);
      if t == target {
        AppendOne(SourcesOf(decls, t), Mentions(name, targets, t), name);
      }
    }
  }

  lemma AppendOne(a: seq<string>, b: seq<string>, x: string)
    ensures a + (b + [x]) == (a + b) + [x]
    ensures a + (b + [x]) != []
  {
  }

  /** One more target adds one more mention when it is `t`. */
  lemma MentionsPush(name: string, targets: seq<string>, target: string, t: string)
    ensures Mentions(name, targets + [target], t) == Mentions(name, targets, t) + (if target == t then [name] else [])
  {
    assert (targets + [target])[..|targets|] == targets;
  }

  /** A line whose targets are all pushed joins the lines done. */
  lemma LineTracks(sources: map<string, seq<string>>, decls: seq<Declaration>, d: Declaration)
    requires Tracks(sources, decls, d.name, d.targets)
    ensures Tracks(sources, decls + [d], "", [])
  {
    assert (decls + [d])[..|decls|] == decls;
    forall t
      ensures SourcesOf(decls + [d], t) + Mentions("", [], t) == SourcesOf(decls, t) + Mentions(d.name, d.targets, t)
    {
      assert SourcesOf(decls + [d], t) + [] == SourcesOf(decls + [d], t);
    }
  }

  /** The fold of `parse`: for every target of every line, the line's name is pushed onto
      the target's list, which is created empty at its first use. */
  method CollectSources(decls: seq<Declaration>) returns (sources: map<string, seq<string>>)
    ensures forall t :: t in sources <==> SourcesOf(decls, t) != []
    ensures forall t :: t in sources ==> sources[t] == SourcesOf(decls, t)
  {
    sources := map[];
    for i := 0 to |decls|
      invariant Tracks(sources, decls[..i], "", [])
    {
      var d := decls[i];
      for j := 0 to |d.targets|
        invariant Tracks(sources, decls[..i], d.name, d.targets[..j])
      {
        var target := d.targets[j];
        PushTracks(sources, decls[..i], d.name, d.targets[..j], target);
        assert d.targets[..j] + [target] == d.targets[..j + 1];
        var list := if target in sources then sources[target] else [];
        sources := sources[target := list + [d.name]];
      }
      assert d.targets[..|d.targets|] == d.targets;
      LineTracks(sources, decls[..i], d);
      assert decls[..i] + [d] == decls[..i + 1];
    }
    assert decls[..|decls|] == decls;
    forall t
      ensures SourcesOf(decls, t) + Mentions("", [], t) == SourcesOf(decls, t)
    {
    }
  }

  /** The memory of a new conjunction: every source remembered as low. */
  function LowMemory(sources: seq<string>): (r: map<string, Pulse>)
    ensures r.Keys == set s | s in sources
    ensures forall s :: s in r ==> r[s] == Low
  {
    map s | s in sources :: Low
  }

  /** The type indicator is one the line pattern admits, and a conjunction has a list of
      sources (otherwise its `unwrap` panics). */
  predicate Buildable(d: Declaration, sources: map<string, seq<string>>) {
    (d.prefix == "" || d.prefix == "%" || d.prefix == "&") && (d.prefix == "&" ==> d.name in sources)
  }

  /** The module a line declares: no indicator is a broadcaster, "%" a flip-flop that is
      off, "&" a conjunction remembering a low pulse from each source. */
  function ModuleOf(d: Declaration, sources: map<string, seq<string>>): Module
    requires Buildable(d, sources)
  {
    if d.prefix == "" then Broadcaster(d.targets)
    else if d.prefix == "%" then FlipFlop(Off, d.targets)
    else Conjunction(LowMemory(sources[d.name]), d.targets)
  }

  /** The `collect` into a map: each line adds its module, a later line replacing an
      earlier one of the same name. */
  function Build(decls: seq<Declaration>, sources: map<string, seq<string>>): map<string, Module>
    requires forall k :: 0 <= k < |decls| ==> Buildable(decls[k], sources)
  {
    if decls == [] then map[]
    else
      var last := decls[|decls| - 1];
      Build(decls[..|decls| - 1], sources)[last.name := ModuleOf(last, sources)]
  }

  /** Line k declares the name and no later line does. */
  predicate LastAt(decls: seq<Declaration>, name: string, k: int) {
    0 <= k < |decls| && decls[k].name == name && forall j :: k < j < |decls| ==> decls[j].name != name
  }

  /** The last line declaring the name is the one whose module the map holds. */
  lemma {:induction false} BuildLast(decls: seq<Declaration>, sources: map<string, seq<string>>, name: string)
    requires forall k :: 0 <= k < |decls| ==> Buildable(decls[k], sources)
    ensures name in Build(decls, sources) ==>
      exists k :: LastAt(decls, name, k) && Build(decls, sources)[name] == ModuleOf(decls[k], sources)
  {
    if decls != [] {
      var n := |decls| - 1;
      var init, last := decls[..n], decls[n];
      assert forall k :: 0 <= k < |init| ==> init[k] == decls[k];
      BuildLast(init, sources, name);
      assert Build(decls, sources) == Build(init, sources)[last.name := ModuleOf(last, sources)];
      if name == last.name {
        assert LastAt(decls, name, n);
      } else if name in Build(decls, sources) {
        var k :| LastAt(init, name, k) && Build(init, sources)[name] == ModuleOf(init[k], sources);
        assert LastAt(decls, name, k);
      }
    }
  }

  /** The map holds exactly the declared names. */
  lemma {:induction false} BuildKeys(decls: seq<Declaration>, sources: map<string, seq<string>>, name: string)
    requires forall k :: 0 <= k < |decls| ==> Buildable(decls[k], sources)
    ensures name in Build(decls, sources) <==> exists k :: 0 <= k < |decls| && decls[k].name == name
  {
    if decls != [] {
      var n := |decls| - 1;
      var init := decls[..n];
      assert forall k :: 0 <= k < |init| ==> init[k] == decls[k];
      BuildKeys(init, sources, name);
      if name == decls[n].name {
        assert decls[n].name == name;
      } else if exists k :: 0 <= k < |decls| && decls[k].name == name {
        var k :| 0 <= k < |decls| && decls[k].name == name;
        assert k < n && init[k].name == name;
      }
    }
  }

  /** Every conjunction remembers each module that sends to it. */
  ghost predicate Wired(modules: map<string, Module>) {
    forall a, b :: a in modules && b in modules && b in Targets(modules[a]) && modules[b].Conjunction? ==>
      a in modules[b].memory
  }

  /** The source builds a wired network: a conjunction's sources are all the modules
      that name it as a target. */
  lemma BuildWired(decls: seq<Declaration>, sources: map<string, seq<string>>)
    requires forall k :: 0 <= k < |decls| ==> Buildable(decls[k], sources)
    requires forall t :: t in sources ==> sources[t] == SourcesOf(decls, t)
    ensures Wired(Build(decls, sources))
  {
    var modules := Build(decls, sources);
    forall a, b | a in modules && b in modules && b in Targets(modules[a]) && modules[b].Conjunction?
      ensures a in modules[b].memory
    {
      BuildLast(decls, sources, a);
      BuildLast(decls, sources, b);
      var i :| LastAt(decls, a, i) && modules[a] == ModuleOf(decls[i], sources);
      var k :| LastAt(decls, b, k) && modules[b] == ModuleOf(decls[k], sources);
      assert decls[k].prefix == "&";
      assert b in decls[i].targets;
      SourcesOfNames(decls, b, a);
      assert Sends(decls[i], a, b);
    }
  }

  /** `parse` from the matched lines: the fold collects the sources, then every line
      becomes its module. */
  method Parse(decls: seq<Declaration>) returns (modules: map<string, Module>)
    requires forall k :: 0 <= k < |decls| ==> decls[k].prefix == "" || decls[k].prefix == "%" || decls[k].prefix == "&"
    requires forall k :: 0 <= k < |decls| && decls[k].prefix == "&" ==> SourcesOf(decls, decls[k].name) != []
    ensures Wired(modules)
    ensures forall name :: name in modules <==> exists k :: 0 <= k < |decls| && decls[k].name == name
    ensures forall k :: 0 <= k < |decls| && decls[k].prefix == "%" && (forall j :: k < j < |decls| ==> decls[j].name != decls[k].name) ==>
      modules[decls[k].name] == FlipFlop(Off, decls[k].targets)
    ensures forall k :: 0 <= k < |decls| && decls[k].prefix == "" && (forall j :: k < j < |decls| ==> decls[j].name != decls[k].name) ==>
      modules[decls[k].name] == Broadcaster(decls[k].targets)
    ensures forall k :: 0 <= k < |decls| && decls[k].prefix == "&" && (forall j :: k < j < |decls| ==> decls[j].name != decls[k].name) ==>
      modules[decls[k].name] == Conjunction(LowMemory(SourcesOf(decls, decls[k].name)), decls[k].targets)
  {
    var sources := CollectSources(decls);
    modules := Build(decls, sources);
    BuildWired(decls, sources);
    forall name
      ensures name in modules <==> exists k :: 0 <= k < |decls| && decls[k].name == name
    {
      BuildKeys(decls, sources, name);
    }
    forall k | 0 <= k < |decls| && (forall j :: k < j < |decls| ==> decls[j].name != decls[k].name)
      ensures modules[decls[k].name] == ModuleOf(decls[k], sources)
    {
      BuildLast(decls, sources, decls[k].name);
      var i :| LastAt(decls, decls[k].name, i) && modules[decls[k].name] == ModuleOf(decls[i], sources);
      assert i == k;
    }
  }

  // ---------------------------------------------------------------------------------
  // The pulse loop of `part1`, on values
  // ---------------------------------------------------------------------------------

  /** The pulses a module sends: `pulse` from `from` to each target, in order. */
  function Emit(from: string, targets: seq<string>, pulse: Pulse): (r: seq<Message>)
    ensures |r| == |targets|
    ensures forall k :: 0 <= k < |r| ==> r[k] == Message(from, targets[k], pulse)
  {
    if targets == [] then []
    else Emit(from, targets[..|targets| - 1], pulse) + [Message(from, targets[|targets| - 1], pulse)]
  }

  /** Every remembered input was high. */
  predicate AllHigh(memory: map<string, Pulse>) {
    forall s :: s in memory ==> memory[s] == High
  }

  /** How the module `name` answers a pulse from `source`: its new self and the pulses it
      sends. `None` where the conjunction's `get_mut(&source).unwrap()` panics. */
  function Respond(name: string, device: Module, source: string, pulse: Pulse): Option<(Module, seq<Message>)> {
    match device
    case FlipFlop(state, targets) =>
      if pulse == High then Some((device, []))
      else if state == Off then Some((FlipFlop(On, targets), Emit(name, targets, High)))
      else Some((FlipFlop(Off, targets), Emit(name, targets, Low)))
    case Conjunction(memory, targets) =>
      if source !in memory then None
      else
        var remembered := memory[source := pulse];
        Some((Conjunction(remembered, targets), Emit(name, targets, if AllHigh(remembered) then Low else High)))
    case Broadcaster(targets) => Some((device, Emit(name, targets, pulse)))
    case Sink => Some((device, []))
  }

  /** The state of the loop: the modules, the queue and the two counters. */
  datatype Network = Network(modules: map<string, Module>, queue: seq<Message>, high: nat, low: nat)

  /** One pass of the `while let`: the front pulse is counted and handed to its target,
      which is first added as a sink if unknown; what it sends joins the back of the
      queue. */
  function Next(n: Network): Option<Network>
    requires n.queue != []
  {
    var m := n.queue[0];
    var high := if m.pulse == High then n.high + 1 else n.high;
    var low := if m.pulse == Low then n.low + 1 else n.low;
    var device := if m.target in n.modules then n.modules[m.target] else Sink;
    match Respond(m.target, device, m.source, m.pulse)
    case None => None
    case Some((changed, sent)) => Some(Network(n.modules[m.target := changed], n.queue[1..] + sent, high, low))
  }

  /** Pulses are first in, first out, and each one handled raises exactly the counter of
      its kind by one. */
  lemma NextCounts(n: Network)
    requires n.queue != [] && Next(n).Some?
    ensures Next(n).value.queue[..|n.queue| - 1] == n.queue[1..]
    ensures Next(n).value.high + Next(n).value.low == n.high + n.low + 1
    ensures n.queue[0].pulse == High ==> Next(n).value.high == n.high + 1
    ensures n.queue[0].pulse == Low ==> Next(n).value.low == n.low + 1
  {
    var m := n.queue[0];
    var device := if m.target in n.modules then n.modules[m.target] else Sink;
    var sent := Respond(m.target, device, m.source, m.pulse).value.1;
    assert (n.queue[1..] + sent)[..|n.queue| - 1] == n.queue[1..];
  }

  /** Pulses are handed on until the queue is empty; `None` where a conjunction panics
      or `fuel` passes run out first. */
  function Run(n: Network, fuel: nat): Option<Network>
    decreases fuel
  {
    if n.queue == [] then Some(n)
    else if fuel == 0 then None
    else
      match Next(n)
      case None => None
      case Some(after) => Run(after, fuel - 1)
  }

  /** Every pulse in the queue is counted before the loop ends. */
  lemma {:induction false} RunCountsQueue(n: Network, fuel: nat)
    requires Run(n, fuel).Some?
    ensures Run(n, fuel).value.queue == []
    ensures Run(n, fuel).value.high + Run(n, fuel).value.low >= n.high + n.low + |n.queue|
    decreases fuel
  {
    if n.queue != [] {
      NextCounts(n);
      RunCountsQueue(Next(n).value, fuel - 1);
    }
  }

  /** The button's pulse. */
  const Button := Message("button", "broadcaster", Low)

  /** One press: the button's pulse is queued and handled with everything it causes. */
  function Press(n: Network, fuel: nat): Option<Network> {
    Run(n.(queue := n.queue + [Button]), fuel)
  }

  /** `k` presses in a row, each allowed `fuel` passes. */
  function Presses(n: Network, k: nat, fuel: nat): Option<Network> {
    if k == 0 then Some(n)
    else
      match Presses(n, k - 1, fuel)
      case None => None
      case Some(m) => Press(m, fuel)
  }

  /** Presses that all finish include fewer presses that finish. */
  lemma {:induction false} PressesBefore(n: Network, j: nat, k: nat, fuel: nat)
    requires j <= k && Presses(n, k, fuel).Some?
    ensures Presses(n, j, fuel).Some?
    decreases k - j
  {
    if j < k {
      PressesBefore(n, j + 1, k, fuel);
    }
  }

  // ---------------------------------------------------------------------------------
  // Why the conjunctions' `unwrap` never panics on a parsed network
  // ---------------------------------------------------------------------------------

  /** The pulse reaches a module that can take it: a conjunction must remember the
      sender. */
  ghost predicate Deliverable(modules: map<string, Module>, m: Message) {
    m.target in modules && modules[m.target].Conjunction? ==> m.source in modules[m.target].memory
  }

  /** The network is wired, the button's pulse can be taken, and so can every queued one. */
  ghost predicate Valid(n: Network) {
    Wired(n.modules) && Deliverable(n.modules, Button) &&
    forall k :: 0 <= k < |n.queue| ==> Deliverable(n.modules, n.queue[k])
  }

  /** `after` has the same wiring as `before`: the same modules of the same kinds with the
      same targets and the same remembered inputs, plus perhaps new sinks. */
  ghost predicate SameWiring(before: map<string, Module>, after: map<string, Module>) {
    before.Keys <= after.Keys &&
    (forall x :: x in after && x !in before ==> after[x] == Sink) &&
    (forall x :: x in before ==> Targets(after[x]) == Targets(before[x])) &&
    (forall x :: x in before ==> (after[x].Conjunction? <==> before[x].Conjunction?)) &&
    (forall x :: x in before && before[x].Conjunction? ==> after[x].memory.Keys == before[x].memory.Keys)
  }

  lemma WiringKeepsDeliverable(before: map<string, Module>, after: map<string, Module>, m: Message)
    requires SameWiring(before, after) && Deliverable(before, m)
    ensures Deliverable(after, m)
  {
  }

  lemma WiringKeepsWired(before: map<string, Module>, after: map<string, Module>)
    requires SameWiring(before, after) && Wired(before)
    ensures Wired(after)
  {
    forall a, b | a in after && b in after && b in Targets(after[a]) && after[b].Conjunction?
      ensures a in after[b].memory
    {
      assert a in before && b in before;
    }
  }

  /** Handling a pulse keeps the wiring. */
  lemma NextWiring(n: Network)
    requires n.queue != [] && Next(n).Some?
    ensures SameWiring(n.modules, Next(n).value.modules)
    ensures n.queue[0].target in Next(n).value.modules
    ensures forall k :: |n.queue| - 1 <= k < |Next(n).value.queue| ==>
      Next(n).value.queue[k].source == n.queue[0].target &&
      Next(n).value.queue[k].target in Targets(Next(n).value.modules[n.queue[0].target])
  {
    var m := n.queue[0];
    var device := if m.target in n.modules then n.modules[m.target] else Sink;
    var r := Respond(m.target, device, m.source, m.pulse).value;
    RespondWiring(m.target, device, m.source, m.pulse);
    var after := Next(n).value;
    assert after.modules == n.modules[m.target := r.0];
    assert after.queue == n.queue[1..] + r.1;
    assert after.queue[|n.queue| - 1..] == r.1;
  }

  /** Handling a pulse keeps a module's targets, its kind and the inputs it remembers,
      and every pulse it sends goes from it to one of its targets. */
  lemma RespondWiring(name: string, device: Module, source: string, pulse: Pulse)
    requires Respond(name, device, source, pulse).Some?
    ensures var r := Respond(name, device, source, pulse).value;
      Targets(r.0) == Targets(device) && (r.0.Conjunction? <==> device.Conjunction?) &&
      (device.Conjunction? ==> r.0.memory.Keys == device.memory.Keys) &&
      forall k :: 0 <= k < |r.1| ==> r.1[k].source == name && r.1[k].target in Targets(device)
  {
  }

  /** A wired network never panics: the pulse at the front can be handled, and the
      network stays wired with every queued pulse deliverable. */
  lemma NextValid(n: Network)
    requires n.queue != [] && Valid(n)
    ensures Next(n).Some?
    ensures Valid(Next(n).value)
  {
    var m := n.queue[0];
    assert Deliverable(n.modules, m);
    var device := if m.target in n.modules then n.modules[m.target] else Sink;
    assert Respond(m.target, device, m.source, m.pulse).Some?;
    var after := Next(n).value;
    NextWiring(n);
    WiringKeepsWired(n.modules, after.modules);
    WiringKeepsDeliverable(n.modules, after.modules, Button);
    forall k | 0 <= k < |after.queue|
      ensures Deliverable(after.modules, after.queue[k])
    {
      if k < |n.queue| - 1 {
        assert after.queue[k] == n.queue[k + 1];
        WiringKeepsDeliverable(n.modules, after.modules, n.queue[k + 1]);
      } else {
        var x := after.queue[k];
        assert x.source == m.target && x.target in Targets(after.modules[m.target]);
        assert m.target in after.modules;
      }
    }
  }

  // ---------------------------------------------------------------------------------
  // What single modules do
  // ---------------------------------------------------------------------------------

  /** A flip-flop ignores a high pulse, and two low pulses bring it back to its state,
      sending high then low from off, low then high from on. */
  lemma FlipFlopToggles(name: string, state: State, targets: seq<string>, a: string, b: string)
    ensures Respond(name, FlipFlop(state, targets), a, High) == Some((FlipFlop(state, targets), []))
    ensures var first := Respond(name, FlipFlop(state, targets), a, Low).value;
      var second := Respond(name, first.0, b, Low).value;
      second.0 == FlipFlop(state, targets) &&
      first.1 == Emit(name, targets, if state == Off then High else Low) &&
      second.1 == Emit(name, targets, if state == Off then Low else High)
  {
  }

  /** A conjunction with one input inverts it. */
  lemma InverterInverts(name: string, source: string, last: Pulse, pulse: Pulse, targets: seq<string>)
    ensures Respond(name, Conjunction(map[source := last], targets), source, pulse) ==
      Some((Conjunction(map[source := pulse], targets), Emit(name, targets, if pulse == High then Low else High)))
  {
    assert map[source := last][source := pulse] == map[source := pulse];
    if pulse == High {
      assert AllHigh(map[source := pulse]);
    } else {
      assert map[source := pulse][source] == pulse;
      assert !AllHigh(map[source := pulse]);
    }
  }

  /** A conjunction sends low exactly when, after remembering this pulse, every input it
      remembers was high; the pulse is sent to each target in order. */
  lemma ConjunctionSends(name: string, memory: map<string, Pulse>, targets: seq<string>, source: string, pulse: Pulse)
    requires source in memory
    ensures var r := Respond(name, Conjunction(memory, targets), source, pulse).value;
      r.0.memory.Keys == memory.Keys && r.0.memory[source] == pulse &&
      forall k :: 0 <= k < |targets| ==>
        r.1[k].target == targets[k] && (r.1[k].pulse == Low <==> forall s :: s in memory ==> (if s == source then pulse else memory[s]) == High)
  {
  }

  // ---------------------------------------------------------------------------------
  // The loop of `part1`, in place
  // ---------------------------------------------------------------------------------

  /** The mutable state of `part1`: the cloned modules, the queue and the counters. */
  class Machine {
    var modules: map<string, Module>
    var queue: seq<Message>
    var countHigh: nat
    var countLow: nat

    function Model(): Network
      reads this
    {
      Network(modules, queue, countHigh, countLow)
    }

    constructor(modules: map<string, Module>)
      ensures Model() == Network(modules, [], 0, 0)
    {
      this.modules := modules;
      queue := [];
      countHigh := 0;
      countLow := 0;
    }

    /** `queue.push_back` for each target in order. */
    method Send(from: string, targets: seq<string>, pulse: Pulse)
      modifies this
      ensures queue == old(queue) + Emit(from, targets, pulse)
      ensures modules == old(modules) && countHigh == old(countHigh) && countLow == old(countLow)
    {
      for i := 0 to |targets|
        invariant queue == old(queue) + Emit(from, targets[..i], pulse)
        invariant modules == old(modules) && countHigh == old(countHigh) && countLow == old(countLow)
      {
        assert targets[..i + 1][..i] == targets[..i];
        queue := queue + [Message(from, targets[i], pulse)];
      }
      assert targets[..|targets|] == targets;
    }

    /** One pass of the `while let`: pop, count, hand the pulse to its target. */
    method Deliver()
      requires queue != [] && Next(Model()).Some?
      modifies this
      ensures Model() == Next(old(Model())).value
    {
      var message := queue[0];
      queue := queue[1..];
      match message.pulse {
        case High => countHigh := countHigh + 1;
        case Low => countLow := countLow + 1;
      }
      var name := message.target;
      if name !in modules {
        modules := modules[name := Sink];
      }
      match modules[name] {
        case FlipFlop(state, targets) =>
          if message.pulse == Low {
            var pulse;
            match state {
              case Off =>
                modules := modules[name := FlipFlop(On, targets)];
                pulse := High;
              case On =>
                modules := modules[name := FlipFlop(Off, targets)];
                pulse := Low;
            }
            Send(name, targets, pulse);
          }
        case Conjunction(memory, targets) =>
          var remembered := memory[message.source := message.pulse];
          modules := modules[name := Conjunction(remembered, targets)];
          var pulse := if AllHigh(remembered) then Low else High;
          Send(name, targets, pulse);
        case Broadcaster(targets) =>
          Send(name, targets, message.pulse);
        case Sink =>
      }
    }

    /** The `while let` loop: pulses are handled until the queue is empty. */
    method Settle(ghost fuel: nat)
      requires Run(Model(), fuel).Some?
      modifies this
      ensures Model() == Run(old(Model()), fuel).value
    {
      ghost var left := fuel;
      while queue != []
        invariant Run(Model(), left) == Run(old(Model()), fuel)
        invariant Run(Model(), left).Some?
        decreases left
      {
        Deliver();
        left := left - 1;
      }
    }
  }

  /** `part1`: 1000 presses, then the product of the two counts. The source loops
      forever when a press never settles and panics on a conjunction that does not
      remember a sender; the precondition rules both out. */
  method Part1(modules: map<string, Module>, ghost fuel: nat) returns (product: nat)
    requires Presses(Network(modules, [], 0, 0), 1000, fuel).Some?
    ensures product == Presses(Network(modules, [], 0, 0), 1000, fuel).value.high *
                       Presses(Network(modules, [], 0, 0), 1000, fuel).value.low
  {
    var machine := new Machine(modules);
    for i := 0 to 1000
      invariant Presses(Network(modules, [], 0, 0), i, fuel) == Some(machine.Model())
    {
      PressesBefore(Network(modules, [], 0, 0), i + 1, 1000, fuel);
      machine.queue := machine.queue + [Button];
      machine.Settle(fuel);
    }
    product := machine.countHigh * machine.countLow;
  }
  // ---------------------------------------------------------------------------------
  // The worked examples
  // ---------------------------------------------------------------------------------

  /** Presses in a row compose. */
  lemma {:induction false} PressesAdd(n: Network, a: nat, b: nat, fuel: nat)
    requires Presses(n, a, fuel).Some?
    ensures Presses(n, a + b, fuel) == Presses(Presses(n, a, fuel).value, b, fuel)
  {
    if b > 0 {
      PressesAdd(n, a, b - 1, fuel);
    }
  }

  /** When a run of presses brings the modules back to where they were and adds fixed
      amounts to the counters, k such runs add k times those amounts. */
  lemma {:induction false} Periodic(modules: map<string, Module>, period: nat, fuel: nat, high: nat, low: nat, dh: nat, dl: nat, k: nat)
    requires forall h: nat, l: nat :: Presses(Network(modules, [], h, l), period, fuel) == Some(Network(modules, [], h + dh, l + dl))
    ensures Presses(Network(modules, [], high, low), k * period, fuel) == Some(Network(modules, [], high + k * dh, low + k * dl))
  {
    if k > 0 {
      Periodic(modules, period, fuel, high, low, dh, dl, k - 1);
      PressesAdd(Network(modules, [], high, low), (k - 1) * period, period, fuel);
      assert (k - 1) * period + period == k * period;
      assert high + (k - 1) * dh + dh == high + k * dh;
      assert low + (k - 1) * dl + dl == low + k * dl;
    }
  }

  /** A pass that succeeds leaves one pass less to do. */
  lemma RunStep(n: Network, after: Network, fuel: nat)
    requires n.queue != [] && Next(n) == Some(after)
    ensures Run(n, fuel + 1) == Run(after, fuel)
  {
  }

  /** The first example: the broadcaster feeds a, b and c; a feeds b, b feeds c, c feeds
      the inverter inv, which feeds a. `Sample1At` is the network with the flip-flops in the
      given states and the inverter remembering `last` from c. */
  function Sample1At(a: State, b: State, c: State, last: Pulse): map<string, Module> {
    map[
      "broadcaster" := Broadcaster(["a", "b", "c"]),
      "a" := FlipFlop(a, ["b"]),
      "b" := FlipFlop(b, ["c"]),
      "c" := FlipFlop(c, ["inv"]),
      "inv" := Conjunction(map["c" := last], ["a"])]
  }

  function Sample1(): map<string, Module> {
    Sample1At(Off, Off, Off, Low)
  }

  /** A module of the first example replaced by its next state. */
  lemma Sample1SetBroadcaster(a: State, b: State, c: State, last: Pulse)
    ensures Sample1At(a, b, c, last)["broadcaster" := Broadcaster(["a", "b", "c"])] == Sample1At(a, b, c, last)
  {
  }

  lemma Sample1SetA(a: State, b: State, c: State, last: Pulse, x: State)
    ensures Sample1At(a, b, c, last)["a" := FlipFlop(x, ["b"])] == Sample1At(x, b, c, last)
  {
  }

  lemma Sample1SetB(a: State, b: State, c: State, last: Pulse, x: State)
    ensures Sample1At(a, b, c, last)["b" := FlipFlop(x, ["c"])] == Sample1At(a, x, c, last)
  {
  }

  lemma Sample1SetC(a: State, b: State, c: State, last: Pulse, x: State)
    ensures Sample1At(a, b, c, last)["c" := FlipFlop(x, ["inv"])] == Sample1At(a, b, x, last)
  {
  }

  lemma Sample1SetInv(a: State, b: State, c: State, last: Pulse, p: Pulse)
    ensures Sample1At(a, b, c, last)["inv" := Conjunction(map["c" := p], ["a"])] == Sample1At(a, b, c, p)
  {
  }

  lemma Sample1Press1Pass1(h: nat, l: nat)
    ensures Next(Network(Sample1At(Off, Off, Off, Low), [Button], h, l))
      == Some(Network(Sample1At(Off, Off, Off, Low), [Message("broadcaster", "a", Low), Message("broadcaster", "b", Low), Message("broadcaster", "c", Low)], h, l + 1))
  {
    assert Emit("broadcaster", ["a", "b", "c"], Low) == [Message("broadcaster", "a", Low), Message("broadcaster", "b", Low), Message("broadcaster", "c", Low)];
    Sample1SetBroadcaster(Off, Off, Off, Low);
    assert [Button][1..] + [Message("broadcaster", "a", Low), Message("broadcaster", "b", Low), Message("broadcaster", "c", Low)] == [Message("broadcaster", "a", Low), Message("broadcaster", "b", Low), Message("broadcaster", "c", Low)];
  }

  lemma Sample1Press1Pass2(h: nat, l: nat)
    ensures Next(Network(Sample1At(Off, Off, Off, Low), [Message("broadcaster", "a", Low), Message("broadcaster", "b", Low), Message("broadcaster", "c", Low)], h, l + 1))
      == Some(Network(Sample1At(On, Off, Off, Low), [Message("broadcaster", "b", Low), Message("broadcaster", "c", Low), Message("a", "b", High)], h, l + 2))
  {
    assert Emit("a", ["b"], High) == [Message("a", "b", High)];
    Sample1SetA(Off, Off, Off, Low, On);
    assert [Message("broadcaster", "a", Low), Message("broadcaster", "b", Low), Message("broadcaster", "c", Low)][1..] + [Message("a", "b", High)] == [Message("broadcaster", "b", Low), Message("broadcaster", "c", Low), Message("a", "b", High)];
  }

  lemma Sample1Press1Pass3(h: nat, l: nat)
    ensures Next(Network(Sample1At(On, Off, Off, Low), [Message("broadcaster", "b", Low), Message("broadcaster", "c", Low), Message("a", "b", High)], h, l + 2))
      == Some(Network(Sample1At(On, On, Off, Low), [Message("broadcaster", "c", Low), Message("a", "b", High), Message("b", "c", High)], h, l + 3))
  {
    assert Emit("b", ["c"], High) == [Message("b", "c", High)];
    Sample1SetB(On, Off, Off, Low, On);
    assert [Message("broadcaster", "b", Low), Message("broadcaster", "c", Low), Message("a", "b", High)][1..] + [Message("b", "c", High)] == [Message("broadcaster", "c", Low), Message("a", "b", High), Message("b", "c", High)];
  }

  lemma Sample1Press1Pass4(h: nat, l: nat)
    ensures Next(Network(Sample1At(On, On, Off, Low), [Message("broadcaster", "c", Low), Message("a", "b", High), Message("b", "c", High)], h, l + 3))
      == Some(Network(Sample1At(On, On, On, Low), [Message("a", "b", High), Message("b", "c", High), Message("c", "inv", High)], h, l + 4))
  {
    assert Emit("c", ["inv"], High) == [Message("c", "inv", High)];
    Sample1SetC(On, On, Off, Low, On);
    assert [Message("broadcaster", "c", Low), Message("a", "b", High), Message("b", "c", High)][1..] + [Message("c", "inv", High)] == [Message("a", "b", High), Message("b", "c", High), Message("c", "inv", High)];
  }

  lemma Sample1Press1Pass5(h: nat, l: nat)
    ensures Next(Network(Sample1At(On, On, On, Low), [Message("a", "b", High), Message("b", "c", High), Message("c", "inv", High)], h, l + 4))
      == Some(Network(Sample1At(On, On, On, Low), [Message("b", "c", High), Message("c", "inv", High)], h + 1, l + 4))
  {
    Sample1SetB(On, On, On, Low, On);
    assert [Message("a", "b", High), Message("b", "c", High), Message("c", "inv", High)][1..] + [] == [Message("b", "c", High), Message("c", "inv", High)];
  }

  lemma Sample1Press1Pass6(h: nat, l: nat)
    ensures Next(Network(Sample1At(On, On, On, Low), [Message("b", "c", High), Message("c", "inv", High)], h + 1, l + 4))
      == Some(Network(Sample1At(On, On, On, Low), [Message("c", "inv", High)], h + 2, l + 4))
  {
    Sample1SetC(On, On, On, Low, On);
    assert [Message("b", "c", High), Message("c", "inv", High)][1..] + [] == [Message("c", "inv", High)];
  }

  lemma Sample1Press1Pass7(h: nat, l: nat)
    ensures Next(Network(Sample1At(On, On, On, Low), [Message("c", "inv", High)], h + 2, l + 4))
      == Some(Network(Sample1At(On, On, On, High), [Message("inv", "a", Low)], h + 3, l + 4))
  {
    assert map["c" := Low]["c" := High] == map["c" := High];
    assert AllHigh(map["c" := High]);
    assert Emit("inv", ["a"], Low) == [Message("inv", "a", Low)];
    Sample1SetInv(On, On, On, Low, High);
    assert [Message("c", "inv", High)][1..] + [Message("inv", "a", Low)] == [Message("inv", "a", Low)];
  }

  lemma Sample1Press1Pass8(h: nat, l: nat)
    ensures Next(Network(Sample1At(On, On, On, High), [Message("inv", "a", Low)], h + 3, l + 4))
      == Some(Network(Sample1At(Off, On, On, High), [Message("a", "b", Low)], h + 3, l + 5))
  {
    assert Emit("a", ["b"], Low) == [Message("a", "b", Low)];
    Sample1SetA(On, On, On, High, Off);
    assert [Message("inv", "a", Low)][1..] + [Message("a", "b", Low)] == [Message("a", "b", Low)];
  }

  lemma Sample1Press1Pass9(h: nat, l: nat)
    ensures Next(Network(Sample1At(Off, On, On, High), [Message("a", "b", Low)], h + 3, l + 5))
      == Some(Network(Sample1At(Off, Off, On, High), [Message("b", "c", Low)], h + 3, l + 6))
  {
    assert Emit("b", ["c"], Low) == [Message("b", "c", Low)];
    Sample1SetB(Off, On, On, High, Off);
    assert [Message("a", "b", Low)][1..] + [Message("b", "c", Low)] == [Message("b", "c", Low)];
  }

  lemma Sample1Press1Pass10(h: nat, l: nat)
    ensures Next(Network(Sample1At(Off, Off, On, High), [Message("b", "c", Low)], h + 3, l + 6))
      == Some(Network(Sample1At(Off, Off, Off, High), [Message("c", "inv", Low)], h + 3, l + 7))
  {
    assert Emit("c", ["inv"], Low) == [Message("c", "inv", Low)];
    Sample1SetC(Off, Off, On, High, Off);
    assert [Message("b", "c", Low)][1..] + [Message("c", "inv", Low)] == [Message("c", "inv", Low)];
  }

  lemma Sample1Press1Pass11(h: nat, l: nat)
    ensures Next(Network(Sample1At(Off, Off, Off, High), [Message("c", "inv", Low)], h + 3, l + 7))
      == Some(Network(Sample1At(Off, Off, Off, Low), [Message("inv", "a", High)], h + 3, l + 8))
  {
    assert map["c" := High]["c" := Low] == map["c" := Low];
    assert !AllHigh(map["c" := Low]) by { assert map["c" := Low]["c"] == Low; }
    assert Emit("inv", ["a"], High) == [Message("inv", "a", High)];
    Sample1SetInv(Off, Off, Off, High, Low);
    assert [Message("c", "inv", Low)][1..] + [Message("inv", "a", High)] == [Message("inv", "a", High)];
  }

  lemma Sample1Press1Pass12(h: nat, l: nat)
    ensures Next(Network(Sample1At(Off, Off, Off, Low), [Message("inv", "a", High)], h + 3, l + 8))
      == Some(Network(Sample1At(Off, Off, Off, Low), [], h + 4, l + 8))
  {
    Sample1SetA(Off, Off, Off, Low, Off);
    assert [Message("inv", "a", High)][1..] + [] == [];
  }

  lemma Sample1Press1(h: nat, l: nat, fuel: nat)
    ensures Run(Network(Sample1At(Off, Off, Off, Low), [Button], h, l), fuel + 12) == Run(Network(Sample1At(Off, Off, Off, Low), [], h + 4, l + 8), fuel)
  {
    Sample1Press1Pass1(h, l);
    RunStep(Network(Sample1At(Off, Off, Off, Low), [Button], h, l), Network(Sample1At(Off, Off, Off, Low), [Message("broadcaster", "a", Low), Message("broadcaster", "b", Low), Message("broadcaster", "c", Low)], h, l + 1), fuel + 11);
    Sample1Press1Pass2(h, l);
    RunStep(Network(Sample1At(Off, Off, Off, Low), [Message("broadcaster", "a", Low), Message("broadcaster", "b", Low), Message("broadcaster", "c", Low)], h, l + 1), Network(Sample1At(On, Off, Off, Low), [Message("broadcaster", "b", Low), Message("broadcaster", "c", Low), Message("a", "b", High)], h, l + 2), fuel + 10);
    Sample1Press1Pass3(h, l);
    RunStep(Network(Sample1At(On, Off, Off, Low), [Message("broadcaster", "b", Low), Message("broadcaster", "c", Low), Message("a", "b", High)], h, l + 2), Network(Sample1At(On, On, Off, Low), [Message("broadcaster", "c", Low), Message("a", "b", High), Message("b", "c", High)], h, l + 3), fuel + 9);
    Sample1Press1Pass4(h, l);
    RunStep(Network(Sample1At(On, On, Off, Low), [Message("broadcaster", "c", Low), Message("a", "b", High), Message("b", "c", High)], h, l + 3), Network(Sample1At(On, On, On, Low), [Message("a", "b", High), Message("b", "c", High), Message("c", "inv", High)], h, l + 4), fuel + 8);
    Sample1Press1Pass5(h, l);
    RunStep(Network(Sample1At(On, On, On, Low), [Message("a", "b", High), Message("b", "c", High), Message("c", "inv", High)], h, l + 4), Network(Sample1At(On, On, On, Low), [Message("b", "c", High), Message("c", "inv", High)], h + 1, l + 4), fuel + 7);
    Sample1Press1Pass6(h, l);
    RunStep(Network(Sample1At(On, On, On, Low), [Message("b", "c", High), Message("c", "inv", High)], h + 1, l + 4), Network(Sample1At(On, On, On, Low), [Message("c", "inv", High)], h + 2, l + 4), fuel + 6);
    Sample1Press1Pass7(h, l);
    RunStep(Network(Sample1At(On, On, On, Low), [Message("c", "inv", High)], h + 2, l + 4), Network(Sample1At(On, On, On, High), [Message("inv", "a", Low)], h + 3, l + 4), fuel + 5);
    Sample1Press1Pass8(h, l);
    RunStep(Network(Sample1At(On, On, On, High), [Message("inv", "a", Low)], h + 3, l + 4), Network(Sample1At(Off, On, On, High), [Message("a", "b", Low)], h + 3, l + 5), fuel + 4);
    Sample1Press1Pass9(h, l);
    RunStep(Network(Sample1At(Off, On, On, High), [Message("a", "b", Low)], h + 3, l + 5), Network(Sample1At(Off, Off, On, High), [Message("b", "c", Low)], h + 3, l + 6), fuel + 3);
    Sample1Press1Pass10(h, l);
    RunStep(Network(Sample1At(Off, Off, On, High), [Message("b", "c", Low)], h + 3, l + 6), Network(Sample1At(Off, Off, Off, High), [Message("c", "inv", Low)], h + 3, l + 7), fuel + 2);
    Sample1Press1Pass11(h, l);
    RunStep(Network(Sample1At(Off, Off, Off, High), [Message("c", "inv", Low)], h + 3, l + 7), Network(Sample1At(Off, Off, Off, Low), [Message("inv", "a", High)], h + 3, l + 8), fuel + 1);
    Sample1Press1Pass12(h, l);
    RunStep(Network(Sample1At(Off, Off, Off, Low), [Message("inv", "a", High)], h + 3, l + 8), Network(Sample1At(Off, Off, Off, Low), [], h + 4, l + 8), fuel);
  }

  /** One press of the first example, given at least twelve passes, sends four high and
      eight low pulses and leaves every module as it was. */
  lemma Sample1Cycle(h: nat, l: nat, fuel: nat)
    requires fuel >= 12
    ensures Presses(Network(Sample1(), [], h, l), 1, fuel) == Some(Network(Sample1(), [], h + 4, l + 8))
  {
    Sample1Press1(h, l, fuel - 12);
    assert [] + [Button] == [Button];
  }

  /** The first example's answer: a thousand presses send 4000 high and 8000 low pulses,
      whose product is 32000000. */
  lemma Sample1Answer(fuel: nat)
    requires fuel >= 12
    ensures Presses(Network(Sample1(), [], 0, 0), 1000, fuel) == Some(Network(Sample1(), [], 4000, 8000))
    ensures 4000 * 8000 == 32000000
  {
    forall h: nat, l: nat
      ensures Presses(Network(Sample1(), [], h, l), 1, fuel) == Some(Network(Sample1(), [], h + 4, l + 8))
    {
      Sample1Cycle(h, l, fuel);
    }
    Periodic(Sample1(), 1, fuel, 0, 0, 4, 8, 1000);
  }

  /** The second example: the broadcaster feeds a; a feeds the inverter inv and the
      conjunction con; inv feeds b; b feeds con; con feeds the undeclared "output".
      `Sample2At` gives the flip-flop states, what inv remembers from a, what con remembers
      from a and from b, and whether "output" has been added as a sink. */
  function Sample2At(a: State, invA: Pulse, b: State, conA: Pulse, conB: Pulse, output: bool): map<string, Module> {
    var declared := map[
      "broadcaster" := Broadcaster(["a"]),
      "a" := FlipFlop(a, ["inv", "con"]),
      "inv" := Conjunction(map["a" := invA], ["b"]),
      "b" := FlipFlop(b, ["con"]),
      "con" := Conjunction(map["a" := conA, "b" := conB], ["output"])];
    if output then declared["output" := Sink] else declared
  }

  function Sample2(): map<string, Module> {
    Sample2At(Off, Low, Off, Low, Low, false)
  }

  /** A module of the second example replaced by its next state. */
  lemma Sample2SetBroadcaster(a: State, invA: Pulse, b: State, conA: Pulse, conB: Pulse, output: bool)
    ensures Sample2At(a, invA, b, conA, conB, output)["broadcaster" := Broadcaster(["a"])] == Sample2At(a, invA, b, conA, conB, output)
  {
  }

  lemma Sample2SetA(a: State, invA: Pulse, b: State, conA: Pulse, conB: Pulse, output: bool, x: State)
    ensures Sample2At(a, invA, b, conA, conB, output)["a" := FlipFlop(x, ["inv", "con"])] == Sample2At(x, invA, b, conA, conB, output)
  {
  }

  lemma Sample2SetInv(a: State, invA: Pulse, b: State, conA: Pulse, conB: Pulse, output: bool, p: Pulse)
    ensures Sample2At(a, invA, b, conA, conB, output)["inv" := Conjunction(map["a" := p], ["b"])] == Sample2At(a, p, b, conA, conB, output)
  {
  }

  lemma Sample2SetB(a: State, invA: Pulse, b: State, conA: Pulse, conB: Pulse, output: bool, x: State)
    ensures Sample2At(a, invA, b, conA, conB, output)["b" := FlipFlop(x, ["con"])] == Sample2At(a, invA, x, conA, conB, output)
  {
  }

  lemma Sample2SetCon(a: State, invA: Pulse, b: State, conA: Pulse, conB: Pulse, output: bool, pA: Pulse, pB: Pulse)
    ensures Sample2At(a, invA, b, conA, conB, output)["con" := Conjunction(map["a" := pA, "b" := pB], ["output"])] == Sample2At(a, invA, b, pA, pB, output)
  {
  }

  lemma Sample2SetOutput(a: State, invA: Pulse, b: State, conA: Pulse, conB: Pulse, output: bool)
    ensures Sample2At(a, invA, b, conA, conB, output)["output" := Sink] == Sample2At(a, invA, b, conA, conB, true)
  {
  }

  lemma Sample2Press1Pass1(h: nat, l: nat, o: bool)
    ensures Next(Network(Sample2At(Off, Low, Off, Low, Low, o), [Button], h, l))
      == Some(Network(Sample2At(Off, Low, Off, Low, Low, o), [Message("broadcaster", "a", Low)], h, l + 1))
  {
    assert Emit("broadcaster", ["a"], Low) == [Message("broadcaster", "a", Low)];
    Sample2SetBroadcaster(Off, Low, Off, Low, Low, o);
    assert [Button][1..] + [Message("broadcaster", "a", Low)] == [Message("broadcaster", "a", Low)];
  }

  lemma Sample2Press1Pass2(h: nat, l: nat, o: bool)
    ensures Next(Network(Sample2At(Off, Low, Off, Low, Low, o), [Message("broadcaster", "a", Low)], h, l + 1))
      == Some(Network(Sample2At(On, Low, Off, Low, Low, o), [Message("a", "inv", High), Message("a", "con", High)], h, l + 2))
  {
    assert Emit("a", ["inv", "con"], High) == [Message("a", "inv", High), Message("a", "con", High)];
    Sample2SetA(Off, Low, Off, Low, Low, o, On);
    assert [Message("broadcaster", "a", Low)][1..] + [Message("a", "inv", High), Message("a", "con", High)] == [Message("a", "inv", High), Message("a", "con", High)];
  }

  lemma Sample2Press1Pass3(h: nat, l: nat, o: bool)
    ensures Next(Network(Sample2At(On, Low, Off, Low, Low, o), [Message("a", "inv", High), Message("a", "con", High)], h, l + 2))
      == Some(Network(Sample2At(On, High, Off, Low, Low, o), [Message("a", "con", High), Message("inv", "b", Low)], h + 1, l + 2))
  {
    assert map["a" := Low]["a" := High] == map["a" := High];
    assert AllHigh(map["a" := High]);
    assert Emit("inv", ["b"], Low) == [Message("inv", "b", Low)];
    Sample2SetInv(On, Low, Off, Low, Low, o, High);
    assert [Message("a", "inv", High), Message("a", "con", High)][1..] + [Message("inv", "b", Low)] == [Message("a", "con", High), Message("inv", "b", Low)];
  }

  lemma Sample2Press1Pass4(h: nat, l: nat, o: bool)
    ensures Next(Network(Sample2At(On, High, Off, Low, Low, o), [Message("a", "con", High), Message("inv", "b", Low)], h + 1, l + 2))
      == Some(Network(Sample2At(On, High, Off, High, Low, o), [Message("inv", "b", Low), Message("con", "output", High)], h + 2, l + 2))
  {
    assert map["a" := Low, "b" := Low]["a" := High] == map["a" := High, "b" := Low];
    assert !AllHigh(map["a" := High, "b" := Low]) by { assert map["a" := High, "b" := Low]["b"] == Low; }
    assert Emit("con", ["output"], High) == [Message("con", "output", High)];
    Sample2SetCon(On, High, Off, Low, Low, o, High, Low);
    assert [Message("a", "con", High), Message("inv", "b", Low)][1..] + [Message("con", "output", High)] == [Message("inv", "b", Low), Message("con", "output", High)];
  }

  lemma Sample2Press1Pass5(h: nat, l: nat, o: bool)
    ensures Next(Network(Sample2At(On, High, Off, High, Low, o), [Message("inv", "b", Low), Message("con", "output", High)], h + 2, l + 2))
      == Some(Network(Sample2At(On, High, On, High, Low, o), [Message("con", "output", High), Message("b", "con", High)], h + 2, l + 3))
  {
    assert Emit("b", ["con"], High) == [Message("b", "con", High)];
    Sample2SetB(On, High, Off, High, Low, o, On);
    assert [Message("inv", "b", Low), Message("con", "output", High)][1..] + [Message("b", "con", High)] == [Message("con", "output", High), Message("b", "con", High)];
  }

  lemma Sample2Press1Pass6(h: nat, l: nat, o: bool)
    ensures Next(Network(Sample2At(On, High, On, High, Low, o), [Message("con", "output", High), Message("b", "con", High)], h + 2, l + 3))
      == Some(Network(Sample2At(On, High, On, High, Low, true), [Message("b", "con", High)], h + 3, l + 3))
  {
    Sample2SetOutput(On, High, On, High, Low, o);
    assert [Message("con", "output", High), Message("b", "con", High)][1..] + [] == [Message("b", "con", High)];
  }

  lemma Sample2Press1Pass7(h: nat, l: nat, o: bool)
    ensures Next(Network(Sample2At(On, High, On, High, Low, true), [Message("b", "con", High)], h + 3, l + 3))
      == Some(Network(Sample2At(On, High, On, High, High, true), [Message("con", "output", Low)], h + 4, l + 3))
  {
    assert map["a" := High, "b" := Low]["b" := High] == map["a" := High, "b" := High];
    assert AllHigh(map["a" := High, "b" := High]);
    assert Emit("con", ["output"], Low) == [Message("con", "output", Low)];
    Sample2SetCon(On, High, On, High, Low, true, High, High);
    assert [Message("b", "con", High)][1..] + [Message("con", "output", Low)] == [Message("con", "output", Low)];
  }

  lemma Sample2Press1Pass8(h: nat, l: nat, o: bool)
    ensures Next(Network(Sample2At(On, High, On, High, High, true), [Message("con", "output", Low)], h + 4, l + 3))
      == Some(Network(Sample2At(On, High, On, High, High, true), [], h + 4, l + 4))
  {
    Sample2SetOutput(On, High, On, High, High, true);
    assert [Message("con", "output", Low)][1..] + [] == [];
  }

  lemma Sample2Press1(h: nat, l: nat, o: bool, fuel: nat)
    ensures Run(Network(Sample2At(Off, Low, Off, Low, Low, o), [Button], h, l), fuel + 8) == Run(Network(Sample2At(On, High, On, High, High, true), [], h + 4, l + 4), fuel)
  {
    Sample2Press1Pass1(h, l, o);
    RunStep(Network(Sample2At(Off, Low, Off, Low, Low, o), [Button], h, l), Network(Sample2At(Off, Low, Off, Low, Low, o), [Message("broadcaster", "a", Low)], h, l + 1), fuel + 7);
    Sample2Press1Pass2(h, l, o);
    RunStep(Network(Sample2At(Off, Low, Off, Low, Low, o), [Message("broadcaster", "a", Low)], h, l + 1), Network(Sample2At(On, Low, Off, Low, Low, o), [Message("a", "inv", High), Message("a", "con", High)], h, l + 2), fuel + 6);
    Sample2Press1Pass3(h, l, o);
    RunStep(Network(Sample2At(On, Low, Off, Low, Low, o), [Message("a", "inv", High), Message("a", "con", High)], h, l + 2), Network(Sample2At(On, High, Off, Low, Low, o), [Message("a", "con", High), Message("inv", "b", Low)], h + 1, l + 2), fuel + 5);
    Sample2Press1Pass4(h, l, o);
    RunStep(Network(Sample2At(On, High, Off, Low, Low, o), [Message("a", "con", High), Message("inv", "b", Low)], h + 1, l + 2), Network(Sample2At(On, High, Off, High, Low, o), [Message("inv", "b", Low), Message("con", "output", High)], h + 2, l + 2), fuel + 4);
    Sample2Press1Pass5(h, l, o);
    RunStep(Network(Sample2At(On, High, Off, High, Low, o), [Message("inv", "b", Low), Message("con", "output", High)], h + 2, l + 2), Network(Sample2At(On, High, On, High, Low, o), [Message("con", "output", High), Message("b", "con", High)], h + 2, l + 3), fuel + 3);
    Sample2Press1Pass6(h, l, o);
    RunStep(Network(Sample2At(On, High, On, High, Low, o), [Message("con", "output", High), Message("b", "con", High)], h + 2, l + 3), Network(Sample2At(On, High, On, High, Low, true), [Message("b", "con", High)], h + 3, l + 3), fuel + 2);
    Sample2Press1Pass7(h, l, o);
    RunStep(Network(Sample2At(On, High, On, High, Low, true), [Message("b", "con", High)], h + 3, l + 3), Network(Sample2At(On, High, On, High, High, true), [Message("con", "output", Low)], h + 4, l + 3), fuel + 1);
    Sample2Press1Pass8(h, l, o);
    RunStep(Network(Sample2At(On, High, On, High, High, true), [Message("con", "output", Low)], h + 4, l + 3), Network(Sample2At(On, High, On, High, High, true), [], h + 4, l + 4), fuel);
  }

  lemma Sample2Press2Pass1(h: nat, l: nat)
    ensures Next(Network(Sample2At(On, High, On, High, High, true), [Button], h, l))
      == Some(Network(Sample2At(On, High, On, High, High, true), [Message("broadcaster", "a", Low)], h, l + 1))
  {
    assert Emit("broadcaster", ["a"], Low) == [Message("broadcaster", "a", Low)];
    Sample2SetBroadcaster(On, High, On, High, High, true);
    assert [Button][1..] + [Message("broadcaster", "a", Low)] == [Message("broadcaster", "a", Low)];
  }

  lemma Sample2Press2Pass2(h: nat, l: nat)
    ensures Next(Network(Sample2At(On, High, On, High, High, true), [Message("broadcaster", "a", Low)], h, l + 1))
      == Some(Network(Sample2At(Off, High, On, High, High, true), [Message("a", "inv", Low), Message("a", "con", Low)], h, l + 2))
  {
    assert Emit("a", ["inv", "con"], Low) == [Message("a", "inv", Low), Message("a", "con", Low)];
    Sample2SetA(On, High, On, High, High, true, Off);
    assert [Message("broadcaster", "a", Low)][1..] + [Message("a", "inv", Low), Message("a", "con", Low)] == [Message("a", "inv", Low), Message("a", "con", Low)];
  }

  lemma Sample2Press2Pass3(h: nat, l: nat)
    ensures Next(Network(Sample2At(Off, High, On, High, High, true), [Message("a", "inv", Low), Message("a", "con", Low)], h, l + 2))
      == Some(Network(Sample2At(Off, Low, On, High, High, true), [Message("a", "con", Low), Message("inv", "b", High)], h, l + 3))
  {
    assert map["a" := High]["a" := Low] == map["a" := Low];
    assert !AllHigh(map["a" := Low]) by { assert map["a" := Low]["a"] == Low; }
    assert Emit("inv", ["b"], High) == [Message("inv", "b", High)];
    Sample2SetInv(Off, High, On, High, High, true, Low);
    assert [Message("a", "inv", Low), Message("a", "con", Low)][1..] + [Message("inv", "b", High)] == [Message("a", "con", Low), Message("inv", "b", High)];
  }

  lemma Sample2Press2Pass4(h: nat, l: nat)
    ensures Next(Network(Sample2At(Off, Low, On, High, High, true), [Message("a", "con", Low), Message("inv", "b", High)], h, l + 3))
      == Some(Network(Sample2At(Off, Low, On, Low, High, true), [Message("inv", "b", High), Message("con", "output", High)], h, l + 4))
  {
    assert map["a" := High, "b" := High]["a" := Low] == map["a" := Low, "b" := High];
    assert !AllHigh(map["a" := Low, "b" := High]) by { assert map["a" := Low, "b" := High]["a"] == Low; }
    assert Emit("con", ["output"], High) == [Message("con", "output", High)];
    Sample2SetCon(Off, Low, On, High, High, true, Low, High);
    assert [Message("a", "con", Low), Message("inv", "b", High)][1..] + [Message("con", "output", High)] == [Message("inv", "b", High), Message("con", "output", High)];
  }

  lemma Sample2Press2Pass5(h: nat, l: nat)
    ensures Next(Network(Sample2At(Off, Low, On, Low, High, true), [Message("inv", "b", High), Message("con", "output", High)], h, l + 4))
      == Some(Network(Sample2At(Off, Low, On, Low, High, true), [Message("con", "output", High)], h + 1, l + 4))
  {
    Sample2SetB(Off, Low, On, Low, High, true, On);
    assert [Message("inv", "b", High), Message("con", "output", High)][1..] + [] == [Message("con", "output", High)];
  }

  lemma Sample2Press2Pass6(h: nat, l: nat)
    ensures Next(Network(Sample2At(Off, Low, On, Low, High, true), [Message("con", "output", High)], h + 1, l + 4))
      == Some(Network(Sample2At(Off, Low, On, Low, High, true), [], h + 2, l + 4))
  {
    Sample2SetOutput(Off, Low, On, Low, High, true);
    assert [Message("con", "output", High)][1..] + [] == [];
  }

  lemma Sample2Press2(h: nat, l: nat, fuel: nat)
    ensures Run(Network(Sample2At(On, High, On, High, High, true), [Button], h, l), fuel + 6) == Run(Network(Sample2At(Off, Low, On, Low, High, true), [], h + 2, l + 4), fuel)
  {
    Sample2Press2Pass1(h, l);
    RunStep(Network(Sample2At(On, High, On, High, High, true), [Button], h, l), Network(Sample2At(On, High, On, High, High, true), [Message("broadcaster", "a", Low)], h, l + 1), fuel + 5);
    Sample2Press2Pass2(h, l);
    RunStep(Network(Sample2At(On, High, On, High, High, true), [Message("broadcaster", "a", Low)], h, l + 1), Network(Sample2At(Off, High, On, High, High, true), [Message("a", "inv", Low), Message("a", "con", Low)], h, l + 2), fuel + 4);
    Sample2Press2Pass3(h, l);
    RunStep(Network(Sample2At(Off, High, On, High, High, true), [Message("a", "inv", Low), Message("a", "con", Low)], h, l + 2), Network(Sample2At(Off, Low, On, High, High, true), [Message("a", "con", Low), Message("inv", "b", High)], h, l + 3), fuel + 3);
    Sample2Press2Pass4(h, l);
    RunStep(Network(Sample2At(Off, Low, On, High, High, true), [Message("a", "con", Low), Message("inv", "b", High)], h, l + 3), Network(Sample2At(Off, Low, On, Low, High, true), [Message("inv", "b", High), Message("con", "output", High)], h, l + 4), fuel + 2);
    Sample2Press2Pass5(h, l);
    RunStep(Network(Sample2At(Off, Low, On, Low, High, true), [Message("inv", "b", High), Message("con", "output", High)], h, l + 4), Network(Sample2At(Off, Low, On, Low, High, true), [Message("con", "output", High)], h + 1, l + 4), fuel + 1);
    Sample2Press2Pass6(h, l);
    RunStep(Network(Sample2At(Off, Low, On, Low, High, true), [Message("con", "output", High)], h + 1, l + 4), Network(Sample2At(Off, Low, On, Low, High, true), [], h + 2, l + 4), fuel);
  }

  lemma Sample2Press3Pass1(h: nat, l: nat)
    ensures Next(Network(Sample2At(Off, Low, On, Low, High, true), [Button], h, l))
      == Some(Network(Sample2At(Off, Low, On, Low, High, true), [Message("broadcaster", "a", Low)], h, l + 1))
  {
    assert Emit("broadcaster", ["a"], Low) == [Message("broadcaster", "a", Low)];
    Sample2SetBroadcaster(Off, Low, On, Low, High, true);
    assert [Button][1..] + [Message("broadcaster", "a", Low)] == [Message("broadcaster", "a", Low)];
  }

  lemma Sample2Press3Pass2(h: nat, l: nat)
    ensures Next(Network(Sample2At(Off, Low, On, Low, High, true), [Message("broadcaster", "a", Low)], h, l + 1))
      == Some(Network(Sample2At(On, Low, On, Low, High, true), [Message("a", "inv", High), Message("a", "con", High)], h, l + 2))
  {
    assert Emit("a", ["inv", "con"], High) == [Message("a", "inv", High), Message("a", "con", High)];
    Sample2SetA(Off, Low, On, Low, High, true, On);
    assert [Message("broadcaster", "a", Low)][1..] + [Message("a", "inv", High), Message("a", "con", High)] == [Message("a", "inv", High), Message("a", "con", High)];
  }

  lemma Sample2Press3Pass3(h: nat, l: nat)
    ensures Next(Network(Sample2At(On, Low, On, Low, High, true), [Message("a", "inv", High), Message("a", "con", High)], h, l + 2))
      == Some(Network(Sample2At(On, High, On, Low, High, true), [Message("a", "con", High), Message("inv", "b", Low)], h + 1, l + 2))
  {
    assert map["a" := Low]["a" := High] == map["a" := High];
    assert AllHigh(map["a" := High]);
    assert Emit("inv", ["b"], Low) == [Message("inv", "b", Low)];
    Sample2SetInv(On, Low, On, Low, High, true, High);
    assert [Message("a", "inv", High), Message("a", "con", High)][1..] + [Message("inv", "b", Low)] == [Message("a", "con", High), Message("inv", "b", Low)];
  }

  lemma Sample2Press3Pass4(h: nat, l: nat)
    ensures Next(Network(Sample2At(On, High, On, Low, High, true), [Message("a", "con", High), Message("inv", "b", Low)], h + 1, l + 2))
      == Some(Network(Sample2At(On, High, On, High, High, true), [Message("inv", "b", Low), Message("con", "output", Low)], h + 2, l + 2))
  {
    assert map["a" := Low, "b" := High]["a" := High] == map["a" := High, "b" := High];
    assert AllHigh(map["a" := High, "b" := High]);
    assert Emit("con", ["output"], Low) == [Message("con", "output", Low)];
    Sample2SetCon(On, High, On, Low, High, true, High, High);
    assert [Message("a", "con", High), Message("inv", "b", Low)][1..] + [Message("con", "output", Low)] == [Message("inv", "b", Low), Message("con", "output", Low)];
  }

  lemma Sample2Press3Pass5(h: nat, l: nat)
    ensures Next(Network(Sample2At(On, High, On, High, High, true), [Message("inv", "b", Low), Message("con", "output", Low)], h + 2, l + 2))
      == Some(Network(Sample2At(On, High, Off, High, High, true), [Message("con", "output", Low), Message("b", "con", Low)], h + 2, l + 3))
  {
    assert Emit("b", ["con"], Low) == [Message("b", "con", Low)];
    Sample2SetB(On, High, On, High, High, true, Off);
    assert [Message("inv", "b", Low), Message("con", "output", Low)][1..] + [Message("b", "con", Low)] == [Message("con", "output", Low), Message("b", "con", Low)];
  }

  lemma Sample2Press3Pass6(h: nat, l: nat)
    ensures Next(Network(Sample2At(On, High, Off, High, High, true), [Message("con", "output", Low), Message("b", "con", Low)], h + 2, l + 3))
      == Some(Network(Sample2At(On, High, Off, High, High, true), [Message("b", "con", Low)], h + 2, l + 4))
  {
    Sample2SetOutput(On, High, Off, High, High, true);
    assert [Message("con", "output", Low), Message("b", "con", Low)][1..] + [] == [Message("b", "con", Low)];
  }

  lemma Sample2Press3Pass7(h: nat, l: nat)
    ensures Next(Network(Sample2At(On, High, Off, High, High, true), [Message("b", "con", Low)], h + 2, l + 4))
      == Some(Network(Sample2At(On, High, Off, High, Low, true), [Message("con", "output", High)], h + 2, l + 5))
  {
    assert map["a" := High, "b" := High]["b" := Low] == map["a" := High, "b" := Low];
    assert !AllHigh(map["a" := High, "b" := Low]) by { assert map["a" := High, "b" := Low]["b"] == Low; }
    assert Emit("con", ["output"], High) == [Message("con", "output", High)];
    Sample2SetCon(On, High, Off, High, High, true, High, Low);
    assert [Message("b", "con", Low)][1..] + [Message("con", "output", High)] == [Message("con", "output", High)];
  }

  lemma Sample2Press3Pass8(h: nat, l: nat)
    ensures Next(Network(Sample2At(On, High, Off, High, Low, true), [Message("con", "output", High)], h + 2, l + 5))
      == Some(Network(Sample2At(On, High, Off, High, Low, true), [], h + 3, l + 5))
  {
    Sample2SetOutput(On, High, Off, High, Low, true);
    assert [Message("con", "output", High)][1..] + [] == [];
  }

  lemma Sample2Press3(h: nat, l: nat, fuel: nat)
    ensures Run(Network(Sample2At(Off, Low, On, Low, High, true), [Button], h, l), fuel + 8) == Run(Network(Sample2At(On, High, Off, High, Low, true), [], h + 3, l + 5), fuel)
  {
    Sample2Press3Pass1(h, l);
    RunStep(Network(Sample2At(Off, Low, On, Low, High, true), [Button], h, l), Network(Sample2At(Off, Low, On, Low, High, true), [Message("broadcaster", "a", Low)], h, l + 1), fuel + 7);
    Sample2Press3Pass2(h, l);
    RunStep(Network(Sample2At(Off, Low, On, Low, High, true), [Message("broadcaster", "a", Low)], h, l + 1), Network(Sample2At(On, Low, On, Low, High, true), [Message("a", "inv", High), Message("a", "con", High)], h, l + 2), fuel + 6);
    Sample2Press3Pass3(h, l);
    RunStep(Network(Sample2At(On, Low, On, Low, High, true), [Message("a", "inv", High), Message("a", "con", High)], h, l + 2), Network(Sample2At(On, High, On, Low, High, true), [Message("a", "con", High), Message("inv", "b", Low)], h + 1, l + 2), fuel + 5);
    Sample2Press3Pass4(h, l);
    RunStep(Network(Sample2At(On, High, On, Low, High, true), [Message("a", "con", High), Message("inv", "b", Low)], h + 1, l + 2), Network(Sample2At(On, High, On, High, High, true), [Message("inv", "b", Low), Message("con", "output", Low)], h + 2, l + 2), fuel + 4);
    Sample2Press3Pass5(h, l);
    RunStep(Network(Sample2At(On, High, On, High, High, true), [Message("inv", "b", Low), Message("con", "output", Low)], h + 2, l + 2), Network(Sample2At(On, High, Off, High, High, true), [Message("con", "output", Low), Message("b", "con", Low)], h + 2, l + 3), fuel + 3);
    Sample2Press3Pass6(h, l);
    RunStep(Network(Sample2At(On, High, Off, High, High, true), [Message("con", "output", Low), Message("b", "con", Low)], h + 2, l + 3), Network(Sample2At(On, High, Off, High, High, true), [Message("b", "con", Low)], h + 2, l + 4), fuel + 2);
    Sample2Press3Pass7(h, l);
    RunStep(Network(Sample2At(On, High, Off, High, High, true), [Message("b", "con", Low)], h + 2, l + 4), Network(Sample2At(On, High, Off, High, Low, true), [Message("con", "output", High)], h + 2, l + 5), fuel + 1);
    Sample2Press3Pass8(h, l);
    RunStep(Network(Sample2At(On, High, Off, High, Low, true), [Message("con", "output", High)], h + 2, l + 5), Network(Sample2At(On, High, Off, High, Low, true), [], h + 3, l + 5), fuel);
  }

  lemma Sample2Press4Pass1(h: nat, l: nat)
    ensures Next(Network(Sample2At(On, High, Off, High, Low, true), [Button], h, l))
      == Some(Network(Sample2At(On, High, Off, High, Low, true), [Message("broadcaster", "a", Low)], h, l + 1))
  {
    assert Emit("broadcaster", ["a"], Low) == [Message("broadcaster", "a", Low)];
    Sample2SetBroadcaster(On, High, Off, High, Low, true);
    assert [Button][1..] + [Message("broadcaster", "a", Low)] == [Message("broadcaster", "a", Low)];
  }

  lemma Sample2Press4Pass2(h: nat, l: nat)
    ensures Next(Network(Sample2At(On, High, Off, High, Low, true), [Message("broadcaster", "a", Low)], h, l + 1))
      == Some(Network(Sample2At(Off, High, Off, High, Low, true), [Message("a", "inv", Low), Message("a", "con", Low)], h, l + 2))
  {
    assert Emit("a", ["inv", "con"], Low) == [Message("a", "inv", Low), Message("a", "con", Low)];
    Sample2SetA(On, High, Off, High, Low, true, Off);
    assert [Message("broadcaster", "a", Low)][1..] + [Message("a", "inv", Low), Message("a", "con", Low)] == [Message("a", "inv", Low), Message("a", "con", Low)];
  }

  lemma Sample2Press4Pass3(h: nat, l: nat)
    ensures Next(Network(Sample2At(Off, High, Off, High, Low, true), [Message("a", "inv", Low), Message("a", "con", Low)], h, l + 2))
      == Some(Network(Sample2At(Off, Low, Off, High, Low, true), [Message("a", "con", Low), Message("inv", "b", High)], h, l + 3))
  {
    assert map["a" := High]["a" := Low] == map["a" := Low];
    assert !AllHigh(map["a" := Low]) by { assert map["a" := Low]["a"] == Low; }
    assert Emit("inv", ["b"], High) == [Message("inv", "b", High)];
    Sample2SetInv(Off, High, Off, High, Low, true, Low);
    assert [Message("a", "inv", Low), Message("a", "con", Low)][1..] + [Message("inv", "b", High)] == [Message("a", "con", Low), Message("inv", "b", High)];
  }

  lemma Sample2Press4Pass4(h: nat, l: nat)
    ensures Next(Network(Sample2At(Off, Low, Off, High, Low, true), [Message("a", "con", Low), Message("inv", "b", High)], h, l + 3))
      == Some(Network(Sample2At(Off, Low, Off, Low, Low, true), [Message("inv", "b", High), Message("con", "output", High)], h, l + 4))
  {
    assert map["a" := High, "b" := Low]["a" := Low] == map["a" := Low, "b" := Low];
    assert !AllHigh(map["a" := Low, "b" := Low]) by { assert map["a" := Low, "b" := Low]["a"] == Low; }
    assert Emit("con", ["output"], High) == [Message("con", "output", High)];
    Sample2SetCon(Off, Low, Off, High, Low, true, Low, Low);
    assert [Message("a", "con", Low), Message("inv", "b", High)][1..] + [Message("con", "output", High)] == [Message("inv", "b", High), Message("con", "output", High)];
  }

  lemma Sample2Press4Pass5(h: nat, l: nat)
    ensures Next(Network(Sample2At(Off, Low, Off, Low, Low, true), [Message("inv", "b", High), Message("con", "output", High)], h, l + 4))
      == Some(Network(Sample2At(Off, Low, Off, Low, Low, true), [Message("con", "output", High)], h + 1, l + 4))
  {
    Sample2SetB(Off, Low, Off, Low, Low, true, Off);
    assert [Message("inv", "b", High), Message("con", "output", High)][1..] + [] == [Message("con", "output", High)];
  }

  lemma Sample2Press4Pass6(h: nat, l: nat)
    ensures Next(Network(Sample2At(Off, Low, Off, Low, Low, true), [Message("con", "output", High)], h + 1, l + 4))
      == Some(Network(Sample2At(Off, Low, Off, Low, Low, true), [], h + 2, l + 4))
  {
    Sample2SetOutput(Off, Low, Off, Low, Low, true);
    assert [Message("con", "output", High)][1..] + [] == [];
  }

  lemma Sample2Press4(h: nat, l: nat, fuel: nat)
    ensures Run(Network(Sample2At(On, High, Off, High, Low, true), [Button], h, l), fuel + 6) == Run(Network(Sample2At(Off, Low, Off, Low, Low, true), [], h + 2, l + 4), fuel)
  {
    Sample2Press4Pass1(h, l);
    RunStep(Network(Sample2At(On, High, Off, High, Low, true), [Button], h, l), Network(Sample2At(On, High, Off, High, Low, true), [Message("broadcaster", "a", Low)], h, l + 1), fuel + 5);
    Sample2Press4Pass2(h, l);
    RunStep(Network(Sample2At(On, High, Off, High, Low, true), [Message("broadcaster", "a", Low)], h, l + 1), Network(Sample2At(Off, High, Off, High, Low, true), [Message("a", "inv", Low), Message("a", "con", Low)], h, l + 2), fuel + 4);
    Sample2Press4Pass3(h, l);
    RunStep(Network(Sample2At(Off, High, Off, High, Low, true), [Message("a", "inv", Low), Message("a", "con", Low)], h, l + 2), Network(Sample2At(Off, Low, Off, High, Low, true), [Message("a", "con", Low), Message("inv", "b", High)], h, l + 3), fuel + 3);
    Sample2Press4Pass4(h, l);
    RunStep(Network(Sample2At(Off, Low, Off, High, Low, true), [Message("a", "con", Low), Message("inv", "b", High)], h, l + 3), Network(Sample2At(Off, Low, Off, Low, Low, true), [Message("inv", "b", High), Message("con", "output", High)], h, l + 4), fuel + 2);
    Sample2Press4Pass5(h, l);
    RunStep(Network(Sample2At(Off, Low, Off, Low, Low, true), [Message("inv", "b", High), Message("con", "output", High)], h, l + 4), Network(Sample2At(Off, Low, Off, Low, Low, true), [Message("con", "output", High)], h + 1, l + 4), fuel + 1);
    Sample2Press4Pass6(h, l);
    RunStep(Network(Sample2At(Off, Low, Off, Low, Low, true), [Message("con", "output", High)], h + 1, l + 4), Network(Sample2At(Off, Low, Off, Low, Low, true), [], h + 2, l + 4), fuel);
  }

  /** Four presses of the second example, given at least eight passes each, send eleven
      high and seventeen low pulses and bring every module back to its first state, with
      "output" added as a sink. */
  lemma Sample2Cycle(h: nat, l: nat, o: bool, fuel: nat)
    requires fuel >= 8
    ensures Presses(Network(Sample2At(Off, Low, Off, Low, Low, o), [], h, l), 4, fuel)
      == Some(Network(Sample2At(Off, Low, Off, Low, Low, true), [], h + 11, l + 17))
  {
    assert [] + [Button] == [Button];
    var start := Network(Sample2At(Off, Low, Off, Low, Low, o), [], h, l);
    Sample2Press1(h, l, o, fuel - 8);
    assert Presses(start, 1, fuel) == Some(Network(Sample2At(On, High, On, High, High, true), [], h + 4, l + 4));
    Sample2Press2(h + 4, l + 4, fuel - 6);
    assert Presses(start, 2, fuel) == Some(Network(Sample2At(Off, Low, On, Low, High, true), [], h + 6, l + 8));
    Sample2Press3(h + 6, l + 8, fuel - 8);
    assert Presses(start, 3, fuel) == Some(Network(Sample2At(On, High, Off, High, Low, true), [], h + 9, l + 13));
    Sample2Press4(h + 9, l + 13, fuel - 6);
  }

  /** The second example's answer: a thousand presses send 2750 high and 4250 low pulses,
      whose product is 11687500. */
  lemma Sample2Answer(fuel: nat)
    requires fuel >= 8
    ensures Presses(Network(Sample2(), [], 0, 0), 1000, fuel) == Some(Network(Sample2At(Off, Low, Off, Low, Low, true), [], 2750, 4250))
    ensures 2750 * 4250 == 11687500
  {
    var settled := Sample2At(Off, Low, Off, Low, Low, true);
    forall h: nat, l: nat
      ensures Presses(Network(settled, [], h, l), 4, fuel) == Some(Network(settled, [], h + 11, l + 17))
    {
      Sample2Cycle(h, l, true, fuel);
    }
    Sample2Cycle(0, 0, false, fuel);
    PressesAdd(Network(Sample2(), [], 0, 0), 4, 996, fuel);
    Periodic(settled, 4, fuel, 11, 17, 11, 17, 249);
  }
}
