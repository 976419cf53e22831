/**
  The gate-crossing reachability search of QuizManager3
  (`IsToggleSwitchConnected` with its `PathState` nodes).

  The search starts at the LED's input connector and walks wires backwards. An
  output owned by a ToggleSwitch ends the walk; it succeeds only when that switch
  is the queried one and a gate has been crossed. An output owned by a gate (and
  by no switch) continues the walk at every input of that gate. Anything else is
  a dead end.

  The method is proved against `GatedRoute`, a description of the wire paths
  themselves that does not mention the stack or the visited set.
 */
module Connectivity {
  import opened Circuit

  /** A search node: an input connector and whether a gate was crossed on the way to it. */
  datatype PathState = PathState(input: InId, foundGate: bool)

  /** The search walks on through an output exactly when it belongs to a gate and to no switch. */
  predicate Expandable(scene: Scene, o: OutId)
  {
    OwnerOf(scene, o).toggle.None? && OwnerOf(scene, o).isGate
  }

  /** `newFoundGate` for the wire `w` taken from node `s`. */
  function NewFound(scene: Scene, s: PathState, w: Wire): bool
  {
    s.foundGate || OwnerOf(scene, w.0).isGate
  }

  /** Taking wire `w` from node `s` ends the search with success. */
  predicate Hits(scene: Scene, toggle: SwitchId, s: PathState, w: Wire)
  {
    w.1 == s.input && OwnerOf(scene, w.0).toggle == Some(toggle) && NewFound(scene, s, w)
  }

  // ---------------------------------------------------------------------------
  // The reference definition: wire paths from the LED back to a switch.
  // ---------------------------------------------------------------------------

  /**
    `p` lists wires walked backwards from the LED input `ledIn`: the first ends at
    `ledIn`, and each further wire ends at an input of a gate that owns the
    output of the wire before it.
   */
  ghost predicate IsChain(scene: Scene, wires: seq<Wire>, ledIn: InId, p: seq<Wire>)
  {
    && |p| > 0
    && p[0] in wires
    && p[0].1 == ledIn
    && forall i, j :: 0 <= i < j < |p| && j == i + 1 ==> Link(scene, wires, p[i], p[j])
  }

  /** Wire `next` continues a chain that has reached wire `prev`: it ends at an input of the gate owning `prev`'s output. */
  ghost predicate Link(scene: Scene, wires: seq<Wire>, prev: Wire, next: Wire)
  {
    next in wires && Expandable(scene, prev.0) && next.1 in OwnerOf(scene, prev.0).gateInputs
  }

  /** Some wire of `p` leaves a gate's output. */
  function CrossesGate(scene: Scene, p: seq<Wire>): bool
    decreases |p|
  {
    if p == [] then false else CrossesGate(scene, p[..|p| - 1]) || OwnerOf(scene, p[|p| - 1].0).isGate
  }

  /** A wire path from switch `toggle` to the LED input that crosses at least one gate. */
  ghost predicate GatedRoute(scene: Scene, wires: seq<Wire>, ledIn: InId, toggle: SwitchId, p: seq<Wire>)
  {
    && IsChain(scene, wires, ledIn, p)
    && OwnerOf(scene, p[|p| - 1].0).toggle == Some(toggle)
    && CrossesGate(scene, p)
  }

  /** What `IsToggleSwitchConnected(led, toggle, wireManagers)` is meant to decide. */
  ghost predicate ConnectedThroughGate(scene: Scene, led: Option<Led>, toggle: SwitchId)
  {
    && led.Some?
    && led.value.input.Some?
    && exists p :: GatedRoute(scene, Wires(scene.managers), led.value.input.value, toggle, p)
  }

  // ---------------------------------------------------------------------------
  // Facts about routes.
  // ---------------------------------------------------------------------------

  /** `CrossesGate` is "some wire of the path leaves a gate". */
  lemma {:induction false} CrossesGateIffSomeGate(scene: Scene, p: seq<Wire>)
    ensures CrossesGate(scene, p) <==> exists j :: 0 <= j < |p| && OwnerOf(scene, p[j].0).isGate
    decreases |p|
  {
    if p != [] {
      var init := p[..|p| - 1];
      CrossesGateIffSomeGate(scene, init);
      assert forall j :: 0 <= j < |init| ==> init[j] == p[j];
      if OwnerOf(scene, p[|p| - 1].0).isGate {
        assert OwnerOf(scene, p[|p| - 1].0).isGate;
      }
    }
  }

  /**
    A route's first wire ends at the LED, so if no gate output is wired straight
    into the LED input — in particular when the switch is wired there directly —
    no route exists and the search answers false.
   */
  lemma DirectWiringIsNotConnected(scene: Scene, led: Led, toggle: SwitchId)
    requires led.input.Some?
    requires forall w :: w in Wires(scene.managers) && w.1 == led.input.value ==> !OwnerOf(scene, w.0).isGate
    ensures !ConnectedThroughGate(scene, Some(led), toggle)
  {
    var wires := Wires(scene.managers);
    forall p: seq<Wire> | IsChain(scene, wires, led.input.value, p)
      ensures !GatedRoute(scene, wires, led.input.value, toggle, p)
    {
      if |p| == 1 {
        assert p[..0] == [];
        assert !CrossesGate(scene, p);
      } else {
        assert Link(scene, wires, p[0], p[1]);
      }
    }
  }

  /** A switch wired into an input of a gate whose output feeds the LED is connected. */
  lemma ThroughOneGateIsConnected(scene: Scene, led: Led, toggle: SwitchId, gateOut: OutId, gateIn: InId, switchOut: OutId)
    requires led.input.Some?
    requires (gateOut, led.input.value) in Wires(scene.managers)
    requires Expandable(scene, gateOut) && gateIn in OwnerOf(scene, gateOut).gateInputs
    requires (switchOut, gateIn) in Wires(scene.managers)
    requires OwnerOf(scene, switchOut).toggle == Some(toggle)
    ensures ConnectedThroughGate(scene, Some(led), toggle)
  {
    var p: seq<Wire> := [(gateOut, led.input.value), (switchOut, gateIn)];
    var first: seq<Wire> := [(gateOut, led.input.value)];
    assert p[..1] == first && first[..0] == [];
    assert CrossesGate(scene, p[..1]);
    assert GatedRoute(scene, Wires(scene.managers), led.input.value, toggle, p);
  }

  // ---------------------------------------------------------------------------
  // Bookkeeping of the search.
  // ---------------------------------------------------------------------------

  /**
    `s` is the node reached by walking the wires `p`: the start node when `p` is
    empty, otherwise an input of the gate at the end of the chain `p`.
   */
  ghost predicate Leads(scene: Scene, wires: seq<Wire>, ledIn: InId, p: seq<Wire>, s: PathState)
  {
    if p == [] then s == PathState(ledIn, false)
    else
      && IsChain(scene, wires, ledIn, p)
      && Expandable(scene, p[|p| - 1].0)
      && s.input in OwnerOf(scene, p[|p| - 1].0).gateInputs
      && s.foundGate == CrossesGate(scene, p)
  }

  /** Following wire `w` out of node `s` neither succeeds nor leads outside `visited`. */
  ghost predicate WireDone(scene: Scene, toggle: SwitchId, visited: set<PathState>, s: PathState, w: Wire)
  {
    w.1 == s.input ==>
      && !Hits(scene, toggle, s, w)
      && (Expandable(scene, w.0) ==>
            forall j :: 0 <= j < |OwnerOf(scene, w.0).gateInputs| ==>
              PathState(OwnerOf(scene, w.0).gateInputs[j], NewFound(scene, s, w)) in visited)
  }

  /** Node `s` has been fully expanded against `visited`. */
  ghost predicate StateDone(scene: Scene, wires: seq<Wire>, toggle: SwitchId, visited: set<PathState>, s: PathState)
  {
    forall k :: 0 <= k < |wires| ==> WireDone(scene, toggle, visited, s, wires[k])
  }

  lemma StateDoneGrows(scene: Scene, wires: seq<Wire>, toggle: SwitchId, v: set<PathState>, v': set<PathState>, s: PathState)
    requires v <= v'
    requires StateDone(scene, wires, toggle, v, s)
    ensures StateDone(scene, wires, toggle, v', s)
  {
    forall k | 0 <= k < |wires|
      ensures WireDone(scene, toggle, v', s, wires[k])
    {
      assert WireDone(scene, toggle, v, s, wires[k]);
    }
  }

  /** Every node the search can push: the LED input and every gate input, with either flag. */
  ghost function Universe(scene: Scene, wires: seq<Wire>, ledIn: InId): set<PathState>
  {
    var inputs := {ledIn} + set k, j | 0 <= k < |wires| && 0 <= j < |OwnerOf(scene, wires[k].0).gateInputs|
                                      :: OwnerOf(scene, wires[k].0).gateInputs[j];
    (set i | i in inputs :: PathState(i, false)) + (set i | i in inputs :: PathState(i, true))
  }

  /** A node reached along `p` can be followed along one more wire. */
  lemma ExtendLeads(scene: Scene, wires: seq<Wire>, ledIn: InId, p: seq<Wire>, s: PathState, w: Wire)
    requires Leads(scene, wires, ledIn, p, s)
    requires w in wires && w.1 == s.input
    ensures IsChain(scene, wires, ledIn, p + [w])
    ensures CrossesGate(scene, p + [w]) == NewFound(scene, s, w)
  {
    var q := p + [w];
    assert q[..|q| - 1] == p;
    if p != [] {
      forall i, j | 0 <= i < j < |q| && j == i + 1
        ensures Link(scene, wires, q[i], q[j])
      {
        if j < |p| {
          assert q[j] == p[j] && q[i] == p[i];
        }
      }
    }
  }

  /** Every wire of a chain is a wire of the scene. */
  lemma ChainWireAt(scene: Scene, wires: seq<Wire>, ledIn: InId, p: seq<Wire>, k: nat)
    requires IsChain(scene, wires, ledIn, p)
    requires k < |p|
    ensures exists idx :: 0 <= idx < |wires| && wires[idx] == p[k]
  {
    if k > 0 {
      assert Link(scene, wires, p[k - 1], p[k]);
    }
  }

  /** The node the search is at when it is about to follow wire `p[k]` of a chain. */
  function NodeBefore(scene: Scene, p: seq<Wire>, k: nat): PathState
    requires k < |p|
  {
    PathState(p[k].1, CrossesGate(scene, p[..k]))
  }

  /** A closed visited set holding the start node holds every node along every chain. */
  lemma {:induction false} ChainStaysVisited(scene: Scene, wires: seq<Wire>, ledIn: InId, toggle: SwitchId, visited: set<PathState>, p: seq<Wire>, k: nat)
    requires PathState(ledIn, false) in visited
    requires forall s :: s in visited ==> StateDone(scene, wires, toggle, visited, s)
    requires IsChain(scene, wires, ledIn, p)
    requires k < |p|
    ensures NodeBefore(scene, p, k) in visited
    decreases k
  {
    if k == 0 {
      assert p[..0] == [];
    } else {
      ChainStaysVisited(scene, wires, ledIn, toggle, visited, p, k - 1);
      var s := NodeBefore(scene, p, k - 1);
      ChainWireAt(scene, wires, ledIn, p, k - 1);
      var idx :| 0 <= idx < |wires| && wires[idx] == p[k - 1];
      assert WireDone(scene, toggle, visited, s, wires[idx]);
      assert Link(scene, wires, p[k - 1], p[k]);
      var gi := OwnerOf(scene, p[k - 1].0).gateInputs;
      var j :| 0 <= j < |gi| && gi[j] == p[k].1;
      assert p[..k][..k - 1] == p[..k - 1];
    }
  }

  /** In a closed visited set holding the start node, no node leads to success, so no route exists. */
  lemma NoRouteFromClosedSet(scene: Scene, wires: seq<Wire>, ledIn: InId, toggle: SwitchId, visited: set<PathState>)
    requires PathState(ledIn, false) in visited
    requires forall s :: s in visited ==> StateDone(scene, wires, toggle, visited, s)
    ensures forall p :: !GatedRoute(scene, wires, ledIn, toggle, p)
  {
    forall p: seq<Wire> | IsChain(scene, wires, ledIn, p)
      ensures !GatedRoute(scene, wires, ledIn, toggle, p)
    {
      var k := |p| - 1;
      ChainStaysVisited(scene, wires, ledIn, toggle, visited, p, k);
      var s := NodeBefore(scene, p, k);
      ChainWireAt(scene, wires, ledIn, p, k);
      var idx :| 0 <= idx < |wires| && wires[idx] == p[k];
      assert WireDone(scene, toggle, visited, s, wires[idx]);
      assert p[..k + 1] == p;
      assert CrossesGate(scene, p) == NewFound(scene, s, p[k]);
    }
  }

  lemma GateInputInUniverse(scene: Scene, wires: seq<Wire>, ledIn: InId, k: nat, j: nat, b: bool)
    requires k < |wires| && j < |OwnerOf(scene, wires[k].0).gateInputs|
    ensures PathState(OwnerOf(scene, wires[k].0).gateInputs[j], b) in Universe(scene, wires, ledIn)
  {
    var i := OwnerOf(scene, wires[k].0).gateInputs[j];
    assert i in set k, j | 0 <= k < |wires| && 0 <= j < |OwnerOf(scene, wires[k].0).gateInputs|
                         :: OwnerOf(scene, wires[k].0).gateInputs[j];
  }

  /** Every visited node carries a witness chain in `how`. */
  ghost predicate Witnessed(scene: Scene, wires: seq<Wire>, ledIn: InId, visited: set<PathState>, how: map<PathState, seq<Wire>>)
  {
    forall s :: s in visited ==> s in how && Leads(scene, wires, ledIn, how[s], s)
  }

  // ---------------------------------------------------------------------------
  // The search itself.
  // ---------------------------------------------------------------------------

  /**
    The search's bookkeeping only grows: `visited` and `stack` go from the first
    pair to the second by pushing each newly visited node exactly once, all
    inside `universe`. A node visited before is never pushed again: every pushed
    entry is new, and there are as many pushed entries as new nodes.
   */
  ghost predicate Grew(universe: set<PathState>, visited: set<PathState>, stack: seq<PathState>,
                       visited': set<PathState>, stack': seq<PathState>)
  {
    && visited <= visited' <= universe
    && |stack| <= |stack'| && stack'[..|stack|] == stack
    && (forall s :: s in visited' - visited ==> s in stack')
    && (forall i :: 0 <= i < |stack'| ==> stack'[i] in visited')
    && (forall i :: |stack| <= i < |stack'| ==> stack'[i] !in visited)
    && |stack'| == |stack| + |visited' - visited|
  }

  /** Nothing pushed yet. */
  lemma GrewNothing(universe: set<PathState>, visited: set<PathState>, stack: seq<PathState>)
    requires visited <= universe
    requires forall i :: 0 <= i < |stack| ==> stack[i] in visited
    ensures Grew(universe, visited, stack, visited, stack)
  {
    assert visited - visited == {};
  }

  /** Visiting and pushing one node not visited before keeps the bookkeeping exact. */
  lemma GrowOne(universe: set<PathState>, visited: set<PathState>, stack: seq<PathState>,
                visited': set<PathState>, stack': seq<PathState>, next: PathState)
    requires Grew(universe, visited, stack, visited', stack')
    requires next in universe && next !in visited'
    ensures Grew(universe, visited, stack, visited' + {next}, stack' + [next])
  {
    assert (visited' + {next}) - visited == (visited' - visited) + {next};
    assert (stack' + [next])[..|stack|] == stack'[..|stack|];
  }

  /** A node entered into `visited` with a witness chain keeps every node witnessed. */
  lemma WitnessOne(scene: Scene, wires: seq<Wire>, ledIn: InId, v: set<PathState>, how: map<PathState, seq<Wire>>,
                   next: PathState, route: seq<Wire>)
    requires Witnessed(scene, wires, ledIn, v, how)
    requires Leads(scene, wires, ledIn, route, next)
    ensures Witnessed(scene, wires, ledIn, v + {next}, how[next := route])
  {
  }

  /** The push branch of the innermost loop keeps the loop's bookkeeping. */
  lemma PushOne(universe: set<PathState>, inputs: seq<InId>, flag: bool, j: nat,
                visited: set<PathState>, stack: seq<PathState>, v: set<PathState>, s: seq<PathState>)
    requires j < |inputs|
    requires PathState(inputs[j], flag) in universe && PathState(inputs[j], flag) !in v
    requires Grew(universe, visited, stack, v, s)
    requires forall x :: x in v - visited ==> x.foundGate == flag && x.input in inputs
    requires forall j' :: 0 <= j' < j ==> PathState(inputs[j'], flag) in v
    ensures Grew(universe, visited, stack, v + {PathState(inputs[j], flag)}, s + [PathState(inputs[j], flag)])
    ensures forall x :: x in (v + {PathState(inputs[j], flag)}) - visited ==> x.foundGate == flag && x.input in inputs
    ensures forall j' :: 0 <= j' < j + 1 ==> PathState(inputs[j'], flag) in v + {PathState(inputs[j], flag)}
  {
    GrowOne(universe, visited, stack, v, s, PathState(inputs[j], flag));
  }

  /**
    The innermost loop of the search: push `(gi, flag)` for every input `gi` of
    the gate just reached, unless that node was visited before.
   */
  method PushGateInputs(ghost scene: Scene, ghost wires: seq<Wire>, ghost ledIn: InId, ghost universe: set<PathState>,
                        inputs: seq<InId>, flag: bool, ghost route: seq<Wire>,
                        stack: seq<PathState>, visited: set<PathState>, ghost how: map<PathState, seq<Wire>>)
    returns (stack': seq<PathState>, visited': set<PathState>, ghost how': map<PathState, seq<Wire>>)
    requires visited <= universe
    requires forall j :: 0 <= j < |inputs| ==> PathState(inputs[j], flag) in universe
    requires forall j :: 0 <= j < |inputs| ==> Leads(scene, wires, ledIn, route, PathState(inputs[j], flag))
    requires Witnessed(scene, wires, ledIn, visited, how)
    requires forall i :: 0 <= i < |stack| ==> stack[i] in visited
    ensures Grew(universe, visited, stack, visited', stack')
    ensures forall x :: x in visited' - visited ==> x.foundGate == flag && x.input in inputs
    ensures Witnessed(scene, wires, ledIn, visited', how')
    ensures forall j :: 0 <= j < |inputs| ==> PathState(inputs[j], flag) in visited'
  {
    stack', visited', how' := stack, visited, how;
    GrewNothing(universe, visited, stack);
    for j := 0 to |inputs|
      invariant Grew(universe, visited, stack, visited', stack')
      invariant forall x :: x in visited' - visited ==> x.foundGate == flag && x.input in inputs
      invariant Witnessed(scene, wires, ledIn, visited', how')
      invariant forall j' :: 0 <= j' < j ==> PathState(inputs[j'], flag) in visited'
    {
      var next := PathState(inputs[j], flag);
      if next !in visited' {
        PushOne(universe, inputs, flag, j, visited, stack, visited', stack');
        WitnessOne(scene, wires, ledIn, visited', how', next, route);
        visited' := visited' + {next};
        stack' := stack' + [next];
        how' := how'[next := route];
      }
    }
  }

  /** The body of the wire loop: follow `wires[k]` out of `current` if it ends at `current`'s connector. */
  method FollowWire(scene: Scene, wires: seq<Wire>, ghost ledIn: InId, toggle: SwitchId, ghost universe: set<PathState>,
                    current: PathState, k: nat, stack: seq<PathState>, visited: set<PathState>, ghost how: map<PathState, seq<Wire>>)
    returns (found: bool, stack': seq<PathState>, visited': set<PathState>, ghost how': map<PathState, seq<Wire>>)
    requires k < |wires|
    requires universe == Universe(scene, wires, ledIn)
    requires visited <= universe && current in visited
    requires Witnessed(scene, wires, ledIn, visited, how)
    requires forall i :: 0 <= i < |stack| ==> stack[i] in visited
    ensures found ==> exists p :: GatedRoute(scene, wires, ledIn, toggle, p)
    ensures !found ==> Grew(universe, visited, stack, visited', stack')
    ensures !found ==> Witnessed(scene, wires, ledIn, visited', how')
    ensures !found ==> WireDone(scene, toggle, visited', current, wires[k])
    ensures !(wires[k].1 == current.input && Expandable(scene, wires[k].0)) ==> stack' == stack && visited' == visited
  {
    stack', visited', how' := stack, visited, how;
    GrewNothing(universe, visited, stack);
    var (outConn, inConn) := wires[k];
    if inConn == current.input {
      var owner := OwnerOf(scene, outConn);
      var newFoundGate := current.foundGate || owner.isGate;
      if owner.toggle.Some? {
        if owner.toggle.value == toggle && newFoundGate {
          ExtendLeads(scene, wires, ledIn, how[current], current, wires[k]);
          assert GatedRoute(scene, wires, ledIn, toggle, how[current] + [wires[k]]);
          return true, stack', visited', how';
        }
      } else if owner.isGate {
        ghost var route := how[current] + [wires[k]];
        ExtendLeads(scene, wires, ledIn, how[current], current, wires[k]);
        forall j | 0 <= j < |owner.gateInputs|
          ensures PathState(owner.gateInputs[j], newFoundGate) in universe
        {
          GateInputInUniverse(scene, wires, ledIn, k, j, newFoundGate);
        }
        stack', visited', how' := PushGateInputs(scene, wires, ledIn, universe, owner.gateInputs, newFoundGate, route,
                                                 stack, visited, how);
      }
    }
    return false, stack', visited', how';
  }

  lemma SubsetNoLarger(a: set<PathState>, b: set<PathState>)
    requires a <= b
    ensures |a| <= |b|
  {
    assert b * a == a;
    assert |b - a| == |b| - |a|;
  }

  /** Visiting a new node of the universe leaves fewer unvisited nodes. */
  lemma FewerUnvisited(universe: set<PathState>, v: set<PathState>, v': set<PathState>)
    requires v <= v' <= universe && v != v'
    ensures |universe - v'| < |universe - v|
  {
    assert !(v' <= v);
    var x :| x in v' && x !in v;
    var rest := (universe - v) - {x};
    assert (universe - v) * {x} == {x};
    assert |rest| == |universe - v| - 1;
    SubsetNoLarger(universe - v', rest);
  }

  /**
    After the top of `full` has been popped and expanded, every visited node
    that is no longer on the stack is fully expanded.
   */
  lemma DoneAfterExpand(scene: Scene, wires: seq<Wire>, toggle: SwitchId, universe: set<PathState>,
                        visited0: set<PathState>, full: seq<PathState>, visited: set<PathState>, stack: seq<PathState>)
    requires full != []
    requires forall s :: s in visited0 && s !in full ==> StateDone(scene, wires, toggle, visited0, s)
    requires Grew(universe, visited0, full[..|full| - 1], visited, stack)
    requires StateDone(scene, wires, toggle, visited, full[|full| - 1])
    ensures forall s :: s in visited && s !in stack ==> StateDone(scene, wires, toggle, visited, s)
  {
    var stack0 := full[..|full| - 1];
    forall s | s in visited && s !in stack
      ensures StateDone(scene, wires, toggle, visited, s)
    {
      if s != full[|full| - 1] {
        assert s in visited0;
        assert forall i :: 0 <= i < |stack0| ==> stack0[i] == stack[i];
        assert s !in stack0;
        assert full == stack0 + [full[|full| - 1]];
        StateDoneGrows(scene, wires, toggle, visited0, visited, s);
      }
    }
  }

  lemma GrewTwice(universe: set<PathState>, v0: set<PathState>, s0: seq<PathState>,
                  v1: set<PathState>, s1: seq<PathState>, v2: set<PathState>, s2: seq<PathState>)
    requires Grew(universe, v0, s0, v1, s1)
    requires Grew(universe, v1, s1, v2, s2)
    ensures Grew(universe, v0, s0, v2, s2)
  {
    assert s2[..|s0|] == s1[..|s1|][..|s0|];
    assert v2 - v0 == (v2 - v1) + (v1 - v0);
    assert (v2 - v1) * (v1 - v0) == {};
    forall i | |s0| <= i < |s2|
      ensures s2[i] !in v0
    {
      if i < |s1| {
        assert s2[i] == s1[i];
      }
    }
    forall s | s in v2 - v0
      ensures s in s2
    {
      if s in v1 {
        assert s in v1 - v0;
        var i :| 0 <= i < |s1| && s1[i] == s;
        assert s2[i] == s;
      }
    }
  }

  /** One more wire of `current` followed without success: the bookkeeping of the wire loop carries over. */
  lemma ExpandStep(scene: Scene, wires: seq<Wire>, toggle: SwitchId, universe: set<PathState>, current: PathState, k: nat,
                   v0: set<PathState>, s0: seq<PathState>, v1: set<PathState>, s1: seq<PathState>,
                   v2: set<PathState>, s2: seq<PathState>)
    requires k < |wires|
    requires Grew(universe, v0, s0, v1, s1) && Grew(universe, v1, s1, v2, s2)
    requires forall k' :: 0 <= k' < k ==> WireDone(scene, toggle, v1, current, wires[k'])
    requires WireDone(scene, toggle, v2, current, wires[k])
    ensures Grew(universe, v0, s0, v2, s2)
    ensures forall k' :: 0 <= k' < k + 1 ==> WireDone(scene, toggle, v2, current, wires[k'])
  {
    GrewTwice(universe, v0, s0, v1, s1, v2, s2);
    forall k' | 0 <= k' < k
      ensures WireDone(scene, toggle, v2, current, wires[k'])
    {
      assert WireDone(scene, toggle, v1, current, wires[k']);
    }
  }

  /**
    One iteration of the outer loop after the pop: follow every wire that ends
    at `current`'s connector. Answers true on reaching the queried switch with a
    gate crossed; otherwise `current` is left fully expanded.
   */
  method ExpandNode(scene: Scene, wires: seq<Wire>, ghost ledIn: InId, toggle: SwitchId, ghost universe: set<PathState>,
                    current: PathState, stack: seq<PathState>, visited: set<PathState>, ghost how: map<PathState, seq<Wire>>)
    returns (found: bool, stack': seq<PathState>, visited': set<PathState>, ghost how': map<PathState, seq<Wire>>)
    requires universe == Universe(scene, wires, ledIn)
    requires visited <= universe && current in visited
    requires Witnessed(scene, wires, ledIn, visited, how)
    requires forall i :: 0 <= i < |stack| ==> stack[i] in visited
    ensures found ==> exists p :: GatedRoute(scene, wires, ledIn, toggle, p)
    ensures !found ==> Grew(universe, visited, stack, visited', stack')
    ensures !found ==> Witnessed(scene, wires, ledIn, visited', how')
    ensures !found ==> StateDone(scene, wires, toggle, visited', current)
  {
    stack', visited', how' := stack, visited, how;
    GrewNothing(universe, visited, stack);
    for k := 0 to |wires|
      invariant Grew(universe, visited, stack, visited', stack')
      invariant Witnessed(scene, wires, ledIn, visited', how')
      invariant forall k' :: 0 <= k' < k ==> WireDone(scene, toggle, visited', current, wires[k'])
    {
      ghost var visited1, stack1 := visited', stack';
      var hit;
      hit, stack', visited', how' := FollowWire(scene, wires, ledIn, toggle, universe, current, k, stack', visited', how');
      if hit {
        return true, stack', visited', how';
      }
      ExpandStep(scene, wires, toggle, universe, current, k, visited, stack, visited1, stack1, visited', stack');
    }
    return false, stack', visited', how';
  }

  /**
    `QuizManager3.IsToggleSwitchConnected`: depth-first search with an explicit
    stack over (input connector, gate crossed) nodes, each pushed at most once.
    It terminates on any wiring, cycles included, and answers true exactly when a
    gate-crossing wire path joins the switch to the LED. A missing LED or LED
    input answers false.
   */
  method IsToggleSwitchConnected(scene: Scene, led: Option<Led>, toggle: SwitchId) returns (found: bool)
    ensures found <==> ConnectedThroughGate(scene, led, toggle)
  {
    if led.None? || led.value.input.None? {
      return false;
    }
    found := SearchFrom(scene, Wires(scene.managers), led.value.input.value, toggle);
  }

  /** The depth-first search from the LED's input over the merged wire index. */
  method SearchFrom(scene: Scene, wires: seq<Wire>, ledIn: InId, toggle: SwitchId) returns (found: bool)
    ensures found <==> exists p :: GatedRoute(scene, wires, ledIn, toggle, p)
  {
    var start := PathState(ledIn, false);
    ghost var universe := Universe(scene, wires, ledIn);
    assert start in universe;

    var stack := [start];
    var visited := {start};
    ghost var how: map<PathState, seq<Wire>> := map[start := []];

    while stack != []
      invariant visited <= universe
      invariant start in visited
      invariant forall i :: 0 <= i < |stack| ==> stack[i] in visited
      invariant Witnessed(scene, wires, ledIn, visited, how)
      invariant forall s :: s in visited && s !in stack ==> StateDone(scene, wires, toggle, visited, s)
      decreases |universe - visited|, |stack|
    {
      ghost var visited0, full := visited, stack;
      var current := stack[|stack| - 1];
      stack := stack[..|stack| - 1];
      var hit;
      hit, stack, visited, how := ExpandNode(scene, wires, ledIn, toggle, universe, current, stack, visited, how);
      if hit {
        return true;
      }
      DoneAfterExpand(scene, wires, toggle, universe, visited0, full, visited, stack);
      if visited != visited0 {
        FewerUnvisited(universe, visited0, visited);
      }
    }

    NoRouteFromClosedSet(scene, wires, ledIn, toggle, visited);
    return false;
  }
}
