/** What the variants of a subcircuit satisfy: the gates and initialisations
    append_gates emits, the basis changes of append_measurements, the
    input and output combinations, and the names the variants are stored
    under (src/constructor.py). */
module ConstructorProps {
  import opened Wrappers
  import opened Dicts
  import opened Constructor
  import Strings

  // ---------------------------------------------------------------------
  // Reading an event list

  /** The gates of an event list, in order. */
  function Gates(events: seq<Event>): seq<Event>
  {
    if |events| == 0 then []
    else Gates(events[..|events| - 1]) + (if events[|events| - 1].Gate? then [events[|events| - 1]] else [])
  }

  /** How many times local qubit l is initialised. */
  function InitCount(events: seq<Event>, l: nat): nat
  {
    if |events| == 0 then 0
    else
      var e := events[|events| - 1];
      InitCount(events[..|events| - 1], l) + (if e.Initialize? && e.qubit == l then 1 else 0)
  }

  lemma GatesSnoc(events: seq<Event>, e: Event)
    ensures Gates(events + [e]) == Gates(events) + (if e.Gate? then [e] else [])
  {
    assert (events + [e])[..|events|] == events;
  }

  lemma InitCountSnoc(events: seq<Event>, e: Event, l: nat)
    ensures InitCount(events + [e], l) == InitCount(events, l) + (if e.Initialize? && e.qubit == l then 1 else 0)
  {
    assert (events + [e])[..|events|] == events;
  }

  // ---------------------------------------------------------------------
  // One node's initialisations

  /** The events InitPrefix adds are initialisations of the node's own
      qubits, and the qubits it marks done are the node's qubits that have an
      initial state. */
  lemma {:induction false} InitPrefixShape(st: Emission, qargs: seq<Qubit>, k: nat, initMap: map<Qubit, InitState>,
                                          qbitMapping: map<Qubit, nat>)
    requires k <= |qargs| && InitPrefix(st, qargs, k, initMap, qbitMapping).Some?
    ensures var st' := InitPrefix(st, qargs, k, initMap, qbitMapping).value;
            |st.events| <= |st'.events| && st'.events[..|st.events|] == st.events &&
            (forall i :: |st.events| <= i < |st'.events| ==>
               st'.events[i].Initialize? &&
               exists j :: 0 <= j < k && qargs[j] in qbitMapping && st'.events[i].qubit == qbitMapping[qargs[j]])
  {
    if k > 0 {
      InitPrefixShape(st, qargs, k - 1, initMap, qbitMapping);
      var prev := InitPrefix(st, qargs, k - 1, initMap, qbitMapping).value;
      var st' := InitPrefix(st, qargs, k, initMap, qbitMapping).value;
      var qb := qargs[k - 1];
      if qb in initMap && qb !in prev.done {
        assert st'.events == prev.events + [Initialize(qbitMapping[qb], initMap[qb])];
      } else {
        assert st' == prev;
      }
      forall i | |st.events| <= i < |st'.events|
        ensures st'.events[i].Initialize? &&
                exists j :: 0 <= j < k && qargs[j] in qbitMapping && st'.events[i].qubit == qbitMapping[qargs[j]]
      {
        if i < |prev.events| {
          assert st'.events[i] == prev.events[i];
          var j :| 0 <= j < k - 1 && qargs[j] in qbitMapping && prev.events[i].qubit == qbitMapping[qargs[j]];
        } else {
          assert qargs[k - 1] in qbitMapping && st'.events[i].qubit == qbitMapping[qargs[k - 1]];
        }
      }
    }
  }

  lemma {:induction false} InitPrefixDone(st: Emission, qargs: seq<Qubit>, k: nat, initMap: map<Qubit, InitState>,
                                         qbitMapping: map<Qubit, nat>)
    requires k <= |qargs| && InitPrefix(st, qargs, k, initMap, qbitMapping).Some?
    ensures var st' := InitPrefix(st, qargs, k, initMap, qbitMapping).value;
            forall q :: q in st'.done <==> q in st.done || (q in initMap && q in qargs[..k])
  {
    if k > 0 {
      InitPrefixDone(st, qargs, k - 1, initMap, qbitMapping);
      assert qargs[..k] == qargs[..k - 1] + [qargs[k - 1]];
    }
  }

  // ---------------------------------------------------------------------
  // The initialisations agree with the init map

  /** Each qubit marked done has an initial state and a local index, was
      initialised once with its state, and is in the `initialized`
      dictionary under its index; a qubit not done was never initialised,
      and the dictionary holds nothing else. */
  ghost predicate InitsAgree(st: Emission, initMap: map<Qubit, InitState>, qbitMapping: map<Qubit, nat>)
  {
    InitEventsAgree(st, initMap, qbitMapping) && InitDictAgrees(st, initMap, qbitMapping)
  }

  /** The events side of InitsAgree. */
  ghost predicate InitEventsAgree(st: Emission, initMap: map<Qubit, InitState>, qbitMapping: map<Qubit, nat>)
  {
    (forall qb :: qb in st.done ==> qb in initMap && qb in qbitMapping) &&
    (forall qb :: qb in initMap && qb in qbitMapping ==>
       InitCount(st.events, qbitMapping[qb]) == (if qb in st.done then 1 else 0)) &&
    (forall qb :: qb in st.done ==> Initialize(qbitMapping[qb], initMap[qb]) in st.events)
  }

  /** The dictionary side of InitsAgree. */
  ghost predicate InitDictAgrees(st: Emission, initMap: map<Qubit, InitState>, qbitMapping: map<Qubit, nat>)
  {
    Valid(st.initialized) &&
    (forall qb :: qb in st.done ==> qb in initMap && qb in qbitMapping && Get(st.initialized, qbitMapping[qb]) == Some(initMap[qb])) &&
    (forall l :: l in st.initialized.values ==> exists qb :: qb in st.done && qb in qbitMapping && qbitMapping[qb] == l)
  }

  lemma StartAgrees(initMap: map<Qubit, InitState>, qbitMapping: map<Qubit, nat>)
    ensures InitsAgree(Start(), initMap, qbitMapping)
  {
  }

  lemma InitQubitAgrees(st: Emission, qb: Qubit, initMap: map<Qubit, InitState>, qbitMapping: map<Qubit, nat>)
    requires Injective(qbitMapping) && InitsAgree(st, initMap, qbitMapping)
    requires InitQubit(st, qb, initMap, qbitMapping).Some?
    ensures InitsAgree(InitQubit(st, qb, initMap, qbitMapping).value, initMap, qbitMapping)
  {
    InitQubitEvents(st, qb, initMap, qbitMapping);
    InitQubitDict(st, qb, initMap, qbitMapping);
  }

  lemma InitQubitEvents(st: Emission, qb: Qubit, initMap: map<Qubit, InitState>, qbitMapping: map<Qubit, nat>)
    requires Injective(qbitMapping) && InitEventsAgree(st, initMap, qbitMapping)
    requires InitQubit(st, qb, initMap, qbitMapping).Some?
    ensures InitEventsAgree(InitQubit(st, qb, initMap, qbitMapping).value, initMap, qbitMapping)
  {
    if qb in initMap && qb !in st.done {
      var l := qbitMapping[qb];
      var e := Initialize(l, initMap[qb]);
      var st' := InitQubit(st, qb, initMap, qbitMapping).value;
      assert st'.events == st.events + [e] && st'.done == st.done + {qb};
      forall q | q in initMap && q in qbitMapping
        ensures InitCount(st'.events, qbitMapping[q]) == (if q in st'.done then 1 else 0)
      {
        InitCountSnoc(st.events, e, qbitMapping[q]);
      }
      forall q | q in st'.done ensures Initialize(qbitMapping[q], initMap[q]) in st'.events {
        if q != qb {
          assert Initialize(qbitMapping[q], initMap[q]) in st.events;
        }
      }
    }
  }

  lemma InitQubitDict(st: Emission, qb: Qubit, initMap: map<Qubit, InitState>, qbitMapping: map<Qubit, nat>)
    requires Injective(qbitMapping) && InitDictAgrees(st, initMap, qbitMapping)
    requires InitQubit(st, qb, initMap, qbitMapping).Some?
    ensures InitDictAgrees(InitQubit(st, qb, initMap, qbitMapping).value, initMap, qbitMapping)
  {
    if qb in initMap && qb !in st.done {
      var l := qbitMapping[qb];
      var st' := InitQubit(st, qb, initMap, qbitMapping).value;
      assert st'.initialized == Put(st.initialized, l, initMap[qb]) && st'.done == st.done + {qb};
      forall l' | l' in st'.initialized.values
        ensures exists q :: q in st'.done && q in qbitMapping && qbitMapping[q] == l'
      {
        if l' != l {
          assert Get(st.initialized, l') == Get(st'.initialized, l');
          var q :| q in st.done && q in qbitMapping && qbitMapping[q] == l';
          assert q in st'.done;
        } else {
          assert qb in st'.done;
        }
      }
    }
  }

  lemma {:induction false} InitPrefixAgrees(st: Emission, qargs: seq<Qubit>, k: nat, initMap: map<Qubit, InitState>,
                                           qbitMapping: map<Qubit, nat>)
    requires Injective(qbitMapping) && InitsAgree(st, initMap, qbitMapping)
    requires k <= |qargs| && InitPrefix(st, qargs, k, initMap, qbitMapping).Some?
    ensures InitsAgree(InitPrefix(st, qargs, k, initMap, qbitMapping).value, initMap, qbitMapping)
  {
    if k > 0 {
      InitPrefixAgrees(st, qargs, k - 1, initMap, qbitMapping);
      InitQubitAgrees(InitPrefix(st, qargs, k - 1, initMap, qbitMapping).value, qargs[k - 1], initMap, qbitMapping);
    }
  }

  lemma GateAgrees(st: Emission, g: Event, initMap: map<Qubit, InitState>, qbitMapping: map<Qubit, nat>)
    requires InitsAgree(st, initMap, qbitMapping) && g.Gate?
    ensures InitsAgree(st.(events := st.events + [g]), initMap, qbitMapping)
  {
    forall q | q in initMap && q in qbitMapping
      ensures InitCount(st.events + [g], qbitMapping[q]) == InitCount(st.events, qbitMapping[q])
    {
      InitCountSnoc(st.events, g, qbitMapping[q]);
    }
  }

  // ---------------------------------------------------------------------
  // Node by node

  /** The nodes whose gates go into the subcircuit, in DAG order. */
  ghost function Selected(nodes: seq<Node>, vertices: set<int>, idMapping: map<int, int>): seq<Node>
    requires Mapped(nodes, idMapping)
  {
    if |nodes| == 0 then []
    else
      var last := nodes[|nodes| - 1];
      Selected(nodes[..|nodes| - 1], vertices, idMapping) + (if Emits(last, vertices, idMapping) then [last] else [])
  }

  /** The qubits those nodes act on. */
  ghost function SelectedQubits(nodes: seq<Node>, vertices: set<int>, idMapping: map<int, int>): set<Qubit>
    requires Mapped(nodes, idMapping)
  {
    if |nodes| == 0 then {}
    else
      var last := nodes[|nodes| - 1];
      SelectedQubits(nodes[..|nodes| - 1], vertices, idMapping)
        + (if Emits(last, vertices, idMapping) then set q | q in last.qargs else {})
  }

  /** Appending initialisations adds no gate. */
  lemma {:induction false} GatesAfterInits(a: seq<Event>, b: seq<Event>)
    requires |a| <= |b| && b[..|a|] == a
    requires forall i :: |a| <= i < |b| ==> b[i].Initialize?
    ensures Gates(b) == Gates(a)
    decreases |b|
  {
    if |b| > |a| {
      assert b[..|b| - 1][..|a|] == a;
      GatesAfterInits(a, b[..|b| - 1]);
    } else {
      assert b == a;
    }
  }

  lemma EmittedStep(nodes: seq<Node>, k: nat, vertices: set<int>, initMap: map<Qubit, InitState>,
                    idMapping: map<int, int>, qbitMapping: map<Qubit, nat>)
    requires 0 < k <= |nodes| && Emitted(nodes, k, vertices, initMap, idMapping, qbitMapping).Some?
    ensures Emitted(nodes, k - 1, vertices, initMap, idMapping, qbitMapping).Some?
    ensures nodes[k - 1].id in idMapping
    ensures NodeStep(Emitted(nodes, k - 1, vertices, initMap, idMapping, qbitMapping).value, nodes[k - 1], vertices,
                     initMap, idMapping, qbitMapping) == Emitted(nodes, k, vertices, initMap, idMapping, qbitMapping)
    ensures nodes[..k][..k - 1] == nodes[..k - 1] && nodes[..k][k - 1] == nodes[k - 1]
  {
  }

  lemma {:induction false} EmittedMapped(nodes: seq<Node>, k: nat, vertices: set<int>, initMap: map<Qubit, InitState>,
                                        idMapping: map<int, int>, qbitMapping: map<Qubit, nat>)
    requires k <= |nodes| && Emitted(nodes, k, vertices, initMap, idMapping, qbitMapping).Some?
    ensures Mapped(nodes[..k], idMapping)
  {
    if k > 0 {
      EmittedStep(nodes, k, vertices, initMap, idMapping, qbitMapping);
      EmittedMapped(nodes, k - 1, vertices, initMap, idMapping, qbitMapping);
    }
  }

  /** append_gates emits, in DAG order, the gate of every node of the
      subcircuit that is not a measurement, and no other gate. */
  lemma {:induction false} EmittedGates(nodes: seq<Node>, k: nat, vertices: set<int>, initMap: map<Qubit, InitState>,
                                       idMapping: map<int, int>, qbitMapping: map<Qubit, nat>)
    requires k <= |nodes| && Emitted(nodes, k, vertices, initMap, idMapping, qbitMapping).Some?
    ensures Mapped(nodes[..k], idMapping)
    ensures var g := Gates(Emitted(nodes, k, vertices, initMap, idMapping, qbitMapping).value.events);
            var sel := Selected(nodes[..k], vertices, idMapping);
            |g| == |sel| && forall i :: 0 <= i < |sel| ==> GateOf(sel[i], qbitMapping) == Some(g[i])
  {
    EmittedMapped(nodes, k, vertices, initMap, idMapping, qbitMapping);
    if k > 0 {
      EmittedStep(nodes, k, vertices, initMap, idMapping, qbitMapping);
      EmittedGates(nodes, k - 1, vertices, initMap, idMapping, qbitMapping);
      var st := Emitted(nodes, k - 1, vertices, initMap, idMapping, qbitMapping).value;
      var st' := Emitted(nodes, k, vertices, initMap, idMapping, qbitMapping).value;
      var node := nodes[k - 1];
      if Emits(node, vertices, idMapping) {
        var inited := InitPrefix(st, node.qargs, |node.qargs|, initMap, qbitMapping).value;
        InitPrefixShape(st, node.qargs, |node.qargs|, initMap, qbitMapping);
        GatesAfterInits(st.events, inited.events);
        var gate := GateOf(node, qbitMapping).value;
        assert st'.events == inited.events + [gate];
        GatesSnoc(inited.events, gate);
      }
    }
  }

  /** The qubits marked done are exactly the selected nodes' qubits that have
      an initial state. */
  lemma {:induction false} EmittedDone(nodes: seq<Node>, k: nat, vertices: set<int>, initMap: map<Qubit, InitState>,
                                      idMapping: map<int, int>, qbitMapping: map<Qubit, nat>)
    requires k <= |nodes| && Emitted(nodes, k, vertices, initMap, idMapping, qbitMapping).Some?
    ensures Mapped(nodes[..k], idMapping)
    ensures forall q :: q in Emitted(nodes, k, vertices, initMap, idMapping, qbitMapping).value.done <==>
                        q in initMap && q in SelectedQubits(nodes[..k], vertices, idMapping)
  {
    EmittedMapped(nodes, k, vertices, initMap, idMapping, qbitMapping);
    if k > 0 {
      EmittedStep(nodes, k, vertices, initMap, idMapping, qbitMapping);
      EmittedDone(nodes, k - 1, vertices, initMap, idMapping, qbitMapping);
      var st := Emitted(nodes, k - 1, vertices, initMap, idMapping, qbitMapping).value;
      var node := nodes[k - 1];
      if Emits(node, vertices, idMapping) {
        InitPrefixDone(st, node.qargs, |node.qargs|, initMap, qbitMapping);
        assert node.qargs[..|node.qargs|] == node.qargs;
      }
    }
  }

  lemma {:induction false} EmittedAgrees(nodes: seq<Node>, k: nat, vertices: set<int>, initMap: map<Qubit, InitState>,
                                        idMapping: map<int, int>, qbitMapping: map<Qubit, nat>)
    requires Injective(qbitMapping)
    requires k <= |nodes| && Emitted(nodes, k, vertices, initMap, idMapping, qbitMapping).Some?
    ensures InitsAgree(Emitted(nodes, k, vertices, initMap, idMapping, qbitMapping).value, initMap, qbitMapping)
  {
    if k == 0 {
      StartAgrees(initMap, qbitMapping);
    } else {
      EmittedStep(nodes, k, vertices, initMap, idMapping, qbitMapping);
      EmittedAgrees(nodes, k - 1, vertices, initMap, idMapping, qbitMapping);
      var st := Emitted(nodes, k - 1, vertices, initMap, idMapping, qbitMapping).value;
      var node := nodes[k - 1];
      if Emits(node, vertices, idMapping) {
        InitPrefixAgrees(st, node.qargs, |node.qargs|, initMap, qbitMapping);
        var inited := InitPrefix(st, node.qargs, |node.qargs|, initMap, qbitMapping).value;
        GateAgrees(inited, GateOf(node, qbitMapping).value, initMap, qbitMapping);
      }
    }
  }

  // ---------------------------------------------------------------------
  // Where the initialisations sit

  /** Every gate that touches a qubit with an initial state comes after that
      qubit's initialisation. */
  ghost predicate InitBeforeUse(events: seq<Event>, initMap: map<Qubit, InitState>, qbitMapping: map<Qubit, nat>)
  {
    forall p, qb ::
      0 <= p < |events| && events[p].Gate? && qb in initMap && qb in qbitMapping && qbitMapping[qb] in events[p].qubits
      ==> Initialize(qbitMapping[qb], initMap[qb]) in events[..p]
  }

  /** After the initialisation at p come only initialisations up to a gate
      that uses the initialised qubit. */
  ghost predicate NextGateUses(events: seq<Event>, p: nat)
    requires p < |events| && events[p].Initialize?
  {
    exists g :: p < g < |events| && events[g].Gate? && events[p].qubit in events[g].qubits &&
                forall m :: p < m < g ==> events[m].Initialize?
  }

  ghost predicate InitJustBefore(events: seq<Event>)
  {
    forall p :: 0 <= p < |events| && events[p].Initialize? ==> NextGateUses(events, p)
  }

  lemma NodeJustBefore(st: Emission, node: Node, vertices: set<int>, initMap: map<Qubit, InitState>,
                       idMapping: map<int, int>, qbitMapping: map<Qubit, nat>)
    requires node.id in idMapping && Emits(node, vertices, idMapping)
    requires NodeStep(st, node, vertices, initMap, idMapping, qbitMapping).Some?
    requires InitJustBefore(st.events)
    ensures InitJustBefore(NodeStep(st, node, vertices, initMap, idMapping, qbitMapping).value.events)
  {
    var inited := InitPrefix(st, node.qargs, |node.qargs|, initMap, qbitMapping).value;
    InitPrefixShape(st, node.qargs, |node.qargs|, initMap, qbitMapping);
    var gate := GateOf(node, qbitMapping).value;
    var evs := NodeStep(st, node, vertices, initMap, idMapping, qbitMapping).value.events;
    assert evs == inited.events + [gate];
    var last := |evs| - 1;
    forall p | 0 <= p < |evs| && evs[p].Initialize? ensures NextGateUses(evs, p) {
      if p < |st.events| {
        assert st.events[p] == evs[p];
        assert NextGateUses(st.events, p);
        var g :| p < g < |st.events| && st.events[g].Gate? && st.events[p].qubit in st.events[g].qubits &&
                 forall m :: p < m < g ==> st.events[m].Initialize?;
        assert evs[g] == st.events[g];
        assert forall m :: p < m < g ==> evs[m] == st.events[m];
      } else {
        var j :| 0 <= j < |node.qargs| && node.qargs[j] in qbitMapping && evs[p].qubit == qbitMapping[node.qargs[j]];
        assert gate.qubits[j] == evs[p].qubit;
        assert evs[last] == gate;
      }
    }
  }

  lemma NodeBeforeUse(st: Emission, node: Node, vertices: set<int>, initMap: map<Qubit, InitState>,
                      idMapping: map<int, int>, qbitMapping: map<Qubit, nat>)
    requires Injective(qbitMapping) && InitsAgree(st, initMap, qbitMapping)
    requires node.id in idMapping && Emits(node, vertices, idMapping)
    requires NodeStep(st, node, vertices, initMap, idMapping, qbitMapping).Some?
    requires InitBeforeUse(st.events, initMap, qbitMapping)
    ensures InitBeforeUse(NodeStep(st, node, vertices, initMap, idMapping, qbitMapping).value.events, initMap, qbitMapping)
  {
    var inited := InitPrefix(st, node.qargs, |node.qargs|, initMap, qbitMapping).value;
    InitPrefixShape(st, node.qargs, |node.qargs|, initMap, qbitMapping);
    InitPrefixDone(st, node.qargs, |node.qargs|, initMap, qbitMapping);
    InitPrefixAgrees(st, node.qargs, |node.qargs|, initMap, qbitMapping);
    assert node.qargs[..|node.qargs|] == node.qargs;
    var gate := GateOf(node, qbitMapping).value;
    var evs := NodeStep(st, node, vertices, initMap, idMapping, qbitMapping).value.events;
    assert evs == inited.events + [gate];
    forall p, qb | 0 <= p < |evs| && evs[p].Gate? && qb in initMap && qb in qbitMapping && qbitMapping[qb] in evs[p].qubits
      ensures Initialize(qbitMapping[qb], initMap[qb]) in evs[..p]
    {
      if p < |st.events| {
        assert st.events[p] == evs[p];
        assert evs[..p] == st.events[..p];
      } else {
        assert p == |evs| - 1;
        var j :| 0 <= j < |gate.qubits| && gate.qubits[j] == qbitMapping[qb];
        assert qbitMapping[node.qargs[j]] == qbitMapping[qb];
        assert node.qargs[j] == qb;
        assert qb in inited.done;
        assert evs[..p] == inited.events;
      }
    }
  }

  lemma {:induction false} EmittedOrder(nodes: seq<Node>, k: nat, vertices: set<int>, initMap: map<Qubit, InitState>,
                                       idMapping: map<int, int>, qbitMapping: map<Qubit, nat>)
    requires Injective(qbitMapping)
    requires k <= |nodes| && Emitted(nodes, k, vertices, initMap, idMapping, qbitMapping).Some?
    ensures var evs := Emitted(nodes, k, vertices, initMap, idMapping, qbitMapping).value.events;
            InitBeforeUse(evs, initMap, qbitMapping) && InitJustBefore(evs)
  {
    if k > 0 {
      EmittedStep(nodes, k, vertices, initMap, idMapping, qbitMapping);
      EmittedOrder(nodes, k - 1, vertices, initMap, idMapping, qbitMapping);
      EmittedAgrees(nodes, k - 1, vertices, initMap, idMapping, qbitMapping);
      var st := Emitted(nodes, k - 1, vertices, initMap, idMapping, qbitMapping).value;
      var node := nodes[k - 1];
      if Emits(node, vertices, idMapping) {
        NodeJustBefore(st, node, vertices, initMap, idMapping, qbitMapping);
        NodeBeforeUse(st, node, vertices, initMap, idMapping, qbitMapping);
      }
    }
  }

  /** append_gates as a whole (lines 98-119), with local indices that
      tell qubits apart: the gates of the selected nodes in DAG order; each
      qubit with an initial state is initialised exactly once if a selected
      node touches it and never otherwise, before every gate that uses it
      and followed only by initialisations up to a gate that uses it; the
      returned dictionary sends exactly these qubits' local indices to their
      states. */
  lemma AppendGatesSpec(nodes: seq<Node>, vertices: set<int>, initMap: map<Qubit, InitState>,
                        idMapping: map<int, int>, qbitMapping: map<Qubit, nat>)
    requires Injective(qbitMapping)
    requires Emitted(nodes, |nodes|, vertices, initMap, idMapping, qbitMapping).Some?
    ensures Mapped(nodes, idMapping)
    ensures var e := Emitted(nodes, |nodes|, vertices, initMap, idMapping, qbitMapping).value;
            var sel := Selected(nodes, vertices, idMapping);
            |Gates(e.events)| == |sel| &&
            forall i :: 0 <= i < |sel| ==> GateOf(sel[i], qbitMapping) == Some(Gates(e.events)[i])
    ensures var e := Emitted(nodes, |nodes|, vertices, initMap, idMapping, qbitMapping).value;
            var touched := SelectedQubits(nodes, vertices, idMapping);
            (forall qb :: qb in initMap && qb in touched ==> qb in qbitMapping) &&
            (forall qb :: qb in initMap && qb in qbitMapping ==>
               InitCount(e.events, qbitMapping[qb]) == if qb in touched then 1 else 0) &&
            InitBeforeUse(e.events, initMap, qbitMapping) && InitJustBefore(e.events)
    ensures var e := Emitted(nodes, |nodes|, vertices, initMap, idMapping, qbitMapping).value;
            var touched := SelectedQubits(nodes, vertices, idMapping);
            Valid(e.initialized) &&
            (forall qb :: qb in initMap && qb in touched ==> Get(e.initialized, qbitMapping[qb]) == Some(initMap[qb])) &&
            (forall l :: l in e.initialized.values ==>
               exists qb :: qb in initMap && qb in touched && qbitMapping[qb] == l)
  {
    assert nodes[..|nodes|] == nodes;
    EmittedGates(nodes, |nodes|, vertices, initMap, idMapping, qbitMapping);
    EmittedDone(nodes, |nodes|, vertices, initMap, idMapping, qbitMapping);
    EmittedAgrees(nodes, |nodes|, vertices, initMap, idMapping, qbitMapping);
    EmittedOrder(nodes, |nodes|, vertices, initMap, idMapping, qbitMapping);
    var e := Emitted(nodes, |nodes|, vertices, initMap, idMapping, qbitMapping).value;
    forall l | l in e.initialized.values
      ensures exists qb :: qb in initMap && qb in SelectedQubits(nodes, vertices, idMapping) && qbitMapping[qb] == l
    {
      var qb :| qb in e.done && qbitMapping[qb] == l;
    }
  }

  // ---------------------------------------------------------------------
  // append_measurements

  /** How many times e occurs in events. */
  function Occurrences(events: seq<Event>, e: Event): nat
  {
    if |events| == 0 then 0
    else Occurrences(events[..|events| - 1], e) + (if events[|events| - 1] == e then 1 else 0)
  }

  lemma {:induction false} OccurrencesAppend(a: seq<Event>, b: seq<Event>, e: Event)
    ensures Occurrences(a + b, e) == Occurrences(a, e) + Occurrences(b, e)
    decreases |b|
  {
    if |b| == 0 {
      assert a + b == a;
    } else {
      assert (a + b)[..|a + b| - 1] == a + b[..|b| - 1];
      OccurrencesAppend(a, b[..|b| - 1], e);
    }
  }

  predicate ChangesBasis(b: Basis)
  {
    b == X || b == Y
  }

  /** The basis changes are H and Sdg gates, and every Sdg is followed by an
      H on the same qubit. */
  ghost predicate BasisShape(events: seq<Event>)
  {
    (forall p :: 0 <= p < |events| ==> events[p].H? || events[p].Sdg?) &&
    (forall p :: 0 <= p < |events| && events[p].Sdg? ==> p + 1 < |events| && events[p + 1] == H(events[p].qubit))
  }

  /** One more pair of the loop at lines 142-153, read backwards. */
  lemma MeasureUnfold(qbs: seq<Qubit>, combo: seq<Basis>, k: nat, qbitMapping: map<Qubit, nat>)
    requires 0 < k <= |qbs| && k <= |combo| && MeasurePrefix(qbs, combo, k, qbitMapping).Some?
    ensures MeasurePrefix(qbs, combo, k - 1, qbitMapping).Some? && qbs[k - 1] in qbitMapping
    ensures var prev := MeasurePrefix(qbs, combo, k - 1, qbitMapping).value;
            var l := qbitMapping[qbs[k - 1]];
            MeasurePrefix(qbs, combo, k, qbitMapping).value == (prev.0 + BasisEvents(l, combo[k - 1]), Put(prev.1, l, combo[k - 1]))
  {
  }

  lemma {:induction false} MeasureOk(qbs: seq<Qubit>, combo: seq<Basis>, k: nat, qbitMapping: map<Qubit, nat>)
    requires k <= |qbs| && k <= |combo|
    ensures MeasurePrefix(qbs, combo, k, qbitMapping).Some? <==> forall i :: 0 <= i < k ==> qbs[i] in qbitMapping
  {
    if k > 0 {
      MeasureOk(qbs, combo, k - 1, qbitMapping);
    }
  }

  lemma {:induction false} MeasureShape(qbs: seq<Qubit>, combo: seq<Basis>, k: nat, qbitMapping: map<Qubit, nat>)
    requires k <= |qbs| && k <= |combo| && MeasurePrefix(qbs, combo, k, qbitMapping).Some?
    ensures BasisShape(MeasurePrefix(qbs, combo, k, qbitMapping).value.0)
  {
    if k > 0 {
      MeasureUnfold(qbs, combo, k, qbitMapping);
      MeasureShape(qbs, combo, k - 1, qbitMapping);
      BasisShapeAppend(MeasurePrefix(qbs, combo, k - 1, qbitMapping).value.0, qbitMapping[qbs[k - 1]], combo[k - 1]);
    }
  }

  lemma BasisShapeAppend(prev: seq<Event>, l: nat, b: Basis)
    requires BasisShape(prev)
    ensures BasisShape(prev + BasisEvents(l, b))
  {
    var evs := prev + BasisEvents(l, b);
    forall p | 0 <= p < |evs| && evs[p].Sdg? ensures p + 1 < |evs| && evs[p + 1] == H(evs[p].qubit) {
      if p < |prev| {
        assert evs[p] == prev[p];
      }
    }
  }

  /** With distinct qubits and local indices that tell them apart: the i-th
      qubit gets one H exactly when its basis is X or Y and one Sdg exactly
      when it is Y, a qubit not measured gets neither, and `measured` lists
      the local indices in order with their bases. */
  lemma MeasureCounts(qbs: seq<Qubit>, combo: seq<Basis>, k: nat, qbitMapping: map<Qubit, nat>)
    requires k <= |qbs| && k <= |combo| && MeasurePrefix(qbs, combo, k, qbitMapping).Some?
    requires Injective(qbitMapping) && Distinct(qbs)
    ensures var evs := MeasurePrefix(qbs, combo, k, qbitMapping).value.0;
            forall i :: 0 <= i < k ==>
              qbs[i] in qbitMapping &&
              Occurrences(evs, H(qbitMapping[qbs[i]])) == (if ChangesBasis(combo[i]) then 1 else 0) &&
              Occurrences(evs, Sdg(qbitMapping[qbs[i]])) == (if combo[i] == Y then 1 else 0)
    ensures var evs := MeasurePrefix(qbs, combo, k, qbitMapping).value.0;
            forall l: nat :: (forall i :: 0 <= i < k && qbs[i] in qbitMapping ==> qbitMapping[qbs[i]] != l) ==>
              Occurrences(evs, H(l)) == 0 && Occurrences(evs, Sdg(l)) == 0
  {
    forall i | 0 <= i < k
      ensures var evs := MeasurePrefix(qbs, combo, k, qbitMapping).value.0;
              qbs[i] in qbitMapping &&
              Occurrences(evs, H(qbitMapping[qbs[i]])) == (if ChangesBasis(combo[i]) then 1 else 0) &&
              Occurrences(evs, Sdg(qbitMapping[qbs[i]])) == (if combo[i] == Y then 1 else 0)
    {
      MeasureCountAt(qbs, combo, k, qbitMapping, i);
    }
    forall l: nat | forall i :: 0 <= i < k && qbs[i] in qbitMapping ==> qbitMapping[qbs[i]] != l
      ensures var evs := MeasurePrefix(qbs, combo, k, qbitMapping).value.0;
              Occurrences(evs, H(l)) == 0 && Occurrences(evs, Sdg(l)) == 0
    {
      MeasureCountOther(qbs, combo, k, qbitMapping, l);
    }
  }

  /** A local index no measured qubit has gets no basis change. */
  lemma {:induction false} MeasureCountOther(qbs: seq<Qubit>, combo: seq<Basis>, k: nat, qbitMapping: map<Qubit, nat>, l: nat)
    requires k <= |qbs| && k <= |combo| && MeasurePrefix(qbs, combo, k, qbitMapping).Some?
    requires forall i :: 0 <= i < k && qbs[i] in qbitMapping ==> qbitMapping[qbs[i]] != l
    ensures var evs := MeasurePrefix(qbs, combo, k, qbitMapping).value.0;
            Occurrences(evs, H(l)) == 0 && Occurrences(evs, Sdg(l)) == 0
  {
    if k > 0 {
      MeasureUnfold(qbs, combo, k, qbitMapping);
      MeasureCountOther(qbs, combo, k - 1, qbitMapping, l);
      OccurrencesOther(MeasurePrefix(qbs, combo, k - 1, qbitMapping).value.0, qbitMapping[qbs[k - 1]], combo[k - 1], l);
    }
  }

  /** The i-th measured qubit's basis changes. */
  lemma {:induction false} MeasureCountAt(qbs: seq<Qubit>, combo: seq<Basis>, k: nat, qbitMapping: map<Qubit, nat>, i: nat)
    requires i < k <= |qbs| && k <= |combo| && MeasurePrefix(qbs, combo, k, qbitMapping).Some?
    requires Injective(qbitMapping) && Distinct(qbs)
    ensures var evs := MeasurePrefix(qbs, combo, k, qbitMapping).value.0;
            qbs[i] in qbitMapping &&
            Occurrences(evs, H(qbitMapping[qbs[i]])) == (if ChangesBasis(combo[i]) then 1 else 0) &&
            Occurrences(evs, Sdg(qbitMapping[qbs[i]])) == (if combo[i] == Y then 1 else 0)
  {
    MeasureMapped(qbs, combo, k, qbitMapping, i);
    MeasureUnfold(qbs, combo, k, qbitMapping);
    var prev := MeasurePrefix(qbs, combo, k - 1, qbitMapping).value.0;
    var l := qbitMapping[qbs[k - 1]];
    if i < k - 1 {
      MeasureCountAt(qbs, combo, k - 1, qbitMapping, i);
      assert qbs[i] != qbs[k - 1];
      OccurrencesOther(prev, l, combo[k - 1], qbitMapping[qbs[i]]);
    } else {
      MeasureFreshIndex(qbs, combo, k - 1, qbitMapping);
      MeasureCountOther(qbs, combo, k - 1, qbitMapping, l);
      OccurrencesFresh(prev, l, combo[k - 1]);
    }
  }

  /** Changing another qubit's basis adds no H or Sdg on this one. */
  lemma OccurrencesOther(prev: seq<Event>, l: nat, b: Basis, l': nat)
    requires l != l'
    ensures Occurrences(prev + BasisEvents(l, b), H(l')) == Occurrences(prev, H(l'))
    ensures Occurrences(prev + BasisEvents(l, b), Sdg(l')) == Occurrences(prev, Sdg(l'))
  {
    OccurrencesAppend(prev, BasisEvents(l, b), H(l'));
    OccurrencesAppend(prev, BasisEvents(l, b), Sdg(l'));
    BasisOccurrences(l, b, l');
  }

  /** A qubit with no H or Sdg yet gets them from its own basis only. */
  lemma OccurrencesFresh(prev: seq<Event>, l: nat, b: Basis)
    requires Occurrences(prev, H(l)) == 0 && Occurrences(prev, Sdg(l)) == 0
    ensures Occurrences(prev + BasisEvents(l, b), H(l)) == (if ChangesBasis(b) then 1 else 0)
    ensures Occurrences(prev + BasisEvents(l, b), Sdg(l)) == (if b == Y then 1 else 0)
  {
    OccurrencesAppend(prev, BasisEvents(l, b), H(l));
    OccurrencesAppend(prev, BasisEvents(l, b), Sdg(l));
    BasisOccurrences(l, b, l);
  }

  lemma {:induction false} MeasureMapped(qbs: seq<Qubit>, combo: seq<Basis>, k: nat, qbitMapping: map<Qubit, nat>, i: nat)
    requires i < k <= |qbs| && k <= |combo| && MeasurePrefix(qbs, combo, k, qbitMapping).Some?
    ensures qbs[i] in qbitMapping
  {
    if i < k - 1 {
      MeasureMapped(qbs, combo, k - 1, qbitMapping, i);
    }
  }

  /** The next qubit's local index is not one measured before. */
  lemma MeasureFreshIndex(qbs: seq<Qubit>, combo: seq<Basis>, k: nat, qbitMapping: map<Qubit, nat>)
    requires k < |qbs| && k < |combo| && qbs[k] in qbitMapping
    requires Injective(qbitMapping) && Distinct(qbs)
    ensures forall j :: 0 <= j < k && qbs[j] in qbitMapping ==> qbitMapping[qbs[j]] != qbitMapping[qbs[k]]
  {
    forall j | 0 <= j < k && qbs[j] in qbitMapping ensures qbitMapping[qbs[j]] != qbitMapping[qbs[k]] {
      assert qbs[j] != qbs[k];
    }
  }

  lemma BasisOccurrences(l: nat, b: Basis, l': nat)
    ensures Occurrences(BasisEvents(l, b), H(l')) == (if l == l' && ChangesBasis(b) then 1 else 0)
    ensures Occurrences(BasisEvents(l, b), Sdg(l')) == (if l == l' && b == Y then 1 else 0)
  {
    var evs := BasisEvents(l, b);
    forall e ensures Occurrences([e], H(l')) == (if e == H(l') then 1 else 0) &&
                     Occurrences([e], Sdg(l')) == (if e == Sdg(l') then 1 else 0) {
      assert [e][..0] == [];
    }
    if b == Y {
      assert evs[..1] == [Sdg(l)];
    }
  }

  lemma MeasureDict(qbs: seq<Qubit>, combo: seq<Basis>, k: nat, qbitMapping: map<Qubit, nat>)
    requires k <= |qbs| && k <= |combo| && MeasurePrefix(qbs, combo, k, qbitMapping).Some?
    requires Injective(qbitMapping) && Distinct(qbs)
    ensures var measured := MeasurePrefix(qbs, combo, k, qbitMapping).value.1;
            Valid(measured) && |measured.keys| == k &&
            forall i :: 0 <= i < k ==> qbs[i] in qbitMapping && measured.keys[i] == qbitMapping[qbs[i]] &&
                                       Get(measured, qbitMapping[qbs[i]]) == Some(combo[i])
  {
    MeasureDictKeys(qbs, combo, k, qbitMapping);
    forall i | 0 <= i < k
      ensures Get(MeasurePrefix(qbs, combo, k, qbitMapping).value.1, qbitMapping[qbs[i]]) == Some(combo[i])
    {
      MeasureDictGet(qbs, combo, k, qbitMapping, i);
    }
  }

  lemma {:induction false} MeasureDictKeys(qbs: seq<Qubit>, combo: seq<Basis>, k: nat, qbitMapping: map<Qubit, nat>)
    requires k <= |qbs| && k <= |combo| && MeasurePrefix(qbs, combo, k, qbitMapping).Some?
    requires Injective(qbitMapping) && Distinct(qbs)
    ensures var measured := MeasurePrefix(qbs, combo, k, qbitMapping).value.1;
            Valid(measured) && |measured.keys| == k &&
            forall i :: 0 <= i < k ==> qbs[i] in qbitMapping && measured.keys[i] == qbitMapping[qbs[i]]
  {
    if k > 0 {
      MeasureUnfold(qbs, combo, k, qbitMapping);
      MeasureDictKeys(qbs, combo, k - 1, qbitMapping);
      FreshKey(MeasurePrefix(qbs, combo, k - 1, qbitMapping).value.1.keys, qbs, k - 1, qbitMapping);
    }
  }

  /** The next qubit's local index is not yet a key of `measured`. */
  lemma FreshKey(prevKeys: seq<nat>, qbs: seq<Qubit>, k: nat, qbitMapping: map<Qubit, nat>)
    requires k < |qbs| && qbs[k] in qbitMapping && Injective(qbitMapping) && Distinct(qbs)
    requires |prevKeys| == k && forall i :: 0 <= i < k ==> qbs[i] in qbitMapping && prevKeys[i] == qbitMapping[qbs[i]]
    ensures qbitMapping[qbs[k]] !in prevKeys
    ensures forall i :: 0 <= i <= k ==> qbs[i] in qbitMapping && (prevKeys + [qbitMapping[qbs[k]]])[i] == qbitMapping[qbs[i]]
  {
    forall i | 0 <= i < k ensures prevKeys[i] != qbitMapping[qbs[k]] {
      assert qbs[i] != qbs[k];
    }
  }

  lemma {:induction false} MeasureDictGet(qbs: seq<Qubit>, combo: seq<Basis>, k: nat, qbitMapping: map<Qubit, nat>, i: nat)
    requires i < k <= |qbs| && k <= |combo| && MeasurePrefix(qbs, combo, k, qbitMapping).Some?
    requires Injective(qbitMapping) && Distinct(qbs)
    ensures qbs[i] in qbitMapping &&
            Get(MeasurePrefix(qbs, combo, k, qbitMapping).value.1, qbitMapping[qbs[i]]) == Some(combo[i])
  {
    if i < k - 1 {
      MeasureDictGet(qbs, combo, k - 1, qbitMapping, i);
      assert qbs[i] != qbs[k - 1];
    }
  }

  // ---------------------------------------------------------------------
  // The input and output combinations

  function Power(b: nat, e: nat): nat
  {
    if e == 0 then 1 else Power(b, e - 1) * b
  }

  lemma {:induction false} ExtendLength<T>(prefixes: seq<seq<T>>, alphabet: seq<T>)
    ensures |Extend(prefixes, alphabet)| == |prefixes| * |alphabet|
  {
    if |prefixes| > 0 {
      ExtendLength(prefixes[..|prefixes| - 1], alphabet);
    }
  }

  /** There are |alphabet|^k combinations: 4^n for n cut qubits. */
  lemma {:induction false} ProductLength<T>(alphabet: seq<T>, k: nat)
    ensures |Product(alphabet, k)| == Power(|alphabet|, k)
  {
    if k > 0 {
      ProductLength(alphabet, k - 1);
      ExtendLength(Product(alphabet, k - 1), alphabet);
    }
  }

  lemma AppendMembers<T>(p: seq<T>, alphabet: seq<T>, c: seq<T>)
    ensures c in Append(p, alphabet) <==> |c| > 0 && c[..|c| - 1] == p && c[|c| - 1] in alphabet
  {
    var r := Append(p, alphabet);
    if c in r {
      var i :| 0 <= i < |r| && r[i] == c;
      assert c[..|c| - 1] == p;
    }
    if |c| > 0 && c[..|c| - 1] == p && c[|c| - 1] in alphabet {
      var i :| 0 <= i < |alphabet| && alphabet[i] == c[|c| - 1];
      assert r[i] == c;
    }
  }

  lemma {:induction false} ExtendMembers<T>(prefixes: seq<seq<T>>, alphabet: seq<T>, c: seq<T>)
    ensures c in Extend(prefixes, alphabet) <==> |c| > 0 && c[..|c| - 1] in prefixes && c[|c| - 1] in alphabet
  {
    if |prefixes| > 0 {
      var init := prefixes[..|prefixes| - 1];
      var last := prefixes[|prefixes| - 1];
      ExtendMembers(init, alphabet, c);
      AppendMembers(last, alphabet, c);
      assert prefixes == init + [last];
    }
  }

  /** Every letter of c is in the alphabet. */
  ghost predicate Word<T>(alphabet: seq<T>, c: seq<T>)
  {
    forall i :: 0 <= i < |c| ==> c[i] in alphabet
  }

  lemma WordSnoc<T>(alphabet: seq<T>, c: seq<T>)
    requires |c| > 0
    ensures Word(alphabet, c) <==> Word(alphabet, c[..|c| - 1]) && c[|c| - 1] in alphabet
  {
    if Word(alphabet, c[..|c| - 1]) && c[|c| - 1] in alphabet {
      forall i | 0 <= i < |c| ensures c[i] in alphabet {
        if i < |c| - 1 {
          assert c[..|c| - 1][i] == c[i];
        }
      }
    }
  }

  /** The combinations are exactly the words of length k over the alphabet. */
  lemma ProductMembers<T>(alphabet: seq<T>, k: nat, c: seq<T>)
    ensures c in Product(alphabet, k) <==> |c| == k && forall i :: 0 <= i < k ==> c[i] in alphabet
  {
    ProductWord(alphabet, k, c);
  }

  lemma {:induction false} ProductWord<T>(alphabet: seq<T>, k: nat, c: seq<T>)
    ensures c in Product(alphabet, k) <==> |c| == k && Word(alphabet, c)
  {
    if k == 0 {
      assert Product(alphabet, 0) == [[]];
    } else {
      ExtendMembers(Product(alphabet, k - 1), alphabet, c);
      if |c| > 0 {
        ProductWord(alphabet, k - 1, c[..|c| - 1]);
        WordSnoc(alphabet, c);
      }
    }
  }

  lemma DistinctAppend<T>(a: seq<T>, b: seq<T>)
    requires Distinct(a) && Distinct(b) && forall x :: x in a ==> x !in b
    ensures Distinct(a + b)
  {
    var r := a + b;
    forall i, j | 0 <= i < j < |r| ensures r[i] != r[j] {
      if i < |a| && j >= |a| {
        assert r[i] in a && r[j] == b[j - |a|];
      } else if i >= |a| {
        assert r[i] == b[i - |a|] && r[j] == b[j - |a|];
      }
    }
  }

  lemma {:induction false} ExtendDistinct<T>(prefixes: seq<seq<T>>, alphabet: seq<T>)
    requires Distinct(prefixes) && Distinct(alphabet)
    ensures Distinct(Extend(prefixes, alphabet))
  {
    if |prefixes| > 0 {
      var init := prefixes[..|prefixes| - 1];
      var last := prefixes[|prefixes| - 1];
      ExtendDistinct(init, alphabet);
      var row := Append(last, alphabet);
      forall i, j | 0 <= i < j < |row| ensures row[i] != row[j] {
        assert row[i][|last|] == alphabet[i] && row[j][|last|] == alphabet[j];
      }
      forall x | x in Extend(init, alphabet) ensures x !in row {
        ExtendMembers(init, alphabet, x);
        AppendMembers(last, alphabet, x);
        assert last !in init;
      }
      DistinctAppend(Extend(init, alphabet), row);
    }
  }

  /** No combination is listed twice. */
  lemma {:induction false} ProductDistinct<T>(alphabet: seq<T>, k: nat)
    requires Distinct(alphabet)
    ensures Distinct(Product(alphabet, k))
  {
    if k > 0 {
      ProductDistinct(alphabet, k - 1);
      ExtendDistinct(Product(alphabet, k - 1), alphabet);
    }
  }

  /** Four states and four bases: 4^n combinations for n cut qubits. */
  lemma CombinationCounts(nIn: nat, nOut: nat)
    ensures |Product(InitStates, nIn)| == Power(4, nIn) && Distinct(Product(InitStates, nIn))
    ensures |Product(Bases, nOut)| == Power(4, nOut) && Distinct(Product(Bases, nOut))
  {
    ProductLength(InitStates, nIn);
    ProductLength(Bases, nOut);
    ProductDistinct(InitStates, nIn);
    ProductDistinct(Bases, nOut);
  }

  // ---------------------------------------------------------------------
  // Variant names

  lemma IntToStringNoUnderscore(n: int)
    ensures forall i :: 0 <= i < |Strings.IntToString(n)| ==> Strings.IntToString(n)[i] != '_'
  {
    var d := Strings.NatToString(if n < 0 then -n else n);
    assert forall i :: 0 <= i < |d| ==> Strings.IsDigit(d[i]);
  }

  lemma NameRegroup(id: string, j1: string, j2: string)
    ensures "sub_" + id + "_in_" + j1 + "_out_" + j2 == "sub" + ['_'] + (id + ['_'] + ("in_" + j1 + "_out_" + j2))
  {
  }

  /** The second "_"-separated field of a variant's name is its subcircuit
      id: the field post-processing groups variants by. */
  lemma VariantNameField(subId: int, initialized: Dict<nat, InitState>, measured: Dict<nat, Basis>)
    requires KeysPresent(initialized) && KeysPresent(measured)
    ensures var parts := Strings.Split(VariantName(subId, initialized, measured), '_');
            |parts| > 1 && parts[0] == "sub" && parts[1] == Strings.IntToString(subId)
  {
    var id := Strings.IntToString(subId);
    var j1 := Strings.Join("_", InitParts(initialized));
    var j2 := Strings.Join("_", MeasureParts(measured));
    var rest := "in_" + j1 + "_out_" + j2;
    NameRegroup(id, j1, j2);
    Strings.SplitPrefix("sub", '_', id + ['_'] + rest);
    IntToStringNoUnderscore(subId);
    Strings.SplitPrefix(id, '_', rest);
  }

  /** The occurrences of c in all the parts together. */
  function SumCounts(parts: seq<string>, c: char): nat
  {
    if |parts| == 0 then 0 else SumCounts(parts[..|parts| - 1], c) + Strings.Count(parts[|parts| - 1], c)
  }

  lemma {:induction false} CountJoin(sep: string, parts: seq<string>, c: char)
    requires Strings.Count(sep, c) == 0
    ensures Strings.Count(Strings.Join(sep, parts), c) == SumCounts(parts, c)
  {
    if |parts| == 1 {
      assert parts[..0] == [];
    } else if |parts| > 1 {
      var init := parts[..|parts| - 1];
      CountJoin(sep, init, c);
      Strings.CountAppend(Strings.Join(sep, init), sep, c);
      Strings.CountAppend(Strings.Join(sep, init) + sep, parts[|parts| - 1], c);
    }
  }

  /** The letters the tests below look for. */
  predicate BasisLetter(c: char)
  {
    c == 'x' || c == 'y' || c == 'X' || c == 'Y'
  }

  lemma PartCount(q: nat, name: string, c: char)
    requires BasisLetter(c)
    ensures Strings.Count(Part(q, name), c) == Strings.Count(name, c)
  {
    var d := Strings.NatToString(q);
    Strings.CountAbsent(d, c);
    Strings.CountAbsent("q", c);
    Strings.CountAbsent("-", c);
    Strings.CountAppend("q", d, c);
    Strings.CountAppend("q" + d, "-", c);
    Strings.CountAppend("q" + d + "-", name, c);
  }

  /** The bases of a measured dictionary, in its order. */
  ghost function MeasuredBases(measured: Dict<nat, Basis>): seq<Basis>
    requires KeysPresent(measured)
  {
    seq(|measured.keys|, i requires 0 <= i < |measured.keys| => measured.values[measured.keys[i]])
  }

  /** How many of the bases are X or Y. */
  function XYCount(bases: seq<Basis>): nat
  {
    if |bases| == 0 then 0 else XYCount(bases[..|bases| - 1]) + (if ChangesBasis(bases[|bases| - 1]) then 1 else 0)
  }

  lemma {:induction false} InitPartsCount(parts: seq<string>, c: char)
    requires BasisLetter(c) && forall i :: 0 <= i < |parts| ==> Strings.Count(parts[i], c) == 0
    ensures SumCounts(parts, c) == 0
  {
    if |parts| > 0 {
      InitPartsCount(parts[..|parts| - 1], c);
    }
  }

  lemma {:induction false} MeasurePartsCount(parts: seq<string>, bases: seq<Basis>)
    requires |parts| == |bases|
    requires forall i :: 0 <= i < |parts| ==> Strings.Count(parts[i], 'x') == 0 && Strings.Count(parts[i], 'y') == 0
    requires forall i :: 0 <= i < |parts| ==>
               Strings.Count(parts[i], 'X') + Strings.Count(parts[i], 'Y') == if ChangesBasis(bases[i]) then 1 else 0
    ensures SumCounts(parts, 'x') == 0 && SumCounts(parts, 'y') == 0
    ensures SumCounts(parts, 'X') + SumCounts(parts, 'Y') == XYCount(bases)
  {
    if |parts| > 0 {
      MeasurePartsCount(parts[..|parts| - 1], bases[..|bases| - 1]);
    }
  }

  lemma StateLabelCount(st: InitState, c: char)
    requires BasisLetter(c)
    ensures Strings.Count(StateLabel(st), c) == 0
  {
    Strings.CountAbsent(StateLabel(st), c);
  }

  lemma BasisLabelCount(b: Basis)
    ensures Strings.Count(BasisLabel(b), 'x') == 0 && Strings.Count(BasisLabel(b), 'y') == 0
    ensures Strings.Count(BasisLabel(b), 'X') + Strings.Count(BasisLabel(b), 'Y') == if ChangesBasis(b) then 1 else 0
  {
    var s := BasisLabel(b);
    assert s[..0] == [];
  }

  lemma InitPartsZero(initialized: Dict<nat, InitState>, c: char)
    requires KeysPresent(initialized) && BasisLetter(c)
    ensures SumCounts(InitParts(initialized), c) == 0
  {
    var ip := InitParts(initialized);
    forall i | 0 <= i < |ip| ensures Strings.Count(ip[i], c) == 0 {
      var k := initialized.keys[i];
      PartCount(k, StateLabel(initialized.values[k]), c);
      StateLabelCount(initialized.values[k], c);
    }
    InitPartsCount(ip, c);
  }

  /** How often c occurs in a variant's name: only in its parts. */
  lemma NameCount(subId: int, initialized: Dict<nat, InitState>, measured: Dict<nat, Basis>, c: char)
    requires KeysPresent(initialized) && KeysPresent(measured) && BasisLetter(c)
    ensures Strings.Count(VariantName(subId, initialized, measured), c) ==
            SumCounts(InitParts(initialized), c) + SumCounts(MeasureParts(measured), c)
  {
    var id := Strings.IntToString(subId);
    var j1 := Strings.Join("_", InitParts(initialized));
    var j2 := Strings.Join("_", MeasureParts(measured));
    Strings.CountAbsent("sub_", c);
    Strings.CountAbsent("_in_", c);
    Strings.CountAbsent("_out_", c);
    Strings.CountAbsent("_", c);
    Strings.CountAbsent(id, c);
    CountJoin("_", InitParts(initialized), c);
    CountJoin("_", MeasureParts(measured), c);
    Strings.CountAppend("sub_", id, c);
    Strings.CountAppend("sub_" + id, "_in_", c);
    Strings.CountAppend("sub_" + id + "_in_", j1, c);
    Strings.CountAppend("sub_" + id + "_in_" + j1, "_out_", c);
    Strings.CountAppend("sub_" + id + "_in_" + j1 + "_out_", j2, c);
  }

  /** A variant's name holds no lowercase x or y; its uppercase X and Y are
      one per measured qubit whose basis is X or Y. */
  lemma VariantNameLetters(subId: int, initialized: Dict<nat, InitState>, measured: Dict<nat, Basis>)
    requires KeysPresent(initialized) && KeysPresent(measured)
    ensures var name := VariantName(subId, initialized, measured);
            Strings.Count(name, 'x') == 0 && Strings.Count(name, 'y') == 0 &&
            Strings.Count(name, 'X') + Strings.Count(name, 'Y') == XYCount(MeasuredBases(measured))
  {
    var ip := InitParts(initialized);
    var mp := MeasureParts(measured);
    var bases := MeasuredBases(measured);
    forall i | 0 <= i < |mp|
      ensures Strings.Count(mp[i], 'x') == 0 && Strings.Count(mp[i], 'y') == 0 &&
              Strings.Count(mp[i], 'X') + Strings.Count(mp[i], 'Y') == if ChangesBasis(bases[i]) then 1 else 0
    {
      var k := measured.keys[i];
      PartCount(k, BasisLabel(bases[i]), 'x');
      PartCount(k, BasisLabel(bases[i]), 'y');
      PartCount(k, BasisLabel(bases[i]), 'X');
      PartCount(k, BasisLabel(bases[i]), 'Y');
      BasisLabelCount(bases[i]);
    }
    InitPartsZero(initialized, 'x');
    InitPartsZero(initialized, 'y');
    InitPartsZero(initialized, 'X');
    InitPartsZero(initialized, 'Y');
    MeasurePartsCount(mp, bases);
    NameCount(subId, initialized, measured, 'x');
    NameCount(subId, initialized, measured, 'y');
    NameCount(subId, initialized, measured, 'X');
    NameCount(subId, initialized, measured, 'Y');
  }

  // ---------------------------------------------------------------------
  // Storing the variants by name

  /** Storing keeps the dictionary well formed and adds at most one key per
      variant. */
  lemma {:induction false} StoreValid(vs: seq<Variant>)
    ensures Valid(StoreInto(Empty(), vs)) && |StoreInto(Empty(), vs).keys| <= |vs|
  {
    if |vs| > 0 {
      StoreValid(vs[..|vs| - 1]);
    }
  }

  /** A name is a key of local_subcircuits exactly when some variant has it. */
  lemma {:induction false} StoreKeys(vs: seq<Variant>, n: string)
    ensures n in StoreInto(Empty(), vs).values <==> exists i :: 0 <= i < |vs| && vs[i].name == n
  {
    if |vs| > 0 {
      var init := vs[..|vs| - 1];
      StoreKeys(init, n);
      assert Get(StoreInto(Empty(), vs), n) == Get(Put(StoreInto(Empty(), init), vs[|vs| - 1].name, vs[|vs| - 1]), n);
      if exists i :: 0 <= i < |init| && init[i].name == n {
        var i :| 0 <= i < |init| && init[i].name == n;
        assert vs[i] == init[i];
      }
      if n != vs[|vs| - 1].name && exists i :: 0 <= i < |vs| && vs[i].name == n {
        var i :| 0 <= i < |vs| && vs[i].name == n;
        assert init[i] == vs[i];
      }
    }
  }

  /** The variant stored under a name is the last one with that name. */
  lemma {:induction false} StoreLast(vs: seq<Variant>, n: string)
    requires n in StoreInto(Empty(), vs).values
    ensures var v := StoreInto(Empty(), vs).values[n];
            v.name == n &&
            exists i :: 0 <= i < |vs| && v == vs[i] && forall j :: i < j < |vs| ==> vs[j].name != n
  {
    var init := vs[..|vs| - 1];
    var last := vs[|vs| - 1];
    var d := StoreInto(Empty(), vs);
    assert d == Put(StoreInto(Empty(), init), last.name, last);
    if n == last.name {
      assert Get(d, n) == Some(last);
      assert d.values[n] == vs[|vs| - 1];
    } else {
      assert Get(d, n) == Get(StoreInto(Empty(), init), n);
      StoreLast(init, n);
      var i :| 0 <= i < |init| && d.values[n] == init[i] && forall j :: i < j < |init| ==> init[j].name != n;
      assert vs[i] == init[i];
      forall j | i < j < |vs| ensures vs[j].name != n {
        if j < |vs| - 1 {
          assert vs[j] == init[j];
        }
      }
    }
  }

  // ---------------------------------------------------------------------
  // The variants built

  /** Sorting a set lists each member once: as many entries as members. */
  lemma OrderedLength(s: set<Qubit>)
    ensures |Ordered(s)| == |s|
  {
    var ss := Ordered(s);
    OrderedSpec(s);
    IncreasingDistinct(ss);
    PrefixCount(ss, |ss|);
    assert (set i | 0 <= i < |ss| :: ss[i]) == s by {
      forall q | q in s ensures q in (set i | 0 <= i < |ss| :: ss[i]) {
        var i :| 0 <= i < |ss| && ss[i] == q;
      }
    }
  }

  /** A numbering by rank uses the indices 0 .. |s| - 1, each once. */
  lemma NumberingValues(s: set<Qubit>)
    ensures forall q :: q in Numbering(s) ==> Numbering(s)[q] < |s|
    ensures forall l :: 0 <= l < |s| ==> l in Numbering(s).Values
  {
    OrderedSpec(s);
    OrderedLength(s);
    NumberingFromSorted(Ordered(s), s);
  }

  /** active_qubits = sorted(qbit_map.values()): 0, 1, ..., num - 1. */
  lemma PrepareActive(p: Plan, inCombo: seq<InitState>)
    requires Prepare(p, inCombo).Some?
    ensures var pr := Prepare(p, inCombo).value;
            forall l: nat :: l in Range(pr.num) <==> l in pr.qbitMap.Values
  {
    var pr := Prepare(p, inCombo).value;
    NumberingValues(Touched(p.vertices, p.nodes, p.idMapping));
    forall l: nat ensures l in Range(pr.num) <==> l in pr.qbitMap.Values {
      if l < pr.num {
        assert Range(pr.num)[l] == l;
      }
      if l in pr.qbitMap.Values {
        var q :| q in pr.qbitMap && pr.qbitMap[q] == l;
      }
    }
  }

  /** local_to_global sends the local index of each qubit to that qubit's
      position in the circuit, and has no other key. */
  lemma LocalToGlobalSpec(qbitMap: map<Qubit, nat>, circuitQubits: seq<Qubit>)
    requires Injective(qbitMap) && LocalToGlobal(qbitMap, circuitQubits).Some?
    ensures var l2g := LocalToGlobal(qbitMap, circuitQubits).value;
            (forall l :: l in l2g <==> l in qbitMap.Values) &&
            forall qb :: qb in qbitMap ==> l2g[qbitMap[qb]] < |circuitQubits| && circuitQubits[l2g[qbitMap[qb]]] == qb
  {
  }

  /** What every variant of one input combination carries. */
  ghost predicate WellFormed(p: Plan, v: Variant)
  {
    KeysPresent(v.initializedInfo) && KeysPresent(v.measuredInfo) &&
    v.name == VariantName(p.subId, v.initializedInfo, v.measuredInfo) &&
    v.subId == p.subId && v.shots == p.sub.shots && v.vertices == p.vertices && v.cutsInfo == p.sub.cutsInfo &&
    (forall l :: l in v.qbitMap <==> l in v.activeQubits)
  }

  lemma VariantOfWellFormed(p: Plan, pr: Prepared, outCombo: seq<Basis>)
    requires Injective(pr.qbitMap) && KeysPresent(pr.initialized)
    requires forall l: nat :: l in Range(pr.num) <==> l in pr.qbitMap.Values
    requires VariantOf(p, pr, outCombo).Some?
    ensures WellFormed(p, VariantOf(p, pr, outCombo).value)
  {
    LocalToGlobalSpec(pr.qbitMap, p.circuitQubits);
    MeasurePrefixValid(p.outQubits, outCombo, Min(|p.outQubits|, |outCombo|), pr.qbitMap);
  }

  lemma {:induction false} OutRowSpec(p: Plan, pr: Prepared, outCombos: seq<seq<Basis>>)
    requires Injective(pr.qbitMap) && KeysPresent(pr.initialized)
    requires forall l: nat :: l in Range(pr.num) <==> l in pr.qbitMap.Values
    requires OutRow(p, pr, outCombos).Some?
    ensures var row := OutRow(p, pr, outCombos).value;
            |row| == |outCombos| && forall i :: 0 <= i < |row| ==> WellFormed(p, row[i])
  {
    if |outCombos| > 0 {
      OutRowSpec(p, pr, outCombos[..|outCombos| - 1]);
      VariantOfWellFormed(p, pr, outCombos[|outCombos| - 1]);
    }
  }

  /** One variant per pair of combinations, each named after its subcircuit
      and its initialised and measured qubits, and carrying the
      subcircuit's id, shots, vertices and cuts_info. */
  lemma {:induction false} InRowsSpec(p: Plan, inCombos: seq<seq<InitState>>, outCombos: seq<seq<Basis>>)
    requires InRows(p, inCombos, outCombos).Some?
    ensures var vs := InRows(p, inCombos, outCombos).value;
            |vs| == |inCombos| * |outCombos| && forall i :: 0 <= i < |vs| ==> WellFormed(p, vs[i])
  {
    if |inCombos| > 0 {
      var inCombo := inCombos[|inCombos| - 1];
      InRowsSpec(p, inCombos[..|inCombos| - 1], outCombos);
      PrepareGood(p, inCombo);
      PrepareActive(p, inCombo);
      OutRowSpec(p, Prepare(p, inCombo).value, outCombos);
      var done := InRows(p, inCombos[..|inCombos| - 1], outCombos).value;
      var row := OutRow(p, Prepare(p, inCombo).value, outCombos).value;
      assert InRows(p, inCombos, outCombos).value == done + row;
      assert |done + row| == (|inCombos| - 1) * |outCombos| + |outCombos|;
    }
  }

  // ---------------------------------------------------------------------
  // Looking up nodes and cuts

  /** dag_nodes_dict (line 193): None is the KeyError of an unmapped node;
      otherwise its keys are the mapped ids, and each holds the last node
      mapped to it. */
  lemma NodesByIdSpec(nodes: seq<Node>, idMapping: map<int, int>)
    ensures NodesById(nodes, idMapping).Some? <==> Mapped(nodes, idMapping)
    ensures NodesById(nodes, idMapping).Some? ==>
              var m := NodesById(nodes, idMapping).value;
              (forall k :: k in m <==> exists i :: 0 <= i < |nodes| && idMapping[nodes[i].id] == k) &&
              forall k :: k in m ==>
                exists i :: 0 <= i < |nodes| && m[k] == nodes[i] && idMapping[nodes[i].id] == k &&
                            forall j :: i < j < |nodes| ==> idMapping[nodes[j].id] != k
  {
    NodesByIdSome(nodes, idMapping);
    if Mapped(nodes, idMapping) {
      forall k ensures k in NodesById(nodes, idMapping).value <==> exists i :: 0 <= i < |nodes| && idMapping[nodes[i].id] == k {
        NodesByIdKey(nodes, idMapping, k);
      }
      forall k | k in NodesById(nodes, idMapping).value
        ensures var m := NodesById(nodes, idMapping).value;
                exists i :: 0 <= i < |nodes| && m[k] == nodes[i] && idMapping[nodes[i].id] == k &&
                            forall j :: i < j < |nodes| ==> idMapping[nodes[j].id] != k
      {
        NodesByIdLast(nodes, idMapping, k);
      }
    }
  }

  lemma {:induction false} NodesByIdSome(nodes: seq<Node>, idMapping: map<int, int>)
    ensures NodesById(nodes, idMapping).Some? <==> Mapped(nodes, idMapping)
  {
    if |nodes| > 0 {
      var init := nodes[..|nodes| - 1];
      NodesByIdSome(init, idMapping);
      if !Mapped(init, idMapping) {
        var i :| 0 <= i < |init| && init[i].id !in idMapping;
        assert nodes[i] == init[i];
      } else {
        assert forall i :: 0 <= i < |init| ==> nodes[i] == init[i];
      }
    }
  }

  lemma {:induction false} NodesByIdKey(nodes: seq<Node>, idMapping: map<int, int>, k: int)
    requires Mapped(nodes, idMapping) && NodesById(nodes, idMapping).Some?
    ensures k in NodesById(nodes, idMapping).value <==> exists i :: 0 <= i < |nodes| && idMapping[nodes[i].id] == k
  {
    NodesByIdSome(nodes, idMapping);
    if |nodes| > 0 {
      var init := nodes[..|nodes| - 1];
      assert forall i :: 0 <= i < |init| ==> init[i] == nodes[i];
      NodesByIdKey(init, idMapping, k);
      if exists i :: 0 <= i < |nodes| && idMapping[nodes[i].id] == k {
        var i :| 0 <= i < |nodes| && idMapping[nodes[i].id] == k;
        if i < |init| {
          assert idMapping[init[i].id] == k;
        }
      }
    }
  }

  lemma {:induction false} NodesByIdLast(nodes: seq<Node>, idMapping: map<int, int>, k: int)
    requires NodesById(nodes, idMapping).Some? && k in NodesById(nodes, idMapping).value
    ensures Mapped(nodes, idMapping)
    ensures var m := NodesById(nodes, idMapping).value;
            exists i :: 0 <= i < |nodes| && m[k] == nodes[i] && idMapping[nodes[i].id] == k &&
                        forall j :: i < j < |nodes| ==> idMapping[nodes[j].id] != k
  {
    NodesByIdSome(nodes, idMapping);
    var init := nodes[..|nodes| - 1];
    var last := nodes[|nodes| - 1];
    assert forall i :: 0 <= i < |init| ==> init[i] == nodes[i];
    var m := NodesById(nodes, idMapping).value;
    if idMapping[last.id] == k {
      assert m[k] == nodes[|nodes| - 1];
    } else {
      NodesByIdLast(init, idMapping, k);
      var i :| 0 <= i < |init| && NodesById(init, idMapping).value[k] == init[i] && idMapping[init[i].id] == k &&
               forall j :: i < j < |init| ==> idMapping[init[j].id] != k;
      assert m[k] == nodes[i];
    }
  }

  /** The barrier filter of lines 203-204: None when a cut has no node;
      otherwise the non-barrier cuts, in their given order. */
  lemma {:induction false} NonBarrierSpec(cuts: seq<int>, byId: map<int, Node>)
    ensures NonBarrier(cuts, byId).Some? <==> forall i :: 0 <= i < |cuts| ==> cuts[i] in byId
    ensures NonBarrier(cuts, byId).Some? ==>
              var kept := NonBarrier(cuts, byId).value;
              |kept| <= |cuts| &&
              forall n :: n in kept <==> n in cuts && Strings.Lower(byId[n].op) != "barrier"
  {
    if |cuts| > 0 {
      var init := cuts[..|cuts| - 1];
      NonBarrierSpec(init, byId);
      if forall i :: 0 <= i < |init| ==> init[i] in byId {
        assert forall n :: n in cuts <==> n in init || n == cuts[|cuts| - 1];
      } else {
        var i :| 0 <= i < |init| && init[i] !in byId;
        assert cuts[i] == init[i];
      }
    }
  }

  /** cuts_in and cuts_out: the non-barrier cuts in increasing order,
      each as often as it was listed. */
  lemma CutNodesSpec(cuts: seq<int>, byId: map<int, Node>)
    ensures CutNodes(cuts, byId).Some? <==> forall i :: 0 <= i < |cuts| ==> cuts[i] in byId
    ensures CutNodes(cuts, byId).Some? ==>
              var r := CutNodes(cuts, byId).value;
              multiset(r) == multiset(NonBarrier(cuts, byId).value) &&
              (forall i, j :: 0 <= i < j < |r| ==> r[i] <= r[j]) &&
              forall n :: n in r <==> n in cuts && Strings.Lower(byId[n].op) != "barrier"
  {
    NonBarrierSpec(cuts, byId);
    if CutNodes(cuts, byId).Some? {
      var kept := NonBarrier(cuts, byId).value;
      var r := CutNodes(cuts, byId).value;
      Sorting.SortSpec(kept, IntLt);
      assert Sorting.StrictTotal(IntLt);
      assert Sorting.Sorted(r, IntLt);
      forall n ensures n in r <==> n in kept {
        assert n in r <==> n in multiset(r);
        assert n in kept <==> n in multiset(kept);
      }
    }
  }

  /** What generate_subcircuits returns for one subcircuit: a dictionary
      from variant names to variants, at most one entry per pair of an
      initial-state combination and a measurement-basis combination, each
      stored under its own name, carrying the subcircuit's id, shots,
      vertices and cuts_info. */
  lemma GeneratedSpec(subId: int, sub: SubcircuitSpec, nodes: seq<Node>, byId: map<int, Node>,
                      idMapping: map<int, int>, circuitQubits: seq<Qubit>)
    requires Generated(subId, sub, nodes, byId, idMapping, circuitQubits).Some?
    ensures var d := Generated(subId, sub, nodes, byId, idMapping, circuitQubits).value;
            var cutsIn := CutNodes(sub.cutsIn, byId).value;
            var cutsOut := CutNodes(sub.cutsOut, byId).value;
            Valid(d) &&
            |d.keys| <= Power(4, |CutQubits(cutsIn, byId)|) * Power(4, |CutQubits(cutsOut, byId)|) &&
            forall n :: n in d.values ==>
              var v := d.values[n];
              KeysPresent(v.initializedInfo) && KeysPresent(v.measuredInfo) &&
              n == v.name && n == VariantName(subId, v.initializedInfo, v.measuredInfo) &&
              v.subId == subId && v.shots == sub.shots && v.cutsInfo == sub.cutsInfo &&
              v.vertices == (set x | x in sub.vertices)
  {
    var cutsIn := CutNodes(sub.cutsIn, byId).value;
    var cutsOut := CutNodes(sub.cutsOut, byId).value;
    var inQubits := Ordered(CutQubits(cutsIn, byId));
    var outQubits := Ordered(CutQubits(cutsOut, byId));
    var p := Plan(subId, sub, (set v | v in sub.vertices), nodes, idMapping, circuitQubits, inQubits, outQubits);
    var inCombos := Product(InitStates, |inQubits|);
    var outCombos := Product(Bases, |outQubits|);
    var vs := InRows(p, inCombos, outCombos).value;
    InRowsSpec(p, inCombos, outCombos);
    CombinationCounts(|inQubits|, |outQubits|);
    OrderedLength(CutQubits(cutsIn, byId));
    OrderedLength(CutQubits(cutsOut, byId));
    StoreValid(vs);
    var d := StoreInto(Empty(), vs);
    forall n | n in d.values
      ensures var v := d.values[n];
              KeysPresent(v.initializedInfo) && KeysPresent(v.measuredInfo) &&
              n == v.name && n == VariantName(subId, v.initializedInfo, v.measuredInfo) &&
              v.subId == subId && v.shots == sub.shots && v.cutsInfo == sub.cutsInfo &&
              v.vertices == (set x | x in sub.vertices)
    {
      StoreLast(vs, n);
      var i :| 0 <= i < |vs| && d.values[n] == vs[i] && forall j :: i < j < |vs| ==> vs[j].name != n;
      assert WellFormed(p, vs[i]);
    }
  }
}
