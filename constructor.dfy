/** Building the variants of a subcircuit (src/constructor.py). A circuit is
    the list of events appended to it: state initialisations, gates, and the
    basis-change gates put in front of the measurements. */
module Constructor {
  import opened Wrappers
  import opened Dicts
  import Sorting
  import Strings

  // ---------------------------------------------------------------------
  // Qubits and their order

  /** A circuit qubit: its register's name and its index in the register. */
  datatype Qubit = Qubit(register: string, index: int)

  /** The sort key (register name, index), compared as a Python tuple. */
  predicate QubitLt(a: Qubit, b: Qubit)
  {
    Strings.StrLt(a.register, b.register) || (a.register == b.register && a.index < b.index)
  }

  lemma QubitLtIrreflexive(a: Qubit)
    ensures !QubitLt(a, a)
  {
    Strings.StrLtIrreflexive(a.register);
  }

  lemma QubitLtTransitive(a: Qubit, b: Qubit, c: Qubit)
    requires QubitLt(a, b) && QubitLt(b, c)
    ensures QubitLt(a, c)
  {
    if Strings.StrLt(a.register, b.register) && Strings.StrLt(b.register, c.register) {
      Strings.StrLtTransitive(a.register, b.register, c.register);
    }
  }

  lemma QubitLtConnected(a: Qubit, b: Qubit)
    requires a != b
    ensures QubitLt(a, b) || QubitLt(b, a)
  {
    if a.register != b.register {
      Strings.StrLtConnected(a.register, b.register);
    }
  }

  lemma QubitLtAsymmetric(a: Qubit, b: Qubit)
    requires QubitLt(a, b)
    ensures !QubitLt(b, a)
  {
    if QubitLt(b, a) {
      QubitLtTransitive(a, b, a);
      QubitLtIrreflexive(a);
    }
  }

  /** Each element ranked strictly below every later one. */
  ghost predicate Increasing(s: seq<Qubit>)
  {
    forall i, j :: 0 <= i < j < |s| ==> QubitLt(s[i], s[j])
  }

  /** In an increasing sequence the lower-ranked element comes first. */
  lemma IncreasingIndex(s: seq<Qubit>, i: nat, j: nat)
    requires Increasing(s) && i < |s| && j < |s| && QubitLt(s[i], s[j])
    ensures i < j
  {
    if i == j {
      QubitLtIrreflexive(s[i]);
    } else if j < i {
      QubitLtAsymmetric(s[j], s[i]);
    }
  }

  lemma IncreasingDistinct(s: seq<Qubit>)
    requires Increasing(s)
    ensures Distinct(s)
  {
    forall i, j | 0 <= i < j < |s| ensures s[i] != s[j] {
      QubitLtIrreflexive(s[i]);
    }
  }

  /** Inserting a new element into an increasing sequence keeps it increasing. */
  lemma {:induction false} InsertIncreasing(q: Qubit, s: seq<Qubit>)
    requires Increasing(s) && q !in s
    ensures Increasing(Sorting.Insert(q, s, QubitLt))
  {
    if |s| > 0 {
      if QubitLt(s[0], q) {
        InsertIncreasing(q, s[1..]);
        HeadBelowInsert(q, s);
      } else {
        InsertAtFront(q, s);
      }
    }
  }

  /** Inserted past the head, which stays below everything after it. */
  lemma HeadBelowInsert(q: Qubit, s: seq<Qubit>)
    requires Increasing(s) && |s| > 0 && QubitLt(s[0], q)
    requires Increasing(Sorting.Insert(q, s[1..], QubitLt))
    ensures Increasing(Sorting.Insert(q, s, QubitLt))
  {
    var rest := Sorting.Insert(q, s[1..], QubitLt);
    InsertMembers(q, s[1..]);
    forall j | 0 <= j < |rest| ensures QubitLt(s[0], rest[j]) {
      assert rest[j] in rest;
      HeadBelowMember(q, s, rest[j]);
    }
    ConsIncreasing(s[0], rest);
    assert Sorting.Insert(q, s, QubitLt) == [s[0]] + rest;
  }

  lemma HeadBelowMember(q: Qubit, s: seq<Qubit>, x: Qubit)
    requires Increasing(s) && |s| > 0 && QubitLt(s[0], q)
    requires x == q || x in s[1..]
    ensures QubitLt(s[0], x)
  {
    if x != q {
      var t := s[1..];
      var m :| 0 <= m < |t| && t[m] == x;
      assert s[m + 1] == x;
    }
  }

  lemma InsertMembers(q: Qubit, s: seq<Qubit>)
    ensures forall x :: x in Sorting.Insert(q, s, QubitLt) <==> x == q || x in s
  {
    var r := Sorting.Insert(q, s, QubitLt);
    forall x ensures x in r <==> x == q || x in s {
      assert x in r <==> x in multiset(r);
      assert x in s <==> x in multiset(s);
    }
  }

  lemma ConsIncreasing(h: Qubit, rest: seq<Qubit>)
    requires Increasing(rest) && forall j :: 0 <= j < |rest| ==> QubitLt(h, rest[j])
    ensures Increasing([h] + rest)
  {
    var r := [h] + rest;
    forall i, j | 0 <= i < j < |r| ensures QubitLt(r[i], r[j]) {
      assert r[j] == rest[j - 1];
      if i > 0 {
        assert r[i] == rest[i - 1];
      }
    }
  }

  /** Inserted in front of a head it ranks below. */
  lemma InsertAtFront(q: Qubit, s: seq<Qubit>)
    requires Increasing(s) && |s| > 0 && !QubitLt(s[0], q) && q !in s
    ensures Increasing(Sorting.Insert(q, s, QubitLt))
  {
    assert q != s[0];
    QubitLtConnected(s[0], q);
    forall j | 0 < j < |s| ensures QubitLt(q, s[j]) {
      QubitLtTransitive(q, s[0], s[j]);
    }
    assert Sorting.Insert(q, s, QubitLt) == [q] + s;
  }

  /** sorted(s, key=lambda q: (q._register.name, q._index)) on a set of
      qubits: each element once, in increasing order. */
  method SortQubits(s: set<Qubit>) returns (ss: seq<Qubit>)
    ensures Increasing(ss)
    ensures forall q :: q in ss <==> q in s
    ensures |ss| == |s|
    ensures ss == Ordered(s)
  {
    ss := [];
    var rest := s;
    while rest != {}
      invariant rest <= s
      invariant Increasing(ss)
      invariant forall q :: q in ss <==> q in s && q !in rest
      invariant |ss| + |rest| == |s|
      decreases |rest|
    {
      var q :| q in rest;
      InsertIncreasing(q, ss);
      var next := Sorting.Insert(q, ss, QubitLt);
      assert forall p :: p in next <==> p in multiset(ss) + multiset{q};
      ss := next;
      rest := rest - {q};
    }
    OrderedSpec(s);
    IncreasingUnique(ss, Ordered(s));
  }

  /** Some increasing sequence lists exactly the members of s. */
  lemma {:induction false} OrderedExists(s: set<Qubit>)
    ensures exists ss :: Increasing(ss) && forall q :: q in ss <==> q in s
    decreases |s|
  {
    if s == {} {
      assert Increasing([]) && forall q :: q in [] <==> q in s;
    } else {
      var x :| x in s;
      OrderedExists(s - {x});
      var ss :| Increasing(ss) && forall q :: q in ss <==> q in s - {x};
      InsertIncreasing(x, ss);
      InsertMembers(x, ss);
      var r := Sorting.Insert(x, ss, QubitLt);
      assert Increasing(r) && forall q :: q in r <==> q in s;
    }
  }

  /** The members of s in increasing order: what the sort at lines 51,
      206-209 and 214-217 produces. */
  ghost function Ordered(s: set<Qubit>): seq<Qubit>
  {
    OrderedExists(s);
    var ss :| Increasing(ss) && forall q :: q in ss <==> q in s;
    ss
  }

  lemma OrderedSpec(s: set<Qubit>)
    ensures Increasing(Ordered(s)) && forall q :: q in Ordered(s) <==> q in s
  {
  }

  /** Two increasing sequences with the same members are the same sequence. */
  lemma {:induction false} IncreasingUnique(a: seq<Qubit>, b: seq<Qubit>)
    requires Increasing(a) && Increasing(b) && forall q :: q in a <==> q in b
    ensures a == b
    decreases |a|
  {
    if |b| > 0 {
      assert b[0] in b;
    }
    if |a| > 0 {
      assert a[0] in a;
      assert |b| > 0;
      assert b[0] in b;
      if a[0] != b[0] {
        var i :| 0 <= i < |a| && a[i] == b[0];
        var j :| 0 <= j < |b| && b[j] == a[0];
        assert QubitLt(a[0], a[i]);
        QubitLtAsymmetric(a[0], b[0]);
      }
      IncreasingDistinct(a);
      IncreasingDistinct(b);
      forall q ensures q in a[1..] <==> q in b[1..] {
        TailMembers(a, q);
        TailMembers(b, q);
      }
      IncreasingUnique(a[1..], b[1..]);
      assert a == [a[0]] + a[1..] && b == [b[0]] + b[1..];
    }
  }

  lemma TailMembers(a: seq<Qubit>, q: Qubit)
    requires |a| > 0 && Distinct(a)
    ensures q in a[1..] <==> q in a && q != a[0]
  {
    if q in a[1..] {
      var k :| 0 <= k < |a[1..]| && a[1..][k] == q;
      assert a[k + 1] == q;
    }
    if q in a && q != a[0] {
      var k :| 0 <= k < |a| && a[k] == q;
      assert a[1..][k - 1] == q;
    }
  }

  // ---------------------------------------------------------------------
  // calculate_required_qubits

  /** A DAG operation node: its id, its operation's name and its qubits. */
  datatype Node = Node(id: int, op: string, qargs: seq<Qubit>)

  /** Every node's id has an entry in the id mapping (else KeyError). */
  ghost predicate Mapped(nodes: seq<Node>, idMapping: map<int, int>)
  {
    forall i :: 0 <= i < |nodes| ==> nodes[i].id in idMapping
  }

  /** The qubits of the nodes whose mapped id is one of the vertices. */
  function Touched(vertices: set<int>, nodes: seq<Node>, idMapping: map<int, int>): set<Qubit>
    requires Mapped(nodes, idMapping)
  {
    if |nodes| == 0 then {}
    else
      var last := nodes[|nodes| - 1];
      Touched(vertices, nodes[..|nodes| - 1], idMapping)
        + (if idMapping[last.id] in vertices then set q | q in last.qargs else {})
  }

  /** A qubit is touched exactly when some selected node acts on it. */
  lemma {:induction false} TouchedMeaning(vertices: set<int>, nodes: seq<Node>, idMapping: map<int, int>, q: Qubit)
    requires Mapped(nodes, idMapping)
    ensures q in Touched(vertices, nodes, idMapping) <==>
            exists i :: 0 <= i < |nodes| && idMapping[nodes[i].id] in vertices && q in nodes[i].qargs
  {
    if |nodes| > 0 {
      var init := nodes[..|nodes| - 1];
      TouchedMeaning(vertices, init, idMapping, q);
      if q in Touched(vertices, nodes, idMapping) && q !in Touched(vertices, init, idMapping) {
        assert idMapping[nodes[|nodes| - 1].id] in vertices && q in nodes[|nodes| - 1].qargs;
      }
      if i :| 0 <= i < |nodes| && idMapping[nodes[i].id] in vertices && q in nodes[i].qargs {
        if i < |nodes| - 1 {
          assert init[i] == nodes[i];
        }
      }
    }
  }

  /** The local index of each qubit: how many qubits of s rank below it. */
  function Numbering(s: set<Qubit>): (m: map<Qubit, nat>)
    ensures m.Keys == s
  {
    map q | q in s :: |set p | p in s && QubitLt(p, q)|
  }

  /** The elements of a sequence before position k. */
  lemma {:induction false} PrefixCount(ss: seq<Qubit>, k: nat)
    requires k <= |ss|
    requires forall i, j :: 0 <= i < j < |ss| ==> ss[i] != ss[j]
    ensures |set i | 0 <= i < k :: ss[i]| == k
  {
    if k > 0 {
      PrefixCount(ss, k - 1);
      assert (set i | 0 <= i < k :: ss[i]) == (set i | 0 <= i < k - 1 :: ss[i]) + {ss[k - 1]};
      assert ss[k - 1] !in (set i | 0 <= i < k - 1 :: ss[i]);
    }
  }

  /** In an increasing sequence, the position of an element is its rank. */
  lemma RankIsPosition(ss: seq<Qubit>, s: set<Qubit>, k: nat)
    requires Increasing(ss) && (forall q :: q in ss <==> q in s) && k < |ss|
    ensures Numbering(s)[ss[k]] == k
  {
    var below := set p | p in s && QubitLt(p, ss[k]);
    var before := set i | 0 <= i < k :: ss[i];
    forall p | p in below ensures p in before {
      var j :| 0 <= j < |ss| && ss[j] == p;
      IncreasingIndex(ss, j, k);
    }
    forall p | p in before ensures p in below {
      var j :| 0 <= j < k && ss[j] == p;
    }
    assert below == before;
    IncreasingDistinct(ss);
    PrefixCount(ss, k);
  }

  /** Lines 41-53: None is the KeyError of a node without an id mapping;
      otherwise the number of qubits the subcircuit's nodes touch and their
      local indices, numbered 0, 1, ... in (register name, index) order. */
  method CalculateRequiredQubits(vertices: set<int>, nodes: seq<Node>, idMapping: map<int, int>)
    returns (r: Option<(nat, map<Qubit, nat>)>)
    ensures r.None? <==> !Mapped(nodes, idMapping)
    ensures r.Some? ==> var t := Touched(vertices, nodes, idMapping);
                        r.value == (|t|, Numbering(t))
    ensures r.Some? ==> var (count, mapping) := r.value;
                        (forall q :: q in mapping ==> mapping[q] < count) &&
                        (forall k :: 0 <= k < count ==> k in mapping.Values) &&
                        (forall a, b :: a in mapping && b in mapping ==> (QubitLt(a, b) <==> mapping[a] < mapping[b]))
  {
    var used := QubitsUsed(vertices, nodes, idMapping);
    if used.None? {
      return None;
    }
    var sorted := SortQubits(used.value);
    NumberingFromSorted(sorted, used.value);
    r := Some((|sorted|, Enumerate(sorted)));
  }

  /** The loop at lines 45-48: the set of qubits the subcircuit's nodes use. */
  method QubitsUsed(vertices: set<int>, nodes: seq<Node>, idMapping: map<int, int>) returns (r: Option<set<Qubit>>)
    ensures r.None? <==> !Mapped(nodes, idMapping)
    ensures r.Some? ==> r.value == Touched(vertices, nodes, idMapping)
  {
    var used: set<Qubit> := {};
    var i := 0;
    while i < |nodes|
      invariant 0 <= i <= |nodes|
      invariant Mapped(nodes[..i], idMapping)
      invariant used == Touched(vertices, nodes[..i], idMapping)
    {
      if nodes[i].id !in idMapping {
        return None;
      }
      assert nodes[..i + 1][..i] == nodes[..i];
      if idMapping[nodes[i].id] in vertices {
        used := used + set q | q in nodes[i].qargs;
      }
      i := i + 1;
    }
    assert nodes[..i] == nodes;
    return Some(used);
  }

  /** {q: k for k, q in enumerate(ss)} */
  function Enumerate(ss: seq<Qubit>): (m: map<Qubit, nat>)
    requires Distinct(ss)
    ensures forall k :: 0 <= k < |ss| ==> ss[k] in m && m[ss[k]] == k
    ensures forall q :: q in m <==> q in ss
  {
    map k | 0 <= k < |ss| :: ss[k] := k
  }

  /** enumerate(sorted(s)) as a dictionary is the numbering of s, and it is
      an order-preserving bijection onto 0, 1, ..., |s| - 1. */
  lemma NumberingFromSorted(ss: seq<Qubit>, s: set<Qubit>)
    requires Increasing(ss) && (forall q :: q in ss <==> q in s) && |ss| == |s|
    ensures Distinct(ss)
    ensures var mapping := Enumerate(ss);
            mapping == Numbering(s) &&
            (forall q :: q in mapping ==> mapping[q] < |s|) &&
            (forall k :: 0 <= k < |s| ==> k in mapping.Values) &&
            (forall a, b :: a in mapping && b in mapping ==> (QubitLt(a, b) <==> mapping[a] < mapping[b]))
  {
    IncreasingDistinct(ss);
    EnumerateIsNumbering(ss, s);
    EnumerateOnto(ss);
    EnumerateOrder(ss);
  }

  lemma EnumerateIsNumbering(ss: seq<Qubit>, s: set<Qubit>)
    requires Increasing(ss) && (forall q :: q in ss <==> q in s) && Distinct(ss)
    ensures Enumerate(ss) == Numbering(s)
  {
    var mapping := Enumerate(ss);
    assert mapping.Keys == Numbering(s).Keys;
    forall q | q in s ensures mapping[q] == Numbering(s)[q] {
      EnumerateAt(ss, s, q);
    }
  }

  lemma EnumerateAt(ss: seq<Qubit>, s: set<Qubit>, q: Qubit)
    requires Increasing(ss) && (forall q :: q in ss <==> q in s) && Distinct(ss) && q in s
    ensures q in Enumerate(ss) && Enumerate(ss)[q] == Numbering(s)[q]
  {
    var k :| 0 <= k < |ss| && ss[k] == q;
    RankIsPosition(ss, s, k);
  }

  lemma EnumerateOnto(ss: seq<Qubit>)
    requires Distinct(ss)
    ensures forall q :: q in Enumerate(ss) ==> Enumerate(ss)[q] < |ss|
    ensures forall k :: 0 <= k < |ss| ==> k in Enumerate(ss).Values
  {
    var mapping := Enumerate(ss);
    forall q | q in mapping ensures mapping[q] < |ss| {
      var k :| 0 <= k < |ss| && ss[k] == q;
    }
    forall k | 0 <= k < |ss| ensures k in mapping.Values {
      assert mapping[ss[k]] == k;
    }
  }

  lemma EnumerateOrder(ss: seq<Qubit>)
    requires Increasing(ss) && Distinct(ss)
    ensures var mapping := Enumerate(ss);
            forall a, b :: a in mapping && b in mapping ==> (QubitLt(a, b) <==> mapping[a] < mapping[b])
  {
    var mapping := Enumerate(ss);
    forall a, b | a in mapping && b in mapping ensures QubitLt(a, b) <==> mapping[a] < mapping[b] {
      var i :| 0 <= i < |ss| && ss[i] == a;
      var j :| 0 <= j < |ss| && ss[j] == b;
      if QubitLt(a, b) {
        IncreasingIndex(ss, i, j);
      }
    }
  }

  // ---------------------------------------------------------------------
  // States, bases and circuit events

  /** The four initial states of a cut-in qubit (init_states, lines 19-24). */
  datatype InitState = Zero | One | Plus | PlusI

  function StateLabel(s: InitState): string
  {
    match s
    case Zero => "|0>"
    case One => "|1>"
    case Plus => "|+>"
    case PlusI => "|i>"
  }

  /** The four measurement bases of a cut-out qubit. */
  datatype Basis = I | X | Z | Y

  function BasisLabel(b: Basis): string
  {
    match b
    case I => "I"
    case X => "X"
    case Z => "Z"
    case Y => "Y"
  }

  /** What is appended to a subcircuit, on local qubit indices. */
  datatype Event =
    | Initialize(qubit: nat, state: InitState)
    | Gate(op: string, qubits: seq<nat>)
    | H(qubit: nat)
    | Sdg(qubit: nat)

  // ---------------------------------------------------------------------
  // append_gates

  /** What append_gates has built so far: the appended events, the
      `initialized` dictionary and the `already_initted` set. */
  datatype Emission = Emission(events: seq<Event>, initialized: Dict<nat, InitState>, done: set<Qubit>)

  function Start(): Emission
  {
    Emission([], Empty(), {})
  }

  /** Lines 109-113 for one qubit: a qubit with an initial state that has not
      been initialised yet is initialised now. None is the KeyError of a
      qubit without a local index. */
  function InitQubit(st: Emission, qb: Qubit, initMap: map<Qubit, InitState>, qbitMapping: map<Qubit, nat>)
    : Option<Emission>
  {
    if qb in initMap && qb !in st.done then
      if qb in qbitMapping then
        var idx := qbitMapping[qb];
        Some(Emission(st.events + [Initialize(idx, initMap[qb])], Put(st.initialized, idx, initMap[qb]), st.done + {qb}))
      else None
    else Some(st)
  }

  /** The loop at lines 108-113 over the first k qubits of a node. */
  function InitPrefix(st: Emission, qargs: seq<Qubit>, k: nat, initMap: map<Qubit, InitState>,
                      qbitMapping: map<Qubit, nat>): Option<Emission>
    requires k <= |qargs|
  {
    if k == 0 then Some(st)
    else
      match InitPrefix(st, qargs, k - 1, initMap, qbitMapping)
      case None => None
      case Some(prev) => InitQubit(prev, qargs[k - 1], initMap, qbitMapping)
  }

  /** The gate of line 117 on the local indices of the node's qubits; None is
      the KeyError of a qubit without one. */
  function GateOf(node: Node, qbitMapping: map<Qubit, nat>): Option<Event>
  {
    if forall i :: 0 <= i < |node.qargs| ==> node.qargs[i] in qbitMapping
    then Some(Gate(node.op, seq(|node.qargs|, i requires 0 <= i < |node.qargs| && node.qargs[i] in qbitMapping =>
                                              qbitMapping[node.qargs[i]])))
    else None
  }

  /** A node whose gate goes into the subcircuit: one of its vertices and not
      a measurement (line 104). */
  predicate Emits(node: Node, vertices: set<int>, idMapping: map<int, int>)
    requires node.id in idMapping
  {
    idMapping[node.id] in vertices && Strings.Lower(node.op) != "measure"
  }

  /** The loop body at lines 102-117 for one node. */
  function NodeStep(st: Emission, node: Node, vertices: set<int>, initMap: map<Qubit, InitState>,
                    idMapping: map<int, int>, qbitMapping: map<Qubit, nat>): Option<Emission>
  {
    if node.id !in idMapping then None
    else if !Emits(node, vertices, idMapping) then Some(st)
    else
      match InitPrefix(st, node.qargs, |node.qargs|, initMap, qbitMapping)
      case None => None
      case Some(inited) =>
        match GateOf(node, qbitMapping)
        case None => None
        case Some(gate) => Some(inited.(events := inited.events + [gate]))
  }

  /** append_gates after the first k nodes. */
  function Emitted(nodes: seq<Node>, k: nat, vertices: set<int>, initMap: map<Qubit, InitState>,
                   idMapping: map<int, int>, qbitMapping: map<Qubit, nat>): Option<Emission>
    requires k <= |nodes|
  {
    if k == 0 then Some(Start())
    else
      match Emitted(nodes, k - 1, vertices, initMap, idMapping, qbitMapping)
      case None => None
      case Some(st) => NodeStep(st, nodes[k - 1], vertices, initMap, idMapping, qbitMapping)
  }

  /** A KeyError ends the loop: once the fold fails it stays failed. */
  lemma {:induction false} InitPrefixStaysNone(st: Emission, qargs: seq<Qubit>, j: nat, k: nat,
                                              initMap: map<Qubit, InitState>, qbitMapping: map<Qubit, nat>)
    requires j <= k <= |qargs|
    requires InitPrefix(st, qargs, j, initMap, qbitMapping).None?
    ensures InitPrefix(st, qargs, k, initMap, qbitMapping).None?
    decreases k - j
  {
    if j < k {
      InitPrefixStaysNone(st, qargs, j, k - 1, initMap, qbitMapping);
    }
  }

  lemma {:induction false} EmittedStaysNone(nodes: seq<Node>, j: nat, k: nat, vertices: set<int>,
                                           initMap: map<Qubit, InitState>, idMapping: map<int, int>,
                                           qbitMapping: map<Qubit, nat>)
    requires j <= k <= |nodes|
    requires Emitted(nodes, j, vertices, initMap, idMapping, qbitMapping).None?
    ensures Emitted(nodes, k, vertices, initMap, idMapping, qbitMapping).None?
    decreases k - j
  {
    if j < k {
      EmittedStaysNone(nodes, j, k - 1, vertices, initMap, idMapping, qbitMapping);
    }
  }

  lemma {:induction false} MeasurePrefixStaysNone(qbs: seq<Qubit>, combo: seq<Basis>, j: nat, k: nat,
                                                 qbitMapping: map<Qubit, nat>)
    requires j <= k <= |qbs| && k <= |combo|
    requires MeasurePrefix(qbs, combo, j, qbitMapping).None?
    ensures MeasurePrefix(qbs, combo, k, qbitMapping).None?
    decreases k - j
  {
    if j < k {
      MeasurePrefixStaysNone(qbs, combo, j, k - 1, qbitMapping);
    }
  }

  /** The inner loop at lines 108-113. */
  method InitializeQubits(st: Emission, qargs: seq<Qubit>, initMap: map<Qubit, InitState>, qbitMapping: map<Qubit, nat>)
    returns (r: Option<Emission>)
    ensures r == InitPrefix(st, qargs, |qargs|, initMap, qbitMapping)
  {
    var cur := st;
    var j := 0;
    while j < |qargs|
      invariant 0 <= j <= |qargs|
      invariant InitPrefix(st, qargs, j, initMap, qbitMapping) == Some(cur)
    {
      var qb := qargs[j];
      if qb in initMap && qb !in cur.done {
        if qb !in qbitMapping {
          InitPrefixStaysNone(st, qargs, j + 1, |qargs|, initMap, qbitMapping);
          return None;
        }
        var idx := qbitMapping[qb];
        cur := Emission(cur.events + [Initialize(idx, initMap[qb])], Put(cur.initialized, idx, initMap[qb]), cur.done + {qb});
      }
      j := j + 1;
    }
    return Some(cur);
  }

  /** Lines 98-119: None is a KeyError; otherwise the events appended to the
      subcircuit and the `initialized` dictionary returned. */
  method AppendGates(nodes: seq<Node>, vertices: set<int>, initMap: map<Qubit, InitState>,
                     idMapping: map<int, int>, qbitMapping: map<Qubit, nat>)
    returns (r: Option<(seq<Event>, Dict<nat, InitState>)>)
    ensures var e := Emitted(nodes, |nodes|, vertices, initMap, idMapping, qbitMapping);
            (r.None? <==> e.None?) && (r.Some? ==> r.value == (e.value.events, e.value.initialized))
  {
    var st := Start();
    var i := 0;
    while i < |nodes|
      invariant 0 <= i <= |nodes|
      invariant Emitted(nodes, i, vertices, initMap, idMapping, qbitMapping) == Some(st)
    {
      var node := nodes[i];
      if node.id !in idMapping {
        EmittedStaysNone(nodes, i + 1, |nodes|, vertices, initMap, idMapping, qbitMapping);
        return None;
      }
      if Emits(node, vertices, idMapping) {
        var inited := InitializeQubits(st, node.qargs, initMap, qbitMapping);
        if inited.None? {
          EmittedStaysNone(nodes, i + 1, |nodes|, vertices, initMap, idMapping, qbitMapping);
          return None;
        }
        var gate := GateOf(node, qbitMapping);
        if gate.None? {
          EmittedStaysNone(nodes, i + 1, |nodes|, vertices, initMap, idMapping, qbitMapping);
          return None;
        }
        st := inited.value.(events := inited.value.events + [gate.value]);
      }
      i := i + 1;
    }
    return Some((st.events, st.initialized));
  }

  // ---------------------------------------------------------------------
  // append_measurements

  /** The basis change put before measuring local qubit l (lines 145-150). */
  function BasisEvents(l: nat, b: Basis): seq<Event>
  {
    match b
    case X => [H(l)]
    case Y => [Sdg(l), H(l)]
    case _ => []
  }

  /** The loop at lines 142-153 over the first k (qubit, basis) pairs: the
      events appended and the `measured` dictionary; None is a KeyError. */
  function MeasurePrefix(qbs: seq<Qubit>, combo: seq<Basis>, k: nat, qbitMapping: map<Qubit, nat>)
    : Option<(seq<Event>, Dict<nat, Basis>)>
    requires k <= |qbs| && k <= |combo|
  {
    if k == 0 then Some(([], Empty()))
    else
      match MeasurePrefix(qbs, combo, k - 1, qbitMapping)
      case None => None
      case Some(prev) =>
        if qbs[k - 1] !in qbitMapping then None
        else
          var l := qbitMapping[qbs[k - 1]];
          Some((prev.0 + BasisEvents(l, combo[k - 1]), Put(prev.1, l, combo[k - 1])))
  }

  function Min(a: nat, b: nat): nat
  {
    if a < b then a else b
  }

  lemma MeasureStep(qbs: seq<Qubit>, combo: seq<Basis>, k: nat, qbitMapping: map<Qubit, nat>,
                    events: seq<Event>, measured: Dict<nat, Basis>)
    requires k < |qbs| && k < |combo| && qbs[k] in qbitMapping
    requires MeasurePrefix(qbs, combo, k, qbitMapping) == Some((events, measured))
    ensures MeasurePrefix(qbs, combo, k + 1, qbitMapping) ==
            Some((events + BasisEvents(qbitMapping[qbs[k]], combo[k]), Put(measured, qbitMapping[qbs[k]], combo[k])))
  {
  }

  /** Lines 139-155: zip stops at the shorter of the two lists. */
  method AppendMeasurements(qbs: seq<Qubit>, combo: seq<Basis>, qbitMapping: map<Qubit, nat>)
    returns (r: Option<(seq<Event>, Dict<nat, Basis>)>)
    ensures r == MeasurePrefix(qbs, combo, Min(|qbs|, |combo|), qbitMapping)
  {
    var events: seq<Event> := [];
    var measured: Dict<nat, Basis> := Empty();
    var k := 0;
    while k < Min(|qbs|, |combo|)
      invariant 0 <= k <= Min(|qbs|, |combo|)
      invariant MeasurePrefix(qbs, combo, k, qbitMapping) == Some((events, measured))
    {
      if qbs[k] !in qbitMapping {
        MeasurePrefixStaysNone(qbs, combo, k + 1, Min(|qbs|, |combo|), qbitMapping);
        return None;
      }
      MeasureStep(qbs, combo, k, qbitMapping, events, measured);
      var l := qbitMapping[qbs[k]];
      events := events + BasisEvents(l, combo[k]);
      measured := Put(measured, l, combo[k]);
      k := k + 1;
    }
    return Some((events, measured));
  }

  // ---------------------------------------------------------------------
  // The input and output combinations

  /** itertools.product(alphabet, repeat=k): the first position varies slowest. */
  function Product<T>(alphabet: seq<T>, k: nat): seq<seq<T>>
  {
    if k == 0 then [[]] else Extend(Product(alphabet, k - 1), alphabet)
  }

  /** Every prefix followed by every letter, prefix by prefix. */
  function Extend<T>(prefixes: seq<seq<T>>, alphabet: seq<T>): seq<seq<T>>
  {
    if |prefixes| == 0 then []
    else Extend(prefixes[..|prefixes| - 1], alphabet) + Append(prefixes[|prefixes| - 1], alphabet)
  }

  function Append<T>(p: seq<T>, alphabet: seq<T>): (r: seq<seq<T>>)
    ensures |r| == |alphabet| && forall i :: 0 <= i < |alphabet| ==> r[i] == p + [alphabet[i]]
  {
    seq(|alphabet|, i requires 0 <= i < |alphabet| => p + [alphabet[i]])
  }

  const InitStates: seq<InitState> := [Zero, One, Plus, PlusI]
  const Bases: seq<Basis> := [I, X, Z, Y]

  // ---------------------------------------------------------------------
  // Variant names

  /** f"q{q}-{b}" */
  function Part(q: nat, name: string): string
  {
    "q" + Strings.NatToString(q) + "-" + name
  }

  function InitParts(d: Dict<nat, InitState>): seq<string>
    requires KeysPresent(d)
  {
    seq(|d.keys|, i requires 0 <= i < |d.keys| && KeysPresent(d) => Part(d.keys[i], StateLabel(d.values[d.keys[i]])))
  }

  function MeasureParts(d: Dict<nat, Basis>): seq<string>
    requires KeysPresent(d)
  {
    seq(|d.keys|, i requires 0 <= i < |d.keys| && KeysPresent(d) => Part(d.keys[i], BasisLabel(d.values[d.keys[i]])))
  }

  /** f"sub_{sub_id}_in_{initialized}_out_{measured}" (lines 245, 272, 276). */
  function VariantName(subId: int, initialized: Dict<nat, InitState>, measured: Dict<nat, Basis>): string
    requires KeysPresent(initialized) && KeysPresent(measured)
  {
    "sub_" + Strings.IntToString(subId) + "_in_" + Strings.Join("_", InitParts(initialized))
      + "_out_" + Strings.Join("_", MeasureParts(measured))
  }

  // ---------------------------------------------------------------------
  // Subcircuits and their variants

  /** One entry of cuts_info["in"] or cuts_info["out"]. */
  datatype CutInfo = CutInfo(cutId: int, edge: (int, int))

  /** cuts_info: the "in" and "out" lists, either of which may be absent. */
  datatype CutsInfo = CutsInfo(inCuts: Option<seq<CutInfo>>, outCuts: Option<seq<CutInfo>>)

  /** One subcircuit as the model hands it over: its vertices, its cut-in
      and cut-out node ids, its cuts_info and its shots. */
  datatype SubcircuitSpec = SubcircuitSpec(vertices: seq<int>, cutsIn: seq<int>, cutsOut: seq<int>,
                                           cutsInfo: CutsInfo, shots: int)

  /** One variant of a subcircuit (src/subcircuit.py:16-35). */
  datatype Variant = Variant(subId: int, shots: int, name: string, vertices: set<int>, cutsInfo: CutsInfo,
                             circuit: seq<Event>, activeQubits: seq<nat>, initializedInfo: Dict<nat, InitState>,
                             measuredInfo: Dict<nat, Basis>, qbitMap: map<nat, nat>)

  /** dag_nodes_dict at line 193: a later node with the same mapped id
      wins; None is the KeyError of a node without an id mapping. */
  function NodesById(nodes: seq<Node>, idMapping: map<int, int>): Option<map<int, Node>>
  {
    if |nodes| == 0 then Some(map[])
    else
      var last := nodes[|nodes| - 1];
      match NodesById(nodes[..|nodes| - 1], idMapping)
      case None => None
      case Some(m) => if last.id in idMapping then Some(m[idMapping[last.id] := last]) else None
  }

  /** The cut nodes that are not barriers, in their given order; None is the
      KeyError of a cut id without a node. */
  function NonBarrier(cuts: seq<int>, byId: map<int, Node>): Option<seq<int>>
  {
    if |cuts| == 0 then Some([])
    else
      var n := cuts[|cuts| - 1];
      match NonBarrier(cuts[..|cuts| - 1], byId)
      case None => None
      case Some(kept) =>
        if n !in byId then None
        else if Strings.Lower(byId[n].op) != "barrier" then Some(kept + [n])
        else Some(kept)
  }

  predicate IntLt(a: int, b: int)
  {
    a < b
  }

  /** cuts_in and cuts_out (lines 203-204): the non-barrier cut nodes, sorted. */
  function CutNodes(cuts: seq<int>, byId: map<int, Node>): Option<seq<int>>
  {
    match NonBarrier(cuts, byId)
    case None => None
    case Some(kept) => Some(Sorting.Sort(kept, IntLt))
  }

  /** The qubits the given cut nodes act on (lines 206-209 and 214-217). */
  function CutQubits(cutIds: seq<int>, byId: map<int, Node>): set<Qubit>
  {
    set n, q | n in cutIds && n in byId && q in byId[n].qargs :: q
  }

  /** init_map at lines 230-232: the first k pairs of zip(qubits, combo). */
  function ZipMap(qs: seq<Qubit>, combo: seq<InitState>, k: nat): map<Qubit, InitState>
    requires k <= |qs| && k <= |combo|
  {
    if k == 0 then map[] else ZipMap(qs, combo, k - 1)[qs[k - 1] := combo[k - 1]]
  }

  function InitMap(qs: seq<Qubit>, combo: seq<InitState>): map<Qubit, InitState>
  {
    ZipMap(qs, combo, Min(|qs|, |combo|))
  }

  /** list.index: the first position of x in s; None is the ValueError. */
  function IndexOf(s: seq<Qubit>, x: Qubit): (r: Option<nat>)
    ensures r.Some? <==> x in s
    ensures r.Some? ==> r.value < |s| && s[r.value] == x && x !in s[..r.value]
  {
    if |s| == 0 then None
    else if s[0] == x then Some(0)
    else
      match IndexOf(s[1..], x)
      case None => None
      case Some(i) =>
        assert s[..i + 1] == [s[0]] + s[1..][..i];
        Some(i + 1)
  }

  ghost predicate Injective(m: map<Qubit, nat>)
  {
    forall a, b :: a in m && b in m && a != b ==> m[a] != m[b]
  }

  /** local_to_global_qbit_map at lines 267-270: each local index to the
      position of its qubit among the circuit's qubits. */
  function LocalToGlobal(qbitMap: map<Qubit, nat>, circuitQubits: seq<Qubit>): Option<map<nat, nat>>
    requires Injective(qbitMap)
  {
    if forall qb :: qb in qbitMap ==> qb in circuitQubits
    then Some(map qb | qb in qbitMap :: qbitMap[qb] := IndexOf(circuitQubits, qb).value)
    else None
  }

  /** [0, 1, ..., n - 1] */
  function Range(n: nat): (r: seq<nat>)
    ensures |r| == n && forall i :: 0 <= i < n ==> r[i] == i
  {
    seq(n, i requires 0 <= i < n => i)
  }

  /** What generate_subcircuits fixes for a subcircuit before its loops. */
  datatype Plan = Plan(subId: int, sub: SubcircuitSpec, vertices: set<int>, nodes: seq<Node>,
                       idMapping: map<int, int>, circuitQubits: seq<Qubit>,
                       inQubits: seq<Qubit>, outQubits: seq<Qubit>)

  /** What one input combination fixes (lines 225-242): the number of local
      qubits, their numbering, and the circuit and `initialized` dictionary
      append_gates builds. */
  datatype Prepared = Prepared(num: nat, qbitMap: map<Qubit, nat>, events: seq<Event>, initialized: Dict<nat, InitState>)

  ghost function Prepare(p: Plan, inCombo: seq<InitState>): Option<Prepared>
  {
    if !Mapped(p.nodes, p.idMapping) then None
    else
      var t := Touched(p.vertices, p.nodes, p.idMapping);
      match Emitted(p.nodes, |p.nodes|, p.vertices, InitMap(p.inQubits, inCombo), p.idMapping, Numbering(t))
      case None => None
      case Some(e) => Some(Prepared(|t|, Numbering(t), e.events, e.initialized))
  }

  /** A numbering of qubits by rank gives different qubits different indices. */
  lemma NumberingInjective(s: set<Qubit>)
    ensures Injective(Numbering(s))
  {
    var ss := Ordered(s);
    OrderedSpec(s);
    IncreasingDistinct(ss);
    EnumerateIsNumbering(ss, s);
    forall a, b | a in Numbering(s) && b in Numbering(s) && a != b ensures Numbering(s)[a] != Numbering(s)[b] {
      var i :| 0 <= i < |ss| && ss[i] == a;
      var j :| 0 <= j < |ss| && ss[j] == b;
    }
  }

  /** The dictionaries the folds build list each key once. */
  lemma {:induction false} InitPrefixValid(st: Emission, qargs: seq<Qubit>, k: nat, initMap: map<Qubit, InitState>,
                                          qbitMapping: map<Qubit, nat>)
    requires k <= |qargs| && Valid(st.initialized)
    ensures InitPrefix(st, qargs, k, initMap, qbitMapping).Some? ==>
            Valid(InitPrefix(st, qargs, k, initMap, qbitMapping).value.initialized)
  {
    if k > 0 {
      InitPrefixValid(st, qargs, k - 1, initMap, qbitMapping);
    }
  }

  lemma {:induction false} EmittedValid(nodes: seq<Node>, k: nat, vertices: set<int>, initMap: map<Qubit, InitState>,
                                       idMapping: map<int, int>, qbitMapping: map<Qubit, nat>)
    requires k <= |nodes|
    ensures Emitted(nodes, k, vertices, initMap, idMapping, qbitMapping).Some? ==>
            Valid(Emitted(nodes, k, vertices, initMap, idMapping, qbitMapping).value.initialized)
  {
    if k > 0 {
      EmittedValid(nodes, k - 1, vertices, initMap, idMapping, qbitMapping);
      var prev := Emitted(nodes, k - 1, vertices, initMap, idMapping, qbitMapping);
      if prev.Some? && nodes[k - 1].id in idMapping {
        InitPrefixValid(prev.value, nodes[k - 1].qargs, |nodes[k - 1].qargs|, initMap, qbitMapping);
      }
    }
  }

  lemma {:induction false} MeasurePrefixValid(qbs: seq<Qubit>, combo: seq<Basis>, k: nat, qbitMapping: map<Qubit, nat>)
    requires k <= |qbs| && k <= |combo|
    ensures MeasurePrefix(qbs, combo, k, qbitMapping).Some? ==> Valid(MeasurePrefix(qbs, combo, k, qbitMapping).value.1)
  {
    if k > 0 {
      MeasurePrefixValid(qbs, combo, k - 1, qbitMapping);
    }
  }

  /** What Prepare returns can be named and numbered back. */
  lemma PrepareGood(p: Plan, inCombo: seq<InitState>)
    ensures Prepare(p, inCombo).Some? ==> Injective(Prepare(p, inCombo).value.qbitMap) &&
                                          KeysPresent(Prepare(p, inCombo).value.initialized)
  {
    if Mapped(p.nodes, p.idMapping) {
      var t := Touched(p.vertices, p.nodes, p.idMapping);
      NumberingInjective(t);
      EmittedValid(p.nodes, |p.nodes|, p.vertices, InitMap(p.inQubits, inCombo), p.idMapping, Numbering(t));
      var e := Emitted(p.nodes, |p.nodes|, p.vertices, InitMap(p.inQubits, inCombo), p.idMapping, Numbering(t));
      if e.Some? {
        ValidKeysPresent(e.value.initialized);
      }
    }
  }

  /** The variant of lines 248-289 for one output combination. */
  ghost function VariantOf(p: Plan, pr: Prepared, outCombo: seq<Basis>): Option<Variant>
    requires Injective(pr.qbitMap) && KeysPresent(pr.initialized)
  {
    var k := Min(|p.outQubits|, |outCombo|);
    match MeasurePrefix(p.outQubits, outCombo, k, pr.qbitMap)
    case None => None
    case Some(m) =>
      match LocalToGlobal(pr.qbitMap, p.circuitQubits)
      case None => None
      case Some(l2g) =>
        MeasurePrefixValid(p.outQubits, outCombo, k, pr.qbitMap);
        ValidKeysPresent(m.1);
        var name := VariantName(p.subId, pr.initialized, m.1);
        Some(Variant(p.subId, p.sub.shots, name, p.vertices, p.sub.cutsInfo, pr.events + m.0,
                     Range(pr.num), pr.initialized, m.1, l2g))
  }

  /** The variants of one input combination, output combination by output
      combination (lines 247-290). */
  ghost function OutRow(p: Plan, pr: Prepared, outCombos: seq<seq<Basis>>): Option<seq<Variant>>
    requires Injective(pr.qbitMap) && KeysPresent(pr.initialized)
  {
    if |outCombos| == 0 then Some([])
    else
      match OutRow(p, pr, outCombos[..|outCombos| - 1])
      case None => None
      case Some(row) =>
        match VariantOf(p, pr, outCombos[|outCombos| - 1])
        case None => None
        case Some(v) => Some(row + [v])
  }

  /** Every variant, in the order the loops at lines 224-290 build them. */
  ghost function InRows(p: Plan, inCombos: seq<seq<InitState>>, outCombos: seq<seq<Basis>>): Option<seq<Variant>>
  {
    if |inCombos| == 0 then Some([])
    else
      match InRows(p, inCombos[..|inCombos| - 1], outCombos)
      case None => None
      case Some(done) =>
        var inCombo := inCombos[|inCombos| - 1];
        PrepareGood(p, inCombo);
        match Prepare(p, inCombo)
        case None => None
        case Some(pr) =>
          match OutRow(p, pr, outCombos)
          case None => None
          case Some(row) => Some(done + row)
  }

  /** local_subcircuits[v.name] = v for each variant in turn, starting from d. */
  function StoreInto(d: Dict<string, Variant>, vs: seq<Variant>): Dict<string, Variant>
  {
    if |vs| == 0 then d else Put(StoreInto(d, vs[..|vs| - 1]), vs[|vs| - 1].name, vs[|vs| - 1])
  }

  lemma {:induction false} StoreIntoAppend(d: Dict<string, Variant>, a: seq<Variant>, b: seq<Variant>)
    ensures StoreInto(d, a + b) == StoreInto(StoreInto(d, a), b)
    decreases |b|
  {
    if |b| == 0 {
      assert a + b == a;
    } else {
      assert (a + b)[..|a + b| - 1] == a + b[..|b| - 1];
      StoreIntoAppend(d, a, b[..|b| - 1]);
    }
  }

  /** generate_subcircuits (lines 196-293) for one subcircuit, given the node
      lookup of line 193: None is a KeyError or a ValueError. */
  ghost function Generated(subId: int, sub: SubcircuitSpec, nodes: seq<Node>, byId: map<int, Node>,
                           idMapping: map<int, int>, circuitQubits: seq<Qubit>): Option<Dict<string, Variant>>
  {
    match CutNodes(sub.cutsIn, byId)
    case None => None
    case Some(cutsIn) =>
      match CutNodes(sub.cutsOut, byId)
      case None => None
      case Some(cutsOut) =>
        var inQubits := Ordered(CutQubits(cutsIn, byId));
        var outQubits := Ordered(CutQubits(cutsOut, byId));
        var p := Plan(subId, sub, (set v | v in sub.vertices), nodes, idMapping, circuitQubits, inQubits, outQubits);
        match InRows(p, Product(InitStates, |inQubits|), Product(Bases, |outQubits|))
        case None => None
        case Some(vs) => Some(StoreInto(Empty(), vs))
  }

  lemma {:induction false} OutRowStaysNone(p: Plan, pr: Prepared, outCombos: seq<seq<Basis>>, j: nat)
    requires Injective(pr.qbitMap) && KeysPresent(pr.initialized)
    requires j <= |outCombos| && OutRow(p, pr, outCombos[..j]).None?
    ensures OutRow(p, pr, outCombos).None?
    decreases |outCombos| - j
  {
    if j < |outCombos| {
      assert outCombos[..j + 1][..j] == outCombos[..j];
      OutRowStaysNone(p, pr, outCombos, j + 1);
    } else {
      assert outCombos[..j] == outCombos;
    }
  }

  lemma {:induction false} InRowsStaysNone(p: Plan, inCombos: seq<seq<InitState>>, outCombos: seq<seq<Basis>>, i: nat)
    requires i <= |inCombos| && InRows(p, inCombos[..i], outCombos).None?
    ensures InRows(p, inCombos, outCombos).None?
    decreases |inCombos| - i
  {
    if i < |inCombos| {
      assert inCombos[..i + 1][..i] == inCombos[..i];
      InRowsStaysNone(p, inCombos, outCombos, i + 1);
    } else {
      assert inCombos[..i] == inCombos;
    }
  }

  /** The inner loop at lines 247-290 for one input combination. */
  method BuildRow(p: Plan, pr: Prepared, outCombos: seq<seq<Basis>>, start: Dict<string, Variant>)
    returns (r: Option<Dict<string, Variant>>, ghost row: seq<Variant>)
    requires Injective(pr.qbitMap) && KeysPresent(pr.initialized)
    ensures r.None? <==> OutRow(p, pr, outCombos).None?
    ensures r.Some? ==> OutRow(p, pr, outCombos) == Some(row) && r.value == StoreInto(start, row)
  {
    var stored := start;
    row := [];
    var j := 0;
    while j < |outCombos|
      invariant 0 <= j <= |outCombos|
      invariant OutRow(p, pr, outCombos[..j]) == Some(row)
      invariant stored == StoreInto(start, row)
    {
      assert outCombos[..j + 1][..j] == outCombos[..j];
      var v := MakeVariant(p, pr, outCombos[j]);
      if v.None? {
        OutRowStaysNone(p, pr, outCombos, j + 1);
        return None, row;
      }
      stored := Put(stored, v.value.name, v.value);
      row := row + [v.value];
      j := j + 1;
    }
    assert outCombos[..j] == outCombos;
    return Some(stored), row;
  }

  /** Lines 248-289 for one output combination. */
  method MakeVariant(p: Plan, pr: Prepared, outCombo: seq<Basis>) returns (r: Option<Variant>)
    requires Injective(pr.qbitMap) && KeysPresent(pr.initialized)
    ensures r == VariantOf(p, pr, outCombo)
  {
    var measured := AppendMeasurements(p.outQubits, outCombo, pr.qbitMap);
    if measured.None? {
      return None;
    }
    if !(forall qb :: qb in pr.qbitMap ==> qb in p.circuitQubits) {
      return None;
    }
    var l2g := LocalToGlobal(pr.qbitMap, p.circuitQubits).value;
    MeasurePrefixValid(p.outQubits, outCombo, Min(|p.outQubits|, |outCombo|), pr.qbitMap);
    ValidKeysPresent(measured.value.1);
    var name := VariantName(p.subId, pr.initialized, measured.value.1);
    return Some(Variant(p.subId, p.sub.shots, name, p.vertices, p.sub.cutsInfo, pr.events + measured.value.0,
                        Range(pr.num), pr.initialized, measured.value.1, l2g));
  }

  /** The loops at lines 224-290: every input combination, then every
      output combination under it. */
  method BuildVariants(p: Plan, inCombos: seq<seq<InitState>>, outCombos: seq<seq<Basis>>)
    returns (r: Option<Dict<string, Variant>>)
    ensures r.None? <==> InRows(p, inCombos, outCombos).None?
    ensures r.Some? ==> r.value == StoreInto(Empty(), InRows(p, inCombos, outCombos).value)
  {
    var stored: Dict<string, Variant> := Empty();
    ghost var done: seq<Variant> := [];
    var i := 0;
    while i < |inCombos|
      invariant 0 <= i <= |inCombos|
      invariant InRows(p, inCombos[..i], outCombos) == Some(done)
      invariant stored == StoreInto(Empty(), done)
    {
      assert inCombos[..i + 1][..i] == inCombos[..i];
      var pr := PrepareInput(p, inCombos[i]);
      if pr.None? {
        InRowsStaysNone(p, inCombos, outCombos, i + 1);
        return None;
      }
      PrepareGood(p, inCombos[i]);
      ghost var row;
      r, row := BuildRow(p, pr.value, outCombos, stored);
      if r.None? {
        InRowsStaysNone(p, inCombos, outCombos, i + 1);
        return None;
      }
      StoreIntoAppend(Empty(), done, row);
      stored := r.value;
      done := done + row;
      i := i + 1;
    }
    assert inCombos[..i] == inCombos;
    return Some(stored);
  }

  /** Lines 225-242 for one input combination. */
  method PrepareInput(p: Plan, inCombo: seq<InitState>) returns (r: Option<Prepared>)
    ensures r == Prepare(p, inCombo)
  {
    var required := CalculateRequiredQubits(p.vertices, p.nodes, p.idMapping);
    if required.None? {
      return None;
    }
    var (num, qbitMap) := required.value;
    var gates := AppendGates(p.nodes, p.vertices, InitMap(p.inQubits, inCombo), p.idMapping, qbitMap);
    if gates.None? {
      return None;
    }
    return Some(Prepared(num, qbitMap, gates.value.0, gates.value.1));
  }

  /** generate_subcircuits (lines 196-293) for one subcircuit. */
  method GenerateSubcircuits(subId: int, sub: SubcircuitSpec, nodes: seq<Node>, byId: map<int, Node>,
                             idMapping: map<int, int>, circuitQubits: seq<Qubit>)
    returns (r: Option<Dict<string, Variant>>)
    ensures r == Generated(subId, sub, nodes, byId, idMapping, circuitQubits)
  {
    var cutsIn := CutNodes(sub.cutsIn, byId);
    var cutsOut := CutNodes(sub.cutsOut, byId);
    if cutsIn.None? || cutsOut.None? {
      return None;
    }
    var inQubits := SortQubits(CutQubits(cutsIn.value, byId));
    var inCombos := Product(InitStates, |inQubits|);
    var outQubits := SortQubits(CutQubits(cutsOut.value, byId));
    var outCombos := Product(Bases, |outQubits|);
    var p := Plan(subId, sub, (set v | v in sub.vertices), nodes, idMapping, circuitQubits, inQubits, outQubits);
    r := BuildVariants(p, inCombos, outCombos);
  }

  /** The subcircuits with the given ids, each under its id; None when one
      of them fails. */
  ghost function GeneratedAll(ids: seq<int>, subs: map<int, SubcircuitSpec>, nodes: seq<Node>,
                              byId: map<int, Node>, idMapping: map<int, int>, circuitQubits: seq<Qubit>)
    : Option<map<int, Dict<string, Variant>>>
    requires forall i :: 0 <= i < |ids| ==> ids[i] in subs
  {
    if |ids| == 0 then Some(map[])
    else
      var id := ids[|ids| - 1];
      match GeneratedAll(ids[..|ids| - 1], subs, nodes, byId, idMapping, circuitQubits)
      case None => None
      case Some(m) =>
        match Generated(id, subs[id], nodes, byId, idMapping, circuitQubits)
        case None => None
        case Some(local) => Some(m[id := local])
  }

  /** create_quantum_subcircuits (lines 187-304): the node lookup of line
      193, then every subcircuit's variants under its id. The thread pool
      only changes the order in which the ids are filled in. */
  ghost function Created(subcircuits: Dict<int, SubcircuitSpec>, nodes: seq<Node>, idMapping: map<int, int>,
                         circuitQubits: seq<Qubit>): Option<map<int, Dict<string, Variant>>>
    requires KeysPresent(subcircuits)
  {
    match NodesById(nodes, idMapping)
    case None => None
    case Some(byId) => GeneratedAll(subcircuits.keys, subcircuits.values, nodes, byId, idMapping, circuitQubits)
  }

  lemma {:induction false} GeneratedAllStaysNone(ids: seq<int>, subs: map<int, SubcircuitSpec>, nodes: seq<Node>,
                                                byId: map<int, Node>, idMapping: map<int, int>,
                                                circuitQubits: seq<Qubit>, i: nat)
    requires forall k :: 0 <= k < |ids| ==> ids[k] in subs
    requires i <= |ids| && GeneratedAll(ids[..i], subs, nodes, byId, idMapping, circuitQubits).None?
    ensures GeneratedAll(ids, subs, nodes, byId, idMapping, circuitQubits).None?
    decreases |ids| - i
  {
    if i < |ids| {
      assert ids[..i + 1][..i] == ids[..i];
      GeneratedAllStaysNone(ids, subs, nodes, byId, idMapping, circuitQubits, i + 1);
    } else {
      assert ids[..i] == ids;
    }
  }

  lemma GeneratedAllStep(ids: seq<int>, subs: map<int, SubcircuitSpec>, nodes: seq<Node>, byId: map<int, Node>,
                         idMapping: map<int, int>, circuitQubits: seq<Qubit>, i: nat,
                         m: map<int, Dict<string, Variant>>, local: Dict<string, Variant>)
    requires forall k :: 0 <= k < |ids| ==> ids[k] in subs
    requires i < |ids| && GeneratedAll(ids[..i], subs, nodes, byId, idMapping, circuitQubits) == Some(m)
    requires Generated(ids[i], subs[ids[i]], nodes, byId, idMapping, circuitQubits) == Some(local)
    ensures GeneratedAll(ids[..i + 1], subs, nodes, byId, idMapping, circuitQubits) == Some(m[ids[i] := local])
  {
    assert ids[..i + 1][..i] == ids[..i];
  }

  method CreateQuantumSubcircuits(subcircuits: Dict<int, SubcircuitSpec>, nodes: seq<Node>,
                                  idMapping: map<int, int>, circuitQubits: seq<Qubit>)
    returns (r: Option<map<int, Dict<string, Variant>>>)
    requires KeysPresent(subcircuits)
    ensures r == Created(subcircuits, nodes, idMapping, circuitQubits)
  {
    var byId := NodesById(nodes, idMapping);
    if byId.None? {
      return None;
    }
    var ids := subcircuits.keys;
    var result: map<int, Dict<string, Variant>> := map[];
    var i := 0;
    while i < |ids|
      invariant 0 <= i <= |ids|
      invariant GeneratedAll(ids[..i], subcircuits.values, nodes, byId.value, idMapping, circuitQubits) == Some(result)
    {
      var id := ids[i];
      var local := GenerateSubcircuits(id, subcircuits.values[id], nodes, byId.value, idMapping, circuitQubits);
      if local.None? {
        GeneratedAllStaysNone(ids, subcircuits.values, nodes, byId.value, idMapping, circuitQubits, i + 1);
        return None;
      }
      GeneratedAllStep(ids, subcircuits.values, nodes, byId.value, idMapping, circuitQubits, i, result, local.value);
      result := result[id := local.value];
      i := i + 1;
    }
    assert ids[..i] == ids;
    return Some(result);
  }
}
