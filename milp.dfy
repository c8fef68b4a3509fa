/** The cut-and-shoot mixed-integer program shared by both optimiser versions:
    the problem instance, a candidate assignment of every decision variable,
    one constructor per constraint family and the linear relation each stands
    for.  The variables y, x, z_p, z_o, a, p, o, f, d, u, shots_assign, use_q,
    abilita, T_q and T are read from a Candidate; the solver that chooses them
    is not part of this model. */
module Milp {

  /** A QPU as the optimiser reads it: the key used in returned shot maps,
      the per-shot execution time, the queue time and the qubit capacity. */
  datatype Qpu = Qpu(index: int, executionTime: int, queueTime: int, capacity: int)

  /** One optimisation problem.  Vertex ids are 0 .. |weights|-1 (the DAG
      extraction numbers them densely); an edge is a (source, target) pair. */
  datatype Instance = Instance(
    edges: seq<(int, int)>,
    weights: seq<int>,
    qpus: seq<Qpu>,
    shotsPerSubcircuit: int,
    numSubcircuits: nat)

  /** Every edge endpoint is a vertex id (else y[e[0], c] is a missing key). */
  predicate EndpointsKnown(inst: Instance)
  {
    forall e :: 0 <= e < |inst.edges| ==>
      0 <= inst.edges[e].0 < |inst.weights| && 0 <= inst.edges[e].1 < |inst.weights|
  }

  /** The edges are distinct: they key the x, z_p and z_o dictionaries and
      name the constraints added per edge. */
  predicate DistinctEdges(inst: Instance)
  {
    forall e, e' :: 0 <= e < e' < |inst.edges| ==> inst.edges[e] != inst.edges[e']
  }

  /** The ordering constraint reads y[(k, j)] for k < j < S, so k = S - 2
      must still be a vertex id. */
  predicate OrderingKeysKnown(inst: Instance)
  {
    inst.numSubcircuits <= |inst.weights| + 1
  }

  predicate WellFormed(inst: Instance)
  {
    EndpointsKnown(inst) && DistinctEdges(inst) && OrderingKeysKnown(inst)
  }

  /** Values of every decision variable; y[v][c], x[e][c], zp[e][c], zo[e][c],
      shots[c][q] and abilita[c][q] are indexed as their pulp dictionaries. */
  datatype Candidate = Candidate(
    y: seq<seq<int>>,
    x: seq<seq<int>>,
    zp: seq<seq<int>>,
    zo: seq<seq<int>>,
    a: seq<int>,
    p: seq<int>,
    o: seq<int>,
    f: seq<int>,
    d: seq<int>,
    u: seq<int>,
    shots: seq<seq<int>>,
    useQ: seq<int>,
    abilita: seq<seq<int>>,
    tq: seq<real>,
    makespan: real)

  // ---------------------------------------------------------------------
  // Total accessors (0 outside the variable dictionaries' key ranges)

  function At(s: seq<int>, i: int): int { if 0 <= i < |s| then s[i] else 0 }
  function At2(m: seq<seq<int>>, i: int, j: int): int
  {
    if 0 <= i < |m| && 0 <= j < |m[i]| then m[i][j] else 0
  }

  function Y(cand: Candidate, v: int, c: int): int { At2(cand.y, v, c) }
  function X(cand: Candidate, e: int, c: int): int { At2(cand.x, e, c) }
  function Zp(cand: Candidate, e: int, c: int): int { At2(cand.zp, e, c) }
  function Zo(cand: Candidate, e: int, c: int): int { At2(cand.zo, e, c) }
  function Aq(cand: Candidate, c: int): int { At(cand.a, c) }
  function Pq(cand: Candidate, c: int): int { At(cand.p, c) }
  function Oq(cand: Candidate, c: int): int { At(cand.o, c) }
  function Fq(cand: Candidate, c: int): int { At(cand.f, c) }
  function Dq(cand: Candidate, c: int): int { At(cand.d, c) }
  function U(cand: Candidate, c: int): int { At(cand.u, c) }
  function Sh(cand: Candidate, c: int, q: int): int { At2(cand.shots, c, q) }
  function UseQ(cand: Candidate, q: int): int { At(cand.useQ, q) }
  function Ab(cand: Candidate, c: int, q: int): int { At2(cand.abilita, c, q) }
  function TQ(cand: Candidate, q: int): real { if 0 <= q < |cand.tq| then cand.tq[q] else 0.0 }

  function W(inst: Instance, v: int): int { At(inst.weights, v) }
  function Src(inst: Instance, e: int): int { if 0 <= e < |inst.edges| then inst.edges[e].0 else -1 }
  function Tgt(inst: Instance, e: int): int { if 0 <= e < |inst.edges| then inst.edges[e].1 else -1 }
  function Capacity(inst: Instance, q: int): int
  {
    if 0 <= q < |inst.qpus| then inst.qpus[q].capacity else 0
  }
  function QueueTime(inst: Instance, q: int): int
  {
    if 0 <= q < |inst.qpus| then inst.qpus[q].queueTime else 0
  }
  function ExecutionTime(inst: Instance, q: int): int
  {
    if 0 <= q < |inst.qpus| then inst.qpus[q].executionTime else 0
  }

  /** The sum f(lo) + ... + f(hi - 1) (pulp.lpSum over a range). */
  function SumRange(lo: int, hi: int, f: int -> int): int
    decreases hi - lo
  {
    if hi <= lo then 0 else SumRange(lo, hi - 1, f) + f(hi - 1)
  }

  /** Σ_c shots_assign[c,q] * execution_time of QPU q. */
  function ExecSum(inst: Instance, cand: Candidate, q: int): int
  {
    SumRange(0, inst.numSubcircuits, c => Sh(cand, c, q) * ExecutionTime(inst, q))
  }

  /** sum(vertex_weights.values()), the big M of the activation constraint. */
  function TotalWeight(inst: Instance): int
  {
    SumRange(0, |inst.weights|, v => W(inst, v))
  }

  // ---------------------------------------------------------------------
  // Constraints: one constructor per family, indexed as in the source names

  datatype Constraint =
    | AggA(c: int) | AggP(c: int) | AggO(c: int) | AggF(c: int) | AggD(c: int)
    | Zp1(e: int, c: int) | Zp2(e: int, c: int) | Zp3(e: int, c: int)
    | Zo1(e: int, c: int) | Zo2(e: int, c: int) | Zo3(e: int, c: int)
    | UniqueVertex(v: int)
    | X1(e: int, c: int) | X2(e: int, c: int) | X3(e: int, c: int) | X4(e: int, c: int)
    | Ordering(k: int)
    | ActiveSubcircuit(c: int)
    | TotalShotsActive(c: int)
    | TotalShotsExact(c: int)
    | UseQpu(q: int)
    | Cap(c: int, q: int)
    | EnableShots(c: int, q: int)
    | QueueTimeMin(q: int)
    | ExecutionTimeMin(q: int)
    | MaxTime(q: int)
    | MakespanBound(q: int)

  /** The linear relation each constraint adds to the pulp problem. */
  predicate Holds(inst: Instance, cand: Candidate, con: Constraint)
  {
    var S, V, E, Q, N := inst.numSubcircuits, |inst.weights|, |inst.edges|, |inst.qpus|, inst.shotsPerSubcircuit;
    match con
    case AggA(c) => Aq(cand, c) == SumRange(0, V, v => W(inst, v) * Y(cand, v, c))
    case AggP(c) => Pq(cand, c) == SumRange(0, E, e => Zp(cand, e, c))
    case AggO(c) => Oq(cand, c) == SumRange(0, E, e => Zo(cand, e, c))
    case AggF(c) => Fq(cand, c) == Aq(cand, c) + Pq(cand, c) - Oq(cand, c)
    case AggD(c) => Dq(cand, c) == Aq(cand, c) + Pq(cand, c)
    case Zp1(e, c) => Zp(cand, e, c) <= X(cand, e, c)
    case Zp2(e, c) => Zp(cand, e, c) <= Y(cand, Tgt(inst, e), c)
    case Zp3(e, c) => Zp(cand, e, c) >= X(cand, e, c) + Y(cand, Tgt(inst, e), c) - 1
    case Zo1(e, c) => Zo(cand, e, c) <= X(cand, e, c)
    case Zo2(e, c) => Zo(cand, e, c) <= Y(cand, Src(inst, e), c)
    case Zo3(e, c) => Zo(cand, e, c) >= X(cand, e, c) + Y(cand, Src(inst, e), c) - 1
    case UniqueVertex(v) => SumRange(0, S, c => Y(cand, v, c)) == 1
    case X1(e, c) => X(cand, e, c) <= Y(cand, Src(inst, e), c) + Y(cand, Tgt(inst, e), c)
    case X2(e, c) => X(cand, e, c) >= Y(cand, Src(inst, e), c) - Y(cand, Tgt(inst, e), c)
    case X3(e, c) => X(cand, e, c) >= Y(cand, Tgt(inst, e), c) - Y(cand, Src(inst, e), c)
    case X4(e, c) => X(cand, e, c) <= 2 - Y(cand, Src(inst, e), c) - Y(cand, Tgt(inst, e), c)
    case Ordering(k) => SumRange(k + 1, S, j => Y(cand, k, j)) == 0
    case ActiveSubcircuit(c) => Dq(cand, c) <= TotalWeight(inst) * U(cand, c)
    case TotalShotsActive(c) => SumRange(0, Q, q => Sh(cand, c, q)) == N * U(cand, c)
    case TotalShotsExact(c) => SumRange(0, Q, q => Sh(cand, c, q)) == N
    case UseQpu(q) => SumRange(0, S, c => Sh(cand, c, q)) <= S * N * UseQ(cand, q)
    case Cap(c, q) => Dq(cand, c) <= Capacity(inst, q) + (V + E) * (1 - Ab(cand, c, q))
    case EnableShots(c, q) => Sh(cand, c, q) <= N * Ab(cand, c, q)
    case QueueTimeMin(q) => TQ(cand, q) >= (QueueTime(inst, q) * UseQ(cand, q)) as real
    case ExecutionTimeMin(q) => TQ(cand, q) >= ExecSum(inst, cand, q) as real
    case MaxTime(q) => TQ(cand, q) <= (QueueTime(inst, q) * UseQ(cand, q) + ExecSum(inst, cand, q)) as real
    case MakespanBound(q) => cand.makespan >= TQ(cand, q)
  }

  predicate AllHold(inst: Instance, cand: Candidate, cons: seq<Constraint>)
  {
    forall i :: 0 <= i < |cons| ==> Holds(inst, cand, cons[i])
  }

  // ---------------------------------------------------------------------
  // The blocks each builder loop appends, in the source's order

  function AggregateBlock(c: int): seq<Constraint> { [AggA(c), AggP(c), AggO(c), AggF(c), AggD(c)] }
  function LinearisationBlock(e: int, c: int): seq<Constraint>
  {
    [Zp1(e, c), Zp2(e, c), Zp3(e, c), Zo1(e, c), Zo2(e, c), Zo3(e, c)]
  }
  function UniqueBlock(v: int): seq<Constraint> { [UniqueVertex(v)] }
  /** The edge loop runs over c outside and e inside. */
  function EdgeCutBlock(c: int, e: int): seq<Constraint> { [X1(e, c), X2(e, c), X3(e, c), X4(e, c)] }
  function OrderingBlock(k: int): seq<Constraint> { [Ordering(k)] }
  function ActiveBlock(c: int): seq<Constraint> { [ActiveSubcircuit(c)] }
  function TotalShotsActiveBlock(c: int): seq<Constraint> { [TotalShotsActive(c)] }
  function TotalShotsExactBlock(c: int): seq<Constraint> { [TotalShotsExact(c)] }
  function UseQpuBlock(q: int): seq<Constraint> { [UseQpu(q)] }
  function CapacityBlock(c: int, q: int): seq<Constraint> { [Cap(c, q), EnableShots(c, q)] }
  function TimeBlock(q: int): seq<Constraint>
  {
    [QueueTimeMin(q), ExecutionTimeMin(q), MaxTime(q), MakespanBound(q)]
  }

  /** block(0) + ... + block(n - 1): a `for i in range(n)` loop. */
  function Line(n: nat, block: int -> seq<Constraint>): seq<Constraint>
  {
    if n == 0 then [] else Line(n - 1, block) + block(n - 1)
  }

  /** block(i, 0) + ... + block(i, m - 1): the inner loop of a nested pair. */
  function Row(i: int, m: nat, block: (int, int) -> seq<Constraint>): seq<Constraint>
  {
    if m == 0 then [] else Row(i, m - 1, block) + block(i, m - 1)
  }

  /** Row(0) + ... + Row(n - 1): `for i in range(n): for j in range(m)`. */
  function Grid(n: nat, m: nat, block: (int, int) -> seq<Constraint>): seq<Constraint>
  {
    if n == 0 then [] else Grid(n - 1, m, block) + Row(n - 1, m, block)
  }

  /** One more block in a row. */
  lemma RowStep(start: seq<Constraint>, i: int, m: nat, block: (int, int) -> seq<Constraint>)
    ensures start + Row(i, m, block) + block(i, m) == start + Row(i, m + 1, block)
  {
  }

  /** One more row in a grid. */
  lemma GridStep(start: seq<Constraint>, n: nat, m: nat, block: (int, int) -> seq<Constraint>)
    ensures start + Grid(n, m, block) + Row(n, m, block) == start + Grid(n + 1, m, block)
  {
  }

  lemma AppendAssoc<T>(a: seq<T>, b: seq<T>, c: seq<T>)
    ensures a + b + c == a + (b + c)
  {
  }

  lemma AllHoldConcat(inst: Instance, cand: Candidate, s: seq<Constraint>, t: seq<Constraint>)
    ensures AllHold(inst, cand, s + t) <==> AllHold(inst, cand, s) && AllHold(inst, cand, t)
  {
    if AllHold(inst, cand, s) && AllHold(inst, cand, t) {
      forall i | 0 <= i < |s + t| ensures Holds(inst, cand, (s + t)[i]) {
        if i >= |s| { assert (s + t)[i] == t[i - |s|]; }
      }
    }
    if AllHold(inst, cand, s + t) {
      forall i | 0 <= i < |t| ensures Holds(inst, cand, t[i]) {
        assert (s + t)[|s| + i] == t[i];
      }
      forall i | 0 <= i < |s| ensures Holds(inst, cand, s[i]) {
        assert (s + t)[i] == s[i];
      }
    }
  }

  /** The constraints a loop appends all hold iff each iteration's block holds. */
  lemma {:induction false} LineHolds(inst: Instance, cand: Candidate, n: nat, block: int -> seq<Constraint>)
    ensures AllHold(inst, cand, Line(n, block)) <==> forall i :: 0 <= i < n ==> AllHold(inst, cand, block(i))
  {
    if n > 0 {
      LineHolds(inst, cand, n - 1, block);
      AllHoldConcat(inst, cand, Line(n - 1, block), block(n - 1));
    }
  }

  lemma {:induction false} RowHolds(inst: Instance, cand: Candidate, i: int, m: nat, block: (int, int) -> seq<Constraint>)
    ensures AllHold(inst, cand, Row(i, m, block)) <==> forall j :: 0 <= j < m ==> AllHold(inst, cand, block(i, j))
  {
    if m > 0 {
      RowHolds(inst, cand, i, m - 1, block);
      AllHoldConcat(inst, cand, Row(i, m - 1, block), block(i, m - 1));
    }
  }

  /** The constraints a nested loop appends all hold iff every block holds. */
  lemma {:induction false} GridHolds(inst: Instance, cand: Candidate, n: nat, m: nat, block: (int, int) -> seq<Constraint>)
    ensures AllHold(inst, cand, Grid(n, m, block)) <==>
            forall i, j :: 0 <= i < n && 0 <= j < m ==> AllHold(inst, cand, block(i, j))
  {
    if n > 0 {
      GridHolds(inst, cand, n - 1, m, block);
      RowHolds(inst, cand, n - 1, m, block);
      AllHoldConcat(inst, cand, Grid(n - 1, m, block), Row(n - 1, m, block));
    }
  }

  // ---------------------------------------------------------------------
  // Variable domains (add_variables) and the constraint families

  predicate Binary(z: int) { z == 0 || z == 1 }

  /** Every pulp dictionary has exactly the keys add_variables creates. */
  predicate Shaped(inst: Instance, cand: Candidate)
  {
    var S, V, E, Q := inst.numSubcircuits, |inst.weights|, |inst.edges|, |inst.qpus|;
    && |cand.y| == V && (forall v :: 0 <= v < V ==> |cand.y[v]| == S)
    && |cand.x| == E && (forall e :: 0 <= e < E ==> |cand.x[e]| == S)
    && |cand.zp| == E && (forall e :: 0 <= e < E ==> |cand.zp[e]| == S)
    && |cand.zo| == E && (forall e :: 0 <= e < E ==> |cand.zo[e]| == S)
    && |cand.a| == S && |cand.p| == S && |cand.o| == S && |cand.f| == S && |cand.d| == S
    && |cand.shots| == S && (forall c :: 0 <= c < S ==> |cand.shots[c]| == Q)
    && |cand.abilita| == S && (forall c :: 0 <= c < S ==> |cand.abilita[c]| == Q)
    && |cand.useQ| == Q && |cand.tq| == Q
  }

  /** The categories and bounds both versions give their variables: y, x,
      z_p, z_o, use_q and abilita binary, 0 <= shots_assign <= N, T_q >= 0
      and T >= 0; a, p, o, f and d are free integers. */
  predicate CommonDomains(inst: Instance, cand: Candidate)
  {
    var S, V, E, Q, N := inst.numSubcircuits, |inst.weights|, |inst.edges|, |inst.qpus|, inst.shotsPerSubcircuit;
    && (forall v, c :: 0 <= v < V && 0 <= c < S ==> Binary(Y(cand, v, c)))
    && (forall e, c :: 0 <= e < E && 0 <= c < S ==> Binary(X(cand, e, c)))
    && (forall e, c :: 0 <= e < E && 0 <= c < S ==> Binary(Zp(cand, e, c)) && Binary(Zo(cand, e, c)))
    && (forall c, q :: 0 <= c < S && 0 <= q < Q ==> 0 <= Sh(cand, c, q) <= N && Binary(Ab(cand, c, q)))
    && (forall q :: 0 <= q < Q ==> Binary(UseQ(cand, q)) && TQ(cand, q) >= 0.0)
    && cand.makespan >= 0.0
  }

  predicate AggregateFamily(inst: Instance, cand: Candidate)
  {
    forall c :: 0 <= c < inst.numSubcircuits ==> AllHold(inst, cand, AggregateBlock(c))
  }

  predicate LinearisationFamily(inst: Instance, cand: Candidate)
  {
    forall e, c :: 0 <= e < |inst.edges| && 0 <= c < inst.numSubcircuits ==>
      AllHold(inst, cand, LinearisationBlock(e, c))
  }

  predicate UniqueFamily(inst: Instance, cand: Candidate)
  {
    forall v :: 0 <= v < |inst.weights| ==> AllHold(inst, cand, UniqueBlock(v))
  }

  predicate EdgeCutFamily(inst: Instance, cand: Candidate)
  {
    forall c, e :: 0 <= c < inst.numSubcircuits && 0 <= e < |inst.edges| ==>
      AllHold(inst, cand, EdgeCutBlock(c, e))
  }

  predicate OrderingFamily(inst: Instance, cand: Candidate)
  {
    forall k :: 0 <= k < inst.numSubcircuits ==> AllHold(inst, cand, OrderingBlock(k))
  }

  predicate ActiveFamily(inst: Instance, cand: Candidate)
  {
    forall c :: 0 <= c < inst.numSubcircuits ==> AllHold(inst, cand, ActiveBlock(c))
  }

  predicate TotalShotsActiveFamily(inst: Instance, cand: Candidate)
  {
    forall c :: 0 <= c < inst.numSubcircuits ==> AllHold(inst, cand, TotalShotsActiveBlock(c))
  }

  predicate TotalShotsExactFamily(inst: Instance, cand: Candidate)
  {
    forall c :: 0 <= c < inst.numSubcircuits ==> AllHold(inst, cand, TotalShotsExactBlock(c))
  }

  predicate UseQpuFamily(inst: Instance, cand: Candidate)
  {
    forall q :: 0 <= q < |inst.qpus| ==> AllHold(inst, cand, UseQpuBlock(q))
  }

  predicate CapacityFamily(inst: Instance, cand: Candidate)
  {
    forall c, q :: 0 <= c < inst.numSubcircuits && 0 <= q < |inst.qpus| ==>
      AllHold(inst, cand, CapacityBlock(c, q))
  }

  predicate TimeFamily(inst: Instance, cand: Candidate)
  {
    forall q :: 0 <= q < |inst.qpus| ==> AllHold(inst, cand, TimeBlock(q))
  }

  /** The constraints both versions share, as the partition part of the
      program: aggregates, linearisation, uniqueness, edge cuts, ordering. */
  predicate PartitionFamilies(inst: Instance, cand: Candidate)
  {
    && AggregateFamily(inst, cand)
    && LinearisationFamily(inst, cand)
    && UniqueFamily(inst, cand)
    && EdgeCutFamily(inst, cand)
    && OrderingFamily(inst, cand)
  }

  /** The scheduling constraints both versions share. */
  predicate ScheduleFamilies(inst: Instance, cand: Candidate)
  {
    && UseQpuFamily(inst, cand)
    && CapacityFamily(inst, cand)
    && TimeFamily(inst, cand)
  }

  /** The partition loops both versions run first, in their order:
      aggregates, linearisation, uniqueness, edge cuts, ordering. */
  function PartitionConstraints(inst: Instance): seq<Constraint>
  {
    var S, V, E := inst.numSubcircuits, |inst.weights|, |inst.edges|;
    Line(S, AggregateBlock)
    + Grid(E, S, LinearisationBlock)
    + Line(V, UniqueBlock)
    + Grid(S, E, EdgeCutBlock)
    + Line(S, OrderingBlock)
  }

  /** The scheduling loops both versions run last: QPU use, capacity, time. */
  function ScheduleConstraints(inst: Instance): seq<Constraint>
  {
    var S, Q := inst.numSubcircuits, |inst.qpus|;
    Line(Q, UseQpuBlock) + Grid(S, Q, CapacityBlock) + Line(Q, TimeBlock)
  }

  lemma AggregateLine(inst: Instance, cand: Candidate)
    ensures AllHold(inst, cand, Line(inst.numSubcircuits, AggregateBlock)) <==> AggregateFamily(inst, cand)
  {
    LineHolds(inst, cand, inst.numSubcircuits, AggregateBlock);
  }

  lemma LinearisationGrid(inst: Instance, cand: Candidate)
    ensures AllHold(inst, cand, Grid(|inst.edges|, inst.numSubcircuits, LinearisationBlock))
            <==> LinearisationFamily(inst, cand)
  {
    GridHolds(inst, cand, |inst.edges|, inst.numSubcircuits, LinearisationBlock);
  }

  lemma UniqueLine(inst: Instance, cand: Candidate)
    ensures AllHold(inst, cand, Line(|inst.weights|, UniqueBlock)) <==> UniqueFamily(inst, cand)
  {
    LineHolds(inst, cand, |inst.weights|, UniqueBlock);
  }

  lemma EdgeCutGrid(inst: Instance, cand: Candidate)
    ensures AllHold(inst, cand, Grid(inst.numSubcircuits, |inst.edges|, EdgeCutBlock)) <==> EdgeCutFamily(inst, cand)
  {
    GridHolds(inst, cand, inst.numSubcircuits, |inst.edges|, EdgeCutBlock);
  }

  lemma OrderingLine(inst: Instance, cand: Candidate)
    ensures AllHold(inst, cand, Line(inst.numSubcircuits, OrderingBlock)) <==> OrderingFamily(inst, cand)
  {
    LineHolds(inst, cand, inst.numSubcircuits, OrderingBlock);
  }

  lemma UseQpuLine(inst: Instance, cand: Candidate)
    ensures AllHold(inst, cand, Line(|inst.qpus|, UseQpuBlock)) <==> UseQpuFamily(inst, cand)
  {
    LineHolds(inst, cand, |inst.qpus|, UseQpuBlock);
  }

  lemma CapacityGrid(inst: Instance, cand: Candidate)
    ensures AllHold(inst, cand, Grid(inst.numSubcircuits, |inst.qpus|, CapacityBlock)) <==> CapacityFamily(inst, cand)
  {
    GridHolds(inst, cand, inst.numSubcircuits, |inst.qpus|, CapacityBlock);
  }

  lemma TimeLine(inst: Instance, cand: Candidate)
    ensures AllHold(inst, cand, Line(|inst.qpus|, TimeBlock)) <==> TimeFamily(inst, cand)
  {
    LineHolds(inst, cand, |inst.qpus|, TimeBlock);
  }

  lemma ActiveLine(inst: Instance, cand: Candidate)
    ensures AllHold(inst, cand, Line(inst.numSubcircuits, ActiveBlock)) <==> ActiveFamily(inst, cand)
  {
    LineHolds(inst, cand, inst.numSubcircuits, ActiveBlock);
  }

  lemma TotalShotsActiveLine(inst: Instance, cand: Candidate)
    ensures AllHold(inst, cand, Line(inst.numSubcircuits, TotalShotsActiveBlock)) <==> TotalShotsActiveFamily(inst, cand)
  {
    LineHolds(inst, cand, inst.numSubcircuits, TotalShotsActiveBlock);
  }

  lemma TotalShotsExactLine(inst: Instance, cand: Candidate)
    ensures AllHold(inst, cand, Line(inst.numSubcircuits, TotalShotsExactBlock)) <==> TotalShotsExactFamily(inst, cand)
  {
    LineHolds(inst, cand, inst.numSubcircuits, TotalShotsExactBlock);
  }

  /** The partition loops' constraints hold exactly when the five families do. */
  lemma PartitionConstraintsMeaning(inst: Instance, cand: Candidate)
    ensures AllHold(inst, cand, PartitionConstraints(inst)) <==> PartitionFamilies(inst, cand)
  {
    var S, V, E := inst.numSubcircuits, |inst.weights|, |inst.edges|;
    var l1 := Line(S, AggregateBlock);
    var l2 := l1 + Grid(E, S, LinearisationBlock);
    var l3 := l2 + Line(V, UniqueBlock);
    var l4 := l3 + Grid(S, E, EdgeCutBlock);
    AllHoldConcat(inst, cand, l4, Line(S, OrderingBlock));
    AllHoldConcat(inst, cand, l3, Grid(S, E, EdgeCutBlock));
    AllHoldConcat(inst, cand, l2, Line(V, UniqueBlock));
    AllHoldConcat(inst, cand, l1, Grid(E, S, LinearisationBlock));
    AggregateLine(inst, cand);
    LinearisationGrid(inst, cand);
    UniqueLine(inst, cand);
    EdgeCutGrid(inst, cand);
    OrderingLine(inst, cand);
  }

  /** The scheduling loops' constraints hold exactly when the three families do. */
  lemma ScheduleConstraintsMeaning(inst: Instance, cand: Candidate)
    ensures AllHold(inst, cand, ScheduleConstraints(inst)) <==> ScheduleFamilies(inst, cand)
  {
    var S, Q := inst.numSubcircuits, |inst.qpus|;
    var l1 := Line(Q, UseQpuBlock);
    var l2 := l1 + Grid(S, Q, CapacityBlock);
    AllHoldConcat(inst, cand, l2, Line(Q, TimeBlock));
    AllHoldConcat(inst, cand, l1, Grid(S, Q, CapacityBlock));
    UseQpuLine(inst, cand);
    CapacityGrid(inst, cand);
    TimeLine(inst, cand);
  }

  /** The number of cuts K = Σ_{c,e} x[e,c] / 2 (a pulp expression over reals). */
  function CutCount(inst: Instance, cand: Candidate): real
  {
    (SumRange(0, inst.numSubcircuits, c => SumRange(0, |inst.edges|, e => X(cand, e, c))) as real) / 2.0
  }
}
