/** CutAndShootModel: the first optimiser version.  Its program has the
    activation variable u[c] (a subcircuit with no input qubits runs no
    shots), integer T_q and T, and its extraction returns only the
    subcircuits that received at least one vertex, each with its shot map,
    its qubit aggregates and its in/out cut lists. */
module CutAndShoot {
  import opened Wrappers
  import opened Milp
  import opened MilpProps
  import opened Extraction

  /** Why construction raises. */
  datatype ModelError =
    | NegativeAlpha
    | NegativeBeta
    | WeightsNotSummingToOne
    | MissingVertexKey
    | NoQpus

  function Abs(r: real): real { if r < 0.0 then -r else r }

  /** The objective weights are checked in order: alpha, then beta, then
      their sum. */
  function CheckWeights(alpha: real, beta: real): (err: Option<ModelError>)
    ensures err == Some(NegativeAlpha) <==> alpha < 0.0
    ensures err == Some(NegativeBeta) <==> alpha >= 0.0 && beta < 0.0
    ensures err == None <==> alpha >= 0.0 && beta >= 0.0 && alpha + beta == 1.0
    ensures err != Some(MissingVertexKey) && err != Some(NoQpus)
  {
    if alpha < 0.0 then Some(NegativeAlpha)
    else if beta < 0.0 then Some(NegativeBeta)
    else if Abs(alpha + beta) != 1.0 then Some(WeightsNotSummingToOne)
    else None
  }

  /** add_constraints looks up y[e[0], c] and y[e[1], c] as soon as there is
      a subcircuit, and y[(k, j)] for k < j < S. */
  predicate KeysExist(inst: Instance)
  {
    (inst.numSubcircuits == 0 || EndpointsKnown(inst)) && OrderingKeysKnown(inst)
  }

  /** The exception construction raises, if any: the weight checks, then
      a missing key while the constraints are added, then the ValueError of
      max() over an empty QPU list when the objective computes T_max. */
  function InitError(inst: Instance, alpha: real, beta: real): (err: Option<ModelError>)
    ensures err == None <==> CheckWeights(alpha, beta) == None && KeysExist(inst) && |inst.qpus| > 0
    ensures CheckWeights(alpha, beta) != None ==> err == CheckWeights(alpha, beta)
    ensures err == Some(MissingVertexKey) <==> CheckWeights(alpha, beta) == None && !KeysExist(inst)
    ensures err == Some(NoQpus) <==> CheckWeights(alpha, beta) == None && KeysExist(inst) && |inst.qpus| == 0
  {
    if CheckWeights(alpha, beta) != None then CheckWeights(alpha, beta)
    else if !KeysExist(inst) then Some(MissingVertexKey)
    else if |inst.qpus| == 0 then Some(NoQpus)
    else None
  }

  /** The two loops only this version has: activation and total shots. */
  function ActivationConstraints(inst: Instance): seq<Constraint>
  {
    Line(inst.numSubcircuits, ActiveBlock) + Line(inst.numSubcircuits, TotalShotsActiveBlock)
  }

  /** Every constraint add_constraints appends, in its loop order. */
  function Constraints(inst: Instance): seq<Constraint>
  {
    PartitionConstraints(inst) + ActivationConstraints(inst) + ScheduleConstraints(inst)
  }

  /** The families this version's program is made of. */
  predicate Families(inst: Instance, cand: Candidate)
  {
    && PartitionFamilies(inst, cand)
    && ActiveFamily(inst, cand)
    && TotalShotsActiveFamily(inst, cand)
    && ScheduleFamilies(inst, cand)
  }

  predicate Integral(r: real) { r == r.Floor as real }

  /** add_variables: the shared domains, binary u, integer T_q and T. */
  predicate Domains(inst: Instance, cand: Candidate)
  {
    && CommonDomains(inst, cand)
    && |cand.u| == inst.numSubcircuits
    && (forall c :: 0 <= c < inst.numSubcircuits ==> Binary(U(cand, c)))
    && (forall q :: 0 <= q < |inst.qpus| ==> Integral(TQ(cand, q)))
    && Integral(cand.makespan)
  }

  predicate Feasible(inst: Instance, cand: Candidate)
  {
    WellFormed(inst) && Shaped(inst, cand) && Domains(inst, cand) && Families(inst, cand)
  }

  /** The constraint list holds exactly when every family does, so the
      loops add no more and no less than the families state. */
  lemma ConstraintsMeaning(inst: Instance, cand: Candidate)
    ensures AllHold(inst, cand, Constraints(inst)) <==> Families(inst, cand)
  {
    var part, act := PartitionConstraints(inst), ActivationConstraints(inst);
    AllHoldConcat(inst, cand, part + act, ScheduleConstraints(inst));
    AllHoldConcat(inst, cand, part, act);
    AllHoldConcat(inst, cand, Line(inst.numSubcircuits, ActiveBlock), Line(inst.numSubcircuits, TotalShotsActiveBlock));
    PartitionConstraintsMeaning(inst, cand);
    ActiveLine(inst, cand);
    TotalShotsActiveLine(inst, cand);
    ScheduleConstraintsMeaning(inst, cand);
  }

  // ---------------------------------------------------------------------
  // What this version's own constraints add

  /** Shots of c total N·u[c]; an inactive subcircuit runs no shot and has
      no input qubits. */
  lemma ShotsFollowActivation(inst: Instance, cand: Candidate, c: int)
    requires Feasible(inst, cand)
    requires 0 <= c < inst.numSubcircuits
    ensures SumRange(0, |inst.qpus|, q => Sh(cand, c, q)) == inst.shotsPerSubcircuit * U(cand, c)
    ensures U(cand, c) == 0 ==> forall q :: 0 <= q < |inst.qpus| ==> Sh(cand, c, q) == 0
    ensures U(cand, c) == 0 ==> Dq(cand, c) <= 0
  {
    assert Holds(inst, cand, TotalShotsActiveBlock(c)[0]);
    assert Holds(inst, cand, ActiveBlock(c)[0]);
    if U(cand, c) == 0 {
      var row := q => Sh(cand, c, q);
      assert forall q :: 0 <= q < |inst.qpus| ==> row(q) >= 0;
      SumRangeZero(0, |inst.qpus|, row);
      forall q | 0 <= q < |inst.qpus| ensures Sh(cand, c, q) == 0 {
        assert row(q) == 0;
      }
    }
  }

  predicate NonnegativeWeights(inst: Instance)
  {
    forall v :: 0 <= v < |inst.weights| ==> inst.weights[v] >= 0
  }

  /** With non-negative weights, a subcircuit holding a vertex of positive
      weight is active (u[c] = 1), and an inactive one has d = a = p = 0. */
  lemma OccupiedIsActive(inst: Instance, cand: Candidate, c: int)
    requires Feasible(inst, cand) && NonnegativeWeights(inst)
    requires 0 <= c < inst.numSubcircuits
    ensures U(cand, c) == 0 ==> Dq(cand, c) == 0 && Aq(cand, c) == 0 && Pq(cand, c) == 0
    ensures forall v :: 0 <= v < |inst.weights| && W(inst, v) > 0 && Y(cand, v, c) == 1 ==> U(cand, c) == 1
  {
    var V := |inst.weights|;
    AggregatesMeaning(inst, cand, c);
    ShotsFollowActivation(inst, cand, c);
    var inC := v => if Y(cand, v, c) == 1 then W(inst, v) else 0;
    assert forall v :: 0 <= v < V ==> inC(v) >= 0;
    SumRangeNonneg(0, V, inC);
    forall v | 0 <= v < V && W(inst, v) > 0 && Y(cand, v, c) == 1
      ensures U(cand, c) == 1
    {
      SumRangeTermLe(0, V, inC, v);
      assert Binary(U(cand, c));
    }
  }

  // ---------------------------------------------------------------------
  // The solution print_and_return_solution returns

  /** One entry of the returned dictionary. */
  datatype SubcircuitData = SubcircuitData(
    vertices: seq<int>,
    shots: map<int, int>,
    capacity: int,
    inputQubits: int,
    initQubits: int,
    measuredQubits: int,
    contributingQubits: int,
    cutsOut: seq<int>,
    cutsIn: seq<int>)

  /** The sources of the cut edges among 0 .. n-1 whose source is in c. */
  function OutCuts(inst: Instance, cand: Candidate, c: int, n: nat): seq<int>
  {
    if n == 0 then []
    else OutCuts(inst, cand, c, n - 1)
         + (if X(cand, n - 1, c) > 0 && Y(cand, Src(inst, n - 1), c) == 1 then [Src(inst, n - 1)] else [])
  }

  /** The targets of the other cut edges among 0 .. n-1. */
  function InCuts(inst: Instance, cand: Candidate, c: int, n: nat): seq<int>
  {
    if n == 0 then []
    else InCuts(inst, cand, c, n - 1)
         + (if X(cand, n - 1, c) > 0 && Y(cand, Src(inst, n - 1), c) != 1 then [Tgt(inst, n - 1)] else [])
  }

  /** The entry of c after the first loop: its vertices, no shots yet. */
  function Listed(inst: Instance, cand: Candidate, c: int): SubcircuitData
  {
    SubcircuitData(VerticesIn(cand, c, |inst.weights|), map[], 0, 0, 0, 0, 0, [], [])
  }

  /** The entry of c after the second loop. */
  function WithShots(inst: Instance, cand: Candidate, c: int): SubcircuitData
  {
    Listed(inst, cand, c).(shots := ShotAssignment(inst, cand, c, |inst.qpus|))
  }

  /** The complete entry of c. */
  function Entry(inst: Instance, cand: Candidate, c: int): SubcircuitData
  {
    WithShots(inst, cand, c).(
      capacity := Dq(cand, c),
      inputQubits := Aq(cand, c),
      initQubits := Pq(cand, c),
      measuredQubits := Oq(cand, c),
      contributingQubits := Fq(cand, c),
      cutsOut := OutCuts(inst, cand, c, |inst.edges|),
      cutsIn := InCuts(inst, cand, c, |inst.edges|))
  }

  /** The subcircuits below n that received at least one vertex. */
  function Occupied(inst: Instance, cand: Candidate, n: int): set<int>
  {
    set c | 0 <= c < n && VerticesIn(cand, c, |inst.weights|) != []
  }

  // ---------------------------------------------------------------------
  // Properties of the returned entries

  lemma {:induction false} OutCutsCount(inst: Instance, cand: Candidate, c: int, n: nat)
    ensures |OutCuts(inst, cand, c, n)|
         == SumRange(0, n, e => if X(cand, e, c) > 0 && Y(cand, Src(inst, e), c) == 1 then 1 else 0)
  {
    if n > 0 { OutCutsCount(inst, cand, c, n - 1); }
  }

  lemma {:induction false} InCutsCount(inst: Instance, cand: Candidate, c: int, n: nat)
    ensures |InCuts(inst, cand, c, n)|
         == SumRange(0, n, e => if X(cand, e, c) > 0 && Y(cand, Src(inst, e), c) != 1 then 1 else 0)
  {
    if n > 0 { InCutsCount(inst, cand, c, n - 1); }
  }

  /** In a feasible solution the out list has o[c] entries and the in list
      p[c]: an edge is listed in c exactly when it leaves or enters c. */
  lemma CutListsMatchAggregates(inst: Instance, cand: Candidate, c: int)
    requires Feasible(inst, cand)
    requires 0 <= c < inst.numSubcircuits
    ensures |OutCuts(inst, cand, c, |inst.edges|)| == Oq(cand, c)
    ensures |InCuts(inst, cand, c, |inst.edges|)| == Pq(cand, c)
  {
    AggregatesMeaning(inst, cand, c);
    OutCutsAreLeaving(inst, cand, c);
    InCutsAreEntering(inst, cand, c);
  }

  /** The out list holds one entry per edge leaving c. */
  lemma OutCutsAreLeaving(inst: Instance, cand: Candidate, c: int)
    requires WellFormed(inst) && CommonDomains(inst, cand) && EdgeCutFamily(inst, cand)
    requires 0 <= c < inst.numSubcircuits
    ensures |OutCuts(inst, cand, c, |inst.edges|)| == |LeavingEdges(inst, cand, c)|
  {
    var E := |inst.edges|;
    var leaving := e => Y(cand, Src(inst, e), c) == 1 && Y(cand, Tgt(inst, e), c) != 1;
    forall e | 0 <= e < E
      ensures (X(cand, e, c) > 0 && Y(cand, Src(inst, e), c) == 1) == leaving(e)
    {
      EdgeCutExactlyOneEndpoint(inst, cand, e, c);
      assert Binary(X(cand, e, c));
    }
    OutCutsCount(inst, cand, c, E);
    SumRangeExt(0, E, e => if X(cand, e, c) > 0 && Y(cand, Src(inst, e), c) == 1 then 1 else 0,
                      e => if leaving(e) then 1 else 0);
    SumIndicator(E, leaving);
    assert (set e | 0 <= e < E && leaving(e)) == LeavingEdges(inst, cand, c);
  }

  /** The in list holds one entry per edge entering c. */
  lemma InCutsAreEntering(inst: Instance, cand: Candidate, c: int)
    requires WellFormed(inst) && CommonDomains(inst, cand) && EdgeCutFamily(inst, cand)
    requires 0 <= c < inst.numSubcircuits
    ensures |InCuts(inst, cand, c, |inst.edges|)| == |EnteringEdges(inst, cand, c)|
  {
    var E := |inst.edges|;
    var entering := e => Y(cand, Tgt(inst, e), c) == 1 && Y(cand, Src(inst, e), c) != 1;
    forall e | 0 <= e < E
      ensures (X(cand, e, c) > 0 && Y(cand, Src(inst, e), c) != 1) == entering(e)
    {
      EdgeCutExactlyOneEndpoint(inst, cand, e, c);
      assert Binary(X(cand, e, c));
    }
    InCutsCount(inst, cand, c, E);
    SumRangeExt(0, E, e => if X(cand, e, c) > 0 && Y(cand, Src(inst, e), c) != 1 then 1 else 0,
                      e => if entering(e) then 1 else 0);
    SumIndicator(E, entering);
    assert (set e | 0 <= e < E && entering(e)) == EnteringEdges(inst, cand, c);
  }

  /** In a feasible solution every occupied subcircuit is active and its
      shot map's counts add up to the N shots it must run. */
  lemma EntryShotsTotal(inst: Instance, cand: Candidate, c: int)
    requires Feasible(inst, cand) && NonnegativeWeights(inst)
    requires 0 <= c < inst.numSubcircuits
    requires exists v :: 0 <= v < |inst.weights| && W(inst, v) > 0 && Y(cand, v, c) == 1
    ensures U(cand, c) == 1
    ensures SumRange(0, |inst.qpus|, q => Sh(cand, c, q)) == inst.shotsPerSubcircuit
  {
    OccupiedIsActive(inst, cand, c);
    ShotsFollowActivation(inst, cand, c);
  }

  // ---------------------------------------------------------------------
  // The model object

  class CutAndShootModel {
    const inst: Instance
    const alpha: real
    const beta: real
    /** The constraints added so far, in order. */
    var problem: seq<Constraint>

    /** __init__ once its checks pass: store the input, then add every
        constraint. */
    constructor (inst: Instance, alpha: real, beta: real)
      requires InitError(inst, alpha, beta) == None
      ensures this.inst == inst && this.alpha == alpha && this.beta == beta
      ensures problem == Constraints(inst)
    {
      this.inst := inst;
      this.alpha := alpha;
      this.beta := beta;
      problem := [];
      new;
      AddConstraints();
    }

    /** __init__ with its exceptions as a Failure. */
    static method New(inst: Instance, alpha: real, beta: real) returns (r: Result<CutAndShootModel, ModelError>)
      ensures r.Failure? <==> InitError(inst, alpha, beta) != None
      ensures r.Failure? ==> Some(r.error) == InitError(inst, alpha, beta)
      ensures r.Success? ==> fresh(r.value) && r.value.inst == inst && r.value.problem == Constraints(inst)
    {
      var err := InitError(inst, alpha, beta);
      if err.Some? {
        return Failure(err.value);
      }
      var m := new CutAndShootModel(inst, alpha, beta);
      return Success(m);
    }

    /** add_constraints: its loops in order. */
    method AddConstraints()
      modifies this
      ensures problem == old(problem) + Constraints(inst)
    {
      ghost var p0 := problem;
      AddPartitionConstraints();
      AddActiveConstraints();
      AddTotalShotsConstraints();
      ghost var p1 := problem;
      AddScheduleConstraints();
      var S := inst.numSubcircuits;
      AppendAssoc(p0 + PartitionConstraints(inst), Line(S, ActiveBlock), Line(S, TotalShotsActiveBlock));
      AppendAssoc(p0, PartitionConstraints(inst), ActivationConstraints(inst));
      AppendAssoc(p0, PartitionConstraints(inst) + ActivationConstraints(inst), ScheduleConstraints(inst));
    }

    /** The aggregate, linearisation, uniqueness, edge and ordering loops. */
    method AddPartitionConstraints()
      modifies this
      ensures problem == old(problem) + PartitionConstraints(inst)
    {
      var S, V, E := inst.numSubcircuits, |inst.weights|, |inst.edges|;
      ghost var p0 := problem;
      AddAggregateConstraints();
      AddLinearisationConstraints();
      AppendAssoc(p0, Line(S, AggregateBlock), Grid(E, S, LinearisationBlock));
      ghost var l2 := Line(S, AggregateBlock) + Grid(E, S, LinearisationBlock);
      AddUniqueVertexConstraints();
      AppendAssoc(p0, l2, Line(V, UniqueBlock));
      ghost var l3 := l2 + Line(V, UniqueBlock);
      AddEdgeCutConstraints();
      AppendAssoc(p0, l3, Grid(S, E, EdgeCutBlock));
      ghost var l4 := l3 + Grid(S, E, EdgeCutBlock);
      AddOrderingConstraints();
      AppendAssoc(p0, l4, Line(S, OrderingBlock));
    }

    /** The QPU-use, capacity and time loops. */
    method AddScheduleConstraints()
      modifies this
      ensures problem == old(problem) + ScheduleConstraints(inst)
    {
      var S, Q := inst.numSubcircuits, |inst.qpus|;
      ghost var p0 := problem;
      AddUseQpuConstraints();
      AddCapacityConstraints();
      AppendAssoc(p0, Line(Q, UseQpuBlock), Grid(S, Q, CapacityBlock));
      AddTimeConstraints();
      AppendAssoc(p0, Line(Q, UseQpuBlock) + Grid(S, Q, CapacityBlock), Line(Q, TimeBlock));
    }

    /** For each c: a, p, o, f and d of c. */
    method AddAggregateConstraints()
      modifies this
      ensures problem == old(problem) + Line(inst.numSubcircuits, AggregateBlock)
    {
      ghost var start := problem;
      var c := 0;
      while c < inst.numSubcircuits
        invariant 0 <= c <= inst.numSubcircuits
        invariant problem == start + Line(c, AggregateBlock)
      {
        problem := problem + AggregateBlock(c);
        c := c + 1;
      }
    }

    /** For each e, then each c: the six z_p / z_o inequalities. */
    method AddLinearisationConstraints()
      modifies this
      ensures problem == old(problem) + Grid(|inst.edges|, inst.numSubcircuits, LinearisationBlock)
    {
      ghost var start := problem;
      var e := 0;
      while e < |inst.edges|
        invariant 0 <= e <= |inst.edges|
        invariant problem == start + Grid(e, inst.numSubcircuits, LinearisationBlock)
      {
        ghost var rowStart := problem;
        var c := 0;
        while c < inst.numSubcircuits
          invariant 0 <= c <= inst.numSubcircuits
          invariant problem == rowStart + Row(e, c, LinearisationBlock)
        {
          RowStep(rowStart, e, c, LinearisationBlock);
          problem := problem + LinearisationBlock(e, c);
          c := c + 1;
        }
        GridStep(start, e, inst.numSubcircuits, LinearisationBlock);
        e := e + 1;
      }
    }

    /** For each vertex: it lies in exactly one subcircuit. */
    method AddUniqueVertexConstraints()
      modifies this
      ensures problem == old(problem) + Line(|inst.weights|, UniqueBlock)
    {
      ghost var start := problem;
      var v := 0;
      while v < |inst.weights|
        invariant 0 <= v <= |inst.weights|
        invariant problem == start + Line(v, UniqueBlock)
      {
        problem := problem + UniqueBlock(v);
        v := v + 1;
      }
    }

    /** For each c, then each e: the four x inequalities. */
    method AddEdgeCutConstraints()
      modifies this
      ensures problem == old(problem) + Grid(inst.numSubcircuits, |inst.edges|, EdgeCutBlock)
    {
      ghost var start := problem;
      var c := 0;
      while c < inst.numSubcircuits
        invariant 0 <= c <= inst.numSubcircuits
        invariant problem == start + Grid(c, |inst.edges|, EdgeCutBlock)
      {
        ghost var rowStart := problem;
        var e := 0;
        while e < |inst.edges|
          invariant 0 <= e <= |inst.edges|
          invariant problem == rowStart + Row(c, e, EdgeCutBlock)
        {
          RowStep(rowStart, c, e, EdgeCutBlock);
          problem := problem + EdgeCutBlock(c, e);
          e := e + 1;
        }
        GridStep(start, c, |inst.edges|, EdgeCutBlock);
        c := c + 1;
      }
    }

    /** For each k < S: y[k][j] sums to 0 over k < j < S. */
    method AddOrderingConstraints()
      modifies this
      ensures problem == old(problem) + Line(inst.numSubcircuits, OrderingBlock)
    {
      ghost var start := problem;
      var k := 0;
      while k < inst.numSubcircuits
        invariant 0 <= k <= inst.numSubcircuits
        invariant problem == start + Line(k, OrderingBlock)
      {
        problem := problem + OrderingBlock(k);
        k := k + 1;
      }
    }

    /** For each c: d[c] <= (Σ weights)·u[c]. */
    method AddActiveConstraints()
      modifies this
      ensures problem == old(problem) + Line(inst.numSubcircuits, ActiveBlock)
    {
      ghost var start := problem;
      var c := 0;
      while c < inst.numSubcircuits
        invariant 0 <= c <= inst.numSubcircuits
        invariant problem == start + Line(c, ActiveBlock)
      {
        problem := problem + ActiveBlock(c);
        c := c + 1;
      }
    }

    /** For each c: the shots of c total N·u[c]. */
    method AddTotalShotsConstraints()
      modifies this
      ensures problem == old(problem) + Line(inst.numSubcircuits, TotalShotsActiveBlock)
    {
      ghost var start := problem;
      var c := 0;
      while c < inst.numSubcircuits
        invariant 0 <= c <= inst.numSubcircuits
        invariant problem == start + Line(c, TotalShotsActiveBlock)
      {
        problem := problem + TotalShotsActiveBlock(c);
        c := c + 1;
      }
    }

    /** For each q: the shots on q are at most S·N·use_q[q]. */
    method AddUseQpuConstraints()
      modifies this
      ensures problem == old(problem) + Line(|inst.qpus|, UseQpuBlock)
    {
      ghost var start := problem;
      var q := 0;
      while q < |inst.qpus|
        invariant 0 <= q <= |inst.qpus|
        invariant problem == start + Line(q, UseQpuBlock)
      {
        problem := problem + UseQpuBlock(q);
        q := q + 1;
      }
    }

    /** For each c, then each q: the capacity and enable-shots inequalities. */
    method AddCapacityConstraints()
      modifies this
      ensures problem == old(problem) + Grid(inst.numSubcircuits, |inst.qpus|, CapacityBlock)
    {
      ghost var start := problem;
      var c := 0;
      while c < inst.numSubcircuits
        invariant 0 <= c <= inst.numSubcircuits
        invariant problem == start + Grid(c, |inst.qpus|, CapacityBlock)
      {
        ghost var rowStart := problem;
        var q := 0;
        while q < |inst.qpus|
          invariant 0 <= q <= |inst.qpus|
          invariant problem == rowStart + Row(c, q, CapacityBlock)
        {
          RowStep(rowStart, c, q, CapacityBlock);
          problem := problem + CapacityBlock(c, q);
          q := q + 1;
        }
        GridStep(start, c, |inst.qpus|, CapacityBlock);
        c := c + 1;
      }
    }

    /** For each q: the bounds on T_q[q] and T >= T_q[q]. */
    method AddTimeConstraints()
      modifies this
      ensures problem == old(problem) + Line(|inst.qpus|, TimeBlock)
    {
      ghost var start := problem;
      var q := 0;
      while q < |inst.qpus|
        invariant 0 <= q <= |inst.qpus|
        invariant problem == start + Line(q, TimeBlock)
      {
        problem := problem + TimeBlock(q);
        q := q + 1;
      }
    }

    /** The number of cuts K of a candidate, as build_objective_function
        defines it: in a feasible solution, the number of crossing edges. */
    function K(cand: Candidate): (k: real)
      requires Feasible(inst, cand)
      ensures k == |CrossingEdges(inst, cand)| as real
      ensures 0.0 <= k <= |inst.edges| as real
    {
      CutCountIsCrossingEdges(inst, cand);
      BoundedSetSize(CrossingEdges(inst, cand), |inst.edges|);
      CutCount(inst, cand)
    }

    /** The shot-assignment loop over QPUs for one subcircuit. */
    method ShotMap(cand: Candidate, c: int) returns (assignment: map<int, int>)
      ensures assignment == ShotAssignment(inst, cand, c, |inst.qpus|)
    {
      assignment := map[];
      var q := 0;
      while q < |inst.qpus|
        invariant 0 <= q <= |inst.qpus|
        invariant assignment == ShotAssignment(inst, cand, c, q)
      {
        var val := Sh(cand, c, q);
        if val > 0 {
          assignment := assignment[inst.qpus[q].index := val];
        }
        q := q + 1;
      }
    }

    /** The cut loop over edges for one subcircuit: a cut edge whose source
        is in c adds its source to out, any other cut edge its target to in. */
    method CutLists(cand: Candidate, c: int) returns (outs: seq<int>, ins: seq<int>)
      ensures outs == OutCuts(inst, cand, c, |inst.edges|)
      ensures ins == InCuts(inst, cand, c, |inst.edges|)
    {
      outs, ins := [], [];
      var e := 0;
      while e < |inst.edges|
        invariant 0 <= e <= |inst.edges|
        invariant outs == OutCuts(inst, cand, c, e) && ins == InCuts(inst, cand, c, e)
      {
        if X(cand, e, c) > 0 {
          if Y(cand, Src(inst, e), c) == 1 {
            outs := outs + [Src(inst, e)];
          } else {
            ins := ins + [Tgt(inst, e)];
          }
        }
        e := e + 1;
      }
    }

    /** print_and_return_solution on the values the solver chose: None when
        the status is Infeasible, else one complete entry per subcircuit
        that received a vertex. */
    method PrintAndReturnSolution(status: Status, cand: Candidate) returns (r: Option<map<int, SubcircuitData>>)
      ensures status == Infeasible <==> r == None
      ensures r.Some? ==> r.value.Keys == Occupied(inst, cand, inst.numSubcircuits)
      ensures r.Some? ==> forall c :: c in r.value ==> r.value[c] == Entry(inst, cand, c)
    {
      if status == Infeasible {
        return None;
      }
      var data := ListSubcircuits(cand);
      data := AddShotMaps(cand, data);
      data := AddDetails(cand, data);
      return Some(data);
    }

    /** The first loop: an entry with its vertex list for every subcircuit
        that has one. */
    method ListSubcircuits(cand: Candidate) returns (data: map<int, SubcircuitData>)
      ensures data.Keys == Occupied(inst, cand, inst.numSubcircuits)
      ensures forall k :: k in data ==> data[k] == Listed(inst, cand, k)
    {
      data := map[];
      var c := 0;
      while c < inst.numSubcircuits
        invariant 0 <= c <= inst.numSubcircuits
        invariant data.Keys == Occupied(inst, cand, c)
        invariant forall k :: k in data ==> data[k] == Listed(inst, cand, k)
      {
        var vertices := VerticesIn(cand, c, |inst.weights|);
        if vertices != [] {
          data := data[c := SubcircuitData(vertices, map[], 0, 0, 0, 0, 0, [], [])];
        }
        c := c + 1;
      }
    }

    /** The second loop: the shot map of every listed subcircuit. */
    method AddShotMaps(cand: Candidate, listed: map<int, SubcircuitData>) returns (data: map<int, SubcircuitData>)
      requires forall k :: k in listed ==> 0 <= k < inst.numSubcircuits && listed[k] == Listed(inst, cand, k)
      ensures data.Keys == listed.Keys
      ensures forall k :: k in data ==> data[k] == WithShots(inst, cand, k)
    {
      data := listed;
      var c := 0;
      while c < inst.numSubcircuits
        invariant 0 <= c <= inst.numSubcircuits
        invariant data.Keys == listed.Keys
        invariant forall k :: k in data ==> data[k] == if 0 <= k < c then WithShots(inst, cand, k) else Listed(inst, cand, k)
      {
        if c in data {
          var assignment := ShotMap(cand, c);
          data := data[c := data[c].(shots := assignment)];
        }
        c := c + 1;
      }
    }

    /** The last loop: aggregates and cut lists of every listed subcircuit. */
    method AddDetails(cand: Candidate, withShots: map<int, SubcircuitData>) returns (data: map<int, SubcircuitData>)
      requires forall k :: k in withShots ==> 0 <= k < inst.numSubcircuits && withShots[k] == WithShots(inst, cand, k)
      ensures data.Keys == withShots.Keys
      ensures forall k :: k in data ==> data[k] == Entry(inst, cand, k)
    {
      data := withShots;
      var c := 0;
      while c < inst.numSubcircuits
        invariant 0 <= c <= inst.numSubcircuits
        invariant data.Keys == withShots.Keys
        invariant forall k :: k in data ==> data[k] == if 0 <= k < c then Entry(inst, cand, k) else WithShots(inst, cand, k)
      {
        if c in data {
          var outs, ins := CutLists(cand, c);
          data := data[c := data[c].(
            capacity := Dq(cand, c),
            inputQubits := Aq(cand, c),
            initQubits := Pq(cand, c),
            measuredQubits := Oq(cand, c),
            contributingQubits := Fq(cand, c),
            cutsOut := outs,
            cutsIn := ins)];
        }
        c := c + 1;
      }
    }
  }
}
