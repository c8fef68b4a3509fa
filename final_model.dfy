/** ModelloCutAndShoot: the later optimiser version.  It drops the
    activation variable, so every subcircuit, empty or not, must run exactly
    N shots; T_q and T are continuous; and its extraction returns an entry
    for every subcircuit index, with no check of the solver status. */
module FinalModel {
  import opened Wrappers
  import opened Milp
  import opened MilpProps
  import opened Extraction

  /** Why construction raises. */
  datatype ModelError =
    | NegativeAlpha
    | NegativeBeta
    | WeightsNotSummingToOne
    | MissingVertexKey
    | NoQpus

  function Abs(r: real): real { if r < 0.0 then -r else r }

  /** The objective weights are checked in order: alpha, then beta, then
      their sum. */
  function CheckWeights(alpha: real, beta: real): (err: Option<ModelError>)
    ensures err == Some(NegativeAlpha) <==> alpha < 0.0
    ensures err == Some(NegativeBeta) <==> alpha >= 0.0 && beta < 0.0
    ensures err == None <==> alpha >= 0.0 && beta >= 0.0 && alpha + beta == 1.0
    ensures err != Some(MissingVertexKey) && err != Some(NoQpus)
  {
    if alpha < 0.0 then Some(NegativeAlpha)
    else if beta < 0.0 then Some(NegativeBeta)
    else if Abs(alpha + beta) != 1.0 then Some(WeightsNotSummingToOne)
    else None
  }

  /** aggiungi_vincoli looks up y[e[0], c] and y[e[1], c] as soon as there
      is a subcircuit, and y[(k, j)] for k < j < S. */
  predicate KeysExist(inst: Instance)
  {
    (inst.numSubcircuits == 0 || EndpointsKnown(inst)) && OrderingKeysKnown(inst)
  }

  /** The exception construction raises, if any: the weight checks, then
      a missing key while the constraints are added, then the ValueError of
      max() over an empty QPU list when the objective computes T_max. */
  function InitError(inst: Instance, alpha: real, beta: real): (err: Option<ModelError>)
    ensures err == None <==> CheckWeights(alpha, beta) == None && KeysExist(inst) && |inst.qpus| > 0
    ensures CheckWeights(alpha, beta) != None ==> err == CheckWeights(alpha, beta)
    ensures err == Some(MissingVertexKey) <==> CheckWeights(alpha, beta) == None && !KeysExist(inst)
    ensures err == Some(NoQpus) <==> CheckWeights(alpha, beta) == None && KeysExist(inst) && |inst.qpus| == 0
  {
    if CheckWeights(alpha, beta) != None then CheckWeights(alpha, beta)
    else if !KeysExist(inst) then Some(MissingVertexKey)
    else if |inst.qpus| == 0 then Some(NoQpus)
    else None
  }

  /** Every constraint aggiungi_vincoli appends, in its loop order. */
  function Constraints(inst: Instance): seq<Constraint>
  {
    PartitionConstraints(inst) + Line(inst.numSubcircuits, TotalShotsExactBlock) + ScheduleConstraints(inst)
  }

  /** The families this version's program is made of. */
  predicate Families(inst: Instance, cand: Candidate)
  {
    && PartitionFamilies(inst, cand)
    && TotalShotsExactFamily(inst, cand)
    && ScheduleFamilies(inst, cand)
  }

  /** aggiungi_variabili: the shared domains; T_q and T are continuous and
      there is no u. */
  predicate Feasible(inst: Instance, cand: Candidate)
  {
    WellFormed(inst) && Shaped(inst, cand) && CommonDomains(inst, cand) && Families(inst, cand)
  }

  /** The constraint list holds exactly when every family does. */
  lemma ConstraintsMeaning(inst: Instance, cand: Candidate)
    ensures AllHold(inst, cand, Constraints(inst)) <==> Families(inst, cand)
  {
    var part, shots := PartitionConstraints(inst), Line(inst.numSubcircuits, TotalShotsExactBlock);
    AllHoldConcat(inst, cand, part + shots, ScheduleConstraints(inst));
    AllHoldConcat(inst, cand, part, shots);
    PartitionConstraintsMeaning(inst, cand);
    TotalShotsExactLine(inst, cand);
    ScheduleConstraintsMeaning(inst, cand);
  }

  // ---------------------------------------------------------------------
  // What this version's shot constraint adds

  /** Every subcircuit, empty ones included, runs exactly N shots; when N
      is positive some QPU runs part of them, is enabled for the
      subcircuit, can hold it and is marked used. */
  lemma EverySubcircuitRunsShots(inst: Instance, cand: Candidate, c: int)
    requires Feasible(inst, cand)
    requires 0 <= c < inst.numSubcircuits
    ensures SumRange(0, |inst.qpus|, q => Sh(cand, c, q)) == inst.shotsPerSubcircuit
    ensures inst.shotsPerSubcircuit > 0 ==>
              exists q :: 0 <= q < |inst.qpus| && Sh(cand, c, q) > 0 && Ab(cand, c, q) == 1
                          && UseQ(cand, q) == 1 && Dq(cand, c) <= inst.qpus[q].capacity
  {
    assert AllHold(inst, cand, TotalShotsExactBlock(c));
    assert Holds(inst, cand, TotalShotsExactBlock(c)[0]);
    if inst.shotsPerSubcircuit > 0 {
      PositiveTotalFindsQpu(inst, cand, c);
    }
  }

  /** With a subcircuit to run and a non-zero shot count there is no
      feasible assignment without a QPU. */
  lemma NoQpuNoSolution(inst: Instance, cand: Candidate)
    requires Feasible(inst, cand)
    requires inst.numSubcircuits > 0 && inst.shotsPerSubcircuit != 0
    ensures |inst.qpus| > 0
  {
    EverySubcircuitRunsShots(inst, cand, 0);
  }

  // ---------------------------------------------------------------------
  // The dictionary stampa_e_restituisci_risultato returns

  /** One entry: the subcircuit's vertices and its shot map. */
  datatype SubcircuitShots = SubcircuitShots(vertices: seq<int>, shots: map<int, int>)

  /** The entry of c after the first loop. */
  function Listed(inst: Instance, cand: Candidate, c: int): SubcircuitShots
  {
    SubcircuitShots(VerticesIn(cand, c, |inst.weights|), map[])
  }

  /** The complete entry of c. */
  function Entry(inst: Instance, cand: Candidate, c: int): SubcircuitShots
  {
    SubcircuitShots(VerticesIn(cand, c, |inst.weights|), ShotAssignment(inst, cand, c, |inst.qpus|))
  }

  // ---------------------------------------------------------------------
  // The model object

  class ModelloCutAndShoot {
    const inst: Instance
    const alpha: real
    const beta: real
    /** The constraints added so far, in order. */
    var problem: seq<Constraint>

    /** __init__ once its checks pass: store the input, then add every
        constraint. */
    constructor (inst: Instance, alpha: real, beta: real)
      requires InitError(inst, alpha, beta) == None
      ensures this.inst == inst && this.alpha == alpha && this.beta == beta
      ensures problem == Constraints(inst)
    {
      this.inst := inst;
      this.alpha := alpha;
      this.beta := beta;
      problem := [];
      new;
      AggiungiVincoli();
    }

    /** __init__ with its exceptions as a Failure. */
    static method New(inst: Instance, alpha: real, beta: real) returns (r: Result<ModelloCutAndShoot, ModelError>)
      ensures r.Failure? <==> InitError(inst, alpha, beta) != None
      ensures r.Failure? ==> Some(r.error) == InitError(inst, alpha, beta)
      ensures r.Success? ==> fresh(r.value) && r.value.inst == inst && r.value.problem == Constraints(inst)
    {
      var err := InitError(inst, alpha, beta);
      if err.Some? {
        return Failure(err.value);
      }
      var m := new ModelloCutAndShoot(inst, alpha, beta);
      return Success(m);
    }

    /** aggiungi_vincoli: its loops in order. */
    method AggiungiVincoli()
      modifies this
      ensures problem == old(problem) + Constraints(inst)
    {
      ghost var p0 := problem;
      AddPartitionConstraints();
      AddTotalShotsConstraints();
      AddScheduleConstraints();
      AppendAssoc(p0, PartitionConstraints(inst) + Line(inst.numSubcircuits, TotalShotsExactBlock),
                  ScheduleConstraints(inst));
      AppendAssoc(p0, PartitionConstraints(inst), Line(inst.numSubcircuits, TotalShotsExactBlock));
    }

    /** The aggregate, linearisation, uniqueness, edge and ordering loops. */
    method AddPartitionConstraints()
      modifies this
      ensures problem == old(problem) + PartitionConstraints(inst)
    {
      var S, V, E := inst.numSubcircuits, |inst.weights|, |inst.edges|;
      ghost var p0 := problem;
      AddAggregateConstraints();
      AddLinearisationConstraints();
      AppendAssoc(p0, Line(S, AggregateBlock), Grid(E, S, LinearisationBlock));
      ghost var l2 := Line(S, AggregateBlock) + Grid(E, S, LinearisationBlock);
      AddUniqueVertexConstraints();
      AppendAssoc(p0, l2, Line(V, UniqueBlock));
      ghost var l3 := l2 + Line(V, UniqueBlock);
      AddEdgeCutConstraints();
      AppendAssoc(p0, l3, Grid(S, E, EdgeCutBlock));
      ghost var l4 := l3 + Grid(S, E, EdgeCutBlock);
      AddOrderingConstraints();
      AppendAssoc(p0, l4, Line(S, OrderingBlock));
    }

    /** The QPU-use, capacity and time loops. */
    method AddScheduleConstraints()
      modifies this
      ensures problem == old(problem) + ScheduleConstraints(inst)
    {
      var S, Q := inst.numSubcircuits, |inst.qpus|;
      ghost var p0 := problem;
      AddUseQpuConstraints();
      AddCapacityConstraints();
      AppendAssoc(p0, Line(Q, UseQpuBlock), Grid(S, Q, CapacityBlock));
      AddTimeConstraints();
      AppendAssoc(p0, Line(Q, UseQpuBlock) + Grid(S, Q, CapacityBlock), Line(Q, TimeBlock));
    }

    /** For each c: a, p, o, f and d of c. */
    method AddAggregateConstraints()
      modifies this
      ensures problem == old(problem) + Line(inst.numSubcircuits, AggregateBlock)
    {
      ghost var start := problem;
      var c := 0;
      while c < inst.numSubcircuits
        invariant 0 <= c <= inst.numSubcircuits
        invariant problem == start + Line(c, AggregateBlock)
      {
        problem := problem + AggregateBlock(c);
        c := c + 1;
      }
    }

    /** For each e, then each c: the six z_p / z_o inequalities. */
    method AddLinearisationConstraints()
      modifies this
      ensures problem == old(problem) + Grid(|inst.edges|, inst.numSubcircuits, LinearisationBlock)
    {
      ghost var start := problem;
      var e := 0;
      while e < |inst.edges|
        invariant 0 <= e <= |inst.edges|
        invariant problem == start + Grid(e, inst.numSubcircuits, LinearisationBlock)
      {
        ghost var rowStart := problem;
        var c := 0;
        while c < inst.numSubcircuits
          invariant 0 <= c <= inst.numSubcircuits
          invariant problem == rowStart + Row(e, c, LinearisationBlock)
        {
          RowStep(rowStart, e, c, LinearisationBlock);
          problem := problem + LinearisationBlock(e, c);
          c := c + 1;
        }
        GridStep(start, e, inst.numSubcircuits, LinearisationBlock);
        e := e + 1;
      }
    }

    /** For each vertex: it lies in exactly one subcircuit. */
    method AddUniqueVertexConstraints()
      modifies this
      ensures problem == old(problem) + Line(|inst.weights|, UniqueBlock)
    {
      ghost var start := problem;
      var v := 0;
      while v < |inst.weights|
        invariant 0 <= v <= |inst.weights|
        invariant problem == start + Line(v, UniqueBlock)
      {
        problem := problem + UniqueBlock(v);
        v := v + 1;
      }
    }

    /** For each c, then each e: the four x inequalities. */
    method AddEdgeCutConstraints()
      modifies this
      ensures problem == old(problem) + Grid(inst.numSubcircuits, |inst.edges|, EdgeCutBlock)
    {
      ghost var start := problem;
      var c := 0;
      while c < inst.numSubcircuits
        invariant 0 <= c <= inst.numSubcircuits
        invariant problem == start + Grid(c, |inst.edges|, EdgeCutBlock)
      {
        ghost var rowStart := problem;
        var e := 0;
        while e < |inst.edges|
          invariant 0 <= e <= |inst.edges|
          invariant problem == rowStart + Row(c, e, EdgeCutBlock)
        {
          RowStep(rowStart, c, e, EdgeCutBlock);
          problem := problem + EdgeCutBlock(c, e);
          e := e + 1;
        }
        GridStep(start, c, |inst.edges|, EdgeCutBlock);
        c := c + 1;
      }
    }

    /** For each k < S: y[k][j] sums to 0 over k < j < S. */
    method AddOrderingConstraints()
      modifies this
      ensures problem == old(problem) + Line(inst.numSubcircuits, OrderingBlock)
    {
      ghost var start := problem;
      var k := 0;
      while k < inst.numSubcircuits
        invariant 0 <= k <= inst.numSubcircuits
        invariant problem == start + Line(k, OrderingBlock)
      {
        problem := problem + OrderingBlock(k);
        k := k + 1;
      }
    }

    /** For each c: the shots of c total exactly N. */
    method AddTotalShotsConstraints()
      modifies this
      ensures problem == old(problem) + Line(inst.numSubcircuits, TotalShotsExactBlock)
    {
      ghost var start := problem;
      var c := 0;
      while c < inst.numSubcircuits
        invariant 0 <= c <= inst.numSubcircuits
        invariant problem == start + Line(c, TotalShotsExactBlock)
      {
        problem := problem + TotalShotsExactBlock(c);
        c := c + 1;
      }
    }

    /** For each q: the shots on q are at most S·N·use_q[q]. */
    method AddUseQpuConstraints()
      modifies this
      ensures problem == old(problem) + Line(|inst.qpus|, UseQpuBlock)
    {
      ghost var start := problem;
      var q := 0;
      while q < |inst.qpus|
        invariant 0 <= q <= |inst.qpus|
        invariant problem == start + Line(q, UseQpuBlock)
      {
        problem := problem + UseQpuBlock(q);
        q := q + 1;
      }
    }

    /** For each c, then each q: the capacity and enable-shots inequalities. */
    method AddCapacityConstraints()
      modifies this
      ensures problem == old(problem) + Grid(inst.numSubcircuits, |inst.qpus|, CapacityBlock)
    {
      ghost var start := problem;
      var c := 0;
      while c < inst.numSubcircuits
        invariant 0 <= c <= inst.numSubcircuits
        invariant problem == start + Grid(c, |inst.qpus|, CapacityBlock)
      {
        ghost var rowStart := problem;
        var q := 0;
        while q < |inst.qpus|
          invariant 0 <= q <= |inst.qpus|
          invariant problem == rowStart + Row(c, q, CapacityBlock)
        {
          RowStep(rowStart, c, q, CapacityBlock);
          problem := problem + CapacityBlock(c, q);
          q := q + 1;
        }
        GridStep(start, c, |inst.qpus|, CapacityBlock);
        c := c + 1;
      }
    }

    /** For each q: the bounds on T_q[q] and T >= T_q[q]. */
    method AddTimeConstraints()
      modifies this
      ensures problem == old(problem) + Line(|inst.qpus|, TimeBlock)
    {
      ghost var start := problem;
      var q := 0;
      while q < |inst.qpus|
        invariant 0 <= q <= |inst.qpus|
        invariant problem == start + Line(q, TimeBlock)
      {
        problem := problem + TimeBlock(q);
        q := q + 1;
      }
    }

    /** The number of cuts K of a candidate, as costruisci_funzione_obiettivo
        defines it: in a feasible solution, the number of crossing edges. */
    function K(cand: Candidate): (k: real)
      requires Feasible(inst, cand)
      ensures k == |CrossingEdges(inst, cand)| as real
      ensures 0.0 <= k <= |inst.edges| as real
    {
      CutCountIsCrossingEdges(inst, cand);
      BoundedSetSize(CrossingEdges(inst, cand), |inst.edges|);
      CutCount(inst, cand)
    }

    /** stampa_e_restituisci_risultato on the values the solver chose: an
        entry for every subcircuit index, whatever the status. */
    method StampaERestituisciRisultato(cand: Candidate) returns (r: map<int, SubcircuitShots>)
      ensures forall c :: c in r <==> 0 <= c < inst.numSubcircuits
      ensures forall c :: c in r ==> r[c] == Entry(inst, cand, c)
    {
      r := ListSubcircuits(cand);
      r := AddShotMaps(cand, r);
    }

    /** The first loop: an entry with its vertex list for every subcircuit. */
    method ListSubcircuits(cand: Candidate) returns (r: map<int, SubcircuitShots>)
      ensures forall c :: c in r <==> 0 <= c < inst.numSubcircuits
      ensures forall c :: c in r ==> r[c] == Listed(inst, cand, c)
    {
      r := map[];
      var c := 0;
      while c < inst.numSubcircuits
        invariant 0 <= c <= inst.numSubcircuits
        invariant forall k :: k in r <==> 0 <= k < c
        invariant forall k :: k in r ==> r[k] == Listed(inst, cand, k)
      {
        r := r[c := SubcircuitShots(VerticesIn(cand, c, |inst.weights|), map[])];
        c := c + 1;
      }
    }

    /** The second loop: the shot map of every subcircuit. */
    method AddShotMaps(cand: Candidate, listed: map<int, SubcircuitShots>) returns (r: map<int, SubcircuitShots>)
      requires forall c :: c in listed <==> 0 <= c < inst.numSubcircuits
      requires forall c :: c in listed ==> listed[c] == Listed(inst, cand, c)
      ensures forall c :: c in r <==> 0 <= c < inst.numSubcircuits
      ensures forall c :: c in r ==> r[c] == Entry(inst, cand, c)
    {
      r := listed;
      var c := 0;
      while c < inst.numSubcircuits
        invariant 0 <= c <= inst.numSubcircuits
        invariant forall k :: k in r <==> 0 <= k < inst.numSubcircuits
        invariant forall k :: k in r ==> r[k] == if k < c then Entry(inst, cand, k) else Listed(inst, cand, k)
      {
        var assegnazione := ShotMap(cand, c);
        r := r[c := r[c].(shots := assegnazione)];
        c := c + 1;
      }
    }

    /** The shot-assignment loop over QPUs for one subcircuit. */
    method ShotMap(cand: Candidate, c: int) returns (assegnazione: map<int, int>)
      ensures assegnazione == ShotAssignment(inst, cand, c, |inst.qpus|)
    {
      assegnazione := map[];
      var q := 0;
      while q < |inst.qpus|
        invariant 0 <= q <= |inst.qpus|
        invariant assegnazione == ShotAssignment(inst, cand, c, q)
      {
        var val := Sh(cand, c, q);
        if val > 0 {
          assegnazione := assegnazione[inst.qpus[q].index := val];
        }
        q := q + 1;
      }
    }
  }
}
