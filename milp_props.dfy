/** What the constraint families of the cut-and-shoot program mean, proved
    once for both optimiser versions: the linearisations are exact on
    binaries, every vertex lies in exactly one subcircuit, the aggregates
    count what their comments say, K counts the crossing edges, and the
    scheduling constraints bound capacity and makespan. */
module MilpProps {
  import opened Milp

  // ---------------------------------------------------------------------
  // Finite sums

  lemma {:induction false} SumRangeExt(lo: int, hi: int, f: int -> int, g: int -> int)
    requires forall i :: lo <= i < hi ==> f(i) == g(i)
    ensures SumRange(lo, hi, f) == SumRange(lo, hi, g)
    decreases hi - lo
  {
    if lo < hi { SumRangeExt(lo, hi - 1, f, g); }
  }

  lemma {:induction false} SumRangeAdd(lo: int, hi: int, f: int -> int, g: int -> int, h: int -> int)
    requires forall i :: lo <= i < hi ==> h(i) == f(i) + g(i)
    ensures SumRange(lo, hi, h) == SumRange(lo, hi, f) + SumRange(lo, hi, g)
    decreases hi - lo
  {
    if lo < hi { SumRangeAdd(lo, hi - 1, f, g, h); }
  }

  lemma {:induction false} SumRangeNonneg(lo: int, hi: int, f: int -> int)
    requires forall i :: lo <= i < hi ==> f(i) >= 0
    ensures SumRange(lo, hi, f) >= 0
    decreases hi - lo
  {
    if lo < hi { SumRangeNonneg(lo, hi - 1, f); }
  }

  /** A term of a non-negative sum is at most the sum. */
  lemma {:induction false} SumRangeTermLe(lo: int, hi: int, f: int -> int, k: int)
    requires forall i :: lo <= i < hi ==> f(i) >= 0
    requires lo <= k < hi
    ensures f(k) <= SumRange(lo, hi, f)
    decreases hi - lo
  {
    if k < hi - 1 {
      SumRangeTermLe(lo, hi - 1, f, k);
    } else {
      SumRangeNonneg(lo, hi - 1, f);
    }
  }

  /** A non-negative sum that is zero has only zero terms. */
  lemma SumRangeZero(lo: int, hi: int, f: int -> int)
    requires forall i :: lo <= i < hi ==> f(i) >= 0
    requires SumRange(lo, hi, f) == 0
    ensures forall i :: lo <= i < hi ==> f(i) == 0
  {
    forall i | lo <= i < hi ensures f(i) == 0 { SumRangeTermLe(lo, hi, f, i); }
  }

  /** A positive sum has a positive term. */
  lemma {:induction false} SumRangePositive(lo: int, hi: int, f: int -> int)
    requires SumRange(lo, hi, f) > 0
    ensures exists k :: lo <= k < hi && f(k) > 0
    decreases hi - lo
  {
    if f(hi - 1) <= 0 { SumRangePositive(lo, hi - 1, f); }
  }

  /** Binary terms summing to one: exactly one term is one. */
  lemma {:induction false} BinarySumOne(lo: int, hi: int, f: int -> int) returns (k: int)
    requires forall i :: lo <= i < hi ==> Binary(f(i))
    requires SumRange(lo, hi, f) == 1
    ensures lo <= k < hi && f(k) == 1
    ensures forall j :: lo <= j < hi && j != k ==> f(j) == 0
    decreases hi - lo
  {
    if f(hi - 1) == 1 {
      SumRangeZero(lo, hi - 1, f);
      k := hi - 1;
    } else {
      k := BinarySumOne(lo, hi - 1, f);
    }
  }

  /** A sum of 0/1 indicators is the size of the set they select. */
  lemma {:induction false} SumIndicator(n: nat, sel: int -> bool)
    ensures SumRange(0, n, i => if sel(i) then 1 else 0) == |set i | 0 <= i < n && sel(i)|
  {
    if n > 0 {
      SumIndicator(n - 1, sel);
      var prev := set i | 0 <= i < n - 1 && sel(i);
      var all := set i | 0 <= i < n && sel(i);
      if sel(n - 1) {
        assert all == prev + {n - 1};
      } else {
        assert all == prev;
      }
    }
  }

  // ---------------------------------------------------------------------
  // Subcircuit membership

  /** The first subcircuit c < S whose y[v][c] is 1, or S if there is none. */
  function SubcircuitOf(cand: Candidate, v: int, S: nat): (c: nat)
    ensures c <= S
    ensures c < S ==> Y(cand, v, c) == 1
    ensures forall c' :: 0 <= c' < c ==> Y(cand, v, c') != 1
  {
    FirstOne(cand, v, 0, S)
  }

  function FirstOne(cand: Candidate, v: int, from: nat, S: nat): (c: nat)
    requires from <= S
    ensures from <= c <= S
    ensures c < S ==> Y(cand, v, c) == 1
    ensures forall c' :: from <= c' < c ==> Y(cand, v, c') != 1
    decreases S - from
  {
    if from == S then S
    else if Y(cand, v, from) == 1 then from
    else FirstOne(cand, v, from + 1, S)
  }

  /** The uniqueness constraint of vertex v: its memberships add up to one. */
  lemma UniqueSum(inst: Instance, cand: Candidate, v: int)
    requires UniqueFamily(inst, cand) && 0 <= v < |inst.weights|
    ensures SumRange(0, inst.numSubcircuits, c => Y(cand, v, c)) == 1
  {
    assert AllHold(inst, cand, UniqueBlock(v));
    assert Holds(inst, cand, UniqueBlock(v)[0]);
  }

  /** The ordering constraint of vertex k: no membership above k. */
  lemma OrderingSum(inst: Instance, cand: Candidate, k: int)
    requires OrderingFamily(inst, cand) && 0 <= k < inst.numSubcircuits
    ensures SumRange(k + 1, inst.numSubcircuits, j => Y(cand, k, j)) == 0
  {
    assert AllHold(inst, cand, OrderingBlock(k));
    assert Holds(inst, cand, OrderingBlock(k)[0]);
  }

  /** Binary terms, exactly one of them one: SubcircuitOf finds it. */
  lemma SubcircuitOfUnique(cand: Candidate, v: int, S: nat, k: int)
    requires 0 <= k < S && Y(cand, v, k) == 1
    requires forall j :: 0 <= j < S && j != k ==> Y(cand, v, j) == 0
    ensures SubcircuitOf(cand, v, S) == k
  {
    var s := SubcircuitOf(cand, v, S);
    if s < k {
      assert Y(cand, v, s) == 1;
    }
  }

  /** In a solution of the uniqueness constraints each vertex is in exactly
      one subcircuit, the one SubcircuitOf names. */
  lemma ExactlyOneSubcircuit(inst: Instance, cand: Candidate, v: int)
    requires CommonDomains(inst, cand) && UniqueFamily(inst, cand)
    requires 0 <= v < |inst.weights|
    ensures SubcircuitOf(cand, v, inst.numSubcircuits) < inst.numSubcircuits
    ensures forall c :: 0 <= c < inst.numSubcircuits ==>
              (Y(cand, v, c) == 1 <==> c == SubcircuitOf(cand, v, inst.numSubcircuits))
    ensures forall c :: 0 <= c < inst.numSubcircuits && c != SubcircuitOf(cand, v, inst.numSubcircuits) ==>
              Y(cand, v, c) == 0
  {
    var S := inst.numSubcircuits;
    UniqueSum(inst, cand, v);
    assert forall c :: 0 <= c < S ==> Binary(Y(cand, v, c));
    var row := c => Y(cand, v, c);
    var k := BinarySumOne(0, S, row);
    forall j | 0 <= j < S && j != k ensures Y(cand, v, j) == 0 {
      assert row(j) == 0;
    }
    SubcircuitOfUnique(cand, v, S, k);
  }

  /** Ordering: vertex k < S never sits in a subcircuit with index above k. */
  lemma OrderingBound(inst: Instance, cand: Candidate, k: int)
    requires CommonDomains(inst, cand) && UniqueFamily(inst, cand) && OrderingFamily(inst, cand)
    requires 0 <= k < inst.numSubcircuits && k < |inst.weights|
    ensures SubcircuitOf(cand, k, inst.numSubcircuits) <= k
    ensures forall j :: k < j < inst.numSubcircuits ==> Y(cand, k, j) == 0
  {
    var S := inst.numSubcircuits;
    OrderingSum(inst, cand, k);
    assert forall j :: k + 1 <= j < S ==> Binary(Y(cand, k, j));
    var row := j => Y(cand, k, j);
    SumRangeZero(k + 1, S, row);
    forall j | k < j < S ensures Y(cand, k, j) == 0 {
      assert row(j) == 0;
    }
    ExactlyOneSubcircuit(inst, cand, k);
    var s := SubcircuitOf(cand, k, S);
    assert Y(cand, k, s) == 1;
  }

  // ---------------------------------------------------------------------
  // Linearisations

  /** The three inequalities per product make z_p and z_o the exact AND of
      the cut indicator with the target's (z_p) or source's (z_o) membership. */
  lemma LinearisationIsAnd(inst: Instance, cand: Candidate, e: int, c: int)
    requires WellFormed(inst) && CommonDomains(inst, cand) && LinearisationFamily(inst, cand)
    requires 0 <= e < |inst.edges| && 0 <= c < inst.numSubcircuits
    ensures Zp(cand, e, c) == 1 <==> X(cand, e, c) == 1 && Y(cand, Tgt(inst, e), c) == 1
    ensures Zo(cand, e, c) == 1 <==> X(cand, e, c) == 1 && Y(cand, Src(inst, e), c) == 1
    ensures Zp(cand, e, c) == X(cand, e, c) * Y(cand, Tgt(inst, e), c)
    ensures Zo(cand, e, c) == X(cand, e, c) * Y(cand, Src(inst, e), c)
  {
    LinearisationInequalities(inst, cand, e, c);
    ProductIsAnd(Zp(cand, e, c), X(cand, e, c), Y(cand, Tgt(inst, e), c));
    ProductIsAnd(Zo(cand, e, c), X(cand, e, c), Y(cand, Src(inst, e), c));
  }

  /** The six inequalities of one (e, c) pair, read off its block. */
  lemma LinearisationInequalities(inst: Instance, cand: Candidate, e: int, c: int)
    requires LinearisationFamily(inst, cand)
    requires 0 <= e < |inst.edges| && 0 <= c < inst.numSubcircuits
    ensures Zp(cand, e, c) <= X(cand, e, c) && Zp(cand, e, c) <= Y(cand, Tgt(inst, e), c)
    ensures Zp(cand, e, c) >= X(cand, e, c) + Y(cand, Tgt(inst, e), c) - 1
    ensures Zo(cand, e, c) <= X(cand, e, c) && Zo(cand, e, c) <= Y(cand, Src(inst, e), c)
    ensures Zo(cand, e, c) >= X(cand, e, c) + Y(cand, Src(inst, e), c) - 1
  {
    var blk := LinearisationBlock(e, c);
    assert Holds(inst, cand, blk[0]) && Holds(inst, cand, blk[1]) && Holds(inst, cand, blk[2]);
    assert Holds(inst, cand, blk[3]) && Holds(inst, cand, blk[4]) && Holds(inst, cand, blk[5]);
  }

  /** z <= x, z <= y and z >= x + y - 1 pin a 0/1 variable z to x AND y. */
  lemma ProductIsAnd(z: int, x: int, y: int)
    requires Binary(z) && Binary(x) && Binary(y) && z <= x && z <= y && z >= x + y - 1
    ensures z == 1 <==> x == 1 && y == 1
    ensures z == x * y
  {
    if x == 0 {
      assert x * y == 0;
    } else if y == 0 {
      assert x * y == 0;
    } else {
      assert x * y == 1;
    }
  }

  /** The four edge inequalities: x[e,c] is 1 exactly when one endpoint of e
      is in c and the other is not. */
  lemma EdgeCutExactlyOneEndpoint(inst: Instance, cand: Candidate, e: int, c: int)
    requires WellFormed(inst) && CommonDomains(inst, cand) && EdgeCutFamily(inst, cand)
    requires 0 <= e < |inst.edges| && 0 <= c < inst.numSubcircuits
    ensures X(cand, e, c) == 1 <==> (Y(cand, Src(inst, e), c) == 1) != (Y(cand, Tgt(inst, e), c) == 1)
    ensures X(cand, e, c) == 0 <==> Y(cand, Src(inst, e), c) == Y(cand, Tgt(inst, e), c)
  {
    var blk := EdgeCutBlock(c, e);
    assert Holds(inst, cand, blk[0]) && Holds(inst, cand, blk[1]);
    assert Holds(inst, cand, blk[2]) && Holds(inst, cand, blk[3]);
    assert Binary(Y(cand, Tgt(inst, e), c)) && Binary(Y(cand, Src(inst, e), c));
  }

  // ---------------------------------------------------------------------
  // Aggregates

  /** Cut edges entering c: target in c, source outside. */
  function EnteringEdges(inst: Instance, cand: Candidate, c: int): set<int>
  {
    set e | 0 <= e < |inst.edges| && Y(cand, Tgt(inst, e), c) == 1 && Y(cand, Src(inst, e), c) != 1
  }

  /** Cut edges leaving c: source in c, target outside. */
  function LeavingEdges(inst: Instance, cand: Candidate, c: int): set<int>
  {
    set e | 0 <= e < |inst.edges| && Y(cand, Src(inst, e), c) == 1 && Y(cand, Tgt(inst, e), c) != 1
  }

  /** Σ of the weights of the vertices y places in c. */
  function WeightIn(inst: Instance, cand: Candidate, c: int): int
  {
    SumRange(0, |inst.weights|, v => if Y(cand, v, c) == 1 then W(inst, v) else 0)
  }

  predicate Partitioned(inst: Instance, cand: Candidate)
  {
    && WellFormed(inst)
    && CommonDomains(inst, cand)
    && PartitionFamilies(inst, cand)
  }

  /** p[c] counts the cut edges entering c. */
  lemma EnteringCount(inst: Instance, cand: Candidate, c: int)
    requires Partitioned(inst, cand)
    requires 0 <= c < inst.numSubcircuits
    ensures Pq(cand, c) == |EnteringEdges(inst, cand, c)|
  {
    var E := |inst.edges|;
    assert Holds(inst, cand, AggregateBlock(c)[1]);
    var entering := e => Y(cand, Tgt(inst, e), c) == 1 && Y(cand, Src(inst, e), c) != 1;
    forall e | 0 <= e < E
      ensures Zp(cand, e, c) == (if entering(e) then 1 else 0)
    {
      LinearisationIsAnd(inst, cand, e, c);
      EdgeCutExactlyOneEndpoint(inst, cand, e, c);
    }
    SumRangeExt(0, E, e => Zp(cand, e, c), e => if entering(e) then 1 else 0);
    SumIndicator(E, entering);
    assert (set e | 0 <= e < E && entering(e)) == EnteringEdges(inst, cand, c);
  }

  /** o[c] counts the cut edges leaving c. */
  lemma LeavingCount(inst: Instance, cand: Candidate, c: int)
    requires Partitioned(inst, cand)
    requires 0 <= c < inst.numSubcircuits
    ensures Oq(cand, c) == |LeavingEdges(inst, cand, c)|
  {
    var E := |inst.edges|;
    assert Holds(inst, cand, AggregateBlock(c)[2]);
    var leaving := e => Y(cand, Src(inst, e), c) == 1 && Y(cand, Tgt(inst, e), c) != 1;
    forall e | 0 <= e < E
      ensures Zo(cand, e, c) == (if leaving(e) then 1 else 0)
    {
      LinearisationIsAnd(inst, cand, e, c);
      EdgeCutExactlyOneEndpoint(inst, cand, e, c);
    }
    SumRangeExt(0, E, e => Zo(cand, e, c), e => if leaving(e) then 1 else 0);
    SumIndicator(E, leaving);
    assert (set e | 0 <= e < E && leaving(e)) == LeavingEdges(inst, cand, c);
  }

  /** a[c] is the weight of c's vertices. */
  lemma WeightCount(inst: Instance, cand: Candidate, c: int)
    requires Partitioned(inst, cand)
    requires 0 <= c < inst.numSubcircuits
    ensures Aq(cand, c) == WeightIn(inst, cand, c)
  {
    var V := |inst.weights|;
    assert Holds(inst, cand, AggregateBlock(c)[0]);
    forall v | 0 <= v < V
      ensures W(inst, v) * Y(cand, v, c) == (if Y(cand, v, c) == 1 then W(inst, v) else 0)
    {
      assert Binary(Y(cand, v, c));
    }
    SumRangeExt(0, V, v => W(inst, v) * Y(cand, v, c), v => if Y(cand, v, c) == 1 then W(inst, v) else 0);
  }

  /** p[c] counts the cut edges entering c, o[c] those leaving c, a[c] is the
      weight of c's vertices, f = a + p - o and d = a + p. */
  lemma AggregatesMeaning(inst: Instance, cand: Candidate, c: int)
    requires Partitioned(inst, cand)
    requires 0 <= c < inst.numSubcircuits
    ensures Pq(cand, c) == |EnteringEdges(inst, cand, c)|
    ensures Oq(cand, c) == |LeavingEdges(inst, cand, c)|
    ensures Aq(cand, c) == WeightIn(inst, cand, c)
    ensures Fq(cand, c) == WeightIn(inst, cand, c) + |EnteringEdges(inst, cand, c)| - |LeavingEdges(inst, cand, c)|
    ensures Dq(cand, c) == WeightIn(inst, cand, c) + |EnteringEdges(inst, cand, c)|
  {
    EnteringCount(inst, cand, c);
    LeavingCount(inst, cand, c);
    WeightCount(inst, cand, c);
    assert Holds(inst, cand, AggregateBlock(c)[3]);
    assert Holds(inst, cand, AggregateBlock(c)[4]);
  }

  // ---------------------------------------------------------------------
  // The cut count K

  /** Edges whose endpoints lie in different subcircuits. */
  function CrossingEdges(inst: Instance, cand: Candidate): set<int>
  {
    set e | 0 <= e < |inst.edges| &&
      SubcircuitOf(cand, Src(inst, e), inst.numSubcircuits) != SubcircuitOf(cand, Tgt(inst, e), inst.numSubcircuits)
  }

  /** An edge is cut by two subcircuits when it crosses, by none otherwise. */
  lemma EdgeCutTwiceIfCrossing(inst: Instance, cand: Candidate, e: int)
    requires Partitioned(inst, cand)
    requires 0 <= e < |inst.edges|
    ensures SumRange(0, inst.numSubcircuits, c => X(cand, e, c))
         == if e in CrossingEdges(inst, cand) then 2 else 0
  {
    var S := inst.numSubcircuits;
    var s, t := Src(inst, e), Tgt(inst, e);
    ExactlyOneSubcircuit(inst, cand, s);
    ExactlyOneSubcircuit(inst, cand, t);
    var cs, ct := SubcircuitOf(cand, s, S), SubcircuitOf(cand, t, S);
    forall c | 0 <= c < S
      ensures X(cand, e, c) == if cs == ct then 0 else (if c == cs then 1 else 0) + (if c == ct then 1 else 0)
    {
      EdgeCutExactlyOneEndpoint(inst, cand, e, c);
    }
    if cs == ct {
      assert e !in CrossingEdges(inst, cand);
      SumRangeExt(0, S, c => X(cand, e, c), c => 0);
      ZeroSum(S);
    } else {
      assert e in CrossingEdges(inst, cand);
      IndicatorSum(S, cs);
      IndicatorSum(S, ct);
      SumRangeAdd(0, S, c => if c == cs then 1 else 0, c => if c == ct then 1 else 0,
                  c => (if c == cs then 1 else 0) + (if c == ct then 1 else 0));
      SumRangeExt(0, S, c => X(cand, e, c), c => (if c == cs then 1 else 0) + (if c == ct then 1 else 0));
    }
  }

  lemma {:induction false} IndicatorSum(n: nat, k: int)
    requires 0 <= k < n
    ensures SumRange(0, n, c => if c == k then 1 else 0) == 1
  {
    if k < n - 1 {
      IndicatorSum(n - 1, k);
    } else {
      SumRangeExt(0, n - 1, c => if c == k then 1 else 0, c => 0);
      ZeroSum(n - 1);
    }
  }

  lemma {:induction false} ZeroSum(n: nat)
    ensures SumRange(0, n, c => 0) == 0
  {
    if n > 0 { ZeroSum(n - 1); }
  }

  /** Σ_e Σ_c x[e,c], the cut sum added up edge by edge. */
  function CutSumByEdge(cand: Candidate, S: nat, E: nat): int
  {
    SumRange(0, E, e => SumRange(0, S, c => X(cand, e, c)))
  }

  /** Σ_c Σ_e x[e,c], the order the source's lpSum uses. */
  function CutSumBySubcircuit(cand: Candidate, S: nat, E: nat): int
  {
    SumRange(0, S, c => SumRange(0, E, e => X(cand, e, c)))
  }

  lemma {:induction false} CutSumSwap(cand: Candidate, S: nat, E: nat)
    ensures CutSumBySubcircuit(cand, S, E) == CutSumByEdge(cand, S, E)
  {
    if S > 0 {
      CutSumSwap(cand, S - 1, E);
      var colS := e => SumRange(0, S, c => X(cand, e, c));
      var colS1 := e => SumRange(0, S - 1, c => X(cand, e, c));
      var last := e => X(cand, e, S - 1);
      assert CutSumByEdge(cand, S, E) == SumRange(0, E, colS);
      assert CutSumByEdge(cand, S - 1, E) == SumRange(0, E, colS1);
      SumRangeAdd(0, E, colS1, last, colS);
      assert CutSumBySubcircuit(cand, S, E) == CutSumBySubcircuit(cand, S - 1, E) + SumRange(0, E, last);
    } else {
      SumRangeExt(0, E, e => SumRange(0, S, c => X(cand, e, c)), e => 0);
      ZeroSum(E);
    }
  }

  /** Each edge's x variables sum to 2 when it crosses, to 0 otherwise. */
  ghost predicate EdgeSumsCountCrossing(inst: Instance, cand: Candidate)
  {
    forall e :: 0 <= e < |inst.edges| ==>
      SumRange(0, inst.numSubcircuits, c => X(cand, e, c)) == 2 * (if e in CrossingEdges(inst, cand) then 1 else 0)
  }

  lemma EdgeSumsTwiceIfCrossing(inst: Instance, cand: Candidate)
    requires Partitioned(inst, cand)
    ensures EdgeSumsCountCrossing(inst, cand)
  {
    forall e | 0 <= e < |inst.edges|
      ensures SumRange(0, inst.numSubcircuits, c => X(cand, e, c)) == 2 * (if e in CrossingEdges(inst, cand) then 1 else 0)
    {
      EdgeCutTwiceIfCrossing(inst, cand, e);
    }
  }

  /** K = Σ x / 2 is exactly the number of edges between different subcircuits. */
  lemma CutCountIsCrossingEdges(inst: Instance, cand: Candidate)
    requires Partitioned(inst, cand)
    ensures CutCount(inst, cand) == |CrossingEdges(inst, cand)| as real
  {
    EdgeSumsTwiceIfCrossing(inst, cand);
    CutCountOfEdgeSums(inst, cand);
  }

  lemma CutCountOfEdgeSums(inst: Instance, cand: Candidate)
    requires EdgeSumsCountCrossing(inst, cand)
    ensures CutCount(inst, cand) == |CrossingEdges(inst, cand)| as real
  {
    var S, E := inst.numSubcircuits, |inst.edges|;
    CutSumSwap(cand, S, E);
    assert CutCount(inst, cand) == CutSumBySubcircuit(cand, S, E) as real / 2.0;
    var crossing := e => e in CrossingEdges(inst, cand);
    SumRangeExt(0, E, e => SumRange(0, S, c => X(cand, e, c)), e => 2 * (if crossing(e) then 1 else 0));
    SumRangeScale(0, E, e => if crossing(e) then 1 else 0, 2, e => 2 * (if crossing(e) then 1 else 0));
    SumIndicator(E, crossing);
    assert (set e | 0 <= e < E && crossing(e)) == CrossingEdges(inst, cand);
  }

  lemma {:induction false} SumRangeScale(lo: int, hi: int, f: int -> int, k: int, g: int -> int)
    requires forall i :: lo <= i < hi ==> g(i) == k * f(i)
    ensures SumRange(lo, hi, g) == k * SumRange(lo, hi, f)
    decreases hi - lo
  {
    if lo < hi { SumRangeScale(lo, hi - 1, f, k, g); }
  }

  // ---------------------------------------------------------------------
  // Scheduling

  /** A positive shot count on (c, q) needs abilita[c,q] = 1, and then the
      capacity constraint reads d[c] <= capacity of q. */
  lemma ShotsNeedCapacity(inst: Instance, cand: Candidate, c: int, q: int)
    requires CommonDomains(inst, cand) && CapacityFamily(inst, cand)
    requires 0 <= c < inst.numSubcircuits && 0 <= q < |inst.qpus|
    requires Sh(cand, c, q) > 0
    ensures Ab(cand, c, q) == 1
    ensures Dq(cand, c) <= inst.qpus[q].capacity
  {
    var blk := CapacityBlock(c, q);
    assert Holds(inst, cand, blk[0]) && Holds(inst, cand, blk[1]);
  }

  /** A positive shot count on QPU q forces use_q[q] = 1. */
  lemma ShotsUseQpu(inst: Instance, cand: Candidate, c: int, q: int)
    requires CommonDomains(inst, cand) && UseQpuFamily(inst, cand)
    requires 0 <= c < inst.numSubcircuits && 0 <= q < |inst.qpus|
    requires Sh(cand, c, q) > 0
    ensures UseQ(cand, q) == 1
  {
    assert Holds(inst, cand, UseQpuBlock(q)[0]);
    SumRangeTermLe(0, inst.numSubcircuits, c' => Sh(cand, c', q), c);
  }

  /** Each T_q lies between max(queue * use_q, execution sum) and their sum,
      and the makespan T is at least every T_q. */
  lemma MakespanBounds(inst: Instance, cand: Candidate, q: int)
    requires TimeFamily(inst, cand)
    requires 0 <= q < |inst.qpus|
    ensures TQ(cand, q) >= (inst.qpus[q].queueTime * UseQ(cand, q)) as real
    ensures TQ(cand, q) >= ExecSum(inst, cand, q) as real
    ensures TQ(cand, q) <= (inst.qpus[q].queueTime * UseQ(cand, q) + ExecSum(inst, cand, q)) as real
    ensures cand.makespan >= TQ(cand, q)
  {
    var blk := TimeBlock(q);
    assert Holds(inst, cand, blk[0]) && Holds(inst, cand, blk[1]);
    assert Holds(inst, cand, blk[2]) && Holds(inst, cand, blk[3]);
  }

  /** A QPU that runs any shot of c delays the makespan by at least its queue
      time and by at least those shots' execution time. */
  lemma MakespanCoversShots(inst: Instance, cand: Candidate, c: int, q: int)
    requires CommonDomains(inst, cand) && UseQpuFamily(inst, cand) && TimeFamily(inst, cand)
    requires 0 <= c < inst.numSubcircuits && 0 <= q < |inst.qpus|
    requires inst.qpus[q].executionTime >= 0
    requires Sh(cand, c, q) > 0
    ensures cand.makespan >= inst.qpus[q].queueTime as real
    ensures cand.makespan >= (Sh(cand, c, q) * inst.qpus[q].executionTime) as real
  {
    ShotsUseQpu(inst, cand, c, q);
    MakespanBounds(inst, cand, q);
    var ex := inst.qpus[q].executionTime;
    forall c' | 0 <= c' < inst.numSubcircuits ensures Sh(cand, c', q) * ex >= 0 {
      assert Sh(cand, c', q) >= 0;
    }
    SumRangeTermLe(0, inst.numSubcircuits, c' => Sh(cand, c', q) * ExecutionTime(inst, q), c);
  }

  /** When a subcircuit's shot total is positive, some QPU runs part of it,
      is enabled for it, can hold it and is marked used. */
  lemma PositiveTotalFindsQpu(inst: Instance, cand: Candidate, c: int)
    requires CommonDomains(inst, cand) && CapacityFamily(inst, cand) && UseQpuFamily(inst, cand)
    requires 0 <= c < inst.numSubcircuits
    requires SumRange(0, |inst.qpus|, q => Sh(cand, c, q)) > 0
    ensures exists q :: 0 <= q < |inst.qpus| && Sh(cand, c, q) > 0 && Ab(cand, c, q) == 1
                        && UseQ(cand, q) == 1 && Dq(cand, c) <= inst.qpus[q].capacity
  {
    SumRangePositive(0, |inst.qpus|, q => Sh(cand, c, q));
    var q :| 0 <= q < |inst.qpus| && Sh(cand, c, q) > 0;
    ShotsNeedCapacity(inst, cand, c, q);
    ShotsUseQpu(inst, cand, c, q);
  }

  /** A set of integers drawn from 0 .. n-1 has at most n elements. */
  lemma {:induction false} BoundedSetSize(s: set<int>, n: nat)
    requires forall x :: x in s ==> 0 <= x < n
    ensures |s| <= n
  {
    if n == 0 {
      assert forall x :: x !in s;
      assert s == {};
    } else {
      BoundedSetSize(s - {n - 1}, n - 1);
    }
  }
}
