/** Reading a solved program back, as both optimiser versions do it: the
    vertices a subcircuit received and the shots each QPU runs for it. */
module Extraction {
  import opened Milp

  /** The solver's status string, as pulp.LpStatus names it. */
  datatype Status = Optimal | NotSolved | Infeasible | Unbounded | Undefined

  /** The vertices among 0 .. n-1 whose y[v, c] is 1, in vertex order. */
  function VerticesIn(cand: Candidate, c: int, n: nat): (vs: seq<int>)
    ensures forall v :: v in vs <==> 0 <= v < n && Y(cand, v, c) == 1
    ensures forall i :: 0 <= i < |vs| ==> 0 <= vs[i] < n
    ensures forall i, j :: 0 <= i < j < |vs| ==> vs[i] < vs[j]
  {
    if n == 0 then []
    else VerticesIn(cand, c, n - 1) + (if Y(cand, n - 1, c) == 1 then [n - 1] else [])
  }

  /** The shot map of subcircuit c over QPUs 0 .. n-1: qpus[q].index ->
      shots for every q with a positive count, a later q overwriting an
      earlier one with the same index. */
  function ShotAssignment(inst: Instance, cand: Candidate, c: int, n: nat): (m: map<int, int>)
    requires n <= |inst.qpus|
    ensures forall k :: k in m ==> m[k] > 0
  {
    if n == 0 then map[]
    else
      var m := ShotAssignment(inst, cand, c, n - 1);
      if Sh(cand, c, n - 1) > 0 then m[inst.qpus[n - 1].index := Sh(cand, c, n - 1)] else m
  }

  /** The keys of the shot map are the indices of the QPUs with a positive count. */
  lemma {:induction false} ShotAssignmentKeys(inst: Instance, cand: Candidate, c: int, n: nat, k: int)
    requires n <= |inst.qpus|
    ensures k in ShotAssignment(inst, cand, c, n) <==>
              exists q :: 0 <= q < n && Sh(cand, c, q) > 0 && inst.qpus[q].index == k
  {
    if n > 0 {
      ShotAssignmentKeys(inst, cand, c, n - 1, k);
      if Sh(cand, c, n - 1) > 0 && inst.qpus[n - 1].index == k {
        assert 0 <= n - 1 < n && Sh(cand, c, n - 1) > 0 && inst.qpus[n - 1].index == k;
      }
    }
  }

  /** An index no QPU below n carries is not a key of the shot map. */
  lemma {:induction false} ShotAssignmentAbsent(inst: Instance, cand: Candidate, c: int, n: nat, k: int)
    requires n <= |inst.qpus|
    requires forall q :: 0 <= q < n ==> inst.qpus[q].index != k
    ensures k !in ShotAssignment(inst, cand, c, n)
  {
    if n > 0 {
      ShotAssignmentAbsent(inst, cand, c, n - 1, k);
    }
  }

  /** QPU indices are distinct. */
  predicate DistinctQpuIndices(inst: Instance)
  {
    forall q, q' :: 0 <= q < q' < |inst.qpus| ==> inst.qpus[q].index != inst.qpus[q'].index
  }

  /** With distinct QPU indices the count of QPU q (q < n) is reported under
      its index when positive, and its index is absent otherwise. */
  lemma {:induction false} ShotAssignmentAt(inst: Instance, cand: Candidate, c: int, n: nat, q: int)
    requires n <= |inst.qpus| && DistinctQpuIndices(inst) && 0 <= q < n
    ensures var m := ShotAssignment(inst, cand, c, n);
      if Sh(cand, c, q) > 0 then inst.qpus[q].index in m && m[inst.qpus[q].index] == Sh(cand, c, q)
      else inst.qpus[q].index !in m
  {
    var m := ShotAssignment(inst, cand, c, n - 1);
    var k := inst.qpus[n - 1].index;
    if q == n - 1 {
      ShotAssignmentAbsent(inst, cand, c, n - 1, k);
    } else {
      ShotAssignmentAt(inst, cand, c, n - 1, q);
      assert inst.qpus[q].index != k;
    }
  }

  /** The same for every QPU at once. */
  lemma ShotAssignmentValues(inst: Instance, cand: Candidate, c: int, n: nat)
    requires n <= |inst.qpus| && DistinctQpuIndices(inst)
    ensures forall q :: 0 <= q < n && Sh(cand, c, q) > 0 ==>
              inst.qpus[q].index in ShotAssignment(inst, cand, c, n) &&
              ShotAssignment(inst, cand, c, n)[inst.qpus[q].index] == Sh(cand, c, q)
    ensures forall q :: 0 <= q < n && Sh(cand, c, q) <= 0 ==>
              inst.qpus[q].index !in ShotAssignment(inst, cand, c, n)
  {
    forall q | 0 <= q < n {
      ShotAssignmentAt(inst, cand, c, n, q);
    }
  }
}
