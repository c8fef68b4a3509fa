/** The per-QPU queue of subcircuit tapes (src/circuit/queue.py). A tape is
    reduced to the indices it takes from the original tape: which operations
    and which observables. */
module Queue {
  import opened Dicts
  import FinalModel

  /** A QuantumTape as the operation and observable indices it was built from. */
  datatype Tape = Tape(operations: seq<int>, observables: seq<int>)

  /** One queue entry: the tape and its number of shots. */
  datatype Job = Job(tape: Tape, shots: int)

  // ---------------------------------------------------------------------
  // The split of a subcircuit's vertices into operations and observables

  /** Vertices below the operation count, in order. */
  function Operations(vertices: seq<int>, numOperations: nat): seq<int>
  {
    if |vertices| == 0 then []
    else
      var rest := Operations(vertices[..|vertices| - 1], numOperations);
      var v := vertices[|vertices| - 1];
      if v < numOperations then rest + [v] else rest
  }

  /** The other vertices, shifted down by the operation count, in order. */
  function Observables(vertices: seq<int>, numOperations: nat): seq<int>
  {
    if |vertices| == 0 then []
    else
      var rest := Observables(vertices[..|vertices| - 1], numOperations);
      var v := vertices[|vertices| - 1];
      if v >= numOperations then rest + [v - numOperations] else rest
  }

  function SplitVertices(vertices: seq<int>, numOperations: nat): Tape
  {
    Tape(Operations(vertices, numOperations), Observables(vertices, numOperations))
  }

  /** The two index lists together hold every vertex exactly once: each
      vertex is either an operation index or, shifted back, an observable
      index. */
  lemma {:induction false} SplitPartitions(vertices: seq<int>, numOperations: nat)
    ensures var t := SplitVertices(vertices, numOperations);
            multiset(t.operations) + multiset(Shift(t.observables, numOperations)) == multiset(vertices)
  {
    if |vertices| > 0 {
      var init := vertices[..|vertices| - 1];
      var v := vertices[|vertices| - 1];
      assert vertices == init + [v];
      SplitPartitions(init, numOperations);
      SplitStepMultiset(init, v, numOperations);
      assert multiset(vertices) == multiset(init) + multiset{v};
    }
  }

  /** Hence the two lists are as long as the vertex list together. */
  lemma SplitLengths(vertices: seq<int>, numOperations: nat)
    ensures var t := SplitVertices(vertices, numOperations);
            |t.operations| + |t.observables| == |vertices|
  {
    SplitPartitions(vertices, numOperations);
    var t := SplitVertices(vertices, numOperations);
    assert |multiset(t.operations)| == |t.operations|;
    assert |multiset(Shift(t.observables, numOperations))| == |t.observables|;
    assert |multiset(t.operations) + multiset(Shift(t.observables, numOperations))| == |vertices|;
  }

  /** Operation indices are the vertices below the operation count, and
      observable indices the others, shifted down. */
  lemma {:induction false} SplitMembers(vertices: seq<int>, numOperations: nat)
    ensures forall v :: v in Operations(vertices, numOperations) <==> v in vertices && v < numOperations
    ensures forall i :: i in Observables(vertices, numOperations) <==> i >= 0 && i + numOperations in vertices
  {
    if |vertices| > 0 {
      var init := vertices[..|vertices| - 1];
      var v := vertices[|vertices| - 1];
      SplitMembers(init, numOperations);
      SplitStep(init, v, numOperations);
      assert vertices == init + [v];
    }
  }

  /** The multisets grow by the one new vertex, whichever list it joins. */
  lemma SplitStepMultiset(init: seq<int>, v: int, numOperations: nat)
    ensures multiset(Operations(init + [v], numOperations)) + multiset(Shift(Observables(init + [v], numOperations), numOperations)) ==
            multiset(Operations(init, numOperations)) + multiset(Shift(Observables(init, numOperations), numOperations)) + multiset{v}
  {
    SplitStep(init, v, numOperations);
    var ops, obs := Operations(init, numOperations), Observables(init, numOperations);
    var sh := Shift(obs, numOperations);
    if v >= numOperations {
      ShiftSnoc(obs, v - numOperations, numOperations);
      assert Shift(Observables(init + [v], numOperations), numOperations) == sh + [v];
      MultisetSnoc(sh, v);
      UnionAssoc(multiset(ops), multiset(sh), multiset{v});
    } else {
      MultisetSnoc(ops, v);
      UnionSwap(multiset(ops), multiset(sh), multiset{v});
    }
  }

  lemma MultisetSnoc(s: seq<int>, x: int)
    ensures multiset(s + [x]) == multiset(s) + multiset{x}
  {
  }

  lemma UnionAssoc(a: multiset<int>, b: multiset<int>, c: multiset<int>)
    ensures a + (b + c) == a + b + c
  {
  }

  lemma UnionSwap(a: multiset<int>, b: multiset<int>, c: multiset<int>)
    ensures (a + c) + b == a + b + c
  {
  }

  /** One more vertex goes to exactly one of the two lists. */
  lemma SplitStep(init: seq<int>, v: int, numOperations: nat)
    ensures v < numOperations ==> Operations(init + [v], numOperations) == Operations(init, numOperations) + [v]
    ensures v < numOperations ==> Observables(init + [v], numOperations) == Observables(init, numOperations)
    ensures v >= numOperations ==> Operations(init + [v], numOperations) == Operations(init, numOperations)
    ensures v >= numOperations ==> Observables(init + [v], numOperations) == Observables(init, numOperations) + [v - numOperations]
  {
    assert (init + [v])[..|init|] == init;
  }

  /** Each index raised by k. */
  function Shift(s: seq<int>, k: int): (r: seq<int>)
    ensures |r| == |s|
  {
    if |s| == 0 then [] else Shift(s[..|s| - 1], k) + [s[|s| - 1] + k]
  }

  lemma ShiftSnoc(s: seq<int>, x: int, k: int)
    ensures Shift(s + [x], k) == Shift(s, k) + [x + k]
  {
    assert (s + [x])[..|s|] == s;
  }

  // ---------------------------------------------------------------------
  // The queue as a value

  /** The queue after the loop at lines 9-10 over the QPU indices qs. */
  function EmptyQueues(qs: seq<int>): (queue: map<int, seq<Job>>)
    ensures forall q :: q in queue <==> q in qs
    ensures forall q :: q in queue ==> queue[q] == []
  {
    if |qs| == 0 then map[] else EmptyQueues(qs[..|qs| - 1])[qs[|qs| - 1] := []]
  }

  /** aggiungi_sottocircuito on the queue: one job at the end of q's list. */
  function Appended(queue: map<int, seq<Job>>, q: int, job: Job): (r: map<int, seq<Job>>)
    requires q in queue
    ensures r.Keys == queue.Keys
    ensures r[q] == queue[q] + [job]
    ensures forall q' :: q' in queue && q' != q ==> r[q'] == queue[q']
  {
    queue[q := queue[q] + [job]]
  }

  /** The queue after the first k QPUs of the inner loop (lines 25-39) for
      one non-empty subcircuit. */
  function EnqueuePrefix(queue: map<int, seq<Job>>, info: FinalModel.SubcircuitShots, numOperations: nat,
                         qpus: seq<int>, k: nat): (r: map<int, seq<Job>>)
    requires k <= |qpus|
    requires forall i :: 0 <= i < |qpus| ==> qpus[i] in queue
    ensures r.Keys == queue.Keys
  {
    if k == 0 then queue
    else
      var prev := EnqueuePrefix(queue, info, numOperations, qpus, k - 1);
      var q := qpus[k - 1];
      if q !in info.shots then prev
      else Appended(prev, q, Job(SplitVertices(info.vertices, numOperations), info.shots[q]))
  }

  /** The queue after the subcircuit loop's body for one entry. */
  function Enqueue(queue: map<int, seq<Job>>, info: FinalModel.SubcircuitShots, numOperations: nat,
                   qpus: seq<int>): (r: map<int, seq<Job>>)
    requires forall i :: 0 <= i < |qpus| ==> qpus[i] in queue
    ensures r.Keys == queue.Keys
  {
    if |info.vertices| == 0 then queue else EnqueuePrefix(queue, info, numOperations, qpus, |qpus|)
  }

  /** The queue after the first n subcircuits. */
  function Built(numOperations: nat, subcircuits: Dict<int, FinalModel.SubcircuitShots>, qpus: seq<int>, n: nat)
    : (queue: map<int, seq<Job>>)
    requires KeysPresent(subcircuits) && n <= |subcircuits.keys|
    ensures forall q :: q in queue <==> q in qpus
  {
    if n == 0 then EmptyQueues(qpus)
    else
      var prev := Built(numOperations, subcircuits, qpus, n - 1);
      Enqueue(prev, subcircuits.values[subcircuits.keys[n - 1]], numOperations, qpus)
  }

  // ---------------------------------------------------------------------
  // What ends up in each QPU's list, defined per QPU

  /** How often q occurs in qs. */
  function Occurrences(qs: seq<int>, q: int): nat
  {
    if |qs| == 0 then 0 else Occurrences(qs[..|qs| - 1], q) + (if qs[|qs| - 1] == q then 1 else 0)
  }

  function Repeat(job: Job, n: nat): (r: seq<Job>)
    ensures |r| == n && forall i :: 0 <= i < n ==> r[i] == job
  {
    seq(n, _ => job)
  }

  /** The jobs one subcircuit sends to QPU q: none for an empty subcircuit
      or when q has no shots in it; otherwise its tape once per listing of q. */
  function JobsFor(info: FinalModel.SubcircuitShots, numOperations: nat, qpus: seq<int>, q: int): seq<Job>
  {
    if |info.vertices| == 0 || q !in info.shots then []
    else Repeat(Job(SplitVertices(info.vertices, numOperations), info.shots[q]), Occurrences(qpus, q))
  }

  /** QPU q's list: the jobs of the first n subcircuits, in subcircuit order. */
  function QueueOf(numOperations: nat, subcircuits: Dict<int, FinalModel.SubcircuitShots>, qpus: seq<int>,
                   n: nat, q: int): seq<Job>
    requires KeysPresent(subcircuits) && n <= |subcircuits.keys|
  {
    if n == 0 then []
    else QueueOf(numOperations, subcircuits, qpus, n - 1, q)
         + JobsFor(subcircuits.values[subcircuits.keys[n - 1]], numOperations, qpus, q)
  }

  lemma RepeatSnoc(job: Job, n: nat)
    ensures Repeat(job, n) + [job] == Repeat(job, n + 1)
  {
  }

  /** The inner loop adds to q's list its job once per listing of q among
      the first k QPUs, and only when q has shots. */
  lemma {:induction false} EnqueuePrefixAt(queue: map<int, seq<Job>>, info: FinalModel.SubcircuitShots,
                                           numOperations: nat, qpus: seq<int>, k: nat, q: int)
    requires k <= |qpus|
    requires forall i :: 0 <= i < |qpus| ==> qpus[i] in queue
    requires q in queue
    ensures EnqueuePrefix(queue, info, numOperations, qpus, k)[q] ==
            queue[q] + (if q in info.shots
                        then Repeat(Job(SplitVertices(info.vertices, numOperations), info.shots[q]), Occurrences(qpus[..k], q))
                        else [])
  {
    if k > 0 {
      EnqueuePrefixAt(queue, info, numOperations, qpus, k - 1, q);
      assert qpus[..k][..k - 1] == qpus[..k - 1];
      if q in info.shots && qpus[k - 1] == q {
        RepeatSnoc(Job(SplitVertices(info.vertices, numOperations), info.shots[q]), Occurrences(qpus[..k - 1], q));
      }
    }
  }

  /** After construction, each QPU's list holds exactly the jobs the
      subcircuits send it, in subcircuit order. */
  lemma {:induction false} BuiltQueue(numOperations: nat, subcircuits: Dict<int, FinalModel.SubcircuitShots>,
                                      qpus: seq<int>, n: nat, q: int)
    requires KeysPresent(subcircuits) && n <= |subcircuits.keys|
    requires q in qpus
    ensures Built(numOperations, subcircuits, qpus, n)[q] == QueueOf(numOperations, subcircuits, qpus, n, q)
  {
    if n > 0 {
      BuiltQueue(numOperations, subcircuits, qpus, n - 1, q);
      var info := subcircuits.values[subcircuits.keys[n - 1]];
      if |info.vertices| > 0 {
        EnqueuePrefixAt(Built(numOperations, subcircuits, qpus, n - 1), info, numOperations, qpus, |qpus|, q);
        assert qpus[..|qpus|] == qpus;
      }
    }
  }

  /** A subcircuit without vertices leaves every list unchanged. */
  lemma EmptySubcircuitSkipped(queue: map<int, seq<Job>>, info: FinalModel.SubcircuitShots, numOperations: nat,
                               qpus: seq<int>)
    requires forall i :: 0 <= i < |qpus| ==> qpus[i] in queue
    requires |info.vertices| == 0
    ensures Enqueue(queue, info, numOperations, qpus) == queue
  {
  }

  // ---------------------------------------------------------------------
  // The object

  class CircuitQueue {
    /** {qpu index: [(tape, shots), ...]} */
    var subcircuitQueue: map<int, seq<Job>>
    /** The QPU indices, in the order the QPUs were given. */
    var qpus: seq<int>

    /** Lines 5-39: one empty list per QPU, then for every non-empty
        subcircuit one job per QPU with shots in it. */
    constructor (numOperations: nat, sottocircuiti: Dict<int, FinalModel.SubcircuitShots>, qpus: seq<int>)
      requires KeysPresent(sottocircuiti)
      ensures this.qpus == qpus
      ensures subcircuitQueue == Built(numOperations, sottocircuiti, qpus, |sottocircuiti.keys|)
    {
      var queue: map<int, seq<Job>> := map[];
      var i := 0;
      while i < |qpus|
        invariant 0 <= i <= |qpus|
        invariant queue == EmptyQueues(qpus[..i])
      {
        assert qpus[..i + 1][..i] == qpus[..i];
        queue := queue[qpus[i] := []];
        i := i + 1;
      }
      assert qpus[..i] == qpus;
      subcircuitQueue := queue;
      this.qpus := qpus;
      new;
      var n := 0;
      while n < |sottocircuiti.keys|
        invariant 0 <= n <= |sottocircuiti.keys|
        invariant this.qpus == qpus
        invariant subcircuitQueue == Built(numOperations, sottocircuiti, qpus, n)
      {
        var info := sottocircuiti.values[sottocircuiti.keys[n]];
        if |info.vertices| > 0 {
          EnqueueSubcircuit(info, numOperations);
        }
        n := n + 1;
      }
    }

    /** The inner loop over the QPUs (lines 25-39) for one non-empty subcircuit. */
    method EnqueueSubcircuit(info: FinalModel.SubcircuitShots, numOperations: nat)
      requires forall i :: 0 <= i < |qpus| ==> qpus[i] in subcircuitQueue
      modifies this
      ensures qpus == old(qpus)
      ensures subcircuitQueue == EnqueuePrefix(old(subcircuitQueue), info, numOperations, qpus, |qpus|)
    {
      var k := 0;
      while k < |qpus|
        invariant 0 <= k <= |qpus|
        invariant qpus == old(qpus)
        invariant subcircuitQueue == EnqueuePrefix(old(subcircuitQueue), info, numOperations, qpus, k)
      {
        var q := qpus[k];
        if q in info.shots {
          AggiungiSottocircuito(q, SplitVertices(info.vertices, numOperations), info.shots[q]);
        }
        k := k + 1;
      }
    }

    /** Lines 45-71: the tape with its shots goes at the end of the named
        QPU's list; every other list stays as it was. */
    method AggiungiSottocircuito(qpuIndex: int, tape: Tape, nShots: int)
      requires qpuIndex in subcircuitQueue
      modifies this
      ensures qpus == old(qpus)
      ensures subcircuitQueue == Appended(old(subcircuitQueue), qpuIndex, Job(tape, nShots))
    {
      subcircuitQueue := subcircuitQueue[qpuIndex := subcircuitQueue[qpuIndex] + [Job(tape, nShots)]];
    }
  }
}
