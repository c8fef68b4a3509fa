# Cut-and-shoot, modelled in Dafny

Cut-and-shoot distributes a quantum circuit over several QPUs. It:

- cuts the circuit's DAG into subcircuits;
- assigns the vertices and the shots of each subcircuit to QPUs by solving a mixed-integer linear program (MILP);
- builds every subcircuit variant, one per choice of initial state on each cut-in qubit (|0>, |1>, |+>, |i>) and measurement basis on each cut-out qubit (I, X, Z, Y);
- queues the variants per QPU;
- merges the counts of each variant across QPUs and normalises them into probabilities;
- merges qubits in the dynamic-definition step;
- formats the per-subcircuit records;
- reconstructs the global distribution from the weighted variant contributions.

This project models that core. Its modules and files are:

- `Wrappers` (`wrappers.dfy`): the `Option` and `Result` datatypes.
- `Dicts` (`dicts.dfy`): Python's insertion-ordered `dict`, as a sequence of keys plus a map.
- `Strings` (`strings.dfy`): the `int()`, `str()`, `split` and `lower` behaviour the source relies on.
- `Sorting` (`sorting.dfy`): `sorted`, specified as a sorted permutation.
- `Milp` and `MilpProps` (`milp.dfy`, `milp_props.dfy`): the MILP constraints as a `Feasible` predicate over a candidate assignment, and the loops that append them.
- `Extraction` (`extraction.dfy`): reading a solution back into subcircuits and cuts.
- `CutAndShoot` (`cut_and_shoot.dfy`): the `CutAndShootModel` class of `src/model.py`.
- `FinalModel` (`final_model.dfy`): the `ModelloCutAndShoot` class of `src/final_model/model.py`.
- `DynamicDefinition` (`dynamic_definition.dfy`): `merge_counts`.
- `Merge` and `MergeProps` (`merge.dfy`, `merge_props.dfy`): merging and normalising variant counts.
- `PostProcessing` and `PostProcessingProps` (`post_processing.dfy`, `post_processing_props.dfy`): probability vectors, variant contributions, grouping, key ordering and the dynamic-definition reconstruction.
- `Formatter` and `FormatterProps` (`formatter.dfy`, `formatter_props.dfy`): the subcircuit records.
- `Constructor` and `ConstructorProps` (`constructor.dfy`, `constructor_props.dfy`): required qubits, emitted gates and measurements, and the variant names.
- `Queue` (`queue.dfy`): the `CircuitQueue` class.

A solver's answer enters the model as a `Candidate` parameter. Qiskit circuits become lists of emitted events. Floating-point probabilities become exact `real`s.

The reconstruction chain (`PostProcessing.ComputeVariantContrib` through `PostProcessing.DdReconstructed`) models the code as written. It therefore uses the sign rule as written (`PostProcessing.WrittenSign`). The corrected rule (`PostProcessing.Sign`, used by `PostProcessing.ContributionOfIntended`) is stated and proved beside it; see "## Findings".

## Model

| member | source | states |
|---|---|---|
| Milp.RowStep | src/model.py:213-230 | one more pass of an inner loop appends exactly one more block to the row built so far |
| Milp.GridStep | src/model.py:175-203 | one more pass of an outer loop appends exactly one more row to the grid built so far |
| Milp.AllHoldConcat | src/model.py:137-311 | the constraints of two successive stretches of `add_constraints` all hold iff each stretch's constraints hold |
| Milp.LineHolds | src/model.py:147-172 | the constraints a single `for` loop appends all hold iff every iteration's block holds |
| Milp.RowHolds | src/model.py:176-203 | the constraints an inner loop appends for one outer index all hold iff every inner block holds |
| Milp.GridHolds | src/model.py:175-203 | the constraints a nested `for e / for c` (or `for c / for e`) loop appends all hold iff every (i, j) block holds |
| Milp.AggregateLine | src/model.py:147-172 | the A/P/O/F/D constraints hold iff, for every subcircuit, a = Σ weight·y, p = Σ z_p, o = Σ z_o, f = a + p - o and d = a + p |
| Milp.LinearisationGrid | src/model.py:175-203 | the six zp_/zo_ inequalities hold for every (e, c) iff the linearisation family holds |
| Milp.UniqueLine | src/model.py:206-210 | the Unique_vertex constraints hold iff every vertex's memberships sum to 1 |
| Milp.EdgeCutGrid | src/model.py:213-230 | the four x_ inequalities hold for every (c, e) iff the edge-cut family holds |
| Milp.OrderingLine | src/model.py:233-237 | the Ordering_subc constraints hold iff, for every k < S, y[(k, j)] sums to 0 over k < j < S |
| Milp.UseQpuLine | src/model.py:259-264 | the UseQ constraints hold iff every QPU's shot total is at most S·N·use_q[q] |
| Milp.CapacityGrid | src/model.py:267-279 | the cap_ and enable_shots_ constraints hold for every (c, q) iff the capacity family holds |
| Milp.TimeLine | src/model.py:282-311 | the QueueTimeMin, ExecutionTimeMin, MaxTime and Makespan constraints hold for every QPU iff the time family holds |
| Milp.ActiveLine | src/model.py:240-247 | the Active_subcircuit constraints hold iff d[c] <= (Σ weights)·u[c] for every subcircuit |
| Milp.TotalShotsActiveLine | src/model.py:250-256 | the Total_shots_subc constraints hold iff the shots of every subcircuit total N·u[c] |
| Milp.TotalShotsExactLine | src/final_model/model.py:237-241 | the ShotsTotali_sottoc constraints hold iff the shots of every subcircuit total exactly N |
| Milp.PartitionConstraintsMeaning | src/model.py:147-237 | the aggregate, linearisation, uniqueness, edge-cut and ordering loops, in their order, hold iff the five families hold |
| Milp.ScheduleConstraintsMeaning | src/model.py:259-311 | the QPU-use, capacity and time loops, in their order, hold iff the three families hold |
| MilpProps.SumIndicator | src/model.py:321 | a `lpSum` of 0/1 indicators equals the size of the set they select |
| MilpProps.BinarySumOne | src/model.py:206-210 | binary terms that sum to one have exactly one term equal to 1, and the rest are 0 |
| MilpProps.SubcircuitOf | src/model.py:62-67 | the subcircuit of a vertex: at most S; when below S, y[v][c] = 1 there and no smaller c has y = 1 |
| MilpProps.FirstOne | src/model.py:62-67 | the first c >= from with y[v][c] = 1 (S when none), with nothing earlier set |
| MilpProps.UniqueSum | src/model.py:206-210 | under the uniqueness family the memberships of a vertex add up to one |
| MilpProps.OrderingSum | src/model.py:233-237 | under the ordering family, y[(k, j)] sums to zero over k < j < S |
| MilpProps.SubcircuitOfUnique | src/model.py:206-210 | when y[v][k] is the only membership set to 1, `SubcircuitOf` finds k |
| MilpProps.ExactlyOneSubcircuit | src/model.py:205-210 | with binary y, every vertex is in exactly one subcircuit: y[v][c] = 1 iff c is `SubcircuitOf(v)`, and 0 for every other c |
| MilpProps.OrderingBound | src/model.py:232-237 | vertex k < S sits in a subcircuit numbered at most k, and y[k][j] = 0 for every j above k |
| MilpProps.LinearisationIsAnd | src/model.py:174-203 | in every solution z_p[e,c] = x[e,c]·y[target,c] and z_o[e,c] = x[e,c]·y[source,c], and each is 1 iff both factors are 1 |
| MilpProps.LinearisationInequalities | src/model.py:178-202 | the linearisation family gives the six inequalities of one (e, c) pair |
| MilpProps.ProductIsAnd | src/model.py:177-189 | for binary z, x and y, z <= x, z <= y and z >= x + y - 1 force z = x·y, i.e. z = 1 iff x = y = 1 |
| MilpProps.EdgeCutExactlyOneEndpoint | src/model.py:212-230 | x[e,c] = 1 iff exactly one endpoint of e is in c, and x[e,c] = 0 iff both endpoints agree on c |
| MilpProps.EnteringCount | src/model.py:153-157 | in a partitioned solution p[c] is the number of edges entering c |
| MilpProps.LeavingCount | src/model.py:158-162 | in a partitioned solution o[c] is the number of edges leaving c |
| MilpProps.WeightCount | src/model.py:148-152 | in a partitioned solution a[c] is the total weight of c's vertices |
| MilpProps.AggregatesMeaning | src/model.py:76-80 | p[c] counts edges entering c, o[c] edges leaving c, a[c] is c's weight, f = a + p - o and d = a + p, as the variable comments promise |
| MilpProps.EdgeCutTwiceIfCrossing | src/model.py:212-230 | Σ_c x[e,c] is 2 when e joins two different subcircuits and 0 otherwise |
| MilpProps.CutSumSwap | src/model.py:321 | summing x[e,c] over c then e equals summing over e then c |
| MilpProps.EdgeSumsTwiceIfCrossing | src/model.py:212-230 | every edge's cut sum is twice its crossing indicator |
| MilpProps.CutCountIsCrossingEdges | src/model.py:314-321 | K = Σ x[e,c] / 2 is exactly the number of edges whose endpoints lie in different subcircuits |
| MilpProps.CutCountOfEdgeSums | src/model.py:321 | when every edge's cut sum is twice its crossing indicator, K is the number of crossing edges |
| MilpProps.ShotsNeedCapacity | src/model.py:266-279 | a positive shot count of c on q forces abilita[c,q] = 1, and then d[c] is at most q's capacity |
| MilpProps.ShotsUseQpu | src/model.py:258-264 | a positive shot count on QPU q forces use_q[q] = 1 |
| MilpProps.MakespanBounds | src/model.py:281-311 | T_q lies between max(queue·use_q, Σ shots·exec) and queue·use_q + Σ shots·exec, and the makespan is at least every T_q |
| MilpProps.MakespanCoversShots | src/model.py:258-311 | a QPU running any shot of c makes the makespan at least its queue time and at least those shots' execution time |
| MilpProps.PositiveTotalFindsQpu | src/model.py:250-279 | a subcircuit with a positive shot total has some QPU that runs part of it, is enabled for it, can hold it and is marked used |
| Extraction.VerticesIn | src/model.py:372-373 | `[v for v in vertices if y[v, c] == 1]`: exactly the vertices with y[v][c] = 1, in strictly increasing vertex order |
| Extraction.ShotAssignment | src/model.py:390-394 | the shot map of one subcircuit holds only positive counts |
| Extraction.ShotAssignmentKeys | src/model.py:390-394 | an index is a key of the shot map iff some QPU with that index has a positive count |
| Extraction.ShotAssignmentAbsent | src/model.py:390-394 | an index that no QPU carries is not a key of the shot map |
| Extraction.ShotAssignmentAt | src/model.py:390-394 | with distinct QPU indices, QPU q's positive count is reported under its index, and a non-positive count leaves the index out |
| Extraction.ShotAssignmentValues | src/model.py:390-394 | the same for every QPU at once |
| CutAndShoot.CheckWeights | src/model.py:31-36 | alpha < 0 is reported first, then beta < 0, then a sum other than 1; no error exactly when both are non-negative and sum to 1 |
| CutAndShoot.InitError | src/model.py:31-56 | construction fails iff a weight check fails (reported first), `add_constraints` would look up a missing y key (reported next), or the QPU list is empty, where `max()` over no QPU raises ValueError when the objective computes `T_max` (src/model.py:325-328) |
| CutAndShoot.Constraints | src/model.py:137-311 | every constraint `add_constraints` appends, in loop order; its meaning is stated by `ConstraintsMeaning` |
| CutAndShoot.Domains | src/model.py:58-135 | the variable categories and bounds of `add_variables`: the shared ones plus binary u and integer T_q and T; used by `Feasible` |
| CutAndShoot.Feasible | src/model.py:58-311 | a solution of this version: a well-formed instance, every dictionary shaped as `add_variables` creates it, this version's domains (binary u, integer T_q and T) and every constraint family `add_constraints` imposes, activation included (its meaning is proved in `CutAndShoot.ConstraintsMeaning` and the lemmas below) |
| CutAndShoot.ConstraintsMeaning | src/model.py:137-311 | the appended constraints all hold iff every family of this version holds (partition, activation, total shots N·u[c], scheduling) |
| CutAndShoot.ShotsFollowActivation | src/model.py:240-256 | the shots of c total N·u[c]; an inactive subcircuit runs no shot on any QPU and has d[c] <= 0 |
| CutAndShoot.OccupiedIsActive | src/model.py:100-101 | with non-negative weights, a subcircuit holding a vertex of positive weight has u[c] = 1, and an inactive one has d = a = p = 0 |
| CutAndShoot.OutCutsCount | src/model.py:421-425 | the out list has one entry per cut edge whose source is in c |
| CutAndShoot.InCutsCount | src/model.py:421-428 | the in list has one entry per cut edge whose source is not in c |
| CutAndShoot.CutListsMatchAggregates | src/model.py:414-428 | in a feasible solution the out list of c has o[c] entries and the in list p[c] entries |
| CutAndShoot.OutCutsAreLeaving | src/model.py:420-425 | the out list has exactly one entry per edge leaving c |
| CutAndShoot.InCutsAreEntering | src/model.py:420-428 | the in list has exactly one entry per edge entering c |
| CutAndShoot.EntryShotsTotal | src/model.py:380-397 | every subcircuit holding a vertex of positive weight is active and its shots add up to the N shots it must run |
| CutAndShoot.CutAndShootModel.constructor | src/model.py:4-56 | `__init__` once its checks pass (valid weights, every y key present, at least one QPU): stores the instance and weights, and the problem holds exactly `Constraints(inst)` |
| CutAndShoot.CutAndShootModel.New | src/model.py:4-56 | `__init__`: a Failure iff `InitError` reports one (bad weights, a missing y key, or no QPU), carrying that error; otherwise a fresh model whose problem is `Constraints(inst)` |
| CutAndShoot.CutAndShootModel.AddConstraints | src/model.py:137-311 | `add_constraints` appends exactly `Constraints(inst)` to the problem |
| CutAndShoot.CutAndShootModel.AddPartitionConstraints | src/model.py:146-237 | the aggregate, linearisation, uniqueness, edge and ordering loops append exactly `PartitionConstraints(inst)` |
| CutAndShoot.CutAndShootModel.AddScheduleConstraints | src/model.py:258-311 | the QPU-use, capacity and time loops append exactly `ScheduleConstraints(inst)` |
| CutAndShoot.CutAndShootModel.AddAggregateConstraints | src/model.py:146-172 | the loop over c appends A_c, P_c, O_c, F_c, D_c for c = 0 .. S-1 |
| CutAndShoot.CutAndShootModel.AddLinearisationConstraints | src/model.py:174-203 | the loops over e, then c, append the six zp_/zo_ inequalities of every pair |
| CutAndShoot.CutAndShootModel.AddUniqueVertexConstraints | src/model.py:205-210 | the loop over vertices appends one Unique_vertex constraint per vertex |
| CutAndShoot.CutAndShootModel.AddEdgeCutConstraints | src/model.py:212-230 | the loops over c, then e, append the four x_ inequalities of every pair |
| CutAndShoot.CutAndShootModel.AddOrderingConstraints | src/model.py:232-237 | the loop over k < S appends one Ordering_subc constraint per k |
| CutAndShoot.CutAndShootModel.AddActiveConstraints | src/model.py:239-247 | the loop over c appends one Active_subcircuit constraint per subcircuit |
| CutAndShoot.CutAndShootModel.AddTotalShotsConstraints | src/model.py:249-256 | the loop over c appends one Total_shots_subc constraint (Σ shots = N·u[c]) per subcircuit |
| CutAndShoot.CutAndShootModel.AddUseQpuConstraints | src/model.py:258-264 | the loop over q appends one UseQ constraint per QPU |
| CutAndShoot.CutAndShootModel.AddCapacityConstraints | src/model.py:266-279 | the loops over c, then q, append cap_ and enable_shots_ for every pair |
| CutAndShoot.CutAndShootModel.AddTimeConstraints | src/model.py:281-311 | the loop over q appends the four time constraints of every QPU |
| CutAndShoot.CutAndShootModel.K | src/model.py:313-322 | in a feasible solution the objective's cut count K is the number of edges between different subcircuits, between 0 and the number of edges |
| CutAndShoot.CutAndShootModel.ShotMap | src/model.py:390-394 | the QPU loop builds exactly the shot map `ShotAssignment` of c |
| CutAndShoot.CutAndShootModel.CutLists | src/model.py:420-428 | the edge loop builds exactly the out list (sources in c of cut edges) and the in list (targets of the other cut edges) |
| CutAndShoot.CutAndShootModel.PrintAndReturnSolution | src/model.py:352-434 | None iff the status is Infeasible; otherwise the keys are exactly the subcircuits that received a vertex, each with its complete entry |
| CutAndShoot.CutAndShootModel.ListSubcircuits | src/model.py:370-383 | the first loop keeps exactly the subcircuits with a vertex, each with its vertex list and no shots yet |
| CutAndShoot.CutAndShootModel.AddShotMaps | src/model.py:385-397 | the second loop keeps the same keys and gives each its shot map |
| CutAndShoot.CutAndShootModel.AddDetails | src/model.py:409-428 | the last loop keeps the same keys and fills in d, a, p, o, f and the cut lists |
| MilpProps.BoundedSetSize | src/model.py:321-322 | a set of integers drawn from 0 .. n-1 has at most n elements (bounds K by the edge count) |
| FinalModel.CheckWeights | src/final_model/model.py:30-35 | alpha < 0 is reported first, then beta < 0, then a sum other than 1; no error exactly when both are non-negative and sum to 1 |
| FinalModel.InitError | src/final_model/model.py:30-55 | construction fails iff a weight check fails (reported first), `aggiungi_vincoli` would look up a missing y key (reported next), or the QPU list is empty, where `max()` over no QPU raises ValueError when the objective computes `T_max` (src/final_model/model.py:307-310) |
| FinalModel.Constraints | src/final_model/model.py:133-296 | every constraint `aggiungi_vincoli` appends, in loop order (no activation loop, shots total exactly N); meaning stated by `ConstraintsMeaning` |
| FinalModel.Feasible | src/final_model/model.py:57-131 | a solution of this version: well-formed instance, every dictionary shaped as `aggiungi_variabili` creates it, the shared domains (T_q and T continuous, no u) and every family |
| FinalModel.ConstraintsMeaning | src/final_model/model.py:133-296 | the appended constraints all hold iff the partition families, the exact-shots family and the scheduling families hold |
| FinalModel.EverySubcircuitRunsShots | src/final_model/model.py:236-264 | every subcircuit, empty or not, runs exactly N shots; when N > 0 some QPU runs part of them, is enabled for it, can hold it and is used |
| FinalModel.NoQpuNoSolution | src/final_model/model.py:236-241 | with a subcircuit and a non-zero shot count, no feasible solution exists without a QPU |
| FinalModel.ModelloCutAndShoot.constructor | src/final_model/model.py:4-55 | `__init__` once its checks pass (valid weights, every y key present, at least one QPU): stores the instance and weights, and the problem holds exactly `Constraints(inst)` |
| FinalModel.ModelloCutAndShoot.New | src/final_model/model.py:4-55 | `__init__`: a Failure iff `InitError` reports one (bad weights, a missing y key, or no QPU), carrying that error; otherwise a fresh model whose problem is `Constraints(inst)` |
| FinalModel.ModelloCutAndShoot.AggiungiVincoli | src/final_model/model.py:133-296 | `aggiungi_vincoli` appends exactly `Constraints(inst)` to the problem |
| FinalModel.ModelloCutAndShoot.AddPartitionConstraints | src/final_model/model.py:143-234 | the aggregate, linearisation, uniqueness, edge and ordering loops append exactly `PartitionConstraints(inst)` |
| FinalModel.ModelloCutAndShoot.AddScheduleConstraints | src/final_model/model.py:243-296 | the QPU-use, capacity and time loops append exactly `ScheduleConstraints(inst)` |
| FinalModel.ModelloCutAndShoot.AddAggregateConstraints | src/final_model/model.py:143-169 | the loop over c appends A_c, P_c, O_c, F_c, D_c for c = 0 .. S-1 |
| FinalModel.ModelloCutAndShoot.AddLinearisationConstraints | src/final_model/model.py:171-200 | the loops over e, then c, append the six zp_/zo_ inequalities of every pair |
| FinalModel.ModelloCutAndShoot.AddUniqueVertexConstraints | src/final_model/model.py:202-207 | the loop over vertices appends one uniqueness constraint per vertex |
| FinalModel.ModelloCutAndShoot.AddEdgeCutConstraints | src/final_model/model.py:209-227 | the loops over c, then e, append the four x_ inequalities of every pair |
| FinalModel.ModelloCutAndShoot.AddOrderingConstraints | src/final_model/model.py:229-234 | the loop over k < S appends one ordering constraint per k |
| FinalModel.ModelloCutAndShoot.AddTotalShotsConstraints | src/final_model/model.py:236-241 | the loop over c appends one constraint Σ shots = N per subcircuit |
| FinalModel.ModelloCutAndShoot.AddUseQpuConstraints | src/final_model/model.py:243-249 | the loop over q appends one UseQ constraint per QPU |
| FinalModel.ModelloCutAndShoot.AddCapacityConstraints | src/final_model/model.py:251-264 | the loops over c, then q, append cap_ and enable_shots_ for every pair |
| FinalModel.ModelloCutAndShoot.AddTimeConstraints | src/final_model/model.py:266-296 | the loop over q appends the four time constraints of every QPU |
| FinalModel.ModelloCutAndShoot.K | src/final_model/model.py:298-305 | in a feasible solution the objective's cut count K is the number of edges between different subcircuits, so K lies between 0 and the number of edges |
| FinalModel.ModelloCutAndShoot.StampaERestituisciRisultato | src/final_model/model.py:339-390 | the returned dictionary has a key for every subcircuit index, occupied or not, each with its vertex list and shot map, whatever the status |
| FinalModel.ModelloCutAndShoot.ListSubcircuits | src/final_model/model.py:359-368 | the first loop lists every subcircuit with its vertices and no shots yet |
| FinalModel.ModelloCutAndShoot.AddShotMaps | src/final_model/model.py:370-378 | the second loop keeps every key and gives each its shot map |
| FinalModel.ModelloCutAndShoot.ShotMap | src/final_model/model.py:371-375 | the QPU loop builds exactly the shot map `ShotAssignment` of c |
| DynamicDefinition.PartialKey | src/dynamic_definition.py:33-41 | the loop over `merged_qubits` that writes '-' at `len - 1 - mq` builds exactly `Masked(bitstring, merged)`, None being its IndexError |
| DynamicDefinition.PyIndex | src/dynamic_definition.py:38-39 | `partial_key[idx]` with Python's list indexing: 0..L-1 as is, -L..-1 counted from the end, anything else an IndexError |
| DynamicDefinition.Masked | src/dynamic_definition.py:33-41 | the partial key of one bitstring: '-' at `len-1-mq` for each merged qubit, every other character copied, or the IndexError of an out-of-range mq (properties in `MaskedShape`, `MaskedFails`, `SameBin`) |
| DynamicDefinition.MaskedShape | src/dynamic_definition.py:33-41 | with every merged qubit in range, the partial key has its bitstring's length, '-' at `len - 1 - mq` for each mq, and every other position copied |
| DynamicDefinition.MaskedFails | src/dynamic_definition.py:38-39 | masking raises IndexError iff some merged qubit lies outside -len .. len-1 once turned into `len - 1 - mq` (outside 0 .. 2·len-1) |
| DynamicDefinition.SameBin | src/dynamic_definition.py:41-45 | two bitstrings of equal length land in the same bin iff they agree on every position no merged qubit names |
| DynamicDefinition.MaskIdempotent | src/dynamic_definition.py:33-41 | masking a partial key again with the same qubits changes nothing |
| DynamicDefinition.MaskNothing | src/dynamic_definition.py:33-41 | with no merged qubits every bitstring is its own partial key |
| DynamicDefinition.ActivePrefix | src/dynamic_definition.py:83-86 | merging `range(n - active)` on an n-character bitstring keeps the first `active` characters and turns the rest into '-' (the whole string when active >= n) |
| DynamicDefinition.MergeStep | src/dynamic_definition.py:30-45 | one pass of the outer loop adds the n-th count to its bin, or fails with the IndexError |
| DynamicDefinition.MergePrefix | src/dynamic_definition.py:28-45 | `merged_dict` after the first n entries of counts: each partial key created at 0 and increased by the entry's count, or the first IndexError (properties in `MergePrefixBins`, `MergePrefixTotal`, `MergePrefixKeys`) |
| DynamicDefinition.MergeCountsSpec | src/dynamic_definition.py:28-47 | `merge_counts(counts, merged_qubits)` on the whole dictionary (properties in `MergeCountsBins`, `MergeCountsTotal`, `MergeNothing`, `MergeIdempotent`) |
| DynamicDefinition.MergeCounts | src/dynamic_definition.py:5-47 | `merge_counts` returns exactly `MergeCountsSpec(counts, merged)`, None being the IndexError |
| DynamicDefinition.MergePrefixFailed | src/dynamic_definition.py:30-45 | once an entry fails to mask, the rest of the loop stays failed |
| DynamicDefinition.MergePrefixStep | src/dynamic_definition.py:43-45 | a successful step adds the n-th count to the bin of its partial key (creating it at 0 first) |
| DynamicDefinition.MergePrefixSucceeds | src/dynamic_definition.py:30-45 | the first n entries merge without error iff each of them masks without IndexError |
| DynamicDefinition.MergePrefixTotal | src/dynamic_definition.py:28-45 | after n entries the bins form a dictionary whose counts total the first n input counts |
| DynamicDefinition.MergePrefixBins | src/dynamic_definition.py:41-45 | after n entries each bin holds the sum of the counts of the visited bitstrings that mask to it |
| DynamicDefinition.MergePrefixKeys | src/dynamic_definition.py:41-45 | after n entries the bins are exactly the partial keys of the visited bitstrings |
| DynamicDefinition.MergeCountsBins | src/dynamic_definition.py:5-47 | `merge_counts` succeeds iff every bitstring masks; then each bin holds the sum of the counts masking to it and the bins are exactly the partial keys |
| DynamicDefinition.MergeCountsTotal | src/dynamic_definition.py:28-47 | the output bins hold as many counts in total as the input |
| DynamicDefinition.MergeFixedPoint | src/dynamic_definition.py:30-45 | when every bitstring is its own partial key, the first n entries come back as they were |
| DynamicDefinition.FixedPointAll | src/dynamic_definition.py:5-47 | when every bitstring is its own partial key, `merge_counts` returns its input unchanged |
| DynamicDefinition.MergeNothing | src/dynamic_definition.py:5-47 | with an empty `merged_qubits` the counts come back unchanged |
| DynamicDefinition.MergeIdempotent | src/dynamic_definition.py:5-47 | merging the merged counts again with the same qubits changes nothing |
| Merge.UpdateValid | src/merge.py:29 | `Counter.update` keeps a dictionary a dictionary |
| Merge.UpdateAll | src/merge.py:29 | `Counter.update(counts)`: every count of `counts` added to the counter's count for that key, new keys appended (properties in `UpdateGet`, `UpdateDomain`, `UpdateTotal`, `UpdateAllMeaning`) |
| Merge.UpdateGet | src/merge.py:29 | after updating with the first n entries, each bitstring's count is the old count plus its count in those entries |
| Merge.UpdateDomain | src/merge.py:29 | after updating, the keys are the old keys and the visited bitstrings |
| Merge.UpdateTotal | src/merge.py:29 | updating adds the visited counts to the counter's total |
| Merge.UpdateAllMeaning | src/merge.py:29 | `counter.update(counts)` adds counts key-wise, keeps the union of the keys and adds the totals |
| Merge.Accumulate | src/merge.py:25-38 | the state after i results is the state after i - 1 results with result i - 1 visited |
| Merge.ConsistentCovered | src/merge.py:42-53 | a consistent state gives the normalisation loop a counter and metadata for every variant it reads |
| Merge.VisitVariant | src/merge.py:26-38 | the inner loop body updates the counter, adds the variant's shot total and keeps the first metadata, and nothing else |
| Merge.VisitResult | src/merge.py:26-38 | the inner loop over one result's variants produces exactly `Visit(st, result)` |
| Merge.AccumulateResults | src/merge.py:20-38 | the accumulation loops produce exactly `Accumulate` over all the results |
| Merge.NormalizeVariant | src/merge.py:43-54 | one variant's final entry: its probabilities and first-seen metadata, or the ZeroDivisionError |
| Merge.Probabilities | src/merge.py:43-47 | the comprehension `{b: count / total}` over `sorted(counts.items())`, or the ZeroDivisionError of a non-empty counter over a zero total (properties in `MergeProps.ProbabilitiesContents`, `ProbabilitiesFail`, `ProbabilitiesSum`) |
| Merge.Collect | src/merge.py:41-54 | `final_results` after the first n variant names: each name stored with its entry, in order, until the first ZeroDivisionError (properties in `MergeProps.CollectContents`, `CollectSucceeds`, `CollectFirstFailure`) |
| Merge.Normalize | src/merge.py:41-54 | the normalisation loop after the first n variants of `merged_counts`, each with its probabilities and the metadata recorded for it |
| Merge.NormalizeStep | src/merge.py:42-54 | one pass of the normalisation loop adds the next variant's entry or stops with its ZeroDivisionError |
| Merge.NormalizeCounts | src/merge.py:40-54 | the normalisation loop produces exactly `Normalize(st)` |
| Merge.MergeAndNormalizeVariantCounts | src/merge.py:5-56 | `merge_and_normalize_variant_counts` returns exactly `MergeSpec(results)`, a Failure being the ZeroDivisionError |
| Merge.MergeSpec | src/merge.py:5-56 | the function's result on a whole input list; its meaning is stated by `MergeProps.MergeSucceeds`, `MergeNames`, `MergedProbabilities` and `MergedMetadata` |
| Merge.CollectFailed | src/merge.py:42-54 | once a variant's normalisation fails, the loop's result stays that failure |
| Merge.ListedBefore | src/merge.py:26 | a variant listed among the first j of a result is a key of that result |
| Merge.ListedPrefix | src/merge.py:26 | a variant is listed among the first j of a result iff it is in the first j keys |
| Merge.ListedAll | src/merge.py:26 | a variant is listed among all of a result's keys iff the result has it |
| Merge.LastKey | src/merge.py:26 | the j-th key of a result is present and not listed before it |
| Merge.AddCountsNames | src/merge.py:29 | updating variant k's counter adds k to the variants and keeps the rest |
| Merge.AddCountsValid | src/merge.py:29 | updating a counter keeps every counter a dictionary |
| Merge.AddCountsGet | src/merge.py:29 | updating variant k adds k's counts to k's counter and leaves other counters unchanged |
| Merge.AddCountsTotal | src/merge.py:29 | updating variant k adds k's count total to k's counter total only |
| Merge.AddCountsBits | src/merge.py:29 | after updating, k's counter has the old bitstrings and k's new ones |
| Merge.KeepMetadataMeaning | src/merge.py:33-38 | metadata is recorded only for a variant not seen before, and existing metadata is never overwritten |
| Merge.CountsAfterNames | src/merge.py:26-29 | after j variants of a result, the variants with counters are the earlier ones and those j |
| Merge.CountsAfterValid | src/merge.py:26-29 | visiting variants keeps every counter a dictionary |
| Merge.CountsAfterGet | src/merge.py:26-29 | after j variants, a variant's count for b grows by the result's count for b iff it is among those j |
| Merge.CountsAfterTotal | src/merge.py:26-29 | after j variants, a variant's counter total grows by its count total in the result iff it is among those j |
| Merge.CountsAfterBits | src/merge.py:26-29 | after j variants, a variant's bitstrings are its earlier ones and, when listed, the result's |
| Merge.ShotsAfterGet | src/merge.py:27-30 | after j variants, a variant's shot total grows by its `total_shots` (defaulting to its count sum) iff it is among those j |
| Merge.MetadataAfterMeaning | src/merge.py:33-38 | after j variants, metadata exists for earlier variants and those listed, earlier metadata is kept and new metadata is the listed variant's |
| Merge.AccumulateValid | src/merge.py:20-38 | the three accumulated dictionaries stay dictionaries |
| Merge.AccumulateCountsNamed | src/merge.py:29 | after i results a variant has a counter iff one of them mentions it, even with empty counts |
| Merge.AccumulateMetadataNamed | src/merge.py:33-38 | after i results a variant has metadata iff one of them mentions it |
| Merge.AccumulateNames | src/merge.py:20-38 | the accumulated dictionaries are dictionaries, and counters and metadata exist exactly for the variants mentioned |
| Merge.AccumulateConsistent | src/merge.py:20-38 | the accumulated state is consistent: every variant with counts has metadata |
| Merge.SeenStep | src/merge.py:25-26 | a variant is mentioned in the first i results iff it is in the first i - 1 or in result i - 1 |
| Merge.BitSeenStep | src/merge.py:25-29 | a bitstring is seen for a variant in the first i results iff seen in the first i - 1 or in result i - 1's counts |
| Merge.AccumulateCounterValid | src/merge.py:29 | every accumulated counter is a dictionary |
| Merge.AccumulateCounts | src/merge.py:25-29 | the merged count of (variant, bitstring) is the sum of its counts over the results visited |
| Merge.AccumulateShots | src/merge.py:27-30 | a variant's shot total is the sum over the results of its `total_shots`, each defaulting to that result's count sum |
| Merge.AccumulateTotal | src/merge.py:29 | a variant's counter total is the sum of its count totals over the results |
| Merge.AccumulateBits | src/merge.py:29 | a variant's counter has a bitstring iff some visited result counted it |
| Merge.AccumulateMetadata | src/merge.py:33-38 | a variant's metadata is that of the first result mentioning it; later results never overwrite it |
| MergeProps.CollectSucceeds | src/merge.py:42-54 | the normalisation loop succeeds iff every visited variant normalises |
| MergeProps.CollectFirstFailure | src/merge.py:42-47 | the loop fails with the ZeroDivisionError of the first variant that fails |
| MergeProps.CollectFailStep | src/merge.py:42-47 | a loop that has succeeded so far fails at a variant that cannot be normalised |
| MergeProps.CollectFailureName | src/merge.py:42-47 | a failure names a visited variant that cannot be normalised |
| MergeProps.CollectStep | src/merge.py:42-54 | a successful loop put the last variant's entry after those of the earlier ones |
| MergeProps.CollectKeys | src/merge.py:41-54 | a successful loop's keys are the visited variants, in order |
| MergeProps.CollectValue | src/merge.py:49-54 | a successful loop stores each visited variant's own entry |
| MergeProps.CollectContents | src/merge.py:41-54 | a successful loop yields a dictionary keyed by the visited variants, in order, each with its own entry |
| MergeProps.ProbabilitiesFail | src/merge.py:43-47 | the probability comprehension raises ZeroDivisionError iff the counter is non-empty and the total is 0 |
| MergeProps.ProbabilitiesContents | src/merge.py:44-47 | the probabilities list the counter's bitstrings once each, in sorted order, each equal to count / total |
| MergeProps.ScaledSum | src/merge.py:44-47 | the sum of count / t is the count sum divided by t |
| MergeProps.ProbabilitiesSum | src/merge.py:43-47 | when the total is the counter's own sum, the probabilities sum to 1 |
| MergeProps.Final | src/merge.py:20-38 | the state after all results is consistent and covers what the normalisation loop reads |
| MergeProps.CounterNonEmpty | src/merge.py:29 | a variant's merged counter is non-empty iff some result counted a bitstring for it |
| MergeProps.EntryFails | src/merge.py:43-47 | a mentioned variant's normalisation fails iff its shot total is 0 and it has counts |
| MergeProps.MergeSucceeds | src/merge.py:5-56 | the function succeeds iff every mentioned variant with counts has a non-zero shot total |
| MergeProps.MergeFailure | src/merge.py:43-47 | a failure names a mentioned variant with counts and a zero shot total |
| MergeProps.MergeNames | src/merge.py:41-56 | the output has exactly one entry per variant mentioned in any result, empty counts included |
| MergeProps.MergedProbabilities | src/merge.py:25-47 | each variant's probabilities are keyed by exactly the bitstrings seen for it, sorted, each the summed count over the summed shot total |
| MergeProps.MergedMetadata | src/merge.py:33-38 | each variant's metadata is that of the first result mentioning it |
| MergeProps.ShotsAreCountSums | src/merge.py:27-28 | when no result gives `total_shots`, the shot total is the sum of the count totals |
| MergeProps.MergedProbabilitiesSum | src/merge.py:27-47 | when every `total_shots` is defaulted and the variant has counts, its probabilities sum to 1 |
| PostProcessing.VectorOf | src/post_processing.py:7-17 | vector_from_probabilities: a zero vector of 2^n entries with each probability written at the index its bitstring names; ValueError for a key that is not binary, IndexError for one at or past 2^n (properties in PostProcessingProps.PlacedSuccess, PlacedFailure, PlacedAt, VectorOfBitstrings) |
| PostProcessing.Placed | src/post_processing.py:13-16 | the vector after the first k keys: when no key has failed it always has 2^n entries |
| PostProcessing.PlacedStaysFailure | src/post_processing.py:14-16 | once a key raises, later keys do not change the outcome: the first error is the one reported |
| PostProcessing.VectorFromProbabilities | src/post_processing.py:7-17 | the loop returns exactly the vector VectorOf specifies, or its error |
| PostProcessingProps.PlacedSuccess | src/post_processing.py:14-16 | the loop succeeds over the first k keys if and only if every one of them parses as binary and names an index below 2^n |
| PostProcessingProps.PlacedFailure | src/post_processing.py:15-16 | the first key that fails decides the error: ValueError when int(key, 2) fails, IndexError when the index is too large |
| PostProcessingProps.PlacedAt | src/post_processing.py:13-16 | every entry of the vector is the probability of the last key naming that index, or 0 |
| PostProcessingProps.LastAtNone | src/post_processing.py:13 | an index that no key names keeps the zero it was created with |
| PostProcessingProps.LastAtKey | src/post_processing.py:16 | an index named by the last key among the first k holds that key's probability |
| PostProcessingProps.BinaryValueInjective | src/post_processing.py:15 | two binary strings of the same length with the same value are equal |
| PostProcessingProps.VectorOfBitstrings | src/post_processing.py:7-17 | for n-bit keys the conversion never fails, each probability lands at its bitstring's value, and every index no key names is 0 |
| PostProcessing.WrittenSign | src/post_processing.py:32-34 | the sign as written, from the lowercase x and y in the name, is always +1 or -1 |
| PostProcessing.Sign | src/post_processing.py:30 | the intended sign, from the X and Y measurement bases, is always +1 or -1 |
| PostProcessing.ContributionOf | src/post_processing.py:19-41 | compute_variant_contrib as written: the vector, the base coefficient times WrittenSign, and the number of active qubits; the vector's error is passed on |
| PostProcessing.ContributionOfIntended | src/post_processing.py:19-41 | compute_variant_contrib with the sign the docstring at line 30 describes |
| PostProcessing.ComputeVariantContrib | src/post_processing.py:19-41 | returns exactly ContributionOf: the vector, the signed coefficient and the qubit count, or the vector's error |
| PostProcessingProps.WrittenSignOfVariant | src/post_processing.py:32-34 | for every name the subcircuit constructor builds, the sign as written is +1: those names hold no lowercase x or y |
| PostProcessingProps.SignOfVariant | src/post_processing.py:30 | for every constructor-built name, the intended sign is -1 exactly when an odd number of measured bases are X or Y |
| PostProcessingProps.WrittenSignCounterexample | src/post_processing.py:32-34 | one subcircuit measuring qubit 0 in the X basis: the sign as written is +1 while the intended sign is -1 |
| PostProcessingProps.WrittenContributionOfVariant | src/post_processing.py:19-41 | as written, every constructor-named variant contributes with the base coefficient unchanged, and its vector has 2^n entries |
| PostProcessingProps.ContributionOfVariant | src/post_processing.py:19-41 | as intended, a constructor-named variant contributes with the base coefficient negated exactly when an odd number of its measured bases are X or Y |
| PostProcessing.GroupKeyOf | src/post_processing.py:130-137 | the grouping key: int(parts[1]) for a name starting with "sub_", the whole name when that raises ValueError or the prefix is missing |
| PostProcessing.SubFields | src/post_processing.py:130-131 | a name starting with "sub_" has a second field, so parts[1] exists |
| PostProcessingProps.GroupKeyOfVariantName | src/post_processing.py:130-133 | every name the constructor builds for subcircuit i is grouped under the integer key i |
| PostProcessing.AddToGroupPut | src/post_processing.py:138 | adding a variant is the two dictionary assignments grouped[key][name] = data, the inner dictionary created on first use |
| PostProcessing.AddToGroup | src/post_processing.py:129-138 | `grouped[sub_idx][variant_name] = data`, creating the inner dictionary on first use as `defaultdict(dict)` does |
| PostProcessing.Grouped | src/post_processing.py:128-138 | `grouped` after the first k variants (properties in `PostProcessingProps.GroupedNames`, `GroupedKeys`, `GroupedGroupSpec`) |
| PostProcessing.GroupVariants | src/post_processing.py:128-138 | the grouping loop yields exactly the grouping of all variants in insertion order |
| PostProcessingProps.NamesUnderMembers | src/post_processing.py:128-138 | a name is listed under a key if and only if it is a variant whose grouping key is that key |
| PostProcessingProps.GroupedState | src/post_processing.py:128-138 | after the first k variants the grouping is a well-formed dictionary of dictionaries, and each group lists, in order, the names among the first k that map to its key |
| PostProcessingProps.GroupedStep | src/post_processing.py:138 | one loop step keeps the grouping well formed and appends the new name to its own group only |
| PostProcessingProps.AddToGroupState | src/post_processing.py:138 | adding a variant appends its name to the group of its key and leaves every other group unchanged |
| PostProcessingProps.AddToGroupAt | src/post_processing.py:138 | the same, for one key at a time |
| PostProcessingProps.AddToGroupValid | src/post_processing.py:138 | adding a variant keeps the outer dictionary well formed |
| PostProcessingProps.GroupedNames | src/post_processing.py:128-138 | the names in each group are those of the first k variants with that key, in input order |
| PostProcessingProps.GroupedKeys | src/post_processing.py:128-138 | a key appears in the grouping if and only if some variant's name maps to it |
| PostProcessingProps.GroupedGroupSpec | src/post_processing.py:128-138 | each group lists exactly the names mapping to its key, with each variant's own data |
| PostProcessing.GroupedGroup | src/post_processing.py:128-138 | every group in the grouping, at every step, is a well-formed nonempty dictionary |
| PostProcessing.AddToGroupGroup | src/post_processing.py:138 | adding a variant keeps every group well formed and nonempty |
| PostProcessing.GroupedMember | src/post_processing.py:128-138 | any variant found in a group is an input variant with its own data |
| PostProcessing.AddToGroupMember | src/post_processing.py:138 | adding a variant keeps every group's data equal to the input's |
| PostProcessing.SortKeys | src/post_processing.py:140 | sorted(grouped.keys()): TypeError when integer and string keys are mixed, otherwise the keys in ascending order |
| PostProcessing.KeyLt | src/post_processing.py:140 | the order `sorted` uses on the group keys: integers by value, strings by code point (mixed keys raise instead, see `SortKeys`) |
| PostProcessingProps.KeyLtTransitive | src/post_processing.py:140 | the key order is transitive |
| PostProcessingProps.KeyLtConnected | src/post_processing.py:140 | any two distinct keys are ordered one way or the other |
| PostProcessingProps.KeyLtStrictTotal | src/post_processing.py:140 | the key order is a strict total order, so sorting by it is well defined |
| PostProcessingProps.SortKeysSpec | src/post_processing.py:140 | sorting succeeds if and only if the keys are all integers or all strings, and then returns a sorted permutation of them, strictly increasing when the keys are distinct |
| PostProcessingProps.IndexKeysSort | src/post_processing.py:140 | integer keys always sort, into a permutation in strictly increasing numeric order |
| PostProcessing.CollectStep | src/post_processing.py:148-150 | one step of the inner loop appends (value, coefficient) to the list at idx exactly when the value is nonzero |
| PostProcessing.SubVectorOf | src/post_processing.py:145-152 | one subcircuit's `(n_qubits, variant_entries)`: the non-zero entries of every variant's vector with its coefficient, and the active-qubit count of its first variant, or the first variant's vector error |
| PostProcessing.CollectNext | src/post_processing.py:146-150 | finishing one variant's vector moves the collection on to the next variant |
| PostProcessing.CollectEntries | src/post_processing.py:145-150 | variant_entries holds an index if and only if some variant's vector is nonzero there, and its list is those (value, coefficient) pairs in variant order |
| PostProcessing.ColumnWidth | src/post_processing.py:148-150 | every index with an entry lies inside some variant's vector |
| PostProcessingProps.ColumnLength | src/post_processing.py:145-150 | an index collects at most one pair per variant |
| PostProcessingProps.ColumnMembers | src/post_processing.py:148-150 | a pair is listed at an index if and only if some variant has that nonzero value there with that coefficient |
| PostProcessingProps.ColumnsDomain | src/post_processing.py:145-150 | an index is a key of variant_entries if and only if some variant's vector is nonzero there |
| PostProcessing.Contributions | src/post_processing.py:146-147 | the contributions of a group's first k variants: when none fails there is one per variant |
| PostProcessing.ContributionsStay | src/post_processing.py:146-147 | once a variant's vector fails, the error of the whole group is that first error |
| PostProcessing.BuildSubVector | src/post_processing.py:145-152 | one subcircuit's (n_qubits, variant_entries) pair, n_qubits read from the group's first variant, or the first variant's error |
| PostProcessing.SubVectors | src/post_processing.py:144-152 | the loop over the sorted keys builds one sub-vector per key, or stops at the first error |
| PostProcessing.SubVectorsStay | src/post_processing.py:144-152 | the first failing subcircuit decides the error |
| PostProcessing.OrderReady | src/post_processing.py:140-151 | every sorted key names a nonempty group of well-formed variants, so next(iter(...)) at line 151 never fails |
| PostProcessing.Format | src/post_processing.py:160 | format(g, "0{total_active}b") is a binary string |
| PostProcessingProps.OffsetMonotone | src/post_processing.py:167-170 | the running offset never decreases |
| PostProcessingProps.OffsetBound | src/post_processing.py:154-170 | each subcircuit's slice ends within total_active bits |
| PostProcessingProps.LocalBits | src/post_processing.py:168 | a subcircuit's slice has exactly its own number of qubits and is binary |
| PostProcessingProps.LocalBitsWithin | src/post_processing.py:160-168 | the slice of the formatted index is the corresponding slice of its total_active-bit binary form |
| PostProcessingProps.LocalIndex | src/post_processing.py:169 | the local index read from a slice is below 2^n for that subcircuit |
| PostProcessingProps.Locals | src/post_processing.py:166-170 | the local indices of a global index, one per subcircuit |
| PostProcessingProps.HornerPrefix | src/post_processing.py:166-170 | recombining the first k local indices gives the value of the first k slices of the bitstring |
| PostProcessingProps.RecombinedPrefix | src/post_processing.py:160-170 | recombining all local indices gives the value of the whole formatted index |
| PostProcessingProps.LocalsAreSlices | src/post_processing.py:166-170 | each local index is the value of its own slice |
| PostProcessingProps.LocalIndexValue | src/post_processing.py:168-169 | each local index is the binary value of its slice of the global index |
| PostProcessingProps.HornerStep | src/post_processing.py:168-170 | one more slice extends the recombined prefix by that slice's bits |
| PostProcessingProps.LocalIndicesDetermine | src/post_processing.py:159-170 | cutting a global index into local indices loses nothing: recombining them gives the index back |
| PostProcessingProps.LocalIndicesInjective | src/post_processing.py:159-170 | two global indices with the same local indices are equal |
| PostProcessingProps.HornerBound | src/post_processing.py:166-170 | local indices that fit their subcircuits recombine to a value below 2^offset |
| PostProcessingProps.HornerBitsAt | src/post_processing.py:166-170 | slicing a recombined index gives back each local index's bits |
| PostProcessingProps.LocalsOfHorner | src/post_processing.py:159-170 | every combination of fitting local indices is cut out of exactly one global index: the cut is a bijection |
| PostProcessingProps.SliceOfFormat | src/post_processing.py:160-168 | Python's slice of the formatted index is the slice of its binary digits |
| PostProcessingProps.ParseAt | src/post_processing.py:168-169 | int(local_bits, 2) gives the local index, and raises ValueError only for a subcircuit with no qubits, whose slice is empty |
| PostProcessing.LocalParses | src/post_processing.py:167-169 | the parsed slice of every subcircuit, in order |
| PostProcessing.ScanStays | src/post_processing.py:171-173 | after an error or a missing entry the scan stops and nothing later changes the outcome |
| PostProcessing.Scan | src/post_processing.py:167-174 | the inner loop after the first k subcircuits: an empty slice raises, a missing local index stops with `valid = False`, otherwise each subcircuit's entries are gathered in order |
| PostProcessing.LookupAt | src/post_processing.py:160-177 | what the inner loop finds for global index g: its binary string cut into slices and each slice's entries looked up (properties in `PostProcessingProps.LookupAtSpec`) |
| PostProcessing.ScanStep | src/post_processing.py:167-174 | one subcircuit: an empty slice raises, a local index with no entries ends the scan as missing, otherwise its entries are appended |
| PostProcessing.ScanIndex | src/post_processing.py:160-174 | the inner loop for one global index returns exactly its specified lookup: the entries per subcircuit, missing, or the error |
| PostProcessingProps.Picked | src/post_processing.py:171-174 | the entries gathered for the first k subcircuits, each at its own local index |
| PostProcessingProps.ScanFound | src/post_processing.py:167-174 | when every local index has entries the scan gathers exactly those entries in order |
| PostProcessingProps.ScanFirstMiss | src/post_processing.py:171-173 | the first subcircuit whose slice fails decides: ValueError for an empty slice, missing for an index without entries |
| PostProcessingProps.ScanFoundIff | src/post_processing.py:167-174 | the scan finds entries if and only if every subcircuit's local index has entries |
| PostProcessingProps.ScanParses | src/post_processing.py:167-173 | when every slice parses the scan never raises |
| PostProcessingProps.ScanSucceeds | src/post_processing.py:159-174 | when every subcircuit has at least one qubit, the lookup of every index never raises |
| PostProcessing.SumCombos | src/post_processing.py:179-182 | the loop over itertools.product returns the sum, over every combination, of the product of value times coefficient |
| PostProcessingProps.TotalContribFactors | src/post_processing.py:179-182 | that sum over all combinations equals the product, over subcircuits, of each subcircuit's sum of value times coefficient |
| PostProcessingProps.SumExtend | src/post_processing.py:180 | extending every combination by one more subcircuit multiplies the total by that subcircuit's sum |
| PostProcessingProps.SumAppendAll | src/post_processing.py:180-182 | extending one combination by every entry of a subcircuit gives its weight times that subcircuit's sum |
| PostProcessing.Lookups | src/post_processing.py:159-174 | the lookup of every global index below the dimension, one per index |
| PostProcessing.LookupsAt | src/post_processing.py:159-174 | the lookup at position g is that of index g |
| PostProcessing.Filled | src/post_processing.py:156-184 | global_vector after the first g indices: when no lookup has raised it has the full dimension |
| PostProcessing.Reconstructed | src/post_processing.py:154-184 | the global vector before normalisation: 2^total_active entries, each the summed products of its subcircuits' entries or 0 (properties in `PostProcessingProps.ReconstructedSpec`) |
| PostProcessing.FilledStays | src/post_processing.py:159-184 | the first index whose lookup raises decides the error |
| PostProcessing.FillIndex | src/post_processing.py:159-184 | one pass of the outer loop writes total_contrib at index g, leaves it 0 when an entry is missing, or reports the error |
| PostProcessing.Reconstruct | src/post_processing.py:154-184 | the outer loop over a zero array of 2^total_active entries returns exactly the specified reconstruction, or its first error |
| PostProcessingProps.FilledPrefix | src/post_processing.py:156-184 | filling succeeds over the first g indices if and only if none of their lookups raised, and then those hold their contributions and the rest 0 |
| PostProcessingProps.FilledFirstFailure | src/post_processing.py:159-184 | the error reported is that of the first index whose lookup raises |
| PostProcessingProps.EntriesAt | src/post_processing.py:171-174 | the entries of each subcircuit at the global index's local index |
| PostProcessingProps.LookupAtSpec | src/post_processing.py:160-177 | when every subcircuit has qubits, an index's lookup finds the entries exactly when all its local indices have entries, and is missing otherwise |
| PostProcessingProps.ReconstructedSpec | src/post_processing.py:154-184 | when every subcircuit has qubits, reconstruction succeeds with 2^total_active entries, each the product over subcircuits of the summed weighted entries at its local indices, or 0 when one is missing |
| PostProcessingProps.EmptyFirstFails | src/post_processing.py:168-169 | a first subcircuit with no active qubits makes int("", 2) raise at index 0 |
| PostProcessing.DdReconstructed | src/post_processing.py:118-184 | dd_reconstruct_variant_dict up to the normalisation: it fails with TypeError exactly when the grouping mixes integer and string keys, and otherwise passes on the first ValueError or IndexError or returns the reconstructed vector |
| PostProcessing.DdReconstruct | src/post_processing.py:118-184 | the grouping, sorting, sub-vector and fill loops together return exactly DdReconstructed |
| PostProcessingProps.KeyListed | src/post_processing.py:128-138 | every variant's grouping key is listed among the grouping's keys |
| PostProcessingProps.UnsortableIff | src/post_processing.py:128-140 | reconstruction fails with TypeError if and only if one variant is grouped under an integer and another under a string |
| PostProcessingProps.UniformSorts | src/post_processing.py:140 | without such a pair there is no TypeError |
| PostProcessingProps.MixedFails | src/post_processing.py:140 | with such a pair there is always a TypeError |
| PostProcessingProps.UniformNoMix | src/post_processing.py:140 | keys that are all integers or all strings contain no such pair |
| Formatter.Formatted | src/formatter.py:3-55 | format_data: the records of every subcircuit in insertion order, each variant with results contributing its upstream then downstream records (properties in FormatterProps.FormattedIff, FormattedBlock, FormattedLength) |
| Formatter.ResultsOf | src/formatter.py:17-23 | the variant's output distribution when `str(sub_id)` is a key of `variants_results` and the variant's name a key under it; None otherwise |
| Formatter.OutCuts | src/formatter.py:26 | `cuts_info.get("out", [])` |
| Formatter.InCuts | src/formatter.py:41 | `cuts_info.get("in", [])` |
| Formatter.VariantRecords | src/formatter.py:17-53 | one variant's records: none without results, else its upstream records then its downstream records (properties in `FormatterProps.VariantRecordsIff`, `VariantRecordsLayout`) |
| Formatter.SubRecords | src/formatter.py:16-53 | one subcircuit's records, variant by variant in insertion order (properties in `FormatterProps.SubRecordsIff`, `SubRecordsLength`) |
| Formatter.Upstreams | src/formatter.py:26-38 | one upstream record per cut-out entry of the variant, in order |
| Formatter.Downstreams | src/formatter.py:41-53 | one downstream record per cut-in entry of the variant, in order |
| Formatter.VariantParts | src/formatter.py:16-53 | one block of records per variant of a subcircuit |
| Formatter.StrIds | src/formatter.py:14 | str(sub_id) for each subcircuit, one per key |
| Formatter.StrIdsAt | src/formatter.py:14 | the i-th string key is the decimal form of the i-th subcircuit id |
| Formatter.SubcircuitParts | src/formatter.py:13-53 | one block of records per subcircuit |
| Formatter.AppendCutRecords | src/formatter.py:26-53 | the two inner loops append the variant's upstream records and then its downstream records, and nothing else |
| Formatter.AppendSubcircuit | src/formatter.py:16-53 | the loop over one subcircuit's variants appends exactly that subcircuit's records |
| Formatter.AppendSubcircuitAt | src/formatter.py:13-53 | one pass of the outer loop appends exactly the i-th subcircuit's block |
| Formatter.FormatData | src/formatter.py:3-55 | the nested loops return exactly Formatted |
| FormatterProps.UpstreamsAt | src/formatter.py:26-38 | the i-th upstream record carries the i-th cut-out's id and edge, the measured bases, the distribution and the qubit map |
| FormatterProps.DownstreamsAt | src/formatter.py:41-53 | the i-th downstream record carries the i-th cut-in's id and edge, the initial states, the distribution and the qubit map |
| FormatterProps.UpstreamsIff | src/formatter.py:26-38 | a record is among the upstream records if and only if it is built from one of the variant's cut-out entries |
| FormatterProps.DownstreamsIff | src/formatter.py:41-53 | a record is among the downstream records if and only if it is built from one of the variant's cut-in entries |
| FormatterProps.VariantRecordsIff | src/formatter.py:16-53 | a record comes from a variant if and only if that variant has results and the record is one of its upstream or downstream records |
| FormatterProps.VariantRecordsLayout | src/formatter.py:18-53 | a variant without results contributes nothing; otherwise one record per cut, all with its subcircuit id, distribution and qubit map, upstream records first then downstream, each with its cut's id and edge |
| FormatterProps.ConcatSound | src/formatter.py:13-55 | every record of the flattened list comes from one of the blocks |
| FormatterProps.ConcatComplete | src/formatter.py:13-55 | every record of every block is in the flattened list |
| FormatterProps.ConcatBlock | src/formatter.py:13-55 | each block appears, contiguous and unchanged, at its offset in the flattened list |
| FormatterProps.SubRecordsIff | src/formatter.py:16-53 | a record is among a subcircuit's records if and only if one of its variants with results produced it |
| FormatterProps.FormattedIff | src/formatter.py:3-55 | a record is in the output if and only if some subcircuit, looked up by its decimal id, produced it |
| FormatterProps.FormattedBlock | src/formatter.py:13-55 | each subcircuit's records appear contiguously, in order, at the offset of the subcircuits before it |
| FormatterProps.SubRecordsLength | src/formatter.py:16-53 | a subcircuit contributes, for each variant with results, one record per cut-out and cut-in entry |
| FormatterProps.RecordsLength | src/formatter.py:13-53 | the first k subcircuits contribute the sum of those counts |
| FormatterProps.FormattedLength | src/formatter.py:3-55 | the output has exactly one record per cut entry of every variant with results |
| Queue.SplitVertices | src/circuit/queue.py:32-36 | a subcircuit's vertices split into operation indices (below the operation count) and observable indices (the rest, shifted down by it), each in vertex order (properties in Queue.SplitPartitions, SplitMembers, SplitLengths) |
| Queue.Operations | src/circuit/queue.py:32 | `ops_idx`: the vertices below the operation count, in order (properties in `Queue.SplitMembers`, `SplitPartitions`) |
| Queue.Observables | src/circuit/queue.py:33 | `obs_idx`: the other vertices shifted down by the operation count, in order |
| Queue.SplitPartitions | src/circuit/queue.py:32-33 | together the two lists hold every vertex exactly once: each is either an operation index or, shifted back, an observable index |
| Queue.SplitLengths | src/circuit/queue.py:32-33 | the two lists are as long as the vertex list together |
| Queue.SplitMembers | src/circuit/queue.py:32-33 | v is an operation index if and only if it is a vertex below the operation count; i is an observable index if and only if i + operation count is a vertex |
| Queue.SplitStep | src/circuit/queue.py:32-33 | one more vertex goes to exactly one of the two lists, at its end |
| Queue.SplitStepMultiset | src/circuit/queue.py:32-33 | one more vertex adds exactly that vertex to the combined lists |
| Queue.Shift | src/circuit/queue.py:33 | shifting the observable indices keeps their number |
| Queue.ShiftSnoc | src/circuit/queue.py:33 | shifting commutes with appending |
| Queue.EmptyQueues | src/circuit/queue.py:8-10 | the queue starts with one empty list for each QPU index and no other key |
| Queue.Appended | src/circuit/queue.py:71 | appending a job adds it at the end of that QPU's list and changes no other list or key |
| Queue.EnqueuePrefix | src/circuit/queue.py:25-39 | the loop over the first k QPUs keeps the queue's keys |
| Queue.Enqueue | src/circuit/queue.py:16-39 | one subcircuit's pass keeps the queue's keys |
| Queue.Built | src/circuit/queue.py:8-39 | the queue after the first n subcircuits has one list for each QPU index and no other key |
| Queue.Repeat | src/circuit/queue.py:25-39 | n copies of one job |
| Queue.RepeatSnoc | src/circuit/queue.py:39 | one more copy at the end |
| Queue.EnqueuePrefixAt | src/circuit/queue.py:25-39 | after the first k QPUs, QPU q's list has gained the subcircuit's tape with its shots once for each time q was listed, or nothing when the subcircuit has no shots on q |
| Queue.BuiltQueue | src/circuit/queue.py:8-39 | each QPU's list is the concatenation, in subcircuit order, of one job per subcircuit with shots on it (repeated when the QPU is listed more than once), skipping empty subcircuits |
| Queue.JobsFor | src/circuit/queue.py:17-39 | the jobs one subcircuit sends to QPU q: none for an empty vertex list or when q has no shots in it, otherwise its split tape once per listing of q in `qpus` |
| Queue.QueueOf | src/circuit/queue.py:16-39 | QPU q's list after the first n subcircuits: their jobs in subcircuit order (related to the built queue by `Queue.BuiltQueue`) |
| Queue.EmptySubcircuitSkipped | src/circuit/queue.py:21-22 | a subcircuit without vertices leaves the queue unchanged |
| Queue.CircuitQueue.constructor | src/circuit/queue.py:5-39 | the new queue keeps the QPU list and holds exactly the queue built from every subcircuit |
| Queue.CircuitQueue.EnqueueSubcircuit | src/circuit/queue.py:16-39 | one pass of the subcircuit loop appends the subcircuit's job to each QPU with shots, keeps the QPU list, and changes nothing else |
| Queue.CircuitQueue.AggiungiSottocircuito | src/circuit/queue.py:45-71 | appends (tape, n_shots) to the chosen QPU's list, keeps every other list and the QPU list |
| Constructor.QubitLtIrreflexive | src/constructor.py:51 | no qubit sorts before itself under the (register name, index) key |
| Constructor.QubitLtTransitive | src/constructor.py:51 | the (register name, index) order is transitive |
| Constructor.QubitLtConnected | src/constructor.py:51 | any two distinct qubits are ordered one way or the other |
| Constructor.QubitLtAsymmetric | src/constructor.py:51 | no two qubits are each below the other |
| Constructor.IncreasingDistinct | src/constructor.py:51 | a strictly increasing qubit list has no repeats |
| Constructor.InsertIncreasing | src/constructor.py:51 | inserting a new qubit into an increasing list keeps it increasing |
| Constructor.InsertMembers | src/constructor.py:51 | insertion adds exactly the new qubit |
| Constructor.SortQubits | src/constructor.py:51-52 | sorting a set of qubits gives each member exactly once, in increasing (register name, index) order: the unique such list |
| Constructor.OrderedExists | src/constructor.py:51 | every finite set of qubits has an increasing listing |
| Constructor.OrderedSpec | src/constructor.py:51 | the sorted listing is increasing and holds exactly the set's members |
| Constructor.IncreasingUnique | src/constructor.py:51 | two increasing lists with the same members are equal, so the sort's result is determined |
| Constructor.TouchedMeaning | src/constructor.py:44-48 | a qubit is used if and only if some node whose mapped id is a vertex acts on it |
| Constructor.Numbering | src/constructor.py:52 | every used qubit, and no other, gets a local index |
| Constructor.RankIsPosition | src/constructor.py:51-52 | the qubit at position k of the sorted list gets local index k |
| Constructor.CalculateRequiredQubits | src/constructor.py:26-53 | KeyError exactly when a node lacks an id mapping; otherwise the number of used qubits and a numbering of them onto 0..count-1 that follows the (register name, index) order |
| Constructor.QubitsUsed | src/constructor.py:42-48 | the loop collects exactly the qubits of the selected nodes, or KeyError for an unmapped node |
| Constructor.Enumerate | src/constructor.py:52 | enumerate: the k-th qubit of the list gets index k, and only listed qubits get one |
| Constructor.NumberingFromSorted | src/constructor.py:51-52 | enumerating the sorted list gives the rank numbering: onto 0..n-1 and order-preserving |
| Constructor.EnumerateIsNumbering | src/constructor.py:51-52 | enumerating the sorted list equals numbering by rank |
| Constructor.EnumerateAt | src/constructor.py:52 | the same, qubit by qubit |
| Constructor.EnumerateOnto | src/constructor.py:52 | the local indices are exactly 0..n-1 |
| Constructor.EnumerateOrder | src/constructor.py:51-52 | one qubit sorts before another if and only if its local index is smaller |
| ConstructorProps.OrderedLength | src/constructor.py:51-53 | the sorted list is as long as the set: the returned count is the number of distinct qubits used |
| ConstructorProps.NumberingValues | src/constructor.py:52-53 | the local indices are below the count and every index below it is used |
| Constructor.NumberingInjective | src/constructor.py:52 | distinct qubits get distinct local indices |
| Constructor.InitializeQubits | src/constructor.py:108-113 | the loop over a node's qubits initialises, once each, the qubits with an initial state not yet initialised; KeyError for one without a local index |
| Constructor.InitPrefix | src/constructor.py:108-113 | the qubit loop over the first k qubits of a node: each qubit with an initial state and not yet initialised is initialised once and recorded, or a KeyError (properties in `ConstructorProps.InitPrefixShape`, `InitPrefixDone`) |
| Constructor.GateOf | src/constructor.py:117 | the gate appended for a node, on the local indices of its qubits, or the KeyError of an unnumbered qubit |
| Constructor.Emits | src/constructor.py:102-105 | a node's gate is emitted iff its mapped id is a vertex of the subcircuit and it is not a measurement |
| Constructor.NodeStep | src/constructor.py:101-117 | one pass of the node loop: KeyError for an unmapped node, skipped when it does not emit, else its initialisations then its gate (properties in `ConstructorProps.EmittedStep`) |
| Constructor.Emitted | src/constructor.py:98-119 | `append_gates` after the first k nodes: the emitted events and the `initialized` dictionary (properties in `ConstructorProps.AppendGatesSpec`, `EmittedGates`, `EmittedOrder`) |
| Constructor.InitPrefixStaysNone | src/constructor.py:108-113 | a KeyError ends the qubit loop |
| Constructor.InitPrefixValid | src/constructor.py:108-113 | the `initialized` dictionary stays well formed |
| Constructor.AppendGates | src/constructor.py:76-119 | the loop over the DAG nodes returns exactly the specified events and `initialized` dictionary, or the KeyError |
| Constructor.EmittedStaysNone | src/constructor.py:101-117 | a KeyError ends the node loop |
| Constructor.EmittedValid | src/constructor.py:98-119 | the `initialized` dictionary returned is well formed |
| ConstructorProps.InitPrefixShape | src/constructor.py:108-113 | the qubit loop only appends initialisations, each of one of the node's qubits |
| ConstructorProps.InitPrefixDone | src/constructor.py:109-113 | after the qubit loop, already_initted holds what it held plus the node's qubits with an initial state |
| ConstructorProps.StartAgrees | src/constructor.py:98-99 | at the start nothing is initialised and the dictionary is empty |
| ConstructorProps.InitQubitAgrees | src/constructor.py:109-113 | initialising one qubit keeps the invariant tying already_initted, the events and the `initialized` dictionary together |
| ConstructorProps.InitQubitEvents | src/constructor.py:109-113 | the events half of that invariant: each initialised qubit has exactly one initialisation, with its state |
| ConstructorProps.InitQubitDict | src/constructor.py:109-113 | the dictionary half: `initialized` maps exactly the initialised qubits' local indices to their states |
| ConstructorProps.InitPrefixAgrees | src/constructor.py:108-113 | the whole qubit loop keeps the invariant |
| ConstructorProps.GateAgrees | src/constructor.py:117 | appending a gate keeps the invariant |
| ConstructorProps.GatesAfterInits | src/constructor.py:108-113 | initialisations add no gate |
| ConstructorProps.EmittedStep | src/constructor.py:101-117 | a successful node loop is the previous state followed by one node step, and that node had an id mapping |
| ConstructorProps.EmittedMapped | src/constructor.py:102 | a successful loop met no node without an id mapping |
| ConstructorProps.EmittedGates | src/constructor.py:101-117 | the gates appended are, one for one and in order, those of the nodes in the subcircuit that are not measurements, on their local indices |
| ConstructorProps.EmittedDone | src/constructor.py:99-113 | already_initted ends as the qubits with an initial state that some selected node acts on |
| ConstructorProps.EmittedAgrees | src/constructor.py:98-117 | the node loop keeps the initialisation invariant |
| ConstructorProps.NodeJustBefore | src/constructor.py:107-117 | one node step places each new initialisation just before a gate that uses that qubit |
| ConstructorProps.NodeBeforeUse | src/constructor.py:107-117 | one node step keeps every gate on an initialised qubit after that qubit's initialisation |
| ConstructorProps.EmittedOrder | src/constructor.py:101-117 | in the whole circuit every initialisation precedes every use of its qubit and comes right before the first gate that uses it |
| ConstructorProps.AppendGatesSpec | src/constructor.py:76-119 | append_gates emits one gate per selected non-measurement node, in order; initialises each used qubit with an initial state exactly once, before its first use; and returns `initialized` mapping exactly those qubits' local indices to their states |
| Constructor.MeasureStep | src/constructor.py:142-153 | one pair of the loop appends that basis's change and records measured[local index] = basis |
| Constructor.MeasurePrefixStaysNone | src/constructor.py:142-143 | a KeyError ends the measurement loop |
| Constructor.MeasurePrefixValid | src/constructor.py:139-153 | the `measured` dictionary stays well formed |
| Constructor.AppendMeasurements | src/constructor.py:121-155 | the loop over zip(qubits, bases) returns exactly the specified basis changes and `measured` dictionary, stopping at the shorter list, or the KeyError |
| ConstructorProps.MeasureUnfold | src/constructor.py:142-153 | a successful loop is the previous pairs followed by one more |
| ConstructorProps.MeasureOk | src/constructor.py:142-143 | the loop succeeds if and only if every paired qubit has a local index |
| ConstructorProps.MeasureShape | src/constructor.py:145-150 | the loop appends only H and Sdg gates, each Sdg followed by an H on the same qubit |
| ConstructorProps.BasisShapeAppend | src/constructor.py:145-150 | one basis change keeps that shape |
| ConstructorProps.MeasureCounts | src/constructor.py:142-153 | for distinct qubits, each measured qubit gets one H exactly for X and Y and one Sdg exactly for Y, and no other qubit gets either |
| ConstructorProps.MeasureCountOther | src/constructor.py:145-150 | a local index not measured gets no H and no Sdg |
| ConstructorProps.MeasureCountAt | src/constructor.py:145-150 | the same counts for the i-th measured qubit |
| ConstructorProps.MeasureMapped | src/constructor.py:143 | each paired qubit of a successful loop has a local index |
| ConstructorProps.MeasureFreshIndex | src/constructor.py:142-143 | distinct qubits measured earlier have other local indices |
| ConstructorProps.BasisOccurrences | src/constructor.py:145-150 | a basis change is one H for X, an Sdg and an H for Y, nothing for I and Z |
| ConstructorProps.MeasureDict | src/constructor.py:139-155 | `measured` has one key per pair, in pair order, each the qubit's local index mapped to its basis |
| ConstructorProps.MeasureDictKeys | src/constructor.py:142-152 | its keys are the paired qubits' local indices in order |
| ConstructorProps.MeasureDictGet | src/constructor.py:152 | each paired qubit's local index maps to its own basis |
| Constructor.Append | src/constructor.py:211 | one prefix followed by each letter of the alphabet, in order |
| ConstructorProps.ExtendLength | src/constructor.py:211 | extending p prefixes by an alphabet of a letters gives p times a words |
| ConstructorProps.ProductLength | src/constructor.py:211-219 | itertools.product(alphabet, repeat=k) has len(alphabet)^k entries |
| ConstructorProps.AppendMembers | src/constructor.py:211 | a word comes from appending to p if and only if it is p plus one letter |
| ConstructorProps.ExtendMembers | src/constructor.py:211 | a word is an extension if and only if it is a prefix plus one letter |
| ConstructorProps.WordSnoc | src/constructor.py:211 | a nonempty word is over the alphabet if and only if its prefix is and its last letter is a letter |
| ConstructorProps.ProductMembers | src/constructor.py:211-219 | the product holds exactly the words of length k over the alphabet |
| ConstructorProps.ProductWord | src/constructor.py:211-219 | the same, stated with the word predicate |
| ConstructorProps.ExtendDistinct | src/constructor.py:211 | extending distinct prefixes by distinct letters gives distinct words |
| ConstructorProps.ProductDistinct | src/constructor.py:211-219 | the product of a repeat-free alphabet has no repeats |
| ConstructorProps.CombinationCounts | src/constructor.py:211-219 | there are 4^n distinct input combinations and 4^m distinct output combinations |
| Constructor.IndexOf | src/constructor.py:268 | dag.qubits.index(qb): the first position of the qubit, or ValueError when it is absent |
| ConstructorProps.LocalToGlobalSpec | src/constructor.py:267-270 | local_to_global_qbit_map has exactly the local indices as keys, and each maps to the position of its qubit in the circuit |
| Constructor.Range | src/constructor.py:265 | sorted(qbit_map.values()) for a numbering onto 0..n-1 is [0, ..., n-1] |
| ConstructorProps.PrepareActive | src/constructor.py:225-265 | the active qubits are exactly the local indices of the numbering |
| Constructor.PrepareGood | src/constructor.py:225-242 | what one input combination prepares has an injective numbering and a well-formed `initialized` dictionary |
| Constructor.Prepare | src/constructor.py:224-245 | what one input combination fixes: the qubit count and numbering of `calculate_required_qubits`, and the circuit and `initialized` dictionary of `append_gates` with the zipped `init_map`; None for a KeyError |
| Constructor.PrepareInput | src/constructor.py:225-242 | the qubit count, numbering, circuit and `initialized` of one input combination, exactly as specified, or the KeyError |
| Constructor.MakeVariant | src/constructor.py:248-289 | the variant of one output combination: the measurement changes appended to the prepared circuit, the name, the active qubits and the local-to-global map, or the error |
| Constructor.VariantOf | src/constructor.py:248-289 | the variant of one output combination: measurements appended, active qubits `0..n-1`, the local-to-global map and the name, or a KeyError/ValueError (properties in `ConstructorProps.VariantOfWellFormed`) |
| Constructor.VariantName | src/constructor.py:245-276 | `f"sub_{sub_id}_in_{...}_out_{...}"` from the `q{idx}-{state}` and `q{idx}-{basis}` parts joined by `_` (properties in `ConstructorProps.VariantNameField`, `VariantNameLetters`) |
| ConstructorProps.VariantOfWellFormed | src/constructor.py:248-289 | every variant carries the subcircuit's id, shots, vertices and cuts_info, the name built from its `initialized` and `measured`, and a qubit map over exactly its active qubits |
| Constructor.BuildRow | src/constructor.py:247-290 | the loop over the output combinations stores each variant under its name, or fails exactly when one of them fails |
| Constructor.OutRow | src/constructor.py:247-290 | the variants of one input combination, output combination by output combination, or the first error (properties in `ConstructorProps.OutRowSpec`) |
| Constructor.OutRowStaysNone | src/constructor.py:247-290 | a failing output combination ends the loop |
| ConstructorProps.OutRowSpec | src/constructor.py:247-290 | one input combination yields one well-formed variant per output combination |
| Constructor.BuildVariants | src/constructor.py:224-290 | the nested loops store every variant under its name, in loop order, or fail exactly when one variant fails |
| Constructor.InRows | src/constructor.py:224-290 | every variant in the order the nested combination loops build them, or the first error (properties in `ConstructorProps.InRowsSpec`) |
| Constructor.InRowsStaysNone | src/constructor.py:224-290 | a failing input combination ends the loops |
| ConstructorProps.InRowsSpec | src/constructor.py:224-290 | the loops build one well-formed variant per pair of input and output combinations |
| Constructor.StoreIntoAppend | src/constructor.py:278 | storing two batches of variants in turn is storing them together |
| Constructor.StoreInto | src/constructor.py:278 | `local_subcircuits[circuit_name] = variant` for each variant in turn, a later name overwriting an earlier one (properties in `ConstructorProps.StoreKeys`, `StoreLast`) |
| ConstructorProps.StoreValid | src/constructor.py:199-278 | the variants dictionary is well formed and has at most one entry per variant built |
| ConstructorProps.StoreKeys | src/constructor.py:278 | a name is a key if and only if some variant was built with it |
| ConstructorProps.StoreLast | src/constructor.py:278 | a name holds the last variant built with that name |
| Constructor.Generated | src/constructor.py:196-293 | generate_subcircuits for one subcircuit: every variant under its name, or None for a KeyError or ValueError (properties in ConstructorProps.GeneratedSpec) |
| Constructor.NodesById | src/constructor.py:193 | `dag_nodes_dict`: each mapped id to the last node carrying it, or the KeyError of an unmapped node (properties in `ConstructorProps.NodesByIdSpec`) |
| Constructor.NonBarrier | src/constructor.py:203-204 | the cut ids whose node is not a barrier, in their given order, or the KeyError of a cut id without a node (properties in `ConstructorProps.NonBarrierSpec`) |
| Constructor.CutNodes | src/constructor.py:203-204 | `cuts_in`/`cuts_out`: the non-barrier cut ids, sorted (properties in `ConstructorProps.CutNodesSpec`) |
| Constructor.GenerateSubcircuits | src/constructor.py:196-293 | the method returns exactly Generated |
| ConstructorProps.GeneratedSpec | src/constructor.py:196-293 | a subcircuit's variants form a well-formed dictionary of at most 4^n * 4^m entries, each keyed by its own name, built as sub_id, initialisations and measurements, and carrying the subcircuit's id, shots, cuts_info and vertices |
| Constructor.GeneratedAllStaysNone | src/constructor.py:296-301 | a failing subcircuit makes the whole creation fail |
| Constructor.GeneratedAllStep | src/constructor.py:299-301 | result[sub_id] = local_subcircuits for each subcircuit in turn |
| Constructor.Created | src/constructor.py:187-304 | create_quantum_subcircuits: the node lookup, then each subcircuit's variants under its id |
| Constructor.CreateQuantumSubcircuits | src/constructor.py:157-304 | the method returns exactly Created: every subcircuit's variants under its id, or the error |
| ConstructorProps.NodesByIdSpec | src/constructor.py:193 | the node lookup exists exactly when every node has an id mapping, has exactly the mapped ids as keys, and holds the last node with each mapped id |
| ConstructorProps.NodesByIdSome | src/constructor.py:193 | the lookup fails exactly for a node without an id mapping |
| ConstructorProps.NodesByIdKey | src/constructor.py:193 | its keys are exactly the mapped node ids |
| ConstructorProps.NodesByIdLast | src/constructor.py:193 | each key holds the last node mapped to it |
| ConstructorProps.NonBarrierSpec | src/constructor.py:203-204 | the filter succeeds exactly when every cut id has a node, and keeps exactly the cut nodes that are not barriers |
| ConstructorProps.CutNodesSpec | src/constructor.py:203-204 | cuts_in and cuts_out are the non-barrier cut nodes, sorted ascending, a permutation of the filtered list; KeyError exactly for a cut id without a node |
| ConstructorProps.IntToStringNoUnderscore | src/constructor.py:276 | the decimal form of an id contains no underscore |
| ConstructorProps.VariantNameField | src/constructor.py:276 | splitting a variant name on "_" gives "sub" and then the subcircuit id |
| ConstructorProps.CountJoin | src/constructor.py:245-272 | joining with "_" adds no basis letters |
| ConstructorProps.PartCount | src/constructor.py:245-272 | "q{q}-{b}" has the basis letters of b only |
| ConstructorProps.InitPartsCount | src/constructor.py:245 | parts without a basis letter join into none |
| ConstructorProps.MeasurePartsCount | src/constructor.py:272 | the measurement parts hold no lowercase x or y, and one uppercase X or Y per X or Y basis |
| ConstructorProps.StateLabelCount | src/constructor.py:19-24 | no initial-state label contains x, y, X or Y |
| ConstructorProps.BasisLabelCount | src/constructor.py:219 | a basis label contains no lowercase x or y, and an uppercase X or Y exactly for the X and Y bases |
| ConstructorProps.InitPartsZero | src/constructor.py:245 | the initialisation part of a name contains no basis letter |
| ConstructorProps.NameCount | src/constructor.py:276 | the basis letters of a name are those of its initialisation and measurement parts |
| ConstructorProps.VariantNameLetters | src/constructor.py:245-276 | a variant name has no lowercase x or y, and as many uppercase X and Y as it has X and Y measurement bases |
| Strings.ParseInt | src/post_processing.py:133 | int(s) on an optional sign and decimal digits; ValueError (None) for anything else (properties in Strings.IntToStringRoundTrip) |
| Strings.IntToStringRoundTrip | src/formatter.py:14 | int(str(n)) == n for every integer |
| Strings.IntToString | src/formatter.py:14 | `str(n)`: a `-` for a negative n, then the decimal digits (properties in `Strings.IntToStringRoundTrip`, `IntToStringInjective`) |
| Strings.IntToStringInjective | src/formatter.py:14 | different ids give different str(sub_id) keys |
| Strings.NatToStringValue | src/formatter.py:14 | the decimal digits of n have value n |
| Strings.ParseBinary | src/post_processing.py:15 | int(s, 2) on a nonempty string of bits; ValueError (None) for the empty string and any other character |
| Strings.Bits | src/post_processing.py:160 | format(v, "0{w}b") for w >= 1 and v < 2^w, the only inputs the program formats: exactly w binary digits, most significant first (`BitsRoundTrip` gives the value back); `PostProcessing.Format` handles w = 0 |
| Strings.BitsRoundTrip | src/post_processing.py:160-169 | int(format(v, "0{w}b"), 2) == v for v below 2^w |
| Strings.BinaryValueBits | src/post_processing.py:160-169 | formatting a bit string's value back to its width gives the string itself |
| Strings.BinaryValueBound | src/post_processing.py:15-16 | a bit string of length n has a value below 2^n |
| Strings.BinaryValueAppend | src/post_processing.py:168-169 | the value of two bit strings joined is the first shifted past the second plus the second |
| Strings.Pow2Add | src/post_processing.py:155 | 2^(m+n) == 2^m * 2^n |
| Strings.Split | src/post_processing.py:131 | str.split on one character: at least one part, none containing the separator |
| Strings.SplitJoin | src/post_processing.py:131 | joining the parts with the separator gives the string back |
| Strings.Join | src/constructor.py:245 | `sep.join(parts)` (properties in `Strings.SplitJoin`, `JoinSnoc`) |
| Strings.SplitPrefix | src/post_processing.py:131 | a leading field without the separator is split off as the first part |
| Strings.SplitNoSeparator | src/post_processing.py:131 | a string without the separator is its own only part |
| Strings.SplitSnoc | src/post_processing.py:131 | one more character either starts a new part or extends the last |
| Strings.JoinSnoc | src/constructor.py:245 | "_".join of one more part adds the separator and that part |
| Strings.CountAppend | src/post_processing.py:32-33 | str.count is additive over concatenation |
| Strings.Count | src/post_processing.py:32-33 | `s.count(c)` for one character (properties in `Strings.CountAppend`, `CountAbsent`) |
| Strings.CountAbsent | src/post_processing.py:32-33 | a character that does not occur is counted zero times |
| Strings.Lower | src/constructor.py:104 | lowers ASCII `A`–`Z` and keeps every other character, so the length is kept; used for the `'measure'` test at line 104 and the `'barrier'` tests at lines 203-204 |
| Strings.StrLtStrictTotal | src/post_processing.py:140 | Python's string order is a strict total order |
| Strings.StrLt | src/merge.py:46 | Python's `<` on str: code point by code point, a proper prefix first, the order `sorted(counts.items())` uses (properties in `Strings.StrLtStrictTotal`) |
| Strings.StrLtTransitive | src/post_processing.py:140 | the string order is transitive |
| Strings.StrLtConnected | src/post_processing.py:140 | any two distinct strings are ordered |
| Sorting.Insert | src/constructor.py:203-204 | inserting into a list adds exactly that element |
| Sorting.InsertSorted | src/constructor.py:203-204 | inserting into a sorted list keeps it sorted |
| Sorting.SortSpec | src/post_processing.py:140 | sorted() returns a permutation of its input, sorted under a strict total order |
| Sorting.Sort | src/post_processing.py:140 | `sorted(s)` by insertion (properties in `Sorting.SortSpec`, `SortedUnique`) |
| Sorting.SortedUnique | src/post_processing.py:140 | two sorted permutations of one list are equal, so sorted() is determined |
| Sorting.SortedDistinct | src/post_processing.py:140 | a sorted list without repeats is strictly increasing |
| Sorting.PermutationDistinct | src/post_processing.py:140 | a permutation of a repeat-free list has no repeats |
| Dicts.Empty | src/constructor.py:199 | {} is a well-formed dictionary without keys |
| Dicts.Put | src/constructor.py:278 | d[k] = v: k now maps to v, every other key keeps its entry, and a new key is appended to the insertion order |
| Dicts.AddTo | src/dynamic_definition.py:88 | d[k] = d.get(k, 0) + v: the entry at k grows by v, nothing else changes, a new key goes last |
| Dicts.InitThenAdd | src/dynamic_definition.py:45 | a defaultdict(int) += is d.get(k, 0) + v |
| Dicts.TotalAddTo | src/merge.py:30 | adding v at one key raises the sum of all values by v |
| Dicts.TakeAll | src/merge.py:24-30 | taking every entry of a dictionary, in order, gives the dictionary back |
| Dicts.RealSumOverPermutation | src/merge.py:43-46 | a sum over the keys does not depend on their order |

## Left out

- Solving: `solve_model` (src/model.py:340-350, src/final_model/model.py:327-337) calls the CBC solver, which is foreign code. The model checks whether a given candidate is feasible; it says nothing about optimality.
- Variable declarations: `add_variables` and `aggiungi_variabili` only declare solver variables. Their values enter as a `Candidate`.
- Objective: the float normalisation `K_norm`/`T_norm` and the alpha/beta weighting (src/model.py:325-338, src/final_model/model.py:298-325) are floating point. Only the integer cut count `K` is modelled.
- CutAndShoot.CheckWeights: alpha and beta are exact reals, so the rounding of the float sum `alpha + beta` in `abs(alpha + beta) != 1.0` (src/model.py:35) is not modelled. For example the doubles 0.1 and 0.9 add to exactly 1.0 in floating point, while their exact values do not.
- FinalModel.CheckWeights: the same exact-real comparison stands in for the float check at src/final_model/model.py:34.
- Big-M: `BigM_d = len(V)+len(E)` is modelled as the literal inequality. Nothing proves that it always dominates `d[c]`.
- Queue and execution times: the model keeps them as integers. The float `default_rep_delay` and the `float('inf')` queue times in src/qpu.py are not modelled, so fractional times against the integer `T_q` cannot be expressed.
- Solver values: the source reads them as floats (`pulp.value(y) == 1`, `int(val)` at src/model.py:373 and 392-394, src/final_model/model.py:361 and 373-375). The candidate holds exact integers, so float rounding is not modelled.
- Objective formatting: `f"{obj_value:.4f}"` raises when the objective value is None (src/model.py:360, src/final_model/model.py:354). This failure is not modelled; extraction never fails.
- CutAndShoot.CutAndShootModel.New: accepts an edge list with duplicates. Pulp would reject the duplicate constraint names such a list produces (src/model.py:216-229). Only `DistinctEdges`, inside `Feasible`, rules such instances out.
- FinalModel.ModelloCutAndShoot.New: accepts duplicate edges for the same reason as `CutAndShootModel.New`.
- Strings.ParseBinary: returns None for every non-ASCII-binary string. Python's `int(s, 2)` also accepts surrounding whitespace, `_` separators, a `0b` prefix and a sign. With `int("-1", 2)` the source would write `vec[-1]`, the last entry (src/post_processing.py:15-16, 59).
- Strings.ParseInt: accepts only an optional sign followed by ASCII digits. Python's `int()` also accepts surrounding whitespace, `_` between digits and non-ASCII digits (src/post_processing.py:133, 169).
- Queue.SplitVertices: does not model the IndexError that src/circuit/queue.py:36 raises for a vertex at or past the number of operations plus observables. A negative vertex `v` passes `v < len(operations)` at line 32 and is kept as operation index `v`; the model does not capture that Python then reads `operations[v]` from the end, or raises IndexError at line 35 when `v < -len(operations)`.
- Strings.Bits: agrees with Python's `format(v, "0{w}b")` only for w >= 1 and v < 2^w. The width in that format is a minimum: for v >= 2^w Python prints more than w digits, while `Bits` keeps only the low w bits, and for w = 0 Python prints "0" where `Bits` gives "". The program formats only `global_idx` below 2^total_active (src/post_processing.py:155-160), and `PostProcessing.Format` handles w = 0, so the reconstruction is unaffected.
- Strings.Lower: folds only ASCII `A`–`Z`. Python's `str.lower()` applies full Unicode case mapping, which can change other characters and even the length (`'İ'.lower()` has two characters). The only uses compare the lowered name with `'measure'` (src/constructor.py:104) and `'barrier'` (src/constructor.py:203-204). No non-ASCII character lowers to a character of those ASCII words, so both comparisons come out the same.
- PostProcessing.DdReconstructed: omits the final normalisation (src/post_processing.py:186-189). Probabilities are exact reals, not floats.
- `fd_reconstruct_variant_dict` (src/post_processing.py:43-116) is not modelled. It computes Kronecker products of float vectors on a thread pool and normalises the result (lines 111-114).
- Constructor.Created: the results are collected into an unordered map. The thread-pool completion order at src/constructor.py:296-301 is not modelled.
- The recursive `dynamic_definition` (src/dynamic_definition.py:50-190) is not modelled beyond `merge_counts` and the merged-index helpers. It works on float probabilities and thresholds and runs backends.
- `esegui_sottocircuiti` and `stampa_coda` (src/circuit/queue.py:73-110): device execution and printing.
- The depolarising noise channel on a random wire (src/circuit/queue.py:61-65) needs randomness and is not modelled.
- Logging and `print` are left out everywhere.
- Qiskit and pennylane objects are abstracted as lists of emitted events and index tapes.

## Findings

| source | as written | input that shows it | evidently intended | confidence | as-written member | corrected member |
|---|---|---|---|---|---|---|
| src/post_processing.py:32-34 | the sign counts lowercase `x` and `y` in the variant name, but the constructor writes the bases as uppercase `X` and `Y`, so every constructor-built name gets sign +1 | variant `sub_0_in__out_q0-X` (qubit 0 measured in X) with base coefficient 1: the coefficient written is +1.0, where -1.0 is intended | negate the coefficient when an odd number of the measured bases are X or Y, as the docstring at line 30 says | not executed | PostProcessingProps.WrittenSignCounterexample | PostProcessingProps.ContributionOfVariant |
