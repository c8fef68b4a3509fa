/** Merging the results of one subcircuit's variants run on several QPUs
    (src/merge.py): counts of equal bitstrings are added, shot totals are
    added, the first metadata seen for a variant is kept, and each merged
    count is divided by its variant's total. */
module Merge {
  import opened Wrappers
  import opened Dicts
  import Sorting
  import Strings

  datatype Metadata = Metadata(activeQubits: seq<int>, initializedQubits: seq<int>, measuredQubits: seq<int>)

  /** One variant's entry in one QPU's results; a key the entry lacks is None. */
  datatype VariantData = VariantData(
    counts: Option<Dict<string, int>>,
    totalShots: Option<int>,
    activeQubits: Option<seq<int>>,
    initializedQubits: Option<seq<int>>,
    measuredQubits: Option<seq<int>>)

  type QpuResult = Dict<string, VariantData>

  datatype MergedVariant = MergedVariant(
    probabilities: Dict<string, real>,
    activeQubits: seq<int>,
    initializedQubits: seq<int>,
    measuredQubits: seq<int>)

  /** A variant whose merged counts are divided by a zero total. */
  datatype MergeError = ZeroDivisionError(variant: string)

  function OrEmpty(l: Option<seq<int>>): seq<int>
  {
    match l
    case Some(v) => v
    case None => []
  }

  /** data.get("counts", {}) */
  function CountsOf(data: VariantData): Dict<string, int>
  {
    match data.counts
    case Some(c) => c
    case None => Empty()
  }

  /** data.get("total_shots", sum(counts.values())) */
  function ShotsOf(data: VariantData): int
  {
    match data.totalShots
    case Some(t) => t
    case None => Total(CountsOf(data))
  }

  /** The three metadata lists, each defaulting to []. */
  function MetadataOf(data: VariantData): Metadata
  {
    Metadata(OrEmpty(data.activeQubits), OrEmpty(data.initializedQubits), OrEmpty(data.measuredQubits))
  }

  /** Every dictionary in the input is a dictionary. */
  ghost predicate ResultsValid(results: seq<QpuResult>)
  {
    forall i :: 0 <= i < |results| ==> Valid(results[i]) && KeysPresent(results[i])
  }

  /** ... and so is every "counts" entry in it. */
  ghost predicate WellFormed(results: seq<QpuResult>)
  {
    ResultsValid(results) &&
    forall i, name :: 0 <= i < |results| && name in results[i].values ==> Valid(CountsOf(results[i].values[name]))
  }

  // ------------------------------------------------------------ Counter.update

  /** counter.update(counts) after the first n entries of counts. */
  function Update(counter: Dict<string, int>, counts: Dict<string, int>, n: nat): Dict<string, int>
    requires n <= |counts.keys|
  {
    if n == 0 then counter
    else AddTo(Update(counter, counts, n - 1), counts.keys[n - 1], GetOrZero(counts, counts.keys[n - 1]))
  }

  /** counter.update(counts) */
  function UpdateAll(counter: Dict<string, int>, counts: Dict<string, int>): Dict<string, int>
  {
    Update(counter, counts, |counts.keys|)
  }

  lemma {:induction false} UpdateValid(counter: Dict<string, int>, counts: Dict<string, int>, n: nat)
    requires Valid(counter) && n <= |counts.keys|
    ensures Valid(Update(counter, counts, n))
  {
    if n > 0 {
      UpdateValid(counter, counts, n - 1);
    }
  }

  /** Updating adds each listed count to its bitstring's entry. */
  lemma {:induction false} UpdateGet(counter: Dict<string, int>, counts: Dict<string, int>, n: nat, b: string)
    requires Distinct(counts.keys) && n <= |counts.keys|
    ensures GetOrZero(Update(counter, counts, n), b) ==
              GetOrZero(counter, b) + (if b in counts.keys[..n] then GetOrZero(counts, b) else 0)
  {
    if n > 0 {
      UpdateGet(counter, counts, n - 1, b);
      var k := counts.keys[n - 1];
      assert counts.keys[..n] == counts.keys[..n - 1] + [k];
      assert k !in counts.keys[..n - 1];
    }
  }

  /** Updating counts the counter's bitstrings and the new ones. */
  lemma {:induction false} UpdateDomain(counter: Dict<string, int>, counts: Dict<string, int>, n: nat, b: string)
    requires n <= |counts.keys|
    ensures b in Update(counter, counts, n).values <==> b in counter.values || b in counts.keys[..n]
  {
    if n > 0 {
      UpdateDomain(counter, counts, n - 1, b);
      var k := counts.keys[n - 1];
      assert counts.keys[..n] == counts.keys[..n - 1] + [k];
    }
  }

  /** Updating adds the listed counts' total to the counter's total. */
  lemma {:induction false} UpdateTotal(counter: Dict<string, int>, counts: Dict<string, int>, n: nat)
    requires Valid(counter) && Distinct(counts.keys) && n <= |counts.keys|
    ensures Total(Update(counter, counts, n)) == Total(counter) + SumOver(counts.keys[..n], counts.values)
  {
    if n > 0 {
      UpdateTotal(counter, counts, n - 1);
      UpdateValid(counter, counts, n - 1);
      var k := counts.keys[n - 1];
      TotalAddTo(Update(counter, counts, n - 1), k, GetOrZero(counts, k));
      assert counts.keys[..n][..n - 1] == counts.keys[..n - 1];
    }
  }

  lemma UpdateAllMeaning(counter: Dict<string, int>, counts: Dict<string, int>)
    requires Valid(counter) && Valid(counts)
    ensures Valid(UpdateAll(counter, counts))
    ensures forall b :: GetOrZero(UpdateAll(counter, counts), b) == GetOrZero(counter, b) + GetOrZero(counts, b)
    ensures forall b :: b in UpdateAll(counter, counts).keys <==> b in counter.keys || b in counts.keys
    ensures Total(UpdateAll(counter, counts)) == Total(counter) + Total(counts)
  {
    var n := |counts.keys|;
    assert counts.keys[..n] == counts.keys;
    UpdateValid(counter, counts, n);
    forall b ensures GetOrZero(UpdateAll(counter, counts), b) == GetOrZero(counter, b) + GetOrZero(counts, b) {
      UpdateGet(counter, counts, n, b);
    }
    forall b ensures b in UpdateAll(counter, counts).keys <==> b in counter.keys || b in counts.keys {
      UpdateDomain(counter, counts, n, b);
    }
    UpdateTotal(counter, counts, n);
  }

  // ------------------------------------------------------------ accumulation

  /** merged_counts, total_shots_per_variant and metadata_per_variant. */
  datatype State = State(
    counts: Dict<string, Dict<string, int>>,
    shots: Dict<string, int>,
    metadata: Dict<string, Metadata>)

  function Initial(): State
  {
    State(Empty(), Empty(), Empty())
  }

  type Merged = Dict<string, Dict<string, int>>

  /** merged_counts[name], an empty Counter when absent. */
  function CounterIn(counts: Merged, name: string): Dict<string, int>
  {
    if name in counts.values then counts.values[name] else Empty()
  }

  function CounterOf(st: State, name: string): Dict<string, int>
  {
    CounterIn(st.counts, name)
  }

  /** merged_counts[variant_name].update(counts) */
  function AddCounts(counts: Merged, name: string, data: VariantData): Merged
  {
    Put(counts, name, UpdateAll(CounterIn(counts, name), CountsOf(data)))
  }

  /** if variant_name not in metadata_per_variant: record its metadata */
  function KeepMetadata(metadata: Dict<string, Metadata>, name: string, data: VariantData): Dict<string, Metadata>
  {
    if name in metadata.values then metadata else Put(metadata, name, MetadataOf(data))
  }

  /** merged_counts after the first j variants of one result. */
  function CountsAfter(counts: Merged, r: QpuResult, j: nat): Merged
    requires KeysPresent(r) && j <= |r.keys|
  {
    if j == 0 then counts
    else
      var name := r.keys[j - 1];
      AddCounts(CountsAfter(counts, r, j - 1), name, r.values[name])
  }

  /** total_shots_per_variant after the first j variants of one result. */
  function ShotsAfter(shots: Dict<string, int>, r: QpuResult, j: nat): Dict<string, int>
    requires KeysPresent(r) && j <= |r.keys|
  {
    if j == 0 then shots
    else
      var name := r.keys[j - 1];
      AddTo(ShotsAfter(shots, r, j - 1), name, ShotsOf(r.values[name]))
  }

  /** metadata_per_variant after the first j variants of one result. */
  function MetadataAfter(metadata: Dict<string, Metadata>, r: QpuResult, j: nat): Dict<string, Metadata>
    requires KeysPresent(r) && j <= |r.keys|
  {
    if j == 0 then metadata
    else
      var name := r.keys[j - 1];
      KeepMetadata(MetadataAfter(metadata, r, j - 1), name, r.values[name])
  }

  /** The state after the first j variants of one result; the loop body
      touches each of the three dictionaries on its own. */
  function Visit(st: State, r: QpuResult, j: nat): State
    requires KeysPresent(r) && j <= |r.keys|
  {
    State(CountsAfter(st.counts, r, j), ShotsAfter(st.shots, r, j), MetadataAfter(st.metadata, r, j))
  }

  /** The state after the first i results. */
  function MergedCounts(results: seq<QpuResult>, i: nat): Merged
    requires ResultsValid(results) && i <= |results|
  {
    if i == 0 then Empty() else CountsAfter(MergedCounts(results, i - 1), results[i - 1], |results[i - 1].keys|)
  }

  function ShotTotals(results: seq<QpuResult>, i: nat): Dict<string, int>
    requires ResultsValid(results) && i <= |results|
  {
    if i == 0 then Empty() else ShotsAfter(ShotTotals(results, i - 1), results[i - 1], |results[i - 1].keys|)
  }

  function MetadataKept(results: seq<QpuResult>, i: nat): Dict<string, Metadata>
    requires ResultsValid(results) && i <= |results|
  {
    if i == 0 then Empty() else MetadataAfter(MetadataKept(results, i - 1), results[i - 1], |results[i - 1].keys|)
  }

  /** The state after the first i results: each result visited in turn. */
  function Accumulate(results: seq<QpuResult>, i: nat): (st: State)
    requires ResultsValid(results) && i <= |results|
    ensures i > 0 ==> st == Visit(Accumulate(results, i - 1), results[i - 1], |results[i - 1].keys|)
  {
    State(MergedCounts(results, i), ShotTotals(results, i), MetadataKept(results, i))
  }

  // ------------------------------------------------------------ normalisation

  /** {b: count / total for b, count in sorted(counts.items())}; None is the
      ZeroDivisionError of a non-empty comprehension over a zero total. */
  function Probabilities(counts: Dict<string, int>, total: int): Option<Dict<string, real>>
  {
    if |counts.keys| > 0 && total == 0 then None
    else
      Some(Dict(Sorting.Sort(counts.keys, Strings.StrLt),
                map b | b in counts.keys :: GetOrZero(counts, b) as real / total as real))
  }

  /** Every variant with counts also has metadata, and every counter is a
      dictionary. */
  ghost predicate Consistent(st: State)
  {
    Valid(st.counts) && Valid(st.shots) && Valid(st.metadata) &&
    (forall name :: name in st.counts.values ==> name in st.metadata.values && Valid(st.counts.values[name]))
  }

  /** What the normalisation loop reads: a counter for every listed variant
      and metadata for every variant with counts. */
  ghost predicate Covered(st: State)
  {
    KeysPresent(st.counts) && forall name :: name in st.counts.values ==> name in st.metadata.values
  }

  lemma ConsistentCovered(st: State)
    requires Consistent(st)
    ensures Covered(st)
  {
    ValidKeysPresent(st.counts);
  }

  /** final_results[name], or the ZeroDivisionError its normalisation raises. */
  function Entry(st: State, name: string): Option<MergedVariant>
    requires Covered(st) && name in st.counts.values
  {
    var meta := st.metadata.values[name];
    match Probabilities(st.counts.values[name], GetOrZero(st.shots, name))
    case None => None
    case Some(probabilities) =>
      Some(MergedVariant(probabilities, meta.activeQubits, meta.initializedQubits, meta.measuredQubits))
  }

  /** Entry as a function of the variant name. */
  function EntryOf(st: State): string -> Option<MergedVariant>
    requires Covered(st)
  {
    name => if name in st.counts.values then Entry(st, name) else None
  }

  /** final_results after the first n of names, each name's value given by
      entry, None standing for the ZeroDivisionError that stops the loop. */
  function Collect(names: seq<string>, entry: string -> Option<MergedVariant>, n: nat): Result<Dict<string, MergedVariant>, MergeError>
    requires n <= |names|
  {
    if n == 0 then Success(Empty())
    else
      match Collect(names, entry, n - 1)
      case Failure(e) => Failure(e)
      case Success(out) =>
        match entry(names[n - 1])
        case None => Failure(ZeroDivisionError(names[n - 1]))
        case Some(v) => Success(Put(out, names[n - 1], v))
  }

  /** final_results after the first n variants of merged_counts. */
  function Normalize(st: State, n: nat): Result<Dict<string, MergedVariant>, MergeError>
    requires Covered(st) && n <= |st.counts.keys|
  {
    Collect(st.counts.keys, EntryOf(st), n)
  }

  /** merge_and_normalize_variant_counts(results) */
  function MergeSpec(results: seq<QpuResult>): Result<Dict<string, MergedVariant>, MergeError>
    requires WellFormed(results)
  {
    var st := Accumulate(results, |results|);
    AccumulateConsistent(results, |results|);
    ConsistentCovered(st);
    Normalize(st, |st.counts.keys|)
  }

  /** The body of the inner loop for one variant of one result. */
  method VisitVariant(mergedCounts: Merged, totalShotsPerVariant: Dict<string, int>,
                      metadataPerVariant: Dict<string, Metadata>, variantName: string, data: VariantData)
    returns (mergedCounts': Merged, totalShotsPerVariant': Dict<string, int>, metadataPerVariant': Dict<string, Metadata>)
    ensures mergedCounts' == AddCounts(mergedCounts, variantName, data)
    ensures totalShotsPerVariant' == AddTo(totalShotsPerVariant, variantName, ShotsOf(data))
    ensures metadataPerVariant' == KeepMetadata(metadataPerVariant, variantName, data)
  {
    var counts := CountsOf(data);
    var totalShots := ShotsOf(data);
    var counter := if variantName in mergedCounts.values then mergedCounts.values[variantName] else Empty();
    mergedCounts' := Put(mergedCounts, variantName, UpdateAll(counter, counts));
    totalShotsPerVariant' := AddTo(totalShotsPerVariant, variantName, totalShots);
    metadataPerVariant' := metadataPerVariant;
    if variantName !in metadataPerVariant.values {
      metadataPerVariant' := Put(metadataPerVariant, variantName, MetadataOf(data));
    }
  }

  /** The inner loop over one result's variants. */
  method VisitResult(st: State, qpuResult: QpuResult) returns (st': State)
    requires KeysPresent(qpuResult)
    ensures st' == Visit(st, qpuResult, |qpuResult.keys|)
  {
    var mergedCounts, totalShotsPerVariant, metadataPerVariant := st.counts, st.shots, st.metadata;
    for j := 0 to |qpuResult.keys|
      invariant State(mergedCounts, totalShotsPerVariant, metadataPerVariant) == Visit(st, qpuResult, j)
    {
      var variantName := qpuResult.keys[j];
      mergedCounts, totalShotsPerVariant, metadataPerVariant :=
        VisitVariant(mergedCounts, totalShotsPerVariant, metadataPerVariant, variantName, qpuResult.values[variantName]);
    }
    return State(mergedCounts, totalShotsPerVariant, metadataPerVariant);
  }

  /** The outer accumulation loop over the QPU results. */
  method AccumulateResults(results: seq<QpuResult>) returns (st: State)
    requires WellFormed(results)
    ensures st == Accumulate(results, |results|)
  {
    st := Initial();
    for i := 0 to |results|
      invariant st == Accumulate(results, i)
    {
      st := VisitResult(st, results[i]);
    }
  }

  /** The body of the normalisation loop for one variant: its probabilities
      and metadata, or None for the ZeroDivisionError. */
  method NormalizeVariant(st: State, variantName: string) returns (entry: Option<MergedVariant>)
    requires Covered(st) && variantName in st.counts.values
    ensures entry == Entry(st, variantName) == EntryOf(st)(variantName)
  {
    var totalShots := GetOrZero(st.shots, variantName);
    var probabilities := Probabilities(st.counts.values[variantName], totalShots);
    if probabilities.None? {
      return None;
    }
    var meta := st.metadata.values[variantName];
    return Some(MergedVariant(probabilities.value, meta.activeQubits, meta.initializedQubits, meta.measuredQubits));
  }

  /** One pass of the normalisation loop: the n-th variant's entry added to
      the results so far, or the ZeroDivisionError it raises. */
  method NormalizeStep(st: State, n: nat, finalResults: Dict<string, MergedVariant>)
    returns (next: Result<Dict<string, MergedVariant>, MergeError>)
    requires Covered(st) && n < |st.counts.keys|
    requires Normalize(st, n) == Success(finalResults)
    ensures next == Normalize(st, n + 1)
  {
    var variantName := st.counts.keys[n];
    var entry := NormalizeVariant(st, variantName);
    if entry.None? {
      return Failure(ZeroDivisionError(variantName));
    }
    return Success(Put(finalResults, variantName, entry.value));
  }

  /** The normalisation loop over merged_counts. */
  method NormalizeCounts(st: State) returns (r: Result<Dict<string, MergedVariant>, MergeError>)
    requires Covered(st)
    ensures r == Normalize(st, |st.counts.keys|)
  {
    var finalResults: Dict<string, MergedVariant> := Empty();
    for n := 0 to |st.counts.keys|
      invariant Normalize(st, n) == Success(finalResults)
    {
      var next := NormalizeStep(st, n, finalResults);
      if next.Failure? {
        CollectFailed(st.counts.keys, EntryOf(st), n + 1, |st.counts.keys|);
        return next;
      }
      finalResults := next.value;
    }
    return Success(finalResults);
  }

  method MergeAndNormalizeVariantCounts(results: seq<QpuResult>)
    returns (r: Result<Dict<string, MergedVariant>, MergeError>)
    requires WellFormed(results)
    ensures r == MergeSpec(results)
  {
    var st := AccumulateResults(results);
    AccumulateConsistent(results, |results|);
    ConsistentCovered(st);
    r := NormalizeCounts(st);
  }

  /** Once an entry fails, the loop has stopped with that failure. */
  lemma {:induction false} CollectFailed(names: seq<string>, entry: string -> Option<MergedVariant>, n: nat, m: nat)
    requires n <= m <= |names| && Collect(names, entry, n).Failure?
    ensures Collect(names, entry, m) == Collect(names, entry, n)
  {
    if m > n {
      CollectFailed(names, entry, n, m - 1);
    }
  }

  // ------------------------------------------------------------ what the state holds

  /** results[k]'s count for bitstring b of variant name, 0 when absent. */
  function CountIn(r: QpuResult, name: string, b: string): int
  {
    if name in r.values then GetOrZero(CountsOf(r.values[name]), b) else 0
  }

  /** results[k]'s shots for variant name, 0 when absent. */
  function ShotsIn(r: QpuResult, name: string): int
  {
    if name in r.values then ShotsOf(r.values[name]) else 0
  }

  /** The sum of CountIn over the first i results. */
  function CountSum(results: seq<QpuResult>, i: nat, name: string, b: string): int
    requires i <= |results|
  {
    if i == 0 then 0 else CountSum(results, i - 1, name, b) + CountIn(results[i - 1], name, b)
  }

  /** The sum of ShotsIn over the first i results. */
  function ShotsSum(results: seq<QpuResult>, i: nat, name: string): int
    requires i <= |results|
  {
    if i == 0 then 0 else ShotsSum(results, i - 1, name) + ShotsIn(results[i - 1], name)
  }

  /** The first i results mention variant name. */
  predicate Seen(results: seq<QpuResult>, i: nat, name: string)
    requires i <= |results|
  {
    exists k :: 0 <= k < i && name in results[k].values
  }

  /** Result k is the first to mention variant name. */
  predicate FirstMention(results: seq<QpuResult>, k: nat, name: string)
  {
    k < |results| && name in results[k].values &&
    forall k' :: 0 <= k' < k ==> name !in results[k'].values
  }

  /** One of the first j variants of r is name. */
  predicate ListedBefore(r: QpuResult, j: nat, name: string): (listed: bool)
    requires j <= |r.keys|
    ensures listed ==> name in r.keys
  {
    j > 0 && (r.keys[j - 1] == name || ListedBefore(r, j - 1, name))
  }

  lemma {:induction false} ListedPrefix(r: QpuResult, j: nat, name: string)
    requires j <= |r.keys|
    ensures ListedBefore(r, j, name) <==> name in r.keys[..j]
  {
    if j > 0 {
      ListedPrefix(r, j - 1, name);
      assert r.keys[..j] == r.keys[..j - 1] + [r.keys[j - 1]];
    }
  }

  /** Every variant of r is among its first |r.keys|. */
  lemma ListedAll(r: QpuResult, name: string)
    requires Valid(r)
    ensures ListedBefore(r, |r.keys|, name) <==> name in r.values
  {
    ListedPrefix(r, |r.keys|, name);
    assert r.keys[..|r.keys|] == r.keys;
  }

  /** The j-th variant of r is not among the ones before it. */
  lemma LastKey(r: QpuResult, j: nat)
    requires Distinct(r.keys) && KeysPresent(r) && 0 < j <= |r.keys|
    ensures r.keys[j - 1] in r.values
    ensures !ListedBefore(r, j - 1, r.keys[j - 1])
  {
    ListedPrefix(r, j - 1, r.keys[j - 1]);
  }

  // One step of each dictionary, variant by variant.

  lemma AddCountsNames(counts: Merged, k: string, data: VariantData, name: string)
    ensures name in AddCounts(counts, k, data).values <==> name in counts.values || name == k
    ensures Valid(counts) ==> Valid(AddCounts(counts, k, data))
  {
  }

  lemma AddCountsValid(counts: Merged, k: string, data: VariantData, name: string)
    requires Valid(CounterIn(counts, name)) && (name == k ==> Valid(CountsOf(data)))
    ensures Valid(CounterIn(AddCounts(counts, k, data), name))
  {
    if name == k {
      UpdateValid(CounterIn(counts, k), CountsOf(data), |CountsOf(data).keys|);
    }
  }

  lemma AddCountsGet(counts: Merged, k: string, data: VariantData, name: string, b: string)
    requires name == k ==> Valid(CountsOf(data))
    ensures GetOrZero(CounterIn(AddCounts(counts, k, data), name), b) ==
              GetOrZero(CounterIn(counts, name), b) + (if name == k then GetOrZero(CountsOf(data), b) else 0)
  {
    if name == k {
      var c := CountsOf(data);
      UpdateGet(CounterIn(counts, k), c, |c.keys|, b);
      assert c.keys[..|c.keys|] == c.keys;
    }
  }

  lemma AddCountsTotal(counts: Merged, k: string, data: VariantData, name: string)
    requires name == k ==> Valid(CounterIn(counts, k)) && Valid(CountsOf(data))
    ensures Total(CounterIn(AddCounts(counts, k, data), name)) ==
              Total(CounterIn(counts, name)) + (if name == k then Total(CountsOf(data)) else 0)
  {
    if name == k {
      var c := CountsOf(data);
      UpdateTotal(CounterIn(counts, k), c, |c.keys|);
      assert c.keys[..|c.keys|] == c.keys;
    }
  }

  lemma AddCountsBits(counts: Merged, k: string, data: VariantData, name: string, b: string)
    ensures b in CounterIn(AddCounts(counts, k, data), name).values <==>
              b in CounterIn(counts, name).values || (name == k && b in CountsOf(data).keys)
  {
    if name == k {
      var c := CountsOf(data);
      UpdateDomain(CounterIn(counts, k), c, |c.keys|, b);
      assert c.keys[..|c.keys|] == c.keys;
    }
  }

  lemma KeepMetadataMeaning(metadata: Dict<string, Metadata>, k: string, data: VariantData, name: string)
    ensures name in KeepMetadata(metadata, k, data).values <==> name in metadata.values || name == k
    ensures name in metadata.values ==> KeepMetadata(metadata, k, data).values[name] == metadata.values[name]
    ensures name !in metadata.values && name == k ==> KeepMetadata(metadata, k, data).values[name] == MetadataOf(data)
    ensures Valid(metadata) ==> Valid(KeepMetadata(metadata, k, data))
  {
  }

  // A whole result, variant by variant.

  /** After a result a variant has counts iff it had or the result lists it. */
  lemma {:induction false} CountsAfterNames(counts: Merged, r: QpuResult, j: nat, name: string)
    requires Distinct(r.keys) && KeysPresent(r) && j <= |r.keys|
    ensures name in CountsAfter(counts, r, j).values <==> name in counts.values || ListedBefore(r, j, name)
    ensures Valid(counts) ==> Valid(CountsAfter(counts, r, j))
  {
    if j > 0 {
      CountsAfterNames(counts, r, j - 1, name);
      LastKey(r, j);
      var k := r.keys[j - 1];
      assert CountsAfter(counts, r, j) == AddCounts(CountsAfter(counts, r, j - 1), k, r.values[k]);
      AddCountsNames(CountsAfter(counts, r, j - 1), k, r.values[k], name);
    }
  }

  /** Every Counter for one variant stays a dictionary. */
  lemma {:induction false} CountsAfterValid(counts: Merged, r: QpuResult, j: nat, name: string)
    requires Distinct(r.keys) && KeysPresent(r) && j <= |r.keys| && Valid(CounterIn(counts, name))
    requires name in r.values ==> Valid(CountsOf(r.values[name]))
    ensures Valid(CounterIn(CountsAfter(counts, r, j), name))
  {
    if j > 0 {
      CountsAfterValid(counts, r, j - 1, name);
      LastKey(r, j);
      var k := r.keys[j - 1];
      assert CountsAfter(counts, r, j) == AddCounts(CountsAfter(counts, r, j - 1), k, r.values[k]);
      AddCountsValid(CountsAfter(counts, r, j - 1), k, r.values[k], name);
    }
  }

  /** A result adds its counts for variant name, bitstring b. */
  lemma {:induction false} CountsAfterGet(counts: Merged, r: QpuResult, j: nat, name: string, b: string)
    requires Distinct(r.keys) && KeysPresent(r) && j <= |r.keys|
    requires name in r.values ==> Valid(CountsOf(r.values[name]))
    ensures GetOrZero(CounterIn(CountsAfter(counts, r, j), name), b) ==
              GetOrZero(CounterIn(counts, name), b) + (if ListedBefore(r, j, name) then CountIn(r, name, b) else 0)
  {
    if j > 0 {
      CountsAfterGet(counts, r, j - 1, name, b);
      LastKey(r, j);
      var k := r.keys[j - 1];
      assert CountsAfter(counts, r, j) == AddCounts(CountsAfter(counts, r, j - 1), k, r.values[k]);
      AddCountsGet(CountsAfter(counts, r, j - 1), k, r.values[k], name, b);
    }
  }

  /** A result adds its count sum for variant name to the Counter's total. */
  lemma {:induction false} CountsAfterTotal(counts: Merged, r: QpuResult, j: nat, name: string)
    requires Distinct(r.keys) && KeysPresent(r) && j <= |r.keys| && Valid(CounterIn(counts, name))
    requires name in r.values ==> Valid(CountsOf(r.values[name]))
    ensures Total(CounterIn(CountsAfter(counts, r, j), name)) ==
              Total(CounterIn(counts, name)) + (if ListedBefore(r, j, name) then TotalIn(r, name) else 0)
  {
    if j > 0 {
      CountsAfterTotal(counts, r, j - 1, name);
      CountsAfterValid(counts, r, j - 1, name);
      LastKey(r, j);
      var k := r.keys[j - 1];
      assert CountsAfter(counts, r, j) == AddCounts(CountsAfter(counts, r, j - 1), k, r.values[k]);
      AddCountsTotal(CountsAfter(counts, r, j - 1), k, r.values[k], name);
    }
  }

  /** A result adds its bitstrings for variant name to the Counter. */
  lemma {:induction false} CountsAfterBits(counts: Merged, r: QpuResult, j: nat, name: string, b: string)
    requires Distinct(r.keys) && KeysPresent(r) && j <= |r.keys|
    ensures b in CounterIn(CountsAfter(counts, r, j), name).values <==>
              b in CounterIn(counts, name).values ||
              (ListedBefore(r, j, name) && b in CountsOf(r.values[name]).keys)
  {
    if j > 0 {
      CountsAfterBits(counts, r, j - 1, name, b);
      LastKey(r, j);
      var k := r.keys[j - 1];
      assert CountsAfter(counts, r, j) == AddCounts(CountsAfter(counts, r, j - 1), k, r.values[k]);
      AddCountsBits(CountsAfter(counts, r, j - 1), k, r.values[k], name, b);
    }
  }

  /** A result adds its shots for variant name. */
  lemma {:induction false} ShotsAfterGet(shots: Dict<string, int>, r: QpuResult, j: nat, name: string)
    requires Distinct(r.keys) && KeysPresent(r) && j <= |r.keys|
    ensures GetOrZero(ShotsAfter(shots, r, j), name) ==
              GetOrZero(shots, name) + (if ListedBefore(r, j, name) then ShotsIn(r, name) else 0)
    ensures Valid(shots) ==> Valid(ShotsAfter(shots, r, j))
  {
    if j > 0 {
      ShotsAfterGet(shots, r, j - 1, name);
      LastKey(r, j);
    }
  }

  /** A result keeps present metadata and records its new variants' metadata. */
  lemma {:induction false} MetadataAfterMeaning(metadata: Dict<string, Metadata>, r: QpuResult, j: nat, name: string)
    requires Distinct(r.keys) && KeysPresent(r) && j <= |r.keys|
    ensures name in MetadataAfter(metadata, r, j).values <==> name in metadata.values || ListedBefore(r, j, name)
    ensures name in metadata.values ==> MetadataAfter(metadata, r, j).values[name] == metadata.values[name]
    ensures name !in metadata.values && ListedBefore(r, j, name) ==>
              MetadataAfter(metadata, r, j).values[name] == MetadataOf(r.values[name])
    ensures Valid(metadata) ==> Valid(MetadataAfter(metadata, r, j))
  {
    if j > 0 {
      MetadataAfterMeaning(metadata, r, j - 1, name);
      LastKey(r, j);
      var k := r.keys[j - 1];
      KeepMetadataMeaning(MetadataAfter(metadata, r, j - 1), k, r.values[k], name);
    }
  }

  /** The accumulated dictionaries are dictionaries. */
  lemma {:induction false} AccumulateValid(results: seq<QpuResult>, i: nat)
    requires ResultsValid(results) && i <= |results|
    ensures Valid(MergedCounts(results, i)) && Valid(ShotTotals(results, i)) && Valid(MetadataKept(results, i))
  {
    if i > 0 {
      AccumulateValid(results, i - 1);
      var r := results[i - 1];
      CountsAfterNames(MergedCounts(results, i - 1), r, |r.keys|, "");
      ShotsAfterGet(ShotTotals(results, i - 1), r, |r.keys|, "");
      MetadataAfterMeaning(MetadataKept(results, i - 1), r, |r.keys|, "");
    }
  }

  /** Counts are held for exactly the variants some result mentions. */
  lemma {:induction false} AccumulateCountsNamed(results: seq<QpuResult>, i: nat, n: string)
    requires ResultsValid(results) && i <= |results|
    ensures n in MergedCounts(results, i).values <==> Seen(results, i, n)
  {
    if i > 0 {
      AccumulateCountsNamed(results, i - 1, n);
      var r := results[i - 1];
      CountsAfterNames(MergedCounts(results, i - 1), r, |r.keys|, n);
      ListedAll(r, n);
      SeenStep(results, i, n);
    }
  }

  /** Metadata is held for exactly the variants some result mentions. */
  lemma {:induction false} AccumulateMetadataNamed(results: seq<QpuResult>, i: nat, n: string)
    requires ResultsValid(results) && i <= |results|
    ensures n in MetadataKept(results, i).values <==> Seen(results, i, n)
  {
    if i > 0 {
      AccumulateMetadataNamed(results, i - 1, n);
      var r := results[i - 1];
      MetadataAfterMeaning(MetadataKept(results, i - 1), r, |r.keys|, n);
      ListedAll(r, n);
      SeenStep(results, i, n);
    }
  }

  lemma AccumulateNames(results: seq<QpuResult>, i: nat)
    requires ResultsValid(results) && i <= |results|
    ensures Valid(MergedCounts(results, i)) && Valid(ShotTotals(results, i)) && Valid(MetadataKept(results, i))
    ensures forall n :: n in MergedCounts(results, i).values <==> Seen(results, i, n)
    ensures forall n :: n in MetadataKept(results, i).values <==> Seen(results, i, n)
  {
    AccumulateValid(results, i);
    forall n
      ensures n in MergedCounts(results, i).values <==> Seen(results, i, n)
      ensures n in MetadataKept(results, i).values <==> Seen(results, i, n)
    {
      AccumulateCountsNamed(results, i, n);
      AccumulateMetadataNamed(results, i, n);
    }
  }

  lemma AccumulateConsistent(results: seq<QpuResult>, i: nat)
    requires WellFormed(results) && i <= |results|
    ensures Consistent(Accumulate(results, i))
  {
    AccumulateNames(results, i);
    forall n | n in MergedCounts(results, i).values
      ensures Valid(MergedCounts(results, i).values[n])
    {
      AccumulateCounterValid(results, i, n);
    }
  }

  // ------------------------------------------------------------ what the accumulation computes

  /** results[k]'s sum(counts.values()) for variant name, 0 when absent. */
  function TotalIn(r: QpuResult, name: string): int
  {
    if name in r.values then Total(CountsOf(r.values[name])) else 0
  }

  /** The sum of TotalIn over the first i results. */
  function TotalSum(results: seq<QpuResult>, i: nat, name: string): int
    requires i <= |results|
  {
    if i == 0 then 0 else TotalSum(results, i - 1, name) + TotalIn(results[i - 1], name)
  }

  /** Some result among the first i counts bitstring b for variant name. */
  predicate BitSeen(results: seq<QpuResult>, i: nat, name: string, b: string)
    requires i <= |results|
  {
    exists k :: 0 <= k < i && name in results[k].values && b in CountsOf(results[k].values[name]).keys
  }

  /** The first i results mention name iff the first i - 1 do or result i - 1 does. */
  lemma SeenStep(results: seq<QpuResult>, i: nat, name: string)
    requires 0 < i <= |results|
    ensures Seen(results, i, name) <==> Seen(results, i - 1, name) || name in results[i - 1].values
  {
    if Seen(results, i, name) && name !in results[i - 1].values {
      var k :| 0 <= k < i && name in results[k].values;
    }
  }

  lemma BitSeenStep(results: seq<QpuResult>, i: nat, name: string, b: string)
    requires 0 < i <= |results|
    ensures BitSeen(results, i, name, b) <==>
              BitSeen(results, i - 1, name, b) ||
              (name in results[i - 1].values && b in CountsOf(results[i - 1].values[name]).keys)
  {
    if BitSeen(results, i, name, b) && !BitSeen(results, i - 1, name, b) {
      var k :| 0 <= k < i && name in results[k].values && b in CountsOf(results[k].values[name]).keys;
    }
  }

  lemma {:induction false} AccumulateCounterValid(results: seq<QpuResult>, i: nat, name: string)
    requires WellFormed(results) && i <= |results|
    ensures Valid(CounterIn(MergedCounts(results, i), name))
  {
    if i > 0 {
      AccumulateCounterValid(results, i - 1, name);
      var r := results[i - 1];
      assert Valid(r);
      assert name in r.values ==> Valid(CountsOf(r.values[name]));
      CountsAfterValid(MergedCounts(results, i - 1), r, |r.keys|, name);
      assert MergedCounts(results, i) == CountsAfter(MergedCounts(results, i - 1), r, |r.keys|);
    }
  }

  /** merged_counts[name][b] is the sum of b's counts for name over the results. */
  lemma {:induction false} AccumulateCounts(results: seq<QpuResult>, i: nat, name: string, b: string)
    requires WellFormed(results) && i <= |results|
    ensures GetOrZero(CounterIn(MergedCounts(results, i), name), b) == CountSum(results, i, name, b)
  {
    if i > 0 {
      AccumulateCounts(results, i - 1, name, b);
      var r := results[i - 1];
      CountsAfterGet(MergedCounts(results, i - 1), r, |r.keys|, name, b);
      ListedAll(r, name);
    }
  }

  /** total_shots_per_variant[name] is the sum of name's totals over the results. */
  lemma {:induction false} AccumulateShots(results: seq<QpuResult>, i: nat, name: string)
    requires WellFormed(results) && i <= |results|
    ensures GetOrZero(ShotTotals(results, i), name) == ShotsSum(results, i, name)
  {
    if i > 0 {
      AccumulateShots(results, i - 1, name);
      var r := results[i - 1];
      ShotsAfterGet(ShotTotals(results, i - 1), r, |r.keys|, name);
      ListedAll(r, name);
    }
  }

  /** The merged Counter's total is the sum of the results' count sums. */
  lemma {:induction false} AccumulateTotal(results: seq<QpuResult>, i: nat, name: string)
    requires WellFormed(results) && i <= |results|
    ensures Total(CounterIn(MergedCounts(results, i), name)) == TotalSum(results, i, name)
  {
    if i > 0 {
      AccumulateTotal(results, i - 1, name);
      AccumulateCounterValid(results, i - 1, name);
      var r := results[i - 1];
      CountsAfterTotal(MergedCounts(results, i - 1), r, |r.keys|, name);
      ListedAll(r, name);
    }
  }

  /** The merged Counter lists exactly the bitstrings some result counts. */
  lemma {:induction false} AccumulateBits(results: seq<QpuResult>, i: nat, name: string, b: string)
    requires ResultsValid(results) && i <= |results|
    ensures b in CounterIn(MergedCounts(results, i), name).values <==> BitSeen(results, i, name, b)
  {
    if i > 0 {
      AccumulateBits(results, i - 1, name, b);
      var r := results[i - 1];
      CountsAfterBits(MergedCounts(results, i - 1), r, |r.keys|, name, b);
      ListedAll(r, name);
      BitSeenStep(results, i, name, b);
    }
  }

  /** The metadata kept for a variant is that of the first result mentioning it. */
  lemma {:induction false} AccumulateMetadata(results: seq<QpuResult>, i: nat, k: nat, name: string)
    requires WellFormed(results) && i <= |results| && k < i && FirstMention(results, k, name)
    ensures name in MetadataKept(results, i).values
    ensures MetadataKept(results, i).values[name] == MetadataOf(results[k].values[name])
  {
    var r := results[i - 1];
    MetadataAfterMeaning(MetadataKept(results, i - 1), r, |r.keys|, name);
    ListedAll(r, name);
    if k < i - 1 {
      AccumulateMetadata(results, i - 1, k, name);
    } else {
      AccumulateNames(results, i - 1);
      assert !Seen(results, i - 1, name);
    }
  }
}
