/** The bookkeeping of the reconstruction step (src/post_processing.py):
    turning a probability dictionary into a vector indexed by bitstring,
    the sign of a variant's coefficient, grouping variants by subcircuit,
    and cutting each global index into the local indices of the
    subcircuits. Probabilities and coefficients are exact reals here. */
module PostProcessing {
  import opened Wrappers
  import opened Dicts
  import Strings
  import Sorting
  import Constructor
  import Merge

  // ---------------------------------------------------------------------
  // vector_from_probabilities (lines 7-17)

  /** int(bitstring, 2) fails, or names an entry past the end of the vector. */
  datatype VectorError = ValueError(key: string) | IndexError(key: string)

  /** The vector after the loop at lines 14-16 has seen the first k keys. */
  function Placed(probabilities: Dict<string, real>, n: nat, k: nat): (r: Result<seq<real>, VectorError>)
    requires k <= |probabilities.keys| && KeysPresent(probabilities)
    ensures r.Success? ==> |r.value| == Strings.Pow2(n)
  {
    if k == 0 then Success(seq(Strings.Pow2(n), _ => 0.0))
    else
      match Placed(probabilities, n, k - 1)
      case Failure(e) => Failure(e)
      case Success(vec) =>
        var key := probabilities.keys[k - 1];
        match Strings.ParseBinary(key)
        case None => Failure(ValueError(key))
        case Some(index) =>
          if index < |vec| then Success(vec[index := probabilities.values[key]]) else Failure(IndexError(key))
  }

  /** vector_from_probabilities(probabilities, n) */
  function VectorOf(probabilities: Dict<string, real>, n: nat): (r: Result<seq<real>, VectorError>)
    requires KeysPresent(probabilities)
    ensures r.Success? ==> |r.value| == Strings.Pow2(n)
  {
    Placed(probabilities, n, |probabilities.keys|)
  }

  lemma {:induction false} PlacedStaysFailure(probabilities: Dict<string, real>, n: nat, k: nat, j: nat)
    requires k <= j <= |probabilities.keys| && KeysPresent(probabilities)
    requires Placed(probabilities, n, k).Failure?
    ensures Placed(probabilities, n, j) == Placed(probabilities, n, k)
    decreases j - k
  {
    if k < j {
      PlacedStaysFailure(probabilities, n, k, j - 1);
    }
  }

  /** Lines 13-17: a vector of 2^n zeros, and each probability written at
      the index its key spells in binary. */
  method VectorFromProbabilities(probabilities: Dict<string, real>, n: nat) returns (r: Result<seq<real>, VectorError>)
    requires KeysPresent(probabilities)
    ensures r == VectorOf(probabilities, n)
  {
    var vec := new real[Strings.Pow2(n)](_ => 0.0);
    assert vec[..] == seq(Strings.Pow2(n), _ => 0.0);
    var k := 0;
    while k < |probabilities.keys|
      invariant 0 <= k <= |probabilities.keys|
      invariant Placed(probabilities, n, k) == Success(vec[..])
    {
      var key := probabilities.keys[k];
      var index := Strings.ParseBinary(key);
      if index.None? {
        PlacedStaysFailure(probabilities, n, k + 1, |probabilities.keys|);
        return Failure(ValueError(key));
      }
      if index.value >= vec.Length {
        PlacedStaysFailure(probabilities, n, k + 1, |probabilities.keys|);
        return Failure(IndexError(key));
      }
      vec[index.value] := probabilities.values[key];
      k := k + 1;
    }
    return Success(vec[..]);
  }

  // ---------------------------------------------------------------------
  // The sign rule (lines 32-35)

  /** The sign as lines 32-34 compute it: from the lowercase x and y in the
      variant's name. */
  function WrittenSign(name: string): (s: int)
    ensures s == 1 || s == -1
  {
    if (Strings.Count(name, 'x') + Strings.Count(name, 'y')) % 2 == 0 then 1 else -1
  }

  /** The sign counting the X and Y measurement bases a variant's name
      records: -1 for an odd number of them. */
  function Sign(name: string): (s: int)
    ensures s == 1 || s == -1
  {
    if (Strings.Count(name, 'X') + Strings.Count(name, 'Y')) % 2 == 0 then 1 else -1
  }

  /** What compute_variant_contrib returns: the probability vector, the
      signed coefficient and the number of active qubits. */
  datatype Contribution = Contribution(vec: seq<real>, coeff: real, nQubits: nat)

  /** compute_variant_contrib (lines 19-41), with the sign as written. */
  function ContributionOf(name: string, data: Merge.MergedVariant, baseCoeff: real): (r: Result<Contribution, VectorError>)
    requires KeysPresent(data.probabilities)
    ensures r.Success? ==> r.value.nQubits == |data.activeQubits| && |r.value.vec| == Strings.Pow2(r.value.nQubits)
    ensures r.Success? ==> r.value.coeff == baseCoeff || r.value.coeff == -baseCoeff
  {
    match VectorOf(data.probabilities, |data.activeQubits|)
    case Failure(e) => Failure(e)
    case Success(vec) => Success(Contribution(vec, WrittenSign(name) as real * baseCoeff, |data.activeQubits|))
  }

  /** compute_variant_contrib with the sign its docstring describes:
      counting the X and Y measurement bases. */
  function ContributionOfIntended(name: string, data: Merge.MergedVariant, baseCoeff: real): (r: Result<Contribution, VectorError>)
    requires KeysPresent(data.probabilities)
    ensures r.Success? ==> r.value.nQubits == |data.activeQubits| && |r.value.vec| == Strings.Pow2(r.value.nQubits)
    ensures r.Success? ==> r.value.coeff == baseCoeff || r.value.coeff == -baseCoeff
  {
    match VectorOf(data.probabilities, |data.activeQubits|)
    case Failure(e) => Failure(e)
    case Success(vec) => Success(Contribution(vec, Sign(name) as real * baseCoeff, |data.activeQubits|))
  }

  method ComputeVariantContrib(name: string, data: Merge.MergedVariant, baseCoeff: real)
    returns (r: Result<Contribution, VectorError>)
    requires KeysPresent(data.probabilities)
    ensures r == ContributionOf(name, data, baseCoeff)
  {
    var nQubits := |data.activeQubits|;
    var vec := VectorFromProbabilities(data.probabilities, nQubits);
    if vec.Failure? {
      return Failure(vec.error);
    }
    r := Success(Contribution(vec.value, WrittenSign(name) as real * baseCoeff, nQubits));
  }

  // ---------------------------------------------------------------------
  // Grouping by subcircuit (lines 54-64 and 128-138)

  /** The key a variant is grouped under: a subcircuit index, or the whole
      name when it has none. */
  datatype GroupKey = Index(index: int) | Name(name: string)

  predicate StartsWith(s: string, prefix: string)
  {
    |prefix| <= |s| && s[..|prefix|] == prefix
  }

  /** A name that starts with "sub_" splits into at least two fields. */
  lemma SubFields(name: string)
    requires StartsWith(name, "sub_")
    ensures |Strings.Split(name, '_')| > 1
  {
    var rest := name[4..];
    assert name == "sub" + ['_'] + rest;
    Strings.SplitPrefix("sub", '_', rest);
  }

  /** Lines 56-63: int(parts[1]) for a name starting with "sub_", the name
      itself when that raises ValueError or the prefix is missing. */
  function GroupKeyOf(name: string): (k: GroupKey)
    ensures k.Name? ==> k.name == name
  {
    if StartsWith(name, "sub_") then
      SubFields(name);
      match Strings.ParseInt(Strings.Split(name, '_')[1])
      case Some(i) => Index(i)
      case None => Name(name)
    else Name(name)
  }

  type Results = Dict<string, Merge.MergedVariant>
  type Groups = Dict<GroupKey, Results>

  /** grouped[GroupKeyOf(name)][name] = data, creating the inner
      dictionary on first use as defaultdict(dict) does. */
  function AddToGroup<V>(g: Dict<GroupKey, Dict<string, V>>, name: string, data: V): Dict<GroupKey, Dict<string, V>>
  {
    var key := GroupKeyOf(name);
    var inner := if key in g.values then g.values[key] else Empty();
    var inner' := Dict(if name in inner.values then inner.keys else inner.keys + [name], inner.values[name := data]);
    Dict(if key in g.values then g.keys else g.keys + [key], g.values[key := inner'])
  }

  /** Adding a variant is two dictionary assignments. */
  lemma AddToGroupPut<V>(g: Dict<GroupKey, Dict<string, V>>, name: string, data: V)
    ensures var key := GroupKeyOf(name);
            var inner := if key in g.values then g.values[key] else Empty();
            AddToGroup(g, name, data) == Put(g, key, Put(inner, name, data))
  {
  }

  /** grouped after the loop has seen the first k variants. */
  function Grouped<V>(allResults: Dict<string, V>, k: nat): Dict<GroupKey, Dict<string, V>>
    requires k <= |allResults.keys| && KeysPresent(allResults)
  {
    if k == 0 then Empty()
    else
      var name := allResults.keys[k - 1];
      AddToGroup(Grouped(allResults, k - 1), name, allResults.values[name])
  }

  /** The loop at lines 55-64 (and 129-138). */
  method GroupVariants(allResults: Results) returns (grouped: Groups)
    requires KeysPresent(allResults)
    ensures grouped == Grouped(allResults, |allResults.keys|)
  {
    grouped := Empty();
    for k := 0 to |allResults.keys|
      invariant grouped == Grouped(allResults, k)
    {
      var name := allResults.keys[k];
      grouped := AddToGroup(grouped, name, allResults.values[name]);
    }
  }

  // ---------------------------------------------------------------------
  // sorted(grouped.keys()) (lines 68 and 140)

  /** Comparing an int with a str raises TypeError. */
  datatype SortError = TypeError

  /** Integers by value, strings by code points; an integer is put before
      a string, an order Python never uses since it raises instead. */
  predicate KeyLt(a: GroupKey, b: GroupKey)
  {
    match (a, b)
    case (Index(i), Index(j)) => i < j
    case (Name(s), Name(t)) => Strings.StrLt(s, t)
    case (Index(_), Name(_)) => true
    case (Name(_), Index(_)) => false
  }

  /** All keys are integers, or all are strings. */
  predicate Uniform(keys: seq<GroupKey>)
  {
    (forall i :: 0 <= i < |keys| ==> keys[i].Index?) || (forall i :: 0 <= i < |keys| ==> keys[i].Name?)
  }

  /** sorted(keys): a list mixing integers and strings has an integer next
      to a string in any order, and a sort must compare those two, so it
      raises TypeError. */
  function SortKeys(keys: seq<GroupKey>): (r: Result<seq<GroupKey>, SortError>)
    ensures r.Success? ==> multiset(r.value) == multiset(keys)
  {
    if Uniform(keys) then
      Sorting.SortSpec(keys, KeyLt);
      Success(Sorting.Sort(keys, KeyLt))
    else Failure(TypeError)
  }

  // ---------------------------------------------------------------------
  // The nonzero entries of each subcircuit (lines 145-150)

  /** One nonzero probability of a variant and the variant's coefficient. */
  datatype Entry = Entry(value: real, coeff: real)

  /** The entries index idx collects from the given variants, in order. */
  function Column(contribs: seq<Contribution>, idx: nat): seq<Entry>
  {
    if |contribs| == 0 then []
    else
      var c := contribs[|contribs| - 1];
      Column(contribs[..|contribs| - 1], idx) +
        (if idx < |c.vec| && c.vec[idx] != 0.0 then [Entry(c.vec[idx], c.coeff)] else [])
  }

  /** variant_entries after all of contribs[..i] and the first j values of
      contribs[i]: exactly the indices with an entry, each with its column. */
  ghost predicate Collected(entries: map<nat, seq<Entry>>, contribs: seq<Contribution>, i: nat, j: nat)
    requires i < |contribs| ==> j <= |contribs[i].vec|
    requires i <= |contribs|
  {
    forall idx :: (idx in entries <==> |Partial(contribs, i, j, idx)| > 0) &&
                  (idx in entries ==> entries[idx] == Partial(contribs, i, j, idx))
  }

  function Partial(contribs: seq<Contribution>, i: nat, j: nat, idx: nat): seq<Entry>
    requires i <= |contribs|
  {
    Column(contribs[..i], idx) +
      (if i < |contribs| && idx < j && idx < |contribs[i].vec| && contribs[i].vec[idx] != 0.0
       then [Entry(contribs[i].vec[idx], contribs[i].coeff)] else [])
  }

  /** Appending one value keeps variant_entries in step with the columns. */
  lemma CollectStep(entries: map<nat, seq<Entry>>, contribs: seq<Contribution>, i: nat, j: nat)
    requires i < |contribs| && j < |contribs[i].vec|
    requires Collected(entries, contribs, i, j)
    ensures var c := contribs[i];
            var e := if j in entries then entries[j] else [];
            Collected(if c.vec[j] != 0.0 then entries[j := e + [Entry(c.vec[j], c.coeff)]] else entries, contribs, i, j + 1)
  {
  }

  lemma CollectNext(entries: map<nat, seq<Entry>>, contribs: seq<Contribution>, i: nat)
    requires i < |contribs| && Collected(entries, contribs, i, |contribs[i].vec|)
    ensures Collected(entries, contribs, i + 1, 0)
  {
    assert contribs[..i + 1][..i] == contribs[..i];
    forall idx ensures Partial(contribs, i, |contribs[i].vec|, idx) == Partial(contribs, i + 1, 0, idx) {
    }
  }

  /** variant_entries: for each index, the (value, coefficient) pairs of the
      variants whose value there is nonzero, in variant order. */
  method CollectEntries(contribs: seq<Contribution>) returns (entries: map<nat, seq<Entry>>)
    ensures forall idx :: idx in entries <==> |Column(contribs, idx)| > 0
    ensures forall idx :: idx in entries ==> entries[idx] == Column(contribs, idx)
    ensures entries == Columns(contribs)
  {
    entries := map[];
    var i := 0;
    while i < |contribs|
      invariant 0 <= i <= |contribs|
      invariant Collected(entries, contribs, i, 0)
    {
      var c := contribs[i];
      var j := 0;
      while j < |c.vec|
        invariant 0 <= j <= |c.vec|
        invariant Collected(entries, contribs, i, j)
      {
        CollectStep(entries, contribs, i, j);
        if c.vec[j] != 0.0 {
          var e := if j in entries then entries[j] else [];
          entries := entries[j := e + [Entry(c.vec[j], c.coeff)]];
        }
        j := j + 1;
      }
      CollectNext(entries, contribs, i);
      i := i + 1;
    }
    assert contribs[..i] == contribs;
    forall idx: nat | |Column(contribs, idx)| > 0 ensures idx < Width(contribs) {
      ColumnWidth(contribs, idx);
    }
  }

  /** The longest vector among the variants. */
  function Width(contribs: seq<Contribution>): nat
  {
    if |contribs| == 0 then 0
    else
      var w := Width(contribs[..|contribs| - 1]);
      var n := |contribs[|contribs| - 1].vec|;
      if n > w then n else w
  }

  /** Only an index inside some vector collects an entry. */
  lemma {:induction false} ColumnWidth(contribs: seq<Contribution>, idx: nat)
    requires |Column(contribs, idx)| > 0
    ensures idx < Width(contribs)
  {
    if |Column(contribs[..|contribs| - 1], idx)| > 0 {
      ColumnWidth(contribs[..|contribs| - 1], idx);
    }
  }

  /** variant_entries as a dictionary: every index that collects an
      entry, mapped to its column. */
  function Columns(contribs: seq<Contribution>): map<nat, seq<Entry>>
  {
    map idx: nat | idx < Width(contribs) && |Column(contribs, idx)| > 0 :: Column(contribs, idx)
  }

  // ---------------------------------------------------------------------
  // One sub-vector per group (lines 140-152)

  /** Every variant can be iterated, and so can its probabilities. */
  ghost predicate WellKeyed(results: Results)
  {
    KeysPresent(results) &&
    forall name :: name in results.values ==> KeysPresent(results.values[name].probabilities)
  }

  /** The contributions of the first k variants of one group, in order;
      the first variant whose vector cannot be built ends it. */
  function Contributions(inner: Results, baseCoeff: real, k: nat): (r: Result<seq<Contribution>, VectorError>)
    requires WellKeyed(inner) && k <= |inner.keys|
    ensures r.Success? ==> |r.value| == k
  {
    if k == 0 then Success([])
    else
      match Contributions(inner, baseCoeff, k - 1)
      case Failure(e) => Failure(e)
      case Success(cs) =>
        var name := inner.keys[k - 1];
        match ContributionOf(name, inner.values[name], baseCoeff)
        case Failure(e) => Failure(e)
        case Success(c) => Success(cs + [c])
  }

  lemma {:induction false} ContributionsStay(inner: Results, baseCoeff: real, k: nat, j: nat)
    requires WellKeyed(inner) && k <= j <= |inner.keys|
    requires Contributions(inner, baseCoeff, k).Failure?
    ensures Contributions(inner, baseCoeff, j) == Contributions(inner, baseCoeff, k)
    decreases j - k
  {
    if k < j {
      ContributionsStay(inner, baseCoeff, k, j - 1);
    }
  }

  /** Lines 145-152 for one group: the entries of all its variants, and the
      active qubits of its first variant. */
  function SubVectorOf(inner: Results, baseCoeff: real): Result<SubVector, VectorError>
    requires WellKeyed(inner) && |inner.keys| > 0
  {
    match Contributions(inner, baseCoeff, |inner.keys|)
    case Failure(e) => Failure(e)
    case Success(cs) => Success(SubVector(|inner.values[inner.keys[0]].activeQubits|, Columns(cs)))
  }

  method BuildSubVector(inner: Results, baseCoeff: real) returns (r: Result<SubVector, VectorError>)
    requires WellKeyed(inner) && |inner.keys| > 0
    ensures r == SubVectorOf(inner, baseCoeff)
  {
    var contribs: seq<Contribution> := [];
    for k := 0 to |inner.keys|
      invariant Contributions(inner, baseCoeff, k) == Success(contribs)
    {
      var name := inner.keys[k];
      var c := ComputeVariantContrib(name, inner.values[name], baseCoeff);
      if c.Failure? {
        ContributionsStay(inner, baseCoeff, k + 1, |inner.keys|);
        return Failure(c.error);
      }
      contribs := contribs + [c.value];
    }
    var entries := CollectEntries(contribs);
    var nQubits := |inner.values[inner.keys[0]].activeQubits|;
    return Success(SubVector(nQubits, entries));
  }

  /** Every sorted key names a group that is non-empty and can be iterated. */
  ghost predicate GroupsReady(grouped: Groups, order: seq<GroupKey>)
  {
    forall i :: 0 <= i < |order| ==>
      order[i] in grouped.values && WellKeyed(grouped.values[order[i]]) && |grouped.values[order[i]].keys| > 0
  }

  /** The sub-vectors of the groups named by the first k sorted keys. */
  function SubVectors(grouped: Groups, order: seq<GroupKey>, baseCoeff: real, k: nat): (r: Result<seq<SubVector>, VectorError>)
    requires k <= |order| && GroupsReady(grouped, order)
    ensures r.Success? ==> |r.value| == k
  {
    if k == 0 then Success([])
    else
      match SubVectors(grouped, order, baseCoeff, k - 1)
      case Failure(e) => Failure(e)
      case Success(subs) =>
        match SubVectorOf(grouped.values[order[k - 1]], baseCoeff)
        case Failure(e) => Failure(e)
        case Success(sub) => Success(subs + [sub])
  }

  lemma {:induction false} SubVectorsStay(grouped: Groups, order: seq<GroupKey>, baseCoeff: real, k: nat, j: nat)
    requires k <= j <= |order| && GroupsReady(grouped, order)
    requires SubVectors(grouped, order, baseCoeff, k).Failure?
    ensures SubVectors(grouped, order, baseCoeff, j) == SubVectors(grouped, order, baseCoeff, k)
    decreases j - k
  {
    if k < j {
      SubVectorsStay(grouped, order, baseCoeff, k, j - 1);
    }
  }

  /** A grouping that is a dictionary and whose group under key, if any,
      is a non-empty one. */
  ghost predicate GroupReady<V>(g: Dict<GroupKey, Dict<string, V>>, key: GroupKey)
  {
    Valid(g) && (key in g.values ==> Valid(g.values[key]) && |g.values[key].keys| > 0)
  }

  /** The grouping is a dictionary, and each of its groups a non-empty one. */
  lemma {:induction false} GroupedGroup<V>(allResults: Dict<string, V>, k: nat, key: GroupKey)
    requires k <= |allResults.keys| && KeysPresent(allResults)
    ensures GroupReady(Grouped(allResults, k), key)
  {
    if k > 0 {
      GroupedGroup(allResults, k - 1, key);
      var name := allResults.keys[k - 1];
      AddToGroupGroup(Grouped(allResults, k - 1), name, allResults.values[name], key);
    }
  }

  lemma AddToGroupGroup<V>(g: Dict<GroupKey, Dict<string, V>>, name: string, data: V, key: GroupKey)
    requires GroupReady(g, key)
    ensures GroupReady(AddToGroup(g, name, data), key)
  {
    AddToGroupPut(g, name, data);
    var key' := GroupKeyOf(name);
    var inner: Dict<string, V> := if key' in g.values then g.values[key'] else Empty();
    var inner' := Put(inner, name, data);
    var g' := Put(g, key', inner');
    if key == key' {
      assert Get(inner', name).Some?;
    } else {
      assert Get(g', key) == Get(g, key);
    }
  }

  /** Each grouped variant is a variant of the input, under its own name. */
  lemma {:induction false} GroupedMember<V>(allResults: Dict<string, V>, k: nat, key: GroupKey, name: string)
    requires k <= |allResults.keys| && KeysPresent(allResults)
    ensures var g := Grouped(allResults, k);
            key in g.values && name in g.values[key].values ==>
              name in allResults.values && g.values[key].values[name] == allResults.values[name]
  {
    if k > 0 {
      GroupedMember(allResults, k - 1, key, name);
      AddToGroupMember(Grouped(allResults, k - 1), allResults.keys[k - 1], allResults, key, name);
    }
  }

  lemma AddToGroupMember<V>(g: Dict<GroupKey, Dict<string, V>>, added: string, allResults: Dict<string, V>, key: GroupKey, name: string)
    requires added in allResults.values
    requires key in g.values && name in g.values[key].values ==>
               name in allResults.values && g.values[key].values[name] == allResults.values[name]
    ensures var g' := AddToGroup(g, added, allResults.values[added]);
            key in g'.values && name in g'.values[key].values ==>
              name in allResults.values && g'.values[key].values[name] == allResults.values[name]
  {
    AddToGroupPut(g, added, allResults.values[added]);
    var key' := GroupKeyOf(added);
    var g' := AddToGroup(g, added, allResults.values[added]);
    if key != key' {
      assert Get(g', key) == Get(g, key);
    }
  }

  /** The sorted keys of the grouping all name groups ready for lines 144-152. */
  lemma OrderReady(allResults: Results, order: seq<GroupKey>)
    requires WellKeyed(allResults)
    requires SortKeys(Grouped(allResults, |allResults.keys|).keys) == Success(order)
    ensures GroupsReady(Grouped(allResults, |allResults.keys|), order)
  {
    var g := Grouped(allResults, |allResults.keys|);
    Sorting.SortSpec(g.keys, KeyLt);
    forall i | 0 <= i < |order|
      ensures order[i] in g.values && WellKeyed(g.values[order[i]]) && |g.values[order[i]].keys| > 0
    {
      var key := order[i];
      GroupedGroup(allResults, |allResults.keys|, key);
      assert key in multiset(order);
      assert key in g.keys;
      ValidKeysPresent(g.values[key]);
      forall name | name in g.values[key].values
        ensures KeysPresent(g.values[key].values[name].probabilities)
      {
        GroupedMember(allResults, |allResults.keys|, key, name);
      }
    }
  }

  // ---------------------------------------------------------------------
  // Cutting each global index into local indices (lines 151-177)

  /** One subcircuit as line 152 records it: its number of active qubits
      and its nonzero entries. */
  datatype SubVector = SubVector(n: nat, entries: map<nat, seq<Entry>>)

  /** The active qubits of the first k subcircuits: where subcircuit k's
      bits start (offset at line 169). */
  function Offset(subs: seq<SubVector>, k: nat): nat
    requires k <= |subs|
  {
    if k == 0 then 0 else Offset(subs, k - 1) + subs[k - 1].n
  }

  /** total_active (line 154): the active qubits of all subcircuits. */
  function TotalActive(subs: seq<SubVector>): nat
  {
    Offset(subs, |subs|)
  }

  /** format(v, f"0{w}b") for v < 2^w: w bits, most significant first; a
      width of 0 still writes one digit. */
  function Format(v: nat, w: nat): (s: string)
    ensures Strings.IsBinary(s)
  {
    if w == 0 then "0" else Strings.Bits(v, w)
  }

  /** s[lo:hi], cut back to the string's end as Python slicing does. */
  function SliceOf(s: string, lo: nat, hi: nat): string
  {
    var a := if lo < |s| then lo else |s|;
    var b := if hi < |s| then hi else |s|;
    if a <= b then s[a..b] else ""
  }

  /** What the inner loop at lines 167-174 finds: a local index without an
      entry (valid = False), or the entries of every subcircuit. */
  datatype Lookup = Missing | Found(values: seq<seq<Entry>>)

  /** int("", 2) raises ValueError: the slice of a subcircuit with no
      active qubit is empty. */
  datatype SliceError = EmptySlice(sub: nat)

  /** int(bin_str[offset:offset + n], 2) for subcircuit i (lines 168-169);
      None is the ValueError it raises. */
  function LocalParse(bin: string, subs: seq<SubVector>, i: nat): Option<nat>
    requires i < |subs|
  {
    Strings.ParseBinary(SliceOf(bin, Offset(subs, i), Offset(subs, i + 1)))
  }

  /** What int() gives on each subcircuit's bits. Parsing has no effect
      besides raising, so the loop below, which parses one subcircuit per
      turn and stops at the first failure or miss, consults these in
      order. */
  function LocalParses(bin: string, subs: seq<SubVector>): (r: seq<Option<nat>>)
    ensures |r| == |subs| && forall i :: 0 <= i < |subs| ==> r[i] == LocalParse(bin, subs, i)
  {
    seq(|subs|, i requires 0 <= i < |subs| => LocalParse(bin, subs, i))
  }

  /** The inner loop after the first k subcircuits. */
  function Scan(parsed: seq<Option<nat>>, subs: seq<SubVector>, k: nat): Result<Lookup, SliceError>
    requires k <= |subs| == |parsed|
  {
    if k == 0 then Success(Found([]))
    else
      match Scan(parsed, subs, k - 1)
      case Failure(e) => Failure(e)
      case Success(Missing) => Success(Missing)
      case Success(Found(values)) =>
        var entries := subs[k - 1].entries;
        match parsed[k - 1]
        case None => Failure(EmptySlice(k - 1))
        case Some(local) =>
          if local in entries then Success(Found(values + [entries[local]])) else Success(Missing)
  }

  /** What the inner loop finds for global index g. */
  function LookupAt(subs: seq<SubVector>, g: nat): Result<Lookup, SliceError>
  {
    Scan(LocalParses(Format(g, TotalActive(subs)), subs), subs, |subs|)
  }

  lemma {:induction false} ScanStays(parsed: seq<Option<nat>>, subs: seq<SubVector>, k: nat, j: nat)
    requires k <= j <= |subs| == |parsed|
    requires Scan(parsed, subs, k).Failure? || Scan(parsed, subs, k) == Success(Missing)
    ensures Scan(parsed, subs, j) == Scan(parsed, subs, k)
    decreases j - k
  {
    if k < j {
      ScanStays(parsed, subs, k, j - 1);
    }
  }

  lemma ScanStep(parsed: seq<Option<nat>>, subs: seq<SubVector>, i: nat, values: seq<seq<Entry>>)
    requires i < |subs| == |parsed| && Scan(parsed, subs, i) == Success(Found(values))
    ensures var local := parsed[i];
            var entries := subs[i].entries;
            (local.None? ==> Scan(parsed, subs, i + 1) == Failure(EmptySlice(i))) &&
            (local.Some? && local.value !in entries ==> Scan(parsed, subs, i + 1) == Success(Missing)) &&
            (local.Some? && local.value in entries ==> Scan(parsed, subs, i + 1) == Success(Found(values + [entries[local.value]])))
  {
  }

  /** Lines 160-174 for one global index. */
  method ScanIndex(globalIdx: nat, subs: seq<SubVector>) returns (r: Result<Lookup, SliceError>)
    ensures r == LookupAt(subs, globalIdx)
  {
    var bin := Format(globalIdx, TotalActive(subs));
    ghost var parsed := LocalParses(bin, subs);
    var offset := 0;
    var values: seq<seq<Entry>> := [];
    for i := 0 to |subs|
      invariant offset == Offset(subs, i)
      invariant Scan(parsed, subs, i) == Success(Found(values))
    {
      var sub := subs[i];
      var local := Strings.ParseBinary(SliceOf(bin, offset, offset + sub.n));
      assert local == parsed[i];
      ScanStep(parsed, subs, i, values);
      offset := offset + sub.n;
      if local.None? {
        ScanStays(parsed, subs, i + 1, |subs|);
        return Failure(EmptySlice(i));
      }
      if local.value !in sub.entries {
        ScanStays(parsed, subs, i + 1, |subs|);
        return Success(Missing);
      }
      values := values + [sub.entries[local.value]];
    }
    return Success(Found(values));
  }

  /** itertools.product(*sub_values), first factor slowest. */
  function Combos(sv: seq<seq<Entry>>): seq<seq<Entry>>
  {
    if |sv| == 0 then [[]] else Constructor.Extend(Combos(sv[..|sv| - 1]), sv[|sv| - 1])
  }

  /** np.prod([val * eff for val, eff in combo]) */
  function Weight(combo: seq<Entry>): real
  {
    if |combo| == 0 then 1.0 else Weight(combo[..|combo| - 1]) * (combo[|combo| - 1].value * combo[|combo| - 1].coeff)
  }

  /** total_contrib after the first k combinations. */
  function SumWeights(combos: seq<seq<Entry>>, k: nat): real
    requires k <= |combos|
  {
    if k == 0 then 0.0 else SumWeights(combos, k - 1) + Weight(combos[k - 1])
  }

  function TotalContrib(sv: seq<seq<Entry>>): real
  {
    SumWeights(Combos(sv), |Combos(sv)|)
  }

  /** Lines 180-182. */
  method SumCombos(sv: seq<seq<Entry>>) returns (total: real)
    ensures total == TotalContrib(sv)
  {
    var combos := Combos(sv);
    total := 0.0;
    for k := 0 to |combos|
      invariant total == SumWeights(combos, k)
    {
      total := total + Weight(combos[k]);
    }
  }

  /** What the inner loop finds for each of the first n global indices. */
  function Lookups(subs: seq<SubVector>, n: nat): (r: seq<Result<Lookup, SliceError>>)
    ensures |r| == n
  {
    if n == 0 then [] else Lookups(subs, n - 1) + [LookupAt(subs, n - 1)]
  }

  lemma {:induction false} LookupsAt(subs: seq<SubVector>, n: nat, g: nat)
    requires g < n
    ensures Lookups(subs, n)[g] == LookupAt(subs, g)
  {
    if g < n - 1 {
      LookupsAt(subs, n - 1, g);
    }
  }

  /** global_vector after the loop at lines 159-184 has seen the first g
      indices, given what the inner loop finds for each; a ValueError from
      any of them ends it. */
  function Filled(lookups: seq<Result<Lookup, SliceError>>, g: nat): (r: Result<seq<real>, SliceError>)
    requires g <= |lookups|
    ensures r.Success? ==> |r.value| == |lookups|
  {
    if g == 0 then Success(seq(|lookups|, _ => 0.0))
    else
      match Filled(lookups, g - 1)
      case Failure(e) => Failure(e)
      case Success(vec) =>
        match lookups[g - 1]
        case Failure(e) => Failure(e)
        case Success(Missing) => Success(vec)
        case Success(Found(values)) => Success(vec[g - 1 := TotalContrib(values)])
  }

  /** Lines 154-184 before the normalisation, over all 2^total_active
      global indices. */
  function Reconstructed(subs: seq<SubVector>): Result<seq<real>, SliceError>
  {
    var dim := Strings.Pow2(TotalActive(subs));
    Filled(Lookups(subs, dim), dim)
  }

  lemma {:induction false} FilledStays(lookups: seq<Result<Lookup, SliceError>>, g: nat, h: nat)
    requires g <= h <= |lookups| && Filled(lookups, g).Failure?
    ensures Filled(lookups, h) == Filled(lookups, g)
    decreases h - g
  {
    if g < h {
      FilledStays(lookups, g, h - 1);
    }
  }

  /** Lines 160-176 for global index g: scan the subcircuits and, when
      every one has an entry, write the sum over their combinations. */
  method FillIndex(subs: seq<SubVector>, g: nat, vec: array<real>, ghost lookups: seq<Result<Lookup, SliceError>>)
      returns (err: Option<SliceError>)
    requires g < vec.Length && lookups == Lookups(subs, vec.Length)
    requires Filled(lookups, g) == Success(vec[..])
    modifies vec
    ensures err.None? ==> Filled(lookups, g + 1) == Success(vec[..])
    ensures err.Some? ==> Filled(lookups, g + 1) == Failure(err.value)
  {
    var lookup := ScanIndex(g, subs);
    LookupsAt(subs, vec.Length, g);
    match lookup
    case Failure(e) =>
      return Some(e);
    case Success(Missing) =>
      return None;
    case Success(Found(values)) =>
      var contrib := SumCombos(values);
      vec[g] := contrib;
      return None;
  }

  /** Lines 154-184 before the normalisation: every global index is cut
      into local indices, skipped when one has no entry, and otherwise
      given the sum over all combinations of the entries found. */
  method Reconstruct(subs: seq<SubVector>) returns (r: Result<seq<real>, SliceError>)
    ensures r == Reconstructed(subs)
  {
    var dim := Strings.Pow2(TotalActive(subs));
    ghost var lookups := Lookups(subs, dim);
    var vec := new real[dim](_ => 0.0);
    assert vec[..] == seq(dim, _ => 0.0);
    for g := 0 to dim
      invariant Filled(lookups, g) == Success(vec[..])
    {
      var err := FillIndex(subs, g, vec, lookups);
      if err.Some? {
        FilledStays(lookups, g + 1, dim);
        return Failure(err.value);
      }
    }
    return Success(vec[..]);
  }

  // ---------------------------------------------------------------------
  // dd_reconstruct_variant_dict (lines 118-184)

  /** sorted() meets an int and a str, a probability key is not a bitstring
      that fits, or a subcircuit has no active qubit to slice. */
  datatype ReconstructError = Unsortable | BadProbabilities(VectorError) | BadSlice(SliceError)

  /** Lines 128-184: group, sort the groups, build their sub-vectors and
      fill the global vector (the normalisation at lines 186-189 is not
      part of it). */
  function DdReconstructed(allResults: Results, baseCoeff: real): (r: Result<seq<real>, ReconstructError>)
    requires WellKeyed(allResults)
    ensures r == Failure(Unsortable) <==> !Uniform(Grouped(allResults, |allResults.keys|).keys)
  {
    var grouped := Grouped(allResults, |allResults.keys|);
    match SortKeys(grouped.keys)
    case Failure(_) => Failure(Unsortable)
    case Success(order) =>
      OrderReady(allResults, order);
      match SubVectors(grouped, order, baseCoeff, |order|)
      case Failure(e) => Failure(BadProbabilities(e))
      case Success(subs) =>
        match Reconstructed(subs)
        case Failure(e) => Failure(BadSlice(e))
        case Success(vec) => Success(vec)
  }

  method DdReconstruct(allResults: Results, baseCoeff: real) returns (r: Result<seq<real>, ReconstructError>)
    requires WellKeyed(allResults)
    ensures r == DdReconstructed(allResults, baseCoeff)
  {
    var grouped := GroupVariants(allResults);
    var sorted := SortKeys(grouped.keys);
    if sorted.Failure? {
      return Failure(Unsortable);
    }
    var order := sorted.value;
    OrderReady(allResults, order);
    var subs: seq<SubVector> := [];
    for i := 0 to |order|
      invariant SubVectors(grouped, order, baseCoeff, i) == Success(subs)
    {
      var sub := BuildSubVector(grouped.values[order[i]], baseCoeff);
      if sub.Failure? {
        SubVectorsStay(grouped, order, baseCoeff, i + 1, |order|);
        return Failure(BadProbabilities(sub.error));
      }
      subs := subs + [sub.value];
    }
    var vec := Reconstruct(subs);
    if vec.Failure? {
      return Failure(BadSlice(vec.error));
    }
    return Success(vec.value);
  }
}
