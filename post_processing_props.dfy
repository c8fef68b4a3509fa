/** What src/post_processing.py promises, stated over the model in
    PostProcessing: where each probability lands in a vector, the sign of a
    variant, how variants are grouped and sorted, how a global index is cut
    into local indices, and what the reconstructed vector holds. */
module PostProcessingProps {
  import opened Wrappers
  import opened Dicts
  import Strings
  import Sorting
  import Constructor
  import ConstructorProps
  import opened PostProcessing

  // ---------------------------------------------------------------------
  // vector_from_probabilities

  /** int(key, 2) succeeds and names an entry of a vector of 2^n values. */
  predicate Fits(key: string, n: nat)
  {
    Strings.ParseBinary(key).Some? && Strings.ParseBinary(key).value < Strings.Pow2(n)
  }

  /** The loop places every probability exactly when every key read so far fits. */
  lemma {:induction false} PlacedSuccess(probabilities: Dict<string, real>, n: nat, k: nat)
    requires k <= |probabilities.keys| && KeysPresent(probabilities)
    ensures Placed(probabilities, n, k).Success? <==> forall i :: 0 <= i < k ==> Fits(probabilities.keys[i], n)
  {
    if k > 0 {
      PlacedSuccess(probabilities, n, k - 1);
    }
  }

  /** The first key that does not fit decides the error: ValueError when it
      is not a bitstring, IndexError when its value is 2^n or more. */
  lemma {:induction false} PlacedFailure(probabilities: Dict<string, real>, n: nat, k: nat, i: nat)
    requires k <= |probabilities.keys| && KeysPresent(probabilities)
    requires i < k && !Fits(probabilities.keys[i], n)
    requires forall j :: 0 <= j < i ==> Fits(probabilities.keys[j], n)
    ensures var key := probabilities.keys[i];
            Placed(probabilities, n, k) == Failure(if Strings.ParseBinary(key).None? then ValueError(key) else IndexError(key))
  {
    if i < k - 1 {
      PlacedFailure(probabilities, n, k - 1, i);
    } else {
      PlacedSuccess(probabilities, n, k - 1);
    }
  }

  /** The value the last of the first k keys spelling idx carries, 0.0 when
      none does. */
  function LastAt(probabilities: Dict<string, real>, k: nat, idx: nat): real
    requires k <= |probabilities.keys| && KeysPresent(probabilities)
  {
    if k == 0 then 0.0
    else if Strings.ParseBinary(probabilities.keys[k - 1]) == Some(idx) then probabilities.values[probabilities.keys[k - 1]]
    else LastAt(probabilities, k - 1, idx)
  }

  /** Each entry of the vector holds the probability of the last key that
      spells its index, and 0.0 when no key does. */
  lemma {:induction false} PlacedAt(probabilities: Dict<string, real>, n: nat, k: nat, idx: nat)
    requires k <= |probabilities.keys| && KeysPresent(probabilities)
    requires Placed(probabilities, n, k).Success? && idx < Strings.Pow2(n)
    ensures Placed(probabilities, n, k).value[idx] == LastAt(probabilities, k, idx)
  {
    if k > 0 {
      PlacedAt(probabilities, n, k - 1, idx);
    }
  }

  /** No key spells idx: the entry stays 0.0. */
  lemma {:induction false} LastAtNone(probabilities: Dict<string, real>, k: nat, idx: nat)
    requires k <= |probabilities.keys| && KeysPresent(probabilities)
    requires forall i :: 0 <= i < k ==> Strings.ParseBinary(probabilities.keys[i]) != Some(idx)
    ensures LastAt(probabilities, k, idx) == 0.0
  {
    if k > 0 {
      LastAtNone(probabilities, k - 1, idx);
    }
  }

  /** Key i spells idx and no later key does: the entry holds its probability. */
  lemma {:induction false} LastAtKey(probabilities: Dict<string, real>, k: nat, idx: nat, i: nat)
    requires k <= |probabilities.keys| && KeysPresent(probabilities)
    requires i < k && Strings.ParseBinary(probabilities.keys[i]) == Some(idx)
    requires forall j :: i < j < k ==> Strings.ParseBinary(probabilities.keys[j]) != Some(idx)
    ensures LastAt(probabilities, k, idx) == probabilities.values[probabilities.keys[i]]
  {
    if i < k - 1 {
      LastAtKey(probabilities, k - 1, idx, i);
    }
  }

  /** Two bitstrings of the same length with the same value are equal. */
  lemma BinaryValueInjective(a: string, b: string)
    requires Strings.IsBinary(a) && Strings.IsBinary(b) && |a| == |b|
    requires Strings.BinaryValue(a) == Strings.BinaryValue(b)
    ensures a == b
  {
    Strings.BinaryValueBits(a);
    Strings.BinaryValueBits(b);
  }

  /** When every key is an n-bit string (n > 0), as the measured bitstrings
      are, the vector is built, each probability sits at its key's
      big-endian value, and every other entry is 0.0. */
  lemma VectorOfBitstrings(probabilities: Dict<string, real>, n: nat)
    requires Valid(probabilities) && n > 0
    requires forall i :: 0 <= i < |probabilities.keys| ==>
               |probabilities.keys[i]| == n && Strings.IsBinary(probabilities.keys[i])
    ensures KeysPresent(probabilities) && VectorOf(probabilities, n).Success?
    ensures forall key :: key in probabilities.values ==>
              Strings.IsBinary(key) && Strings.BinaryValue(key) < Strings.Pow2(n) &&
              VectorOf(probabilities, n).value[Strings.BinaryValue(key)] == probabilities.values[key]
    ensures forall idx ::
              (0 <= idx < Strings.Pow2(n) && forall key :: key in probabilities.values ==> Strings.ParseBinary(key) != Some(idx)) ==>
              VectorOf(probabilities, n).value[idx] == 0.0
  {
    ValidKeysPresent(probabilities);
    var keys := probabilities.keys;
    var m := |keys|;
    forall i | 0 <= i < m ensures Fits(keys[i], n) {
      Strings.BinaryValueBound(keys[i]);
    }
    PlacedSuccess(probabilities, n, m);
    forall key | key in probabilities.values
      ensures Strings.IsBinary(key) && Strings.BinaryValue(key) < Strings.Pow2(n) &&
              VectorOf(probabilities, n).value[Strings.BinaryValue(key)] == probabilities.values[key]
    {
      var i :| 0 <= i < m && keys[i] == key;
      Strings.BinaryValueBound(key);
      var idx := Strings.BinaryValue(key);
      forall j | i < j < m ensures Strings.ParseBinary(keys[j]) != Some(idx) {
        if Strings.ParseBinary(keys[j]) == Some(idx) {
          BinaryValueInjective(keys[j], key);
        }
      }
      LastAtKey(probabilities, m, idx, i);
      PlacedAt(probabilities, n, m, idx);
    }
    forall idx | 0 <= idx < Strings.Pow2(n) &&
                 (forall key :: key in probabilities.values ==> Strings.ParseBinary(key) != Some(idx))
      ensures VectorOf(probabilities, n).value[idx] == 0.0
    {
      LastAtNone(probabilities, m, idx);
      PlacedAt(probabilities, n, m, idx);
    }
  }

  // ---------------------------------------------------------------------
  // The sign rule

  /** As written, every variant the constructor names gets the sign +1:
      its bases are spelled in upper case, so no lowercase x or y is counted. */
  lemma WrittenSignOfVariant(subId: int, initialized: Dict<nat, Constructor.InitState>, measured: Dict<nat, Constructor.Basis>)
    requires KeysPresent(initialized) && KeysPresent(measured)
    ensures WrittenSign(Constructor.VariantName(subId, initialized, measured)) == 1
  {
    ConstructorProps.VariantNameLetters(subId, initialized, measured);
  }

  /** The corrected sign of a constructor-named variant is -1 exactly when
      an odd number of its measured bases are X or Y. */
  lemma SignOfVariant(subId: int, initialized: Dict<nat, Constructor.InitState>, measured: Dict<nat, Constructor.Basis>)
    requires KeysPresent(initialized) && KeysPresent(measured)
    ensures Sign(Constructor.VariantName(subId, initialized, measured)) ==
              if ConstructorProps.XYCount(ConstructorProps.MeasuredBases(measured)) % 2 == 0 then 1 else -1
  {
    ConstructorProps.VariantNameLetters(subId, initialized, measured);
  }

  /** Subcircuit 0 with no cut-in qubit and local qubit 0 measured in the X
      basis: the name is "sub_0_in__out_q0-X", the written rule gives +1
      and the corrected one -1. */
  lemma WrittenSignCounterexample()
    ensures var measured := Put(Empty(), 0, Constructor.X);
            var name := Constructor.VariantName(0, Empty(), measured);
            WrittenSign(name) == 1 && Sign(name) == -1
  {
    var measured: Dict<nat, Constructor.Basis> := Put(Empty(), 0, Constructor.X);
    assert measured.keys == [0];
    var initialized: Dict<nat, Constructor.InitState> := Empty();
    WrittenSignOfVariant(0, initialized, measured);
    SignOfVariant(0, initialized, measured);
    var bases := ConstructorProps.MeasuredBases(measured);
    assert bases == [Constructor.X];
    assert bases[..0] == [];
  }

  /** As written, a constructor-named variant whose vector can be built
      keeps the base coefficient, whatever its measurement bases. */
  lemma WrittenContributionOfVariant(subId: int, initialized: Dict<nat, Constructor.InitState>, measured: Dict<nat, Constructor.Basis>,
                                     data: Merge.MergedVariant, baseCoeff: real)
    requires KeysPresent(initialized) && KeysPresent(measured) && KeysPresent(data.probabilities)
    requires ContributionOf(Constructor.VariantName(subId, initialized, measured), data, baseCoeff).Success?
    ensures var c := ContributionOf(Constructor.VariantName(subId, initialized, measured), data, baseCoeff).value;
            c.coeff == baseCoeff && c.nQubits == |data.activeQubits| && |c.vec| == Strings.Pow2(c.nQubits)
  {
    WrittenSignOfVariant(subId, initialized, measured);
  }

  /** With the intended sign, the effective coefficient of a
      constructor-named variant is the base coefficient, negated when an odd
      number of measured bases are X or Y. */
  lemma ContributionOfVariant(subId: int, initialized: Dict<nat, Constructor.InitState>, measured: Dict<nat, Constructor.Basis>,
                              data: Merge.MergedVariant, baseCoeff: real)
    requires KeysPresent(initialized) && KeysPresent(measured) && KeysPresent(data.probabilities)
    requires ContributionOfIntended(Constructor.VariantName(subId, initialized, measured), data, baseCoeff).Success?
    ensures var c := ContributionOfIntended(Constructor.VariantName(subId, initialized, measured), data, baseCoeff).value;
            c.coeff == (if ConstructorProps.XYCount(ConstructorProps.MeasuredBases(measured)) % 2 == 0 then baseCoeff else -baseCoeff) &&
            c.nQubits == |data.activeQubits| && |c.vec| == Strings.Pow2(c.nQubits)
  {
    SignOfVariant(subId, initialized, measured);
  }

  // ---------------------------------------------------------------------
  // Grouping

  /** A constructor-built name is grouped under its subcircuit index. */
  lemma GroupKeyOfVariantName(subId: int, initialized: Dict<nat, Constructor.InitState>, measured: Dict<nat, Constructor.Basis>)
    requires KeysPresent(initialized) && KeysPresent(measured)
    ensures GroupKeyOf(Constructor.VariantName(subId, initialized, measured)) == Index(subId)
  {
    var name := Constructor.VariantName(subId, initialized, measured);
    ConstructorProps.VariantNameField(subId, initialized, measured);
    Strings.IntToStringRoundTrip(subId);
    assert name[..4] == "sub_";
  }

  /** The names, in order, whose group key is key. */
  function NamesUnder(names: seq<string>, key: GroupKey): seq<string>
  {
    if |names| == 0 then []
    else NamesUnder(names[..|names| - 1], key) + (if GroupKeyOf(names[|names| - 1]) == key then [names[|names| - 1]] else [])
  }

  lemma {:induction false} NamesUnderMembers(names: seq<string>, key: GroupKey, x: string)
    ensures x in NamesUnder(names, key) <==> x in names && GroupKeyOf(x) == key
  {
    if |names| > 0 {
      NamesUnderMembers(names[..|names| - 1], key, x);
      assert names == names[..|names| - 1] + [names[|names| - 1]];
    }
  }

  /** The names of one group, none when there is no such group. */
  function GroupNames<V>(g: Dict<GroupKey, Dict<string, V>>, key: GroupKey): seq<string>
  {
    if key in g.values then g.values[key].keys else []
  }

  /** The grouping after k variants, its validity and its group names. */
  lemma {:induction false} GroupedState<V>(allResults: Dict<string, V>, k: nat) returns (g: Dict<GroupKey, Dict<string, V>>)
    requires k <= |allResults.keys| && Valid(allResults)
    ensures KeysPresent(allResults) && g == Grouped(allResults, k)
    ensures Valid(g) && forall key :: key in g.values ==> Valid(g.values[key])
    ensures forall key :: GroupNames(g, key) == NamesUnder(allResults.keys[..k], key)
  {
    ValidKeysPresent(allResults);
    if k == 0 {
      g := Empty();
    } else {
      var g0 := GroupedState(allResults, k - 1);
      GroupedStep(allResults, k, g0);
      GroupedUnfold(allResults, k);
      g := AddToGroup(g0, allResults.keys[k - 1], allResults.values[allResults.keys[k - 1]]);
    }
  }

  lemma GroupedStep<V>(allResults: Dict<string, V>, k: nat, g0: Dict<GroupKey, Dict<string, V>>)
    requires 0 < k <= |allResults.keys| && Valid(allResults) && KeysPresent(allResults)
    requires Valid(g0) && forall key :: key in g0.values ==> Valid(g0.values[key])
    requires forall key :: GroupNames(g0, key) == NamesUnder(allResults.keys[..k - 1], key)
    ensures var g := AddToGroup(g0, allResults.keys[k - 1], allResults.values[allResults.keys[k - 1]]);
            Valid(g) && (forall key :: key in g.values ==> Valid(g.values[key])) &&
            forall key :: GroupNames(g, key) == NamesUnder(allResults.keys[..k], key)
  {
    var name := allResults.keys[k - 1];
    NamesUnderMembers(allResults.keys[..k - 1], GroupKeyOf(name), name);
    DistinctLast(allResults.keys, k);
    AddToGroupState(g0, name, allResults.values[name]);
    var g := AddToGroup(g0, name, allResults.values[name]);
    forall key ensures GroupNames(g, key) == NamesUnder(allResults.keys[..k], key) {
      NamesUnderSnoc(allResults.keys, k, key);
    }
  }

  lemma GroupedUnfold<V>(allResults: Dict<string, V>, k: nat)
    requires 0 < k <= |allResults.keys| && KeysPresent(allResults)
    ensures Grouped(allResults, k) == AddToGroup(Grouped(allResults, k - 1), allResults.keys[k - 1], allResults.values[allResults.keys[k - 1]])
  {
  }

  lemma DistinctLast<T>(s: seq<T>, k: nat)
    requires Distinct(s) && 0 < k <= |s|
    ensures s[k - 1] !in s[..k - 1]
  {
  }

  lemma NamesUnderSnoc(names: seq<string>, k: nat, key: GroupKey)
    requires 0 < k <= |names|
    ensures NamesUnder(names[..k], key) ==
              NamesUnder(names[..k - 1], key) + (if GroupKeyOf(names[k - 1]) == key then [names[k - 1]] else [])
  {
    assert names[..k][..k - 1] == names[..k - 1];
  }

  lemma AddToGroupState<V>(g: Dict<GroupKey, Dict<string, V>>, name: string, data: V)
    requires Valid(g) && forall key :: key in g.values ==> Valid(g.values[key])
    requires name !in GroupNames(g, GroupKeyOf(name))
    ensures var g' := AddToGroup(g, name, data);
            Valid(g') && (forall key :: key in g'.values ==> Valid(g'.values[key])) &&
            forall key :: GroupNames(g', key) == GroupNames(g, key) + (if GroupKeyOf(name) == key then [name] else [])
  {
    AddToGroupValid(g, name, data);
    var g' := AddToGroup(g, name, data);
    forall key ensures (key in g'.values ==> Valid(g'.values[key])) &&
                       GroupNames(g', key) == GroupNames(g, key) + (if GroupKeyOf(name) == key then [name] else []) {
      AddToGroupAt(g, name, data, key);
    }
  }

  lemma AddToGroupValid<V>(g: Dict<GroupKey, Dict<string, V>>, name: string, data: V)
    requires Valid(g)
    ensures Valid(AddToGroup(g, name, data))
  {
    AddToGroupPut(g, name, data);
  }

  lemma AddToGroupAt<V>(g: Dict<GroupKey, Dict<string, V>>, name: string, data: V, key: GroupKey)
    requires key in g.values ==> Valid(g.values[key])
    requires GroupKeyOf(name) in g.values ==> Valid(g.values[GroupKeyOf(name)])
    requires name !in GroupNames(g, GroupKeyOf(name))
    ensures var g' := AddToGroup(g, name, data);
            (key in g'.values ==> Valid(g'.values[key])) &&
            GroupNames(g', key) == GroupNames(g, key) + (if GroupKeyOf(name) == key then [name] else [])
  {
    var key' := GroupKeyOf(name);
    if key == key' {
      var inner: Dict<string, V> := if key' in g.values then g.values[key'] else Empty();
      assert name !in inner.values;
      var inner' := Put(inner, name, data);
      assert AddToGroup(g, name, data).values[key] == inner';
    }
  }

  lemma GroupedNames<V>(allResults: Dict<string, V>, k: nat, key: GroupKey)
    requires k <= |allResults.keys| && Valid(allResults)
    ensures KeysPresent(allResults)
    ensures GroupNames(Grouped(allResults, k), key) == NamesUnder(allResults.keys[..k], key)
  {
    var g := GroupedState(allResults, k);
  }

  /** The grouping, as lines 55-64 build it, is a dictionary with one group
      for each key some variant maps to. */
  lemma GroupedKeys<V>(allResults: Dict<string, V>, key: GroupKey)
    requires Valid(allResults)
    ensures KeysPresent(allResults)
    ensures var g := Grouped(allResults, |allResults.keys|);
            Valid(g) && (key in g.values <==> exists name :: name in allResults.values && GroupKeyOf(name) == key)
  {
    ValidKeysPresent(allResults);
    var n := |allResults.keys|;
    var g := Grouped(allResults, n);
    GroupedNames(allResults, n, key);
    GroupedGroup(allResults, n, key);
    assert allResults.keys[..n] == allResults.keys;
    if exists name :: name in allResults.values && GroupKeyOf(name) == key {
      var name :| name in allResults.values && GroupKeyOf(name) == key;
      NamesUnderMembers(allResults.keys, key, name);
    }
    if key in g.values {
      NamesUnderMembers(allResults.keys, key, g.values[key].keys[0]);
    }
  }

  /** Each group lists the variants with its key in input order, each with
      its own data. */
  lemma GroupedGroupSpec<V>(allResults: Dict<string, V>, key: GroupKey)
    requires Valid(allResults)
    ensures KeysPresent(allResults)
    ensures var g := Grouped(allResults, |allResults.keys|);
            key in g.values ==>
              g.values[key].keys == NamesUnder(allResults.keys, key) &&
              forall name :: name in g.values[key].values ==>
                name in allResults.values && g.values[key].values[name] == allResults.values[name]
  {
    ValidKeysPresent(allResults);
    var n := |allResults.keys|;
    var g := Grouped(allResults, n);
    GroupedNames(allResults, n, key);
    assert allResults.keys[..n] == allResults.keys;
    if key in g.values {
      forall name | name in g.values[key].values
        ensures name in allResults.values && g.values[key].values[name] == allResults.values[name]
      {
        GroupedMember(allResults, n, key, name);
      }
    }
  }

  // ---------------------------------------------------------------------
  // sorted(grouped.keys())

  lemma KeyLtTransitive(a: GroupKey, b: GroupKey, c: GroupKey)
    requires KeyLt(a, b) && KeyLt(b, c)
    ensures KeyLt(a, c)
  {
    if a.Name? {
      Strings.StrLtTransitive(a.name, b.name, c.name);
    }
  }

  lemma KeyLtConnected(a: GroupKey, b: GroupKey)
    requires a != b
    ensures KeyLt(a, b) || KeyLt(b, a)
  {
    if a.Name? && b.Name? {
      Strings.StrLtConnected(a.name, b.name);
    }
  }

  /** The order used on group keys is a strict total order. */
  lemma KeyLtStrictTotal()
    ensures Sorting.StrictTotal(KeyLt)
  {
    forall a ensures !KeyLt(a, a) {
      if a.Name? {
        Strings.StrLtIrreflexive(a.name);
      }
    }
    forall a, b, c | KeyLt(a, b) && KeyLt(b, c) ensures KeyLt(a, c) {
      KeyLtTransitive(a, b, c);
    }
    forall a, b | a != b ensures KeyLt(a, b) || KeyLt(b, a) {
      KeyLtConnected(a, b);
    }
  }

  /** sorted() raises TypeError exactly on a mixed list; otherwise it returns
      the keys in increasing order, each once. */
  lemma SortKeysSpec(keys: seq<GroupKey>)
    ensures SortKeys(keys).Success? <==> Uniform(keys)
    ensures SortKeys(keys).Success? ==>
              multiset(SortKeys(keys).value) == multiset(keys) && Sorting.Sorted(SortKeys(keys).value, KeyLt)
    ensures SortKeys(keys).Success? && Distinct(keys) ==>
              forall i, j :: 0 <= i < j < |SortKeys(keys).value| ==> KeyLt(SortKeys(keys).value[i], SortKeys(keys).value[j])
  {
    KeyLtStrictTotal();
    Sorting.SortSpec(keys, KeyLt);
    if SortKeys(keys).Success? && Distinct(keys) {
      var sorted := SortKeys(keys).value;
      Sorting.PermutationDistinct(keys, sorted);
      Sorting.SortedDistinct(sorted, KeyLt);
    }
  }

  /** Subcircuit indices alone sort without error, in increasing order. */
  lemma IndexKeysSort(keys: seq<GroupKey>)
    requires Distinct(keys) && forall i :: 0 <= i < |keys| ==> keys[i].Index?
    ensures SortKeys(keys).Success?
    ensures var sorted := SortKeys(keys).value;
            multiset(sorted) == multiset(keys) &&
            forall i, j :: 0 <= i < j < |sorted| ==> sorted[i].Index? && sorted[j].Index? && sorted[i].index < sorted[j].index
  {
    SortKeysSpec(keys);
    var sorted := SortKeys(keys).value;
    forall i | 0 <= i < |sorted| ensures sorted[i].Index? {
      assert sorted[i] in multiset(keys);
    }
  }

  // ---------------------------------------------------------------------
  // variant_entries (lines 145-150)

  /** An index collects one entry per variant at most. */
  lemma {:induction false} ColumnLength(contribs: seq<Contribution>, idx: nat)
    ensures |Column(contribs, idx)| <= |contribs|
  {
    if |contribs| > 0 {
      ColumnLength(contribs[..|contribs| - 1], idx);
    }
  }

  /** An entry at idx is the nonzero value some variant has there, paired
      with that variant's coefficient, and every such value is collected. */
  lemma {:induction false} ColumnMembers(contribs: seq<Contribution>, idx: nat, e: Entry)
    ensures e in Column(contribs, idx) <==>
              exists i :: 0 <= i < |contribs| && idx < |contribs[i].vec| && contribs[i].vec[idx] != 0.0 &&
                          e == Entry(contribs[i].vec[idx], contribs[i].coeff)
  {
    if |contribs| > 0 {
      var init := contribs[..|contribs| - 1];
      ColumnMembers(init, idx, e);
      if e in Column(init, idx) {
        var i :| 0 <= i < |init| && idx < |init[i].vec| && init[i].vec[idx] != 0.0 && e == Entry(init[i].vec[idx], init[i].coeff);
        assert contribs[i] == init[i];
      }
      if exists i :: 0 <= i < |contribs| && idx < |contribs[i].vec| && contribs[i].vec[idx] != 0.0 &&
                     e == Entry(contribs[i].vec[idx], contribs[i].coeff) {
        var i :| 0 <= i < |contribs| && idx < |contribs[i].vec| && contribs[i].vec[idx] != 0.0 &&
                 e == Entry(contribs[i].vec[idx], contribs[i].coeff);
        if i < |init| {
          assert init[i] == contribs[i];
        }
      }
    }
  }

  /** variant_entries holds every index some variant is nonzero at, and no
      other. */
  lemma ColumnsDomain(contribs: seq<Contribution>, idx: nat)
    ensures idx in Columns(contribs) <==>
              exists i :: 0 <= i < |contribs| && idx < |contribs[i].vec| && contribs[i].vec[idx] != 0.0
  {
    if idx in Columns(contribs) {
      var e := Column(contribs, idx)[0];
      ColumnMembers(contribs, idx, e);
    }
    if exists i :: 0 <= i < |contribs| && idx < |contribs[i].vec| && contribs[i].vec[idx] != 0.0 {
      var i :| 0 <= i < |contribs| && idx < |contribs[i].vec| && contribs[i].vec[idx] != 0.0;
      ColumnMembers(contribs, idx, Entry(contribs[i].vec[idx], contribs[i].coeff));
      ColumnWidth(contribs, idx);
    }
  }

  // ---------------------------------------------------------------------
  // Cutting a global index into local indices (lines 154-166)

  /** Offsets only grow along the subcircuits. */
  lemma {:induction false} OffsetMonotone(subs: seq<SubVector>, i: nat, j: nat)
    requires i <= j <= |subs|
    ensures Offset(subs, i) <= Offset(subs, j)
    decreases j - i
  {
    if i < j {
      OffsetMonotone(subs, i, j - 1);
    }
  }

  /** A subcircuit's bits lie inside the total width. */
  lemma OffsetBound(subs: seq<SubVector>, i: nat)
    requires i < |subs|
    ensures Offset(subs, i) + subs[i].n <= TotalActive(subs)
  {
    OffsetMonotone(subs, i + 1, |subs|);
  }

  /** local_bits (line 168): the bits of subcircuit i in bin_str. */
  function LocalBits(g: nat, subs: seq<SubVector>, i: nat): (s: string)
    requires i < |subs|
    ensures |s| == subs[i].n && Strings.IsBinary(s)
  {
    LocalBitsWithin(g, subs, i);
    SliceOf(Format(g, TotalActive(subs)), Offset(subs, i), Offset(subs, i + 1))
  }

  /** They are exactly subcircuit i's n bits of the total_active-bit form
      of g. */
  lemma LocalBitsWithin(g: nat, subs: seq<SubVector>, i: nat)
    requires i < |subs|
    ensures Offset(subs, i + 1) <= TotalActive(subs)
    ensures SliceOf(Format(g, TotalActive(subs)), Offset(subs, i), Offset(subs, i + 1)) ==
              Strings.Bits(g, TotalActive(subs))[Offset(subs, i)..Offset(subs, i + 1)]
  {
    OffsetBound(subs, i);
    SliceOfFormat(g, TotalActive(subs), Offset(subs, i), subs[i].n);
  }

  /** The local index of subcircuit i for global index g; it addresses an
      entry of that subcircuit's own 2^n-value vector. */
  function LocalIndex(g: nat, subs: seq<SubVector>, i: nat): (l: nat)
    requires i < |subs|
    ensures l < Strings.Pow2(subs[i].n)
  {
    Strings.BinaryValueBound(LocalBits(g, subs, i));
    Strings.BinaryValue(LocalBits(g, subs, i))
  }

  /** The local indices of g, one per subcircuit. */
  function Locals(g: nat, subs: seq<SubVector>): (ls: seq<nat>)
    ensures |ls| == |subs| && forall i :: 0 <= i < |subs| ==> ls[i] == LocalIndex(g, subs, i)
  {
    seq(|subs|, i requires 0 <= i < |subs| => LocalIndex(g, subs, i))
  }

  /** One local index per subcircuit, each inside its subcircuit's range. */
  predicate LocalsFit(subs: seq<SubVector>, ls: seq<nat>)
  {
    |ls| == |subs| && forall i :: 0 <= i < |subs| ==> ls[i] < Strings.Pow2(subs[i].n)
  }

  /** Local indices of the first k subcircuits read back as one number,
      the first subcircuit most significant. */
  function Horner(subs: seq<SubVector>, ls: seq<nat>, k: nat): nat
    requires k <= |subs| && |ls| == |subs|
  {
    if k == 0 then 0 else Horner(subs, ls, k - 1) * Strings.Pow2(subs[k - 1].n) + ls[k - 1]
  }

  /** Local index i is the value of subcircuit i's slice of b. */
  predicate CutFrom(subs: seq<SubVector>, ls: seq<nat>, b: string, i: nat)
    requires i < |subs| == |ls|
  {
    Strings.IsBinary(b) && Offset(subs, i + 1) <= |b| && ls[i] == Strings.BinaryValue(b[Offset(subs, i)..Offset(subs, i + 1)])
  }

  /** Reading local indices back is reading the bits they were cut from. */
  lemma {:induction false} HornerPrefix(subs: seq<SubVector>, ls: seq<nat>, b: string, k: nat)
    requires k <= |subs| == |ls| && Strings.IsBinary(b) && Offset(subs, |subs|) <= |b|
    requires forall i :: 0 <= i < |subs| ==> CutFrom(subs, ls, b, i)
    ensures Offset(subs, k) <= |b|
    ensures Horner(subs, ls, k) == Strings.BinaryValue(b[..Offset(subs, k)])
  {
    OffsetMonotone(subs, k, |subs|);
    if k == 0 {
      assert b[..0] == "";
    } else {
      HornerPrefix(subs, ls, b, k - 1);
      var i := k - 1;
      assert CutFrom(subs, ls, b, i);
      assert i + 1 == k;
      HornerStep(subs, ls, k, b);
    }
  }

  /** The local indices of g read back as the whole bit string of g. */
  lemma RecombinedPrefix(g: nat, subs: seq<SubVector>)
    ensures Horner(subs, Locals(g, subs), |subs|) == Strings.BinaryValue(Strings.Bits(g, TotalActive(subs)))
  {
    var b := Strings.Bits(g, TotalActive(subs));
    LocalsAreSlices(g, subs, b);
    HornerPrefix(subs, Locals(g, subs), b, |subs|);
    assert b[..Offset(subs, |subs|)] == b;
  }

  /** Each local index of g is the value of its slice of g's bits. */
  lemma LocalsAreSlices(g: nat, subs: seq<SubVector>, b: string)
    requires b == Strings.Bits(g, TotalActive(subs))
    ensures forall i :: 0 <= i < |subs| ==> CutFrom(subs, Locals(g, subs), b, i)
  {
    forall i | 0 <= i < |subs| ensures CutFrom(subs, Locals(g, subs), b, i) {
      LocalIndexValue(g, subs, i);
    }
  }

  /** The local index is the value of subcircuit i's bits of g. */
  lemma LocalIndexValue(g: nat, subs: seq<SubVector>, i: nat)
    requires i < |subs|
    ensures Offset(subs, i + 1) <= TotalActive(subs)
    ensures LocalIndex(g, subs, i) ==
              Strings.BinaryValue(Strings.Bits(g, TotalActive(subs))[Offset(subs, i)..Offset(subs, i + 1)])
  {
    LocalBitsWithin(g, subs, i);
  }

  lemma HornerStep(subs: seq<SubVector>, ls: seq<nat>, k: nat, b: string)
    requires 0 < k <= |subs| && |ls| == |subs| && Strings.IsBinary(b) && Offset(subs, k) <= |b|
    requires Horner(subs, ls, k - 1) == Strings.BinaryValue(b[..Offset(subs, k - 1)])
    requires ls[k - 1] == Strings.BinaryValue(b[Offset(subs, k - 1)..Offset(subs, k)])
    ensures Horner(subs, ls, k) == Strings.BinaryValue(b[..Offset(subs, k)])
  {
    PrefixStep(b, Offset(subs, k - 1), subs[k - 1].n, Horner(subs, ls, k - 1));
  }

  /** One more slice of bits shifts the value read so far by its width. */
  lemma PrefixStep(b: string, offset: nat, n: nat, r: nat)
    requires Strings.IsBinary(b) && offset + n <= |b| && r == Strings.BinaryValue(b[..offset])
    ensures r * Strings.Pow2(n) + Strings.BinaryValue(b[offset..offset + n]) == Strings.BinaryValue(b[..offset + n])
  {
    assert b[..offset + n] == b[..offset] + b[offset..offset + n];
    Strings.BinaryValueAppend(b[..offset], b[offset..offset + n]);
  }

  /** The local indices determine the global index: reading them back
      in subcircuit order gives g again. */
  lemma LocalIndicesDetermine(g: nat, subs: seq<SubVector>)
    requires g < Strings.Pow2(TotalActive(subs))
    ensures LocalsFit(subs, Locals(g, subs))
    ensures Horner(subs, Locals(g, subs), |subs|) == g
  {
    RecombinedPrefix(g, subs);
    Strings.BitsRoundTrip(g, TotalActive(subs));
  }

  /** So two global indices never share all their local indices. */
  lemma LocalIndicesInjective(g: nat, h: nat, subs: seq<SubVector>)
    requires g < Strings.Pow2(TotalActive(subs)) && h < Strings.Pow2(TotalActive(subs))
    requires Locals(g, subs) == Locals(h, subs)
    ensures g == h
  {
    LocalIndicesDetermine(g, subs);
    LocalIndicesDetermine(h, subs);
  }

  /** w-bit strings of a and of b, written one after the other. */
  lemma BitsConcat(a: nat, m: nat, b: nat, n: nat, v: nat)
    requires a < Strings.Pow2(m) && b < Strings.Pow2(n) && v == a * Strings.Pow2(n) + b
    ensures v < Strings.Pow2(m + n)
    ensures Strings.Bits(v, m + n) == Strings.Bits(a, m) + Strings.Bits(b, n)
  {
    var s := Strings.Bits(a, m) + Strings.Bits(b, n);
    Strings.BitsRoundTrip(a, m);
    Strings.BitsRoundTrip(b, n);
    Strings.BinaryValueAppend(Strings.Bits(a, m), Strings.Bits(b, n));
    BitsOfValue(s, v);
  }

  lemma BitsOfValue(s: string, v: nat)
    requires Strings.IsBinary(s) && Strings.BinaryValue(s) == v
    ensures v < Strings.Pow2(|s|) && Strings.Bits(v, |s|) == s
  {
    Strings.BinaryValueBits(s);
    Strings.BinaryValueBound(s);
  }

  lemma {:induction false} HornerBound(subs: seq<SubVector>, ls: seq<nat>, k: nat)
    requires k <= |subs| && LocalsFit(subs, ls)
    ensures Horner(subs, ls, k) < Strings.Pow2(Offset(subs, k))
  {
    if k > 0 {
      HornerBound(subs, ls, k - 1);
      BitsConcat(Horner(subs, ls, k - 1), Offset(subs, k - 1), ls[k - 1], subs[k - 1].n, Horner(subs, ls, k));
    }
  }

  /** In the bits of the number read back, subcircuit i's slice holds the
      bits of its own local index. */
  lemma {:induction false} HornerBitsAt(subs: seq<SubVector>, ls: seq<nat>, k: nat, i: nat)
    requires i < k <= |subs| && LocalsFit(subs, ls)
    ensures Offset(subs, i + 1) <= Offset(subs, k)
    ensures Strings.Bits(Horner(subs, ls, k), Offset(subs, k))[Offset(subs, i)..Offset(subs, i + 1)] ==
              Strings.Bits(ls[i], subs[i].n)
  {
    OffsetMonotone(subs, i + 1, k);
    HornerBound(subs, ls, k - 1);
    var head, m, n := Horner(subs, ls, k - 1), Offset(subs, k - 1), subs[k - 1].n;
    BitsConcat(head, m, ls[k - 1], n, Horner(subs, ls, k));
    if i == k - 1 {
      ConcatSlices(Strings.Bits(head, m), Strings.Bits(ls[k - 1], n), m, m + n);
    } else {
      HornerBitsAt(subs, ls, k - 1, i);
      OffsetMonotone(subs, i + 1, k - 1);
      ConcatSlices(Strings.Bits(head, m), Strings.Bits(ls[k - 1], n), Offset(subs, i), Offset(subs, i + 1));
    }
  }

  lemma ConcatSlices(front: string, back: string, lo: nat, hi: nat)
    requires lo <= hi <= |front + back|
    ensures hi <= |front| ==> (front + back)[lo..hi] == front[lo..hi]
    ensures lo == |front| && hi == |front + back| ==> (front + back)[lo..hi] == back
  {
  }

  /** Every combination of local indices is the cut of exactly one global
      index, the one they read back to: the loop over global indices
      visits each combination once. */
  lemma LocalsOfHorner(subs: seq<SubVector>, ls: seq<nat>)
    requires LocalsFit(subs, ls)
    ensures Horner(subs, ls, |subs|) < Strings.Pow2(TotalActive(subs))
    ensures Locals(Horner(subs, ls, |subs|), subs) == ls
  {
    HornerBound(subs, ls, |subs|);
    var g := Horner(subs, ls, |subs|);
    forall i | 0 <= i < |subs| ensures LocalIndex(g, subs, i) == ls[i] {
      LocalBitsWithin(g, subs, i);
      HornerBitsAt(subs, ls, |subs|, i);
      Strings.BitsRoundTrip(ls[i], subs[i].n);
    }
  }

  // ---------------------------------------------------------------------
  // What the inner loop finds for one global index (lines 160-174)

  /** bin_str[offset:offset + n] is the subcircuit's n bits of g, for a
      total width of zero as well (where format writes a lone "0"). */
  lemma SliceOfFormat(g: nat, total: nat, offset: nat, n: nat)
    requires offset + n <= total
    ensures SliceOf(Format(g, total), offset, offset + n) == Strings.Bits(g, total)[offset..offset + n]
  {
    var b := Strings.Bits(g, total);
    if total == 0 {
      assert SliceOf(Format(g, total), offset, offset + n) == "" == b[offset..offset + n];
    } else {
      SliceWithin(b, offset, offset + n);
    }
  }

  /** A slice inside the string is not cut back. */
  lemma SliceWithin(s: string, lo: nat, hi: nat)
    requires lo <= hi <= |s|
    ensures SliceOf(s, lo, hi) == s[lo..hi]
  {
  }
  /** int(local_bits, 2) is the local index, and raises ValueError exactly
      when the subcircuit has no active qubit. */
  lemma ParseAt(g: nat, subs: seq<SubVector>, i: nat)
    requires i < |subs|
    ensures LocalParses(Format(g, TotalActive(subs)), subs)[i] ==
              if subs[i].n > 0 then Some(LocalIndex(g, subs, i)) else None
  {
    assert LocalParse(Format(g, TotalActive(subs)), subs, i) == Strings.ParseBinary(LocalBits(g, subs, i));
  }

  /** int() succeeds on subcircuit i's bits and it has an entry there. */
  predicate Hit(parsed: seq<Option<nat>>, subs: seq<SubVector>, i: nat)
    requires i < |subs| == |parsed|
  {
    parsed[i].Some? && parsed[i].value in subs[i].entries
  }

  /** The entries of the first k subcircuits at their local indices. */
  function Picked(parsed: seq<Option<nat>>, subs: seq<SubVector>, k: nat): (r: seq<seq<Entry>>)
    requires k <= |subs| == |parsed| && forall i :: 0 <= i < k ==> Hit(parsed, subs, i)
    ensures |r| == k
    ensures forall i :: 0 <= i < k ==> Hit(parsed, subs, i) && r[i] == subs[i].entries[parsed[i].value]
  {
    if k == 0 then []
    else
      assert Hit(parsed, subs, k - 1);
      Picked(parsed, subs, k - 1) + [subs[k - 1].entries[parsed[k - 1].value]]
  }

  /** When every subcircuit so far has an entry, the loop has collected
      exactly those entries. */
  lemma {:induction false} ScanFound(parsed: seq<Option<nat>>, subs: seq<SubVector>, k: nat)
    requires k <= |subs| == |parsed| && forall i :: 0 <= i < k ==> Hit(parsed, subs, i)
    ensures Scan(parsed, subs, k) == Success(Found(Picked(parsed, subs, k)))
  {
    if k > 0 {
      ScanFound(parsed, subs, k - 1);
      assert Hit(parsed, subs, k - 1);
      ScanStep(parsed, subs, k - 1, Picked(parsed, subs, k - 1));
    }
  }

  /** The first subcircuit without an entry ends the scan: with ValueError
      when int() raises on its bits, and otherwise by skipping the index. */
  lemma ScanFirstMiss(parsed: seq<Option<nat>>, subs: seq<SubVector>, i: nat)
    requires i < |subs| == |parsed| && (forall j :: 0 <= j < i ==> Hit(parsed, subs, j)) && !Hit(parsed, subs, i)
    ensures Scan(parsed, subs, |subs|) ==
              if parsed[i].None? then Failure(EmptySlice(i)) else Success(Missing)
  {
    ScanFound(parsed, subs, i);
    ScanStep(parsed, subs, i, Picked(parsed, subs, i));
    ScanStays(parsed, subs, i + 1, |subs|);
  }

  /** The scan finds entries exactly when every subcircuit has one. */
  lemma {:induction false} ScanFoundIff(parsed: seq<Option<nat>>, subs: seq<SubVector>, k: nat)
    requires k <= |subs| == |parsed|
    ensures Scan(parsed, subs, k).Success? && Scan(parsed, subs, k).value.Found? <==>
              forall i :: 0 <= i < k ==> Hit(parsed, subs, i)
  {
    if k > 0 {
      ScanFoundIff(parsed, subs, k - 1);
      match Scan(parsed, subs, k - 1)
      case Failure(_) =>
      case Success(Missing) =>
      case Success(Found(values)) =>
        ScanStep(parsed, subs, k - 1, values);
        if !Hit(parsed, subs, k - 1) {
          assert !(forall i :: 0 <= i < k ==> Hit(parsed, subs, i));
        }
    }
  }

  /** With every subcircuit parsed, int() never raises. */
  lemma {:induction false} ScanParses(parsed: seq<Option<nat>>, subs: seq<SubVector>, k: nat)
    requires k <= |subs| == |parsed| && forall i :: 0 <= i < k ==> parsed[i].Some?
    ensures Scan(parsed, subs, k).Success?
  {
    if k > 0 {
      ScanParses(parsed, subs, k - 1);
      assert parsed[k - 1].Some?;
    }
  }

  /** With every subcircuit holding an active qubit, int() never raises. */
  lemma ScanSucceeds(g: nat, subs: seq<SubVector>)
    requires forall i :: 0 <= i < |subs| ==> subs[i].n > 0
    ensures LookupAt(subs, g).Success?
  {
    var parsed := LocalParses(Format(g, TotalActive(subs)), subs);
    forall i | 0 <= i < |subs| ensures parsed[i].Some? {
      ParseAt(g, subs, i);
    }
    ScanParses(parsed, subs, |subs|);
  }

  // ---------------------------------------------------------------------
  // The global vector (lines 154-184)

  /** What the loop writes for one global index: the summed contribution
      when every subcircuit has an entry, and nothing (zero) otherwise. */
  function Written(lookup: Result<Lookup, SliceError>): real
  {
    match lookup
    case Success(Found(values)) => TotalContrib(values)
    case _ => 0.0
  }

  /** The loop runs on exactly while no index raises, and leaves every index
      seen so far holding what was written for it, the rest zero. */
  lemma {:induction false} FilledPrefix(lookups: seq<Result<Lookup, SliceError>>, g: nat)
    requires g <= |lookups|
    ensures Filled(lookups, g).Success? <==> forall j :: 0 <= j < g ==> lookups[j].Success?
    ensures Filled(lookups, g).Success? ==>
              forall j :: 0 <= j < |lookups| ==> Filled(lookups, g).value[j] == if j < g then Written(lookups[j]) else 0.0
  {
    if g > 0 {
      FilledPrefix(lookups, g - 1);
      if !lookups[g - 1].Success? {
        assert !(forall j :: 0 <= j < g ==> lookups[j].Success?);
      }
    }
  }

  /** The first index whose scan raises ends the loop with that error. */
  lemma FilledFirstFailure(lookups: seq<Result<Lookup, SliceError>>, j: nat)
    requires j < |lookups| && lookups[j].Failure? && forall i :: 0 <= i < j ==> lookups[i].Success?
    ensures Filled(lookups, |lookups|) == Failure(lookups[j].error)
  {
    FilledPrefix(lookups, j);
    FilledStays(lookups, j + 1, |lookups|);
  }

  /** Every subcircuit has an entry at its local index of g. */
  predicate AllPresent(g: nat, subs: seq<SubVector>)
  {
    forall i :: 0 <= i < |subs| ==> LocalIndex(g, subs, i) in subs[i].entries
  }

  /** The entries found for g, one list per subcircuit. */
  function EntriesAt(g: nat, subs: seq<SubVector>): (r: seq<seq<Entry>>)
    requires AllPresent(g, subs)
    ensures |r| == |subs| && forall i :: 0 <= i < |subs| ==> r[i] == subs[i].entries[LocalIndex(g, subs, i)]
  {
    seq(|subs|, i requires 0 <= i < |subs| => subs[i].entries[LocalIndex(g, subs, i)])
  }

  /** The probability the reconstruction gives global index g. */
  function Amplitude(g: nat, subs: seq<SubVector>): real
  {
    if AllPresent(g, subs) then TotalContrib(EntriesAt(g, subs)) else 0.0
  }

  /** With every subcircuit holding an active qubit, the inner loop finds
      the entries of all subcircuits at g's local indices, or skips g when
      one of them has none. */
  lemma LookupAtSpec(g: nat, subs: seq<SubVector>)
    requires forall i :: 0 <= i < |subs| ==> subs[i].n > 0
    ensures LookupAt(subs, g) ==
              if AllPresent(g, subs) then Success(Found(EntriesAt(g, subs))) else Success(Missing)
  {
    var parsed := LocalParses(Format(g, TotalActive(subs)), subs);
    forall i | 0 <= i < |subs|
      ensures parsed[i] == Some(LocalIndex(g, subs, i))
      ensures Hit(parsed, subs, i) <==> LocalIndex(g, subs, i) in subs[i].entries
    {
      ParseAt(g, subs, i);
    }
    ScanParses(parsed, subs, |subs|);
    ScanFoundIff(parsed, subs, |subs|);
    if AllPresent(g, subs) {
      ScanFound(parsed, subs, |subs|);
      assert Picked(parsed, subs, |subs|) == EntriesAt(g, subs);
    }
  }

  /** With every subcircuit holding an active qubit, the reconstruction
      succeeds and gives each global index its amplitude. */
  lemma ReconstructedSpec(subs: seq<SubVector>)
    requires forall i :: 0 <= i < |subs| ==> subs[i].n > 0
    ensures Reconstructed(subs).Success?
    ensures |Reconstructed(subs).value| == Strings.Pow2(TotalActive(subs))
    ensures forall g :: 0 <= g < Strings.Pow2(TotalActive(subs)) ==> Reconstructed(subs).value[g] == Amplitude(g, subs)
  {
    var dim := Strings.Pow2(TotalActive(subs));
    var lookups := Lookups(subs, dim);
    forall g | 0 <= g < dim
      ensures lookups[g].Success? && Written(lookups[g]) == Amplitude(g, subs)
    {
      LookupsAt(subs, dim, g);
      LookupAtSpec(g, subs);
    }
    FilledPrefix(lookups, dim);
  }

  /** A first subcircuit without active qubits makes int() raise on the
      very first global index. */
  lemma EmptyFirstFails(subs: seq<SubVector>)
    requires |subs| > 0 && subs[0].n == 0
    ensures Reconstructed(subs) == Failure(EmptySlice(0))
  {
    var parsed := LocalParses(Format(0, TotalActive(subs)), subs);
    ParseAt(0, subs, 0);
    ScanStep(parsed, subs, 0, []);
    ScanStays(parsed, subs, 1, |subs|);
    var dim := Strings.Pow2(TotalActive(subs));
    LookupsAt(subs, dim, 0);
    FilledFirstFailure(Lookups(subs, dim), 0);
  }

  // ---------------------------------------------------------------------
  // The sum over combinations factorises (lines 179-182)

  /** sum(val * eff) over one subcircuit's entries for a local index. */
  function ColumnSum(col: seq<Entry>): real
  {
    if |col| == 0 then 0.0 else ColumnSum(col[..|col| - 1]) + col[|col| - 1].value * col[|col| - 1].coeff
  }

  /** x * y, as a function of its two factors, so that products of equal
      factors are recognised as equal without arithmetic. */
  function Times(x: real, y: real): real
  {
    x * y
  }

  /** The product of the column sums, one per subcircuit. */
  function ColumnProduct(sv: seq<seq<Entry>>): real
  {
    if |sv| == 0 then 1.0 else Times(ColumnProduct(sv[..|sv| - 1]), ColumnSum(sv[|sv| - 1]))
  }

  lemma {:induction false} SumWeightsPrefix(xs: seq<seq<Entry>>, ys: seq<seq<Entry>>, k: nat)
    requires k <= |xs|
    ensures SumWeights(xs + ys, k) == SumWeights(xs, k)
  {
    if k > 0 {
      SumWeightsPrefix(xs, ys, k - 1);
      assert (xs + ys)[k - 1] == xs[k - 1];
    }
  }

  /** Summing a concatenation sums its two halves. */
  lemma {:induction false} SumWeightsConcat(xs: seq<seq<Entry>>, ys: seq<seq<Entry>>, j: nat)
    requires j <= |ys|
    ensures SumWeights(xs + ys, |xs| + j) == SumWeights(xs, |xs|) + SumWeights(ys, j)
  {
    if j == 0 {
      SumWeightsPrefix(xs, ys, |xs|);
    } else {
      SumWeightsConcat(xs, ys, j - 1);
      assert (xs + ys)[|xs| + j - 1] == ys[j - 1];
    }
  }

  lemma SumAllConcat(xs: seq<seq<Entry>>, ys: seq<seq<Entry>>)
    ensures SumWeights(xs + ys, |xs + ys|) == SumWeights(xs, |xs|) + SumWeights(ys, |ys|)
  {
    SumWeightsConcat(xs, ys, |ys|);
  }

  /** A combination extended by one entry weighs its prefix's weight times
      that entry's val * eff. */
  lemma WeightSnoc(p: seq<Entry>, e: Entry)
    ensures Weight(p + [e]) == Weight(p) * (e.value * e.coeff)
  {
    assert (p + [e])[..|p|] == p;
  }

  /** A prefix followed by each entry of a column weighs the prefix times
      the column sum. */
  lemma {:induction false} SumAppend(p: seq<Entry>, col: seq<Entry>, k: nat)
    requires k <= |col|
    ensures SumWeights(Constructor.Append(p, col), k) == Times(Weight(p), ColumnSum(col[..k]))
  {
    if k > 0 {
      SumAppend(p, col, k - 1);
      WeightSnoc(p, col[k - 1]);
      assert col[..k][..k - 1] == col[..k - 1];
      DistributeLeft(Weight(p), ColumnSum(col[..k - 1]), col[k - 1].value * col[k - 1].coeff);
    }
  }

  lemma SumAppendAll(p: seq<Entry>, col: seq<Entry>)
    ensures SumWeights(Constructor.Append(p, col), |Constructor.Append(p, col)|) == Times(Weight(p), ColumnSum(col))
  {
    SumAppend(p, col, |col|);
    assert col[..|col|] == col;
  }

  /** Extending every prefix by every entry of a column multiplies the
      summed weight by the column sum. */
  lemma {:induction false} SumExtend(prefixes: seq<seq<Entry>>, col: seq<Entry>)
    ensures SumWeights(Constructor.Extend(prefixes, col), |Constructor.Extend(prefixes, col)|) ==
              Times(SumWeights(prefixes, |prefixes|), ColumnSum(col))
  {
    if |prefixes| > 0 {
      var init := prefixes[..|prefixes| - 1];
      var last := prefixes[|prefixes| - 1];
      var front := Constructor.Extend(init, col);
      var back := Constructor.Append(last, col);
      assert Constructor.Extend(prefixes, col) == front + back;
      SumExtend(init, col);
      SumAllConcat(front, back);
      SumAppendAll(last, col);
      SumWeightsSnoc(prefixes);
      FactorOut(SumWeights(Constructor.Extend(prefixes, col), |Constructor.Extend(prefixes, col)|),
                SumWeights(prefixes, |prefixes|), SumWeights(init, |init|), Weight(last), ColumnSum(col));
    } else {
      assert Constructor.Extend(prefixes, col) == [];
    }
  }

  /** The summed weight of a non-empty list is that of all but its last
      combination plus the last one's weight. */
  lemma SumWeightsSnoc(prefixes: seq<seq<Entry>>)
    requires |prefixes| > 0
    ensures SumWeights(prefixes, |prefixes|) ==
              SumWeights(prefixes[..|prefixes| - 1], |prefixes| - 1) + Weight(prefixes[|prefixes| - 1])
  {
    var init := prefixes[..|prefixes| - 1];
    assert prefixes == init + [prefixes[|prefixes| - 1]];
    SumWeightsPrefix(init, [prefixes[|prefixes| - 1]], |init|);
  }

  /** x = a c + b c and y = a + b give x = y c. */
  lemma FactorOut(x: real, y: real, a: real, b: real, c: real)
    requires x == Times(a, c) + Times(b, c) && y == a + b
    ensures x == Times(y, c)
  {
  }

  lemma DistributeLeft(a: real, b: real, c: real)
    ensures a * b + a * c == a * (b + c)
  {
  }

  /** The sum over all combinations of the products of val * eff is the
      product, over subcircuits, of each one's sum of val * eff. */
  lemma {:induction false} TotalContribFactors(sv: seq<seq<Entry>>)
    ensures TotalContrib(sv) == ColumnProduct(sv)
  {
    if |sv| > 0 {
      var init := sv[..|sv| - 1];
      TotalContribFactors(init);
      SumExtend(Combos(init), sv[|sv| - 1]);
    } else {
      assert Combos(sv) == [[]];
      assert SumWeights([[]], 1) == 1.0;
    }
  }

  // ---------------------------------------------------------------------
  // When sorted() raises (line 140)

  /** Every variant's key is listed among the grouping's keys. */
  lemma KeyListed(allResults: Results, name: string) returns (i: nat)
    requires Valid(allResults) && name in allResults.values
    ensures KeysPresent(allResults)
    ensures var g := Grouped(allResults, |allResults.keys|);
            i < |g.keys| && g.keys[i] == GroupKeyOf(name)
  {
    GroupedKeys(allResults, GroupKeyOf(name));
    var g := Grouped(allResults, |allResults.keys|);
    assert GroupKeyOf(name) in g.keys;
    i :| i < |g.keys| && g.keys[i] == GroupKeyOf(name);
  }

  /** The reconstruction fails at sorted() exactly when one variant name
      carries a subcircuit index and another does not. */
  lemma UnsortableIff(allResults: Results, baseCoeff: real)
    requires Valid(allResults) && WellKeyed(allResults)
    ensures DdReconstructed(allResults, baseCoeff) == Failure(Unsortable) <==>
              exists a, b :: a in allResults.values && b in allResults.values &&
                             GroupKeyOf(a).Index? && GroupKeyOf(b).Name?
  {
    if Uniform(Grouped(allResults, |allResults.keys|).keys) {
      UniformSorts(allResults, baseCoeff);
    } else {
      MixedFails(allResults, baseCoeff);
    }
  }

  lemma UniformSorts(allResults: Results, baseCoeff: real)
    requires Valid(allResults) && WellKeyed(allResults)
    requires Uniform(Grouped(allResults, |allResults.keys|).keys)
    ensures DdReconstructed(allResults, baseCoeff) != Failure(Unsortable)
    ensures !exists a, b :: a in allResults.values && b in allResults.values &&
                            GroupKeyOf(a).Index? && GroupKeyOf(b).Name?
  {
    UniformNoMix(allResults);
  }

  /** Sortable keys are all indices or all names. */
  lemma UniformNoMix(allResults: Results)
    requires Valid(allResults)
    requires Uniform(Grouped(allResults, |allResults.keys|).keys)
    ensures !exists a, b :: a in allResults.values && b in allResults.values &&
                            GroupKeyOf(a).Index? && GroupKeyOf(b).Name?
  {
    if exists a, b :: a in allResults.values && b in allResults.values &&
                      GroupKeyOf(a).Index? && GroupKeyOf(b).Name? {
      var a, b :| a in allResults.values && b in allResults.values && GroupKeyOf(a).Index? && GroupKeyOf(b).Name?;
      var i := KeyListed(allResults, a);
      var j := KeyListed(allResults, b);
      assert false;
    }
  }

  lemma MixedFails(allResults: Results, baseCoeff: real)
    requires Valid(allResults) && WellKeyed(allResults)
    requires !Uniform(Grouped(allResults, |allResults.keys|).keys)
    ensures DdReconstructed(allResults, baseCoeff) == Failure(Unsortable)
    ensures exists a, b :: a in allResults.values && b in allResults.values &&
                           GroupKeyOf(a).Index? && GroupKeyOf(b).Name?
  {
    var g := Grouped(allResults, |allResults.keys|);
    SortKeysSpec(g.keys);
    var i :| 0 <= i < |g.keys| && !g.keys[i].Index?;
    var j :| 0 <= j < |g.keys| && !g.keys[j].Name?;
    GroupedKeys(allResults, g.keys[i]);
    GroupedKeys(allResults, g.keys[j]);
    var b :| b in allResults.values && GroupKeyOf(b) == g.keys[i];
    var a :| a in allResults.values && GroupKeyOf(a) == g.keys[j];
  }
}
