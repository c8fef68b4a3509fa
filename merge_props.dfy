/** What merge_and_normalize_variant_counts returns, stated against the
    QPU results it is given (src/merge.py). */
module MergeProps {
  import opened Wrappers
  import opened Dicts
  import opened Merge
  import Sorting
  import Strings

  // ------------------------------------------------------------ the normalisation fold

  /** The loop runs to the end iff every name's entry exists. */
  lemma {:induction false} CollectSucceeds(names: seq<string>, entry: string -> Option<MergedVariant>, n: nat)
    requires n <= |names|
    ensures Collect(names, entry, n).Success? <==> forall i :: 0 <= i < n ==> entry(names[i]).Some?
  {
    if n > 0 {
      CollectSucceeds(names, entry, n - 1);
    }
  }

  /** The loop stops with the ZeroDivisionError of the first name whose
      entry fails. */
  lemma CollectFirstFailure(names: seq<string>, entry: string -> Option<MergedVariant>, n: nat, i: nat)
    requires i < n <= |names|
    requires entry(names[i]).None?
    requires forall j :: 0 <= j < i ==> entry(names[j]).Some?
    ensures Collect(names, entry, n) == Failure(ZeroDivisionError(names[i]))
  {
    CollectSucceeds(names, entry, i);
    CollectFailStep(names, entry, i + 1);
    CollectFailed(names, entry, i + 1, n);
  }

  lemma CollectFailStep(names: seq<string>, entry: string -> Option<MergedVariant>, n: nat)
    requires 0 < n <= |names| && Collect(names, entry, n - 1).Success? && entry(names[n - 1]).None?
    ensures Collect(names, entry, n) == Failure(ZeroDivisionError(names[n - 1]))
  {
  }

  /** A failed loop names a variant whose entry failed. */
  lemma {:induction false} CollectFailureName(names: seq<string>, entry: string -> Option<MergedVariant>, n: nat)
    requires n <= |names| && Collect(names, entry, n).Failure?
    ensures exists i :: 0 <= i < n && names[i] == Collect(names, entry, n).error.variant && entry(names[i]).None?
  {
    if Collect(names, entry, n - 1).Failure? {
      CollectFailureName(names, entry, n - 1);
    } else {
      assert names[n - 1] == Collect(names, entry, n).error.variant;
    }
  }

  /** One more pass of a loop that has not failed adds the name's entry. */
  lemma CollectStep(names: seq<string>, entry: string -> Option<MergedVariant>, n: nat)
    requires 0 < n <= |names| && Collect(names, entry, n).Success?
    ensures Collect(names, entry, n - 1).Success? && entry(names[n - 1]).Some?
    ensures Collect(names, entry, n).value ==
              Put(Collect(names, entry, n - 1).value, names[n - 1], entry(names[n - 1]).value)
  {
  }

  /** A completed loop over distinct names holds each name once, in order. */
  lemma {:induction false} CollectKeys(names: seq<string>, entry: string -> Option<MergedVariant>, n: nat)
    requires n <= |names| && Distinct(names)
    requires Collect(names, entry, n).Success?
    ensures Valid(Collect(names, entry, n).value) && Collect(names, entry, n).value.keys == names[..n]
  {
    if n > 0 {
      CollectStep(names, entry, n);
      CollectKeys(names, entry, n - 1);
      assert names[n - 1] !in names[..n - 1];
      assert names[..n] == names[..n - 1] + [names[n - 1]];
    }
  }

  /** ... each with its entry. */
  lemma {:induction false} CollectValue(names: seq<string>, entry: string -> Option<MergedVariant>, n: nat, i: nat)
    requires i < n <= |names| && Distinct(names)
    requires Collect(names, entry, n).Success?
    ensures Get(Collect(names, entry, n).value, names[i]) == entry(names[i])
  {
    CollectStep(names, entry, n);
    if i < n - 1 {
      CollectValue(names, entry, n - 1, i);
    }
  }

  lemma CollectContents(names: seq<string>, entry: string -> Option<MergedVariant>, n: nat,
                        out: Dict<string, MergedVariant>)
    requires n <= |names| && Distinct(names)
    requires Collect(names, entry, n) == Success(out)
    ensures Valid(out) && out.keys == names[..n]
    ensures forall i :: 0 <= i < n ==> Get(out, names[i]) == entry(names[i])
  {
    CollectKeys(names, entry, n);
    forall i | 0 <= i < n ensures Get(out, names[i]) == entry(names[i]) {
      CollectValue(names, entry, n, i);
    }
  }

  // ------------------------------------------------------------ one variant's probabilities

  /** The comprehension divides by zero exactly when it has an item and the
      total is zero. */
  lemma ProbabilitiesFail(counts: Dict<string, int>, total: int)
    ensures Probabilities(counts, total).None? <==> |counts.keys| > 0 && total == 0
  {
  }

  /** The probabilities list the counted bitstrings in increasing order,
      each with its count divided by the total. */
  lemma ProbabilitiesContents(counts: Dict<string, int>, total: int)
    requires Valid(counts)
    requires Probabilities(counts, total).Some?
    ensures var p := Probabilities(counts, total).value;
            && Valid(p)
            && multiset(p.keys) == multiset(counts.keys)
            && (forall i, j :: 0 <= i < j < |p.keys| ==> Strings.StrLt(p.keys[i], p.keys[j]))
            && (forall b :: b in p.values <==> b in counts.values)
            && (forall b :: b in p.values ==> p.values[b] == counts.values[b] as real / total as real)
  {
    var p := Probabilities(counts, total).value;
    Sorting.SortSpec(counts.keys, Strings.StrLt);
    Strings.StrLtStrictTotal();
    Sorting.PermutationDistinct(counts.keys, p.keys);
    Sorting.SortedDistinct(p.keys, Strings.StrLt);
    forall b ensures b in p.keys <==> b in counts.keys {
      assert b in p.keys <==> b in multiset(p.keys);
      assert b in counts.keys <==> b in multiset(counts.keys);
    }
  }

  /** Dividing each summand by t divides the sum by t. */
  lemma {:induction false} ScaledSum(ks: seq<string>, m: map<string, int>, pm: map<string, real>, t: int)
    requires t != 0
    requires forall k :: k in ks ==> k in m && k in pm && pm[k] == m[k] as real / t as real
    ensures RealSumOver(ks, pm) == SumOver(ks, m) as real / t as real
  {
    if |ks| > 0 {
      var init, last := ks[..|ks| - 1], ks[|ks| - 1];
      assert forall k :: k in init ==> k in ks;
      ScaledSum(init, m, pm, t);
      assert last in ks;
      SplitQuotient(SumOver(init, m) as real, m[last] as real, t as real);
    }
  }

  lemma SplitQuotient(a: real, b: real, t: real)
    requires t != 0.0
    ensures a / t + b / t == (a + b) / t
  {
  }

  /** When the total is the sum of the counts, the probabilities add up to 1. */
  lemma ProbabilitiesSum(counts: Dict<string, int>, total: int)
    requires Valid(counts) && |counts.keys| > 0 && total == Total(counts) && total != 0
    ensures var p := Probabilities(counts, total).value;
            RealSumOver(p.keys, p.values) == 1.0
  {
    var p := Probabilities(counts, total).value;
    ProbabilitiesContents(counts, total);
    Dicts.RealSumOverPermutation(p.keys, counts.keys, p.values);
    forall k | k in counts.keys
      ensures k in counts.values && k in p.values && p.values[k] == counts.values[k] as real / total as real
    {
    }
    ScaledSum(counts.keys, counts.values, p.values, total);
    assert SumOver(counts.keys, counts.values) == total;
    SelfQuotient(total as real);
  }

  lemma SelfQuotient(t: real)
    requires t != 0.0
    ensures t / t == 1.0
  {
  }

  // ------------------------------------------------------------ the whole merge

  /** The accumulated state of all the results. */
  function Final(results: seq<QpuResult>): (st: State)
    requires WellFormed(results)
    ensures Consistent(st) && Covered(st)
  {
    AccumulateConsistent(results, |results|);
    ConsistentCovered(Accumulate(results, |results|));
    Accumulate(results, |results|)
  }

  /** Some result counts bitstring b for variant name. */
  ghost predicate Counted(results: seq<QpuResult>, name: string)
  {
    exists b :: BitSeen(results, |results|, name, b)
  }

  /** A variant's merged Counter is non-empty iff some result counts a
      bitstring for it. */
  lemma CounterNonEmpty(results: seq<QpuResult>, name: string)
    requires WellFormed(results)
    ensures |CounterIn(Final(results).counts, name).keys| > 0 <==> Counted(results, name)
  {
    var st := Final(results);
    var counter := CounterIn(st.counts, name);
    AccumulateCounterValid(results, |results|, name);
    if |counter.keys| > 0 {
      assert counter.keys[0] in counter.keys;
      AccumulateBits(results, |results|, name, counter.keys[0]);
    }
    if Counted(results, name) {
      var b :| BitSeen(results, |results|, name, b);
      AccumulateBits(results, |results|, name, b);
    }
  }

  /** A mentioned variant fails to normalise iff its shots add up to 0 while
      some bitstring is counted for it. */
  lemma EntryFails(results: seq<QpuResult>, name: string)
    requires WellFormed(results) && Seen(results, |results|, name)
    ensures name in Final(results).counts.values
    ensures EntryOf(Final(results))(name).None? <==>
              ShotsSum(results, |results|, name) == 0 && Counted(results, name)
  {
    AccumulateCountsNamed(results, |results|, name);
    AccumulateShots(results, |results|, name);
    CounterNonEmpty(results, name);
  }

  /** merge_and_normalize_variant_counts raises ZeroDivisionError iff some
      variant has a counted bitstring but zero shots in total. */
  lemma MergeSucceeds(results: seq<QpuResult>)
    requires WellFormed(results)
    ensures MergeSpec(results).Success? <==>
              forall name :: Seen(results, |results|, name) && Counted(results, name) ==>
                ShotsSum(results, |results|, name) != 0
  {
    var st := Final(results);
    var names := st.counts.keys;
    CollectSucceeds(names, EntryOf(st), |names|);
    forall i | 0 <= i < |names|
      ensures Seen(results, |results|, names[i])
    {
      assert names[i] in names;
      AccumulateCountsNamed(results, |results|, names[i]);
    }
    forall name | Seen(results, |results|, name)
      ensures EntryOf(st)(name).None? <==> ShotsSum(results, |results|, name) == 0 && Counted(results, name)
      ensures name in names
    {
      EntryFails(results, name);
    }
  }

  /** A ZeroDivisionError names a mentioned variant with a counted bitstring
      and zero shots. */
  lemma MergeFailure(results: seq<QpuResult>)
    requires WellFormed(results) && MergeSpec(results).Failure?
    ensures var name := MergeSpec(results).error.variant;
            Seen(results, |results|, name) && Counted(results, name) && ShotsSum(results, |results|, name) == 0
  {
    var st := Final(results);
    var names := st.counts.keys;
    CollectFailureName(names, EntryOf(st), |names|);
    var i :| 0 <= i < |names| && names[i] == MergeSpec(results).error.variant && EntryOf(st)(names[i]).None?;
    assert names[i] in names;
    AccumulateCountsNamed(results, |results|, names[i]);
    EntryFails(results, names[i]);
  }

  /** On success the result holds exactly the variants some result mentions. */
  lemma MergeNames(results: seq<QpuResult>, out: Dict<string, MergedVariant>)
    requires WellFormed(results) && MergeSpec(results) == Success(out)
    ensures Valid(out)
    ensures forall name :: name in out.values <==> Seen(results, |results|, name)
    ensures forall name :: name in out.values ==> Some(out.values[name]) == EntryOf(Final(results))(name)
  {
    var st := Final(results);
    var names := st.counts.keys;
    CollectContents(names, EntryOf(st), |names|, out);
    assert names[..|names|] == names;
    forall name ensures name in out.values <==> Seen(results, |results|, name) {
      AccumulateCountsNamed(results, |results|, name);
    }
    forall name | name in out.values ensures Some(out.values[name]) == EntryOf(st)(name) {
      assert name in names;
      var i :| 0 <= i < |names| && names[i] == name;
    }
  }

  /** On success each variant's probabilities list exactly its counted
      bitstrings, in increasing order, each with its merged count over its
      merged shots. */
  lemma MergedProbabilities(results: seq<QpuResult>, out: Dict<string, MergedVariant>, name: string)
    requires WellFormed(results) && MergeSpec(results) == Success(out) && name in out.values
    ensures var p := out.values[name].probabilities;
            && Valid(p)
            && (forall i, j :: 0 <= i < j < |p.keys| ==> Strings.StrLt(p.keys[i], p.keys[j]))
            && (forall b :: b in p.values <==> BitSeen(results, |results|, name, b))
            && (forall b :: b in p.values ==>
                  ShotsSum(results, |results|, name) != 0 &&
                  p.values[b] == CountSum(results, |results|, name, b) as real / ShotsSum(results, |results|, name) as real)
  {
    var st := Final(results);
    MergeNames(results, out);
    AccumulateCountsNamed(results, |results|, name);
    AccumulateShots(results, |results|, name);
    AccumulateCounterValid(results, |results|, name);
    var counter := st.counts.values[name];
    ProbabilitiesContents(counter, GetOrZero(st.shots, name));
    forall b ensures b in counter.values <==> BitSeen(results, |results|, name, b) {
      AccumulateBits(results, |results|, name, b);
    }
    forall b | b in counter.values ensures counter.values[b] == CountSum(results, |results|, name, b) {
      AccumulateCounts(results, |results|, name, b);
    }
  }

  /** On success each variant carries the metadata of the first result that
      mentions it. */
  lemma MergedMetadata(results: seq<QpuResult>, out: Dict<string, MergedVariant>, name: string, k: nat)
    requires WellFormed(results) && MergeSpec(results) == Success(out) && FirstMention(results, k, name)
    ensures name in out.values
    ensures var v := out.values[name];
            var m := MetadataOf(results[k].values[name]);
            v.activeQubits == m.activeQubits && v.initializedQubits == m.initializedQubits &&
            v.measuredQubits == m.measuredQubits
  {
    MergeNames(results, out);
    AccumulateMetadata(results, |results|, k, name);
  }

  /** Where no result gives total_shots for a variant, its shots are the
      sum of its counts. */
  lemma {:induction false} ShotsAreCountSums(results: seq<QpuResult>, i: nat, name: string)
    requires i <= |results|
    requires forall k :: 0 <= k < i && name in results[k].values ==> results[k].values[name].totalShots.None?
    ensures ShotsSum(results, i, name) == TotalSum(results, i, name)
  {
    if i > 0 {
      ShotsAreCountSums(results, i - 1, name);
    }
  }

  /** ... and then its probabilities add up to 1. */
  lemma MergedProbabilitiesSum(results: seq<QpuResult>, out: Dict<string, MergedVariant>, name: string)
    requires WellFormed(results) && MergeSpec(results) == Success(out) && name in out.values
    requires forall k :: 0 <= k < |results| && name in results[k].values ==> results[k].values[name].totalShots.None?
    requires Counted(results, name)
    ensures var p := out.values[name].probabilities;
            RealSumOver(p.keys, p.values) == 1.0
  {
    var st := Final(results);
    MergeNames(results, out);
    AccumulateCountsNamed(results, |results|, name);
    AccumulateShots(results, |results|, name);
    AccumulateTotal(results, |results|, name);
    AccumulateCounterValid(results, |results|, name);
    ShotsAreCountSums(results, |results|, name);
    CounterNonEmpty(results, name);
    EntryFails(results, name);
    ProbabilitiesSum(st.counts.values[name], GetOrZero(st.shots, name));
  }
}
