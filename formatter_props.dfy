/** What format_data's output contains (src/formatter.py): exactly the cut
    records of the variants that have results, each variant's upstream
    records before its downstream ones. */
module FormatterProps {
  import opened Wrappers
  import opened Dicts
  import Constructor
  import Strings
  import opened Formatter

  /** r is the record of one cut of variant v (named name in subcircuit
      subId), built from that variant's results. */
  ghost predicate FromVariant(vr: VariantsResults, subId: int, key: string, name: string, v: Constructor.Variant, r: Record)
  {
    ResultsOf(vr, key, name).Some? &&
    var dist := ResultsOf(vr, key, name).value;
    (exists c :: c in OutCuts(v) && r == Upstream(subId, c.cutId, c.edge, v.measuredInfo, dist, v.qbitMap)) ||
    (exists c :: c in InCuts(v) && r == Downstream(subId, c.cutId, c.edge, v.initializedInfo, dist, v.qbitMap))
  }

  /** r is the record of one cut of some variant of the subcircuit. */
  ghost predicate FromSubcircuit(vr: VariantsResults, subId: int, key: string, variants: Dict<string, Constructor.Variant>, r: Record)
  {
    exists j :: 0 <= j < |variants.keys| && variants.keys[j] in variants.values &&
      FromVariant(vr, subId, key, variants.keys[j], variants.values[variants.keys[j]], r)
  }

  /** The i-th upstream record is the record of the i-th cut leaving the
      subcircuit. */
  lemma {:induction false} UpstreamsAt(subId: int, v: Constructor.Variant, dist: Distribution, k: nat, i: nat)
    requires i < k <= |OutCuts(v)|
    ensures Upstreams(subId, v, dist, k)[i] ==
            Upstream(subId, OutCuts(v)[i].cutId, OutCuts(v)[i].edge, v.measuredInfo, dist, v.qbitMap)
  {
    if i < k - 1 {
      UpstreamsAt(subId, v, dist, k - 1, i);
    }
  }

  /** The i-th downstream record is the record of the i-th cut entering the
      subcircuit. */
  lemma {:induction false} DownstreamsAt(subId: int, v: Constructor.Variant, dist: Distribution, k: nat, i: nat)
    requires i < k <= |InCuts(v)|
    ensures Downstreams(subId, v, dist, k)[i] ==
            Downstream(subId, InCuts(v)[i].cutId, InCuts(v)[i].edge, v.initializedInfo, dist, v.qbitMap)
  {
    if i < k - 1 {
      DownstreamsAt(subId, v, dist, k - 1, i);
    }
  }

  lemma UpstreamsIff(subId: int, v: Constructor.Variant, dist: Distribution, r: Record)
    ensures r in Upstreams(subId, v, dist, |OutCuts(v)|) <==>
            exists c :: c in OutCuts(v) && r == Upstream(subId, c.cutId, c.edge, v.measuredInfo, dist, v.qbitMap)
  {
    var ups := Upstreams(subId, v, dist, |OutCuts(v)|);
    if r in ups {
      var i :| 0 <= i < |ups| && ups[i] == r;
      UpstreamsAt(subId, v, dist, |OutCuts(v)|, i);
      assert OutCuts(v)[i] in OutCuts(v);
    }
    if exists c :: c in OutCuts(v) && r == Upstream(subId, c.cutId, c.edge, v.measuredInfo, dist, v.qbitMap) {
      var c :| c in OutCuts(v) && r == Upstream(subId, c.cutId, c.edge, v.measuredInfo, dist, v.qbitMap);
      var i :| 0 <= i < |OutCuts(v)| && OutCuts(v)[i] == c;
      UpstreamsAt(subId, v, dist, |OutCuts(v)|, i);
      assert ups[i] == r;
    }
  }

  lemma DownstreamsIff(subId: int, v: Constructor.Variant, dist: Distribution, r: Record)
    ensures r in Downstreams(subId, v, dist, |InCuts(v)|) <==>
            exists c :: c in InCuts(v) && r == Downstream(subId, c.cutId, c.edge, v.initializedInfo, dist, v.qbitMap)
  {
    var downs := Downstreams(subId, v, dist, |InCuts(v)|);
    if r in downs {
      var i :| 0 <= i < |downs| && downs[i] == r;
      DownstreamsAt(subId, v, dist, |InCuts(v)|, i);
      assert InCuts(v)[i] in InCuts(v);
    }
    if exists c :: c in InCuts(v) && r == Downstream(subId, c.cutId, c.edge, v.initializedInfo, dist, v.qbitMap) {
      var c :| c in InCuts(v) && r == Downstream(subId, c.cutId, c.edge, v.initializedInfo, dist, v.qbitMap);
      var i :| 0 <= i < |InCuts(v)| && InCuts(v)[i] == c;
      DownstreamsAt(subId, v, dist, |InCuts(v)|, i);
      assert downs[i] == r;
    }
  }

  /** A variant contributes exactly one record per cut, and only when its
      results were collected. */
  lemma VariantRecordsIff(vr: VariantsResults, subId: int, key: string, name: string, v: Constructor.Variant, r: Record)
    ensures r in VariantRecords(vr, subId, key, name, v) <==> FromVariant(vr, subId, key, name, v, r)
  {
    match ResultsOf(vr, key, name)
    case None =>
    case Some(dist) =>
      UpstreamsIff(subId, v, dist, r);
      DownstreamsIff(subId, v, dist, r);
  }

  /** The records of a variant with results: |out| upstream records in the
      order of the cuts leaving it, then |in| downstream records in the
      order of the cuts entering it, all carrying its distribution and
      bitstring mapping. A variant without results gives none. */
  lemma VariantRecordsLayout(vr: VariantsResults, subId: int, key: string, name: string, v: Constructor.Variant)
    ensures ResultsOf(vr, key, name).None? ==> VariantRecords(vr, subId, key, name, v) == []
    ensures ResultsOf(vr, key, name).Some? ==>
      var rs := VariantRecords(vr, subId, key, name, v);
      var outs := OutCuts(v);
      var ins := InCuts(v);
      |rs| == |outs| + |ins| &&
      (forall i :: 0 <= i < |rs| ==>
         rs[i].subcircuitId == subId &&
         rs[i].outputDistribution == ResultsOf(vr, key, name).value &&
         rs[i].bitstringMapping == v.qbitMap) &&
      (forall i :: 0 <= i < |outs| ==>
         rs[i].Upstream? && rs[i].cutId == outs[i].cutId && rs[i].edge == outs[i].edge &&
         rs[i].measurementBases == v.measuredInfo) &&
      (forall i :: 0 <= i < |ins| ==>
         rs[|outs| + i].Downstream? && rs[|outs| + i].cutId == ins[i].cutId &&
         rs[|outs| + i].edge == ins[i].edge && rs[|outs| + i].initStates == v.initializedInfo)
  {
    match ResultsOf(vr, key, name)
    case None =>
    case Some(dist) =>
      forall i | 0 <= i < |OutCuts(v)| {
        UpstreamsAt(subId, v, dist, |OutCuts(v)|, i);
      }
      forall i | 0 <= i < |InCuts(v)| {
        DownstreamsAt(subId, v, dist, |InCuts(v)|, i);
      }
  }

  /** An element of the first k parts lies in one of them. */
  lemma {:induction false} ConcatSound<T>(parts: seq<seq<T>>, k: nat, x: T) returns (i: nat)
    requires k <= |parts| && x in Concat(parts, k)
    ensures i < k && x in parts[i]
  {
    if x in Concat(parts, k - 1) {
      i := ConcatSound(parts, k - 1, x);
    } else {
      i := k - 1;
    }
  }

  /** An element of one of the first k parts lies in their concatenation. */
  lemma {:induction false} ConcatComplete<T>(parts: seq<seq<T>>, k: nat, i: nat, x: T)
    requires i < k <= |parts| && x in parts[i]
    ensures x in Concat(parts, k)
  {
    if i < k - 1 {
      ConcatComplete(parts, k - 1, i, x);
    }
  }

  /** Part i sits, whole, right after the parts before it: the records of
      a subcircuit (of a variant) are contiguous and in iteration order. */
  lemma {:induction false} ConcatBlock<T>(parts: seq<seq<T>>, i: nat, n: nat)
    requires i < n <= |parts|
    ensures |Concat(parts, i)| + |parts[i]| <= |Concat(parts, n)|
    ensures Concat(parts, n)[|Concat(parts, i)|..|Concat(parts, i)| + |parts[i]|] == parts[i]
  {
    if n == i + 1 {
      SliceOfAppendRight(Concat(parts, i), parts[i]);
    } else {
      ConcatBlock(parts, i, n - 1);
      SliceOfAppendLeft(Concat(parts, n - 1), parts[n - 1], |Concat(parts, i)|, |Concat(parts, i)| + |parts[i]|);
    }
  }

  lemma SliceOfAppendRight<T>(a: seq<T>, b: seq<T>)
    ensures (a + b)[|a|..|a| + |b|] == b
  {
  }

  lemma SliceOfAppendLeft<T>(a: seq<T>, b: seq<T>, lo: nat, hi: nat)
    requires lo <= hi <= |a|
    ensures (a + b)[lo..hi] == a[lo..hi]
  {
  }

  /** The records of one subcircuit are exactly the cut records of its
      variants that have results. */
  lemma SubRecordsIff(vr: VariantsResults, subId: int, key: string, variants: Dict<string, Constructor.Variant>, r: Record)
    requires KeysPresent(variants)
    ensures r in SubRecords(vr, subId, key, variants) <==> FromSubcircuit(vr, subId, key, variants, r)
  {
    var parts := VariantParts(vr, subId, key, variants);
    if r in SubRecords(vr, subId, key, variants) {
      var j := ConcatSound(parts, |variants.keys|, r);
      VariantRecordsIff(vr, subId, key, variants.keys[j], variants.values[variants.keys[j]], r);
    }
    if FromSubcircuit(vr, subId, key, variants, r) {
      var j :| 0 <= j < |variants.keys| && variants.keys[j] in variants.values &&
        FromVariant(vr, subId, key, variants.keys[j], variants.values[variants.keys[j]], r);
      VariantRecordsIff(vr, subId, key, variants.keys[j], variants.values[variants.keys[j]], r);
      ConcatComplete(parts, |variants.keys|, j, r);
    }
  }

  /** Every record of format_data describes one cut of one variant with
      results (looked up under str of its subcircuit id), and every cut of
      every such variant has its record. */
  lemma FormattedIff(qs: Subcircuits, vr: VariantsResults, r: Record)
    requires Iterable(qs)
    ensures r in Formatted(qs, vr) <==>
            exists i :: 0 <= i < |qs.keys| && FromSubcircuit(vr, qs.keys[i], Strings.IntToString(qs.keys[i]), qs.values[qs.keys[i]], r)
  {
    var strIds := StrIds(qs, |qs.keys|);
    var parts := SubcircuitParts(qs, vr, strIds);
    if r in Formatted(qs, vr) {
      var i := ConcatSound(parts, |qs.keys|, r);
      StrIdsAt(qs, |qs.keys|, i);
      SubRecordsIff(vr, qs.keys[i], strIds[i], qs.values[qs.keys[i]], r);
    }
    if exists i :: 0 <= i < |qs.keys| && FromSubcircuit(vr, qs.keys[i], Strings.IntToString(qs.keys[i]), qs.values[qs.keys[i]], r) {
      var i :| 0 <= i < |qs.keys| && FromSubcircuit(vr, qs.keys[i], Strings.IntToString(qs.keys[i]), qs.values[qs.keys[i]], r);
      StrIdsAt(qs, |qs.keys|, i);
      SubRecordsIff(vr, qs.keys[i], strIds[i], qs.values[qs.keys[i]], r);
      ConcatComplete(parts, |qs.keys|, i, r);
    }
  }

  /** The records of the i-th subcircuit form one contiguous block of
      format_data, starting right after those of the subcircuits before it. */
  lemma FormattedBlock(qs: Subcircuits, vr: VariantsResults, i: nat) returns (start: nat)
    requires Iterable(qs) && i < |qs.keys|
    ensures start == |Concat(SubcircuitParts(qs, vr, StrIds(qs, |qs.keys|)), i)|
    ensures start + |SubRecords(vr, qs.keys[i], Strings.IntToString(qs.keys[i]), qs.values[qs.keys[i]])| <= |Formatted(qs, vr)|
    ensures Formatted(qs, vr)[start..start + |SubRecords(vr, qs.keys[i], Strings.IntToString(qs.keys[i]), qs.values[qs.keys[i]])|] ==
            SubRecords(vr, qs.keys[i], Strings.IntToString(qs.keys[i]), qs.values[qs.keys[i]])
  {
    var parts := SubcircuitParts(qs, vr, StrIds(qs, |qs.keys|));
    StrIdsAt(qs, |qs.keys|, i);
    assert parts[i] == SubRecords(vr, qs.keys[i], Strings.IntToString(qs.keys[i]), qs.values[qs.keys[i]]);
    ConcatBlock(parts, i, |qs.keys|);
    start := |Concat(parts, i)|;
  }

  // ---------------------------------------------------------------------
  // How many records

  /** One record per cut of a variant with results, none otherwise. */
  function CutCount(vr: VariantsResults, key: string, name: string, v: Constructor.Variant): nat
  {
    if ResultsOf(vr, key, name).Some? then |OutCuts(v)| + |InCuts(v)| else 0
  }

  /** The cut counts of the first k variants of one subcircuit, added up. */
  function SubCount(vr: VariantsResults, key: string, variants: Dict<string, Constructor.Variant>, k: nat): nat
    requires k <= |variants.keys| && KeysPresent(variants)
  {
    if k == 0 then 0
    else SubCount(vr, key, variants, k - 1) + CutCount(vr, key, variants.keys[k - 1], variants.values[variants.keys[k - 1]])
  }

  /** The cut counts of the variants of the first k subcircuits, added up,
      where strIds[i] is str of the i-th subcircuit id. */
  function TotalCount(qs: Subcircuits, vr: VariantsResults, strIds: seq<string>, k: nat): nat
    requires k <= |qs.keys| == |strIds| && Iterable(qs)
  {
    if k == 0 then 0
    else
      assert forall s :: s in qs.values ==> KeysPresent(qs.values[s]);
      assert qs.keys[k - 1] in qs.values;
      var variants := qs.values[qs.keys[k - 1]];
      TotalCount(qs, vr, strIds, k - 1) + SubCount(vr, strIds[k - 1], variants, |variants.keys|)
  }

  lemma {:induction false} SubRecordsLength(vr: VariantsResults, subId: int, key: string,
                                            variants: Dict<string, Constructor.Variant>, k: nat)
    requires k <= |variants.keys| && KeysPresent(variants)
    ensures |Concat(VariantParts(vr, subId, key, variants), k)| == SubCount(vr, key, variants, k)
  {
    if k > 0 {
      SubRecordsLength(vr, subId, key, variants, k - 1);
      var name := variants.keys[k - 1];
      VariantRecordsLayout(vr, subId, key, name, variants.values[name]);
    }
  }

  lemma {:induction false} RecordsLength(qs: Subcircuits, vr: VariantsResults, strIds: seq<string>, k: nat)
    requires k <= |qs.keys| == |strIds| && Iterable(qs)
    ensures |Concat(SubcircuitParts(qs, vr, strIds), k)| == TotalCount(qs, vr, strIds, k)
  {
    if k > 0 {
      RecordsLength(qs, vr, strIds, k - 1);
      var variants := qs.values[qs.keys[k - 1]];
      SubRecordsLength(vr, qs.keys[k - 1], strIds[k - 1], variants, |variants.keys|);
    }
  }

  /** format_data returns one record per cut of every variant that has
      results (looked up under str of its subcircuit id), and no other. */
  lemma FormattedLength(qs: Subcircuits, vr: VariantsResults)
    requires Iterable(qs)
    ensures |Formatted(qs, vr)| == TotalCount(qs, vr, StrIds(qs, |qs.keys|), |qs.keys|)
  {
    RecordsLength(qs, vr, StrIds(qs, |qs.keys|), |qs.keys|);
  }
}
