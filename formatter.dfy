/** Flattening the cut records of every variant that has results
    (src/formatter.py): one record per cut leaving the subcircuit, then one
    per cut entering it, for each variant whose results were collected. */
module Formatter {
  import opened Wrappers
  import opened Dicts
  import Strings
  import Constructor
  import Merge

  type Distribution = Dict<string, real>

  /** One element of subcircuits_data. An upstream record is a cut leaving
      the subcircuit and carries the measurement bases; a downstream record
      is a cut entering it and carries the initial states. */
  datatype Record =
    | Upstream(subcircuitId: int, cutId: int, edge: (int, int),
               measurementBases: Dict<nat, Constructor.Basis>,
               outputDistribution: Distribution, bitstringMapping: map<nat, nat>)
    | Downstream(subcircuitId: int, cutId: int, edge: (int, int),
                 initStates: Dict<nat, Constructor.InitState>,
                 outputDistribution: Distribution, bitstringMapping: map<nat, nat>)

  /** quantum_subcircuits: subcircuit id to its variants by name. */
  type Subcircuits = Dict<int, Dict<string, Constructor.Variant>>

  /** variants_results: str(subcircuit id) to the merged results by name. */
  type VariantsResults = Dict<string, Dict<string, Merge.MergedVariant>>

  /** Both levels of quantum_subcircuits can be iterated. */
  ghost predicate Iterable(qs: Subcircuits)
  {
    KeysPresent(qs) && forall s :: s in qs.values ==> KeysPresent(qs.values[s])
  }

  /** cuts_info.get("out", []) */
  function OutCuts(v: Constructor.Variant): seq<Constructor.CutInfo>
  {
    match v.cutsInfo.outCuts
    case Some(cuts) => cuts
    case None => []
  }

  /** cuts_info.get("in", []) */
  function InCuts(v: Constructor.Variant): seq<Constructor.CutInfo>
  {
    match v.cutsInfo.inCuts
    case Some(cuts) => cuts
    case None => []
  }

  /** Lines 17-23: the output distribution of a variant, when key (str of
      the subcircuit id, line 14) is a key of variants_results and the
      variant's name a key under it. */
  function ResultsOf(vr: VariantsResults, key: string, name: string): Option<Distribution>
  {
    if key in vr.values && name in vr.values[key].values then
      Some(vr.values[key].values[name].probabilities)
    else None
  }

  /** The upstream records of the first k cuts leaving the subcircuit. */
  function Upstreams(subId: int, v: Constructor.Variant, dist: Distribution, k: nat): (r: seq<Record>)
    requires k <= |OutCuts(v)|
    ensures |r| == k
  {
    if k == 0 then []
    else
      var cut := OutCuts(v)[k - 1];
      Upstreams(subId, v, dist, k - 1) + [Upstream(subId, cut.cutId, cut.edge, v.measuredInfo, dist, v.qbitMap)]
  }

  /** The downstream records of the first k cuts entering the subcircuit. */
  function Downstreams(subId: int, v: Constructor.Variant, dist: Distribution, k: nat): (r: seq<Record>)
    requires k <= |InCuts(v)|
    ensures |r| == k
  {
    if k == 0 then []
    else
      var cut := InCuts(v)[k - 1];
      Downstreams(subId, v, dist, k - 1) + [Downstream(subId, cut.cutId, cut.edge, v.initializedInfo, dist, v.qbitMap)]
  }

  /** Lines 17-53 for one variant. */
  function VariantRecords(vr: VariantsResults, subId: int, key: string, name: string, v: Constructor.Variant): seq<Record>
  {
    match ResultsOf(vr, key, name)
    case None => []
    case Some(dist) => Upstreams(subId, v, dist, |OutCuts(v)|) + Downstreams(subId, v, dist, |InCuts(v)|)
  }

  /** The first k parts, one after another. */
  function Concat<T>(parts: seq<seq<T>>, k: nat): seq<T>
    requires k <= |parts|
  {
    if k == 0 then [] else Concat(parts, k - 1) + parts[k - 1]
  }

  /** The records of each variant of one subcircuit, in iteration order. */
  function VariantParts(vr: VariantsResults, subId: int, key: string, variants: Dict<string, Constructor.Variant>)
      : (r: seq<seq<Record>>)
    requires KeysPresent(variants)
    ensures |r| == |variants.keys|
  {
    seq(|variants.keys|, j requires 0 <= j < |variants.keys| =>
      VariantRecords(vr, subId, key, variants.keys[j], variants.values[variants.keys[j]]))
  }

  /** Lines 16-53: the records of one subcircuit. */
  function SubRecords(vr: VariantsResults, subId: int, key: string, variants: Dict<string, Constructor.Variant>): seq<Record>
    requires KeysPresent(variants)
  {
    Concat(VariantParts(vr, subId, key, variants), |variants.keys|)
  }

  /** str of each of the first n subcircuit ids (line 14). */
  function StrIds(qs: Subcircuits, n: nat): (r: seq<string>)
    requires n <= |qs.keys|
    ensures |r| == n
  {
    if n == 0 then [] else StrIds(qs, n - 1) + [Strings.IntToString(qs.keys[n - 1])]
  }

  lemma {:induction false} StrIdsAt(qs: Subcircuits, n: nat, i: nat)
    requires i < n <= |qs.keys|
    ensures StrIds(qs, n)[i] == Strings.IntToString(qs.keys[i])
  {
    if i < n - 1 {
      StrIdsAt(qs, n - 1, i);
    }
  }

  /** The records of each subcircuit, in iteration order, where strIds[i]
      is str of the i-th subcircuit id. */
  function SubcircuitParts(qs: Subcircuits, vr: VariantsResults, strIds: seq<string>): (r: seq<seq<Record>>)
    requires |qs.keys| == |strIds| && Iterable(qs)
    ensures |r| == |qs.keys|
  {
    seq(|qs.keys|, i requires 0 <= i < |qs.keys| =>
      SubRecords(vr, qs.keys[i], strIds[i], qs.values[qs.keys[i]]))
  }

  /** format_data(quantum_subcircuits, variants_results) */
  function Formatted(qs: Subcircuits, vr: VariantsResults): seq<Record>
    requires Iterable(qs)
  {
    Concat(SubcircuitParts(qs, vr, StrIds(qs, |qs.keys|)), |qs.keys|)
  }

  /** Lines 26-53: the cut records of one variant with results, appended
      to subcircuits_data. */
  method AppendCutRecords(data: seq<Record>, subId: int, v: Constructor.Variant, dist: Distribution)
      returns (data': seq<Record>)
    ensures data' == data + (Upstreams(subId, v, dist, |OutCuts(v)|) + Downstreams(subId, v, dist, |InCuts(v)|))
  {
    data' := data;
    var outs := OutCuts(v);
    for k := 0 to |outs|
      invariant data' == data + Upstreams(subId, v, dist, k)
    {
      data' := data' + [Upstream(subId, outs[k].cutId, outs[k].edge, v.measuredInfo, dist, v.qbitMap)];
    }
    var ins := InCuts(v);
    for k := 0 to |ins|
      invariant data' == data + Upstreams(subId, v, dist, |outs|) + Downstreams(subId, v, dist, k)
    {
      data' := data' + [Downstream(subId, ins[k].cutId, ins[k].edge, v.initializedInfo, dist, v.qbitMap)];
    }
  }

  lemma AppendAssoc<T>(a: seq<T>, b: seq<T>, c: seq<T>)
    ensures (a + b) + c == a + (b + c)
  {
  }

  /** Lines 16-53: the records of one subcircuit's variants, appended to
      subcircuits_data; strSubId is str of subId (line 14). */
  method AppendSubcircuit(data: seq<Record>, vr: VariantsResults, subId: int, strSubId: string,
                          variants: Dict<string, Constructor.Variant>)
      returns (data': seq<Record>)
    requires KeysPresent(variants)
    ensures data' == data + SubRecords(vr, subId, strSubId, variants)
  {
    data' := data;
    ghost var parts := VariantParts(vr, subId, strSubId, variants);
    for j := 0 to |variants.keys|
      invariant data' == data + Concat(parts, j)
    {
      var name := variants.keys[j];
      if strSubId in vr.values && name in vr.values[strSubId].values {
        var v := variants.values[name];
        var dist := vr.values[strSubId].values[name].probabilities;
        data' := AppendCutRecords(data', subId, v, dist);
        AppendAssoc(data, Concat(parts, j), parts[j]);
      } else {
        assert parts[j] == [];
        assert Concat(parts, j + 1) == Concat(parts, j) + [];
      }
    }
  }

  /** Lines 13-55. */
  method FormatData(qs: Subcircuits, vr: VariantsResults) returns (data: seq<Record>)
    requires Iterable(qs)
    ensures data == Formatted(qs, vr)
  {
    data := [];
    ghost var parts := SubcircuitParts(qs, vr, StrIds(qs, |qs.keys|));
    for i := 0 to |qs.keys|
      invariant data == Concat(parts, i)
    {
      data := AppendSubcircuitAt(data, qs, vr, i, parts);
    }
  }

  /** Lines 13-53, one pass of the outer loop: str_sub_id, then the records
      of the i-th subcircuit. */
  method AppendSubcircuitAt(data: seq<Record>, qs: Subcircuits, vr: VariantsResults, i: nat, ghost parts: seq<seq<Record>>)
      returns (data': seq<Record>)
    requires Iterable(qs) && i < |qs.keys|
    requires parts == SubcircuitParts(qs, vr, StrIds(qs, |qs.keys|))
    ensures data' == data + parts[i]
  {
    var subId := qs.keys[i];
    var strSubId := Strings.IntToString(subId);
    StrIdsAt(qs, |qs.keys|, i);
    data' := AppendSubcircuit(data, vr, subId, strSubId, qs.values[subId]);
  }
}
