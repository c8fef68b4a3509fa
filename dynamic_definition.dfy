/** Count-bin merging for dynamic definition (src/dynamic_definition.py):
    the bits named by `merged_qubits` are replaced by '-' in every
    bitstring, and counts whose masked bitstrings agree are added up. */
module DynamicDefinition {
  import opened Wrappers
  import opened Dicts

  /** Python list indexing on a list of length L: 0 .. L-1 is itself, -L .. -1
      counts from the end, anything else raises IndexError (None). */
  function PyIndex(L: nat, i: int): Option<nat>
  {
    if 0 <= i < L then Some(i as nat) else if -(L as int) <= i < 0 then Some((i + L) as nat) else None
  }

  /** The list position `len(bitstring) - 1 - mq` that merged qubit mq masks. */
  function MaskPosition(L: nat, mq: int): Option<nat>
  {
    PyIndex(L, L - 1 - mq)
  }

  /** No merged qubit makes the masking raise IndexError. */
  predicate MasksInRange(L: nat, merged: seq<int>)
  {
    forall i :: 0 <= i < |merged| ==> MaskPosition(L, merged[i]).Some?
  }

  /** Position p is masked by some merged qubit. */
  predicate Hit(L: nat, merged: seq<int>, p: nat)
  {
    exists i :: 0 <= i < |merged| && MaskPosition(L, merged[i]) == Some(p)
  }

  /** The partial key of a bitstring: None when an index is out of range. */
  function Masked(s: string, merged: seq<int>): Option<string>
  {
    if MasksInRange(|s|, merged) then
      Some(seq(|s|, p requires 0 <= p < |s| => if Hit(|s|, merged, p) then '-' else s[p]))
    else None
  }

  /** The partial key of one bitstring, built as the loop over merged_qubits
      builds it: a character list overwritten with '-' position by position. */
  method PartialKey(bitstring: string, merged: seq<int>) returns (r: Option<string>)
    ensures r == Masked(bitstring, merged)
  {
    var L := |bitstring|;
    var partialKey := new char[L](p requires 0 <= p < L => bitstring[p]);
    for j := 0 to |merged|
      invariant MasksInRange(L, merged[..j])
      invariant forall p: nat :: p < L ==>
                  partialKey[p] == if Hit(L, merged[..j], p) then '-' else bitstring[p]
    {
      var idx := MaskPosition(L, merged[j]);
      if idx.None? {
        assert !MasksInRange(L, merged);
        return None;
      }
      partialKey[idx.value] := '-';
      forall p: nat | p < L
        ensures Hit(L, merged[..j + 1], p) <==> Hit(L, merged[..j], p) || p == idx.value
      {
        if Hit(L, merged[..j], p) {
          var i :| 0 <= i < j && MaskPosition(L, merged[..j][i]) == Some(p);
          assert merged[..j + 1][i] == merged[..j][i];
        }
        if p == idx.value {
          assert merged[..j + 1][j] == merged[j];
        }
        if Hit(L, merged[..j + 1], p) && p != idx.value {
          var i :| 0 <= i < j + 1 && MaskPosition(L, merged[..j + 1][i]) == Some(p);
          assert merged[..j][i] == merged[..j + 1][i];
        }
      }
    }
    assert merged[..|merged|] == merged;
    assert partialKey[..] == Masked(bitstring, merged).value;
    return Some(partialKey[..]);
  }

  /** Every partial key has its bitstring's length, '-' at position
      len-1-mq (as Python indexes it) for each merged qubit mq, and the
      bitstring's own character everywhere else. */
  lemma MaskedShape(s: string, merged: seq<int>)
    requires MasksInRange(|s|, merged)
    ensures Masked(s, merged).Some? && |Masked(s, merged).value| == |s|
    ensures forall i :: 0 <= i < |merged| ==>
              Masked(s, merged).value[MaskPosition(|s|, merged[i]).value] == '-'
    ensures forall p: nat :: p < |s| && !Hit(|s|, merged, p) ==> Masked(s, merged).value[p] == s[p]
  {
    forall i | 0 <= i < |merged|
      ensures Hit(|s|, merged, MaskPosition(|s|, merged[i]).value)
    {
    }
  }

  /** Masking raises IndexError exactly when some merged qubit is out of range. */
  lemma MaskedFails(s: string, merged: seq<int>)
    ensures Masked(s, merged).None? <==>
              exists i :: 0 <= i < |merged| && !(0 <= merged[i] < 2 * |s|)
  {
    if Masked(s, merged).None? {
      var i :| 0 <= i < |merged| && MaskPosition(|s|, merged[i]).None?;
    }
  }

  /** Two bitstrings of equal length share a bin iff they agree on every
      position no merged qubit masks. */
  lemma SameBin(s: string, t: string, merged: seq<int>)
    requires |s| == |t| && MasksInRange(|s|, merged)
    ensures Masked(s, merged) == Masked(t, merged) <==>
              forall p: nat :: p < |s| && !Hit(|s|, merged, p) ==> s[p] == t[p]
  {
    if Masked(s, merged) == Masked(t, merged) {
      forall p: nat | p < |s| && !Hit(|s|, merged, p) ensures s[p] == t[p] {
        assert Masked(s, merged).value[p] == Masked(t, merged).value[p];
      }
    }
    if forall p: nat :: p < |s| && !Hit(|s|, merged, p) ==> s[p] == t[p] {
      assert Masked(s, merged).value == Masked(t, merged).value;
    }
  }

  /** Masking a partial key again changes nothing. */
  lemma MaskIdempotent(s: string, merged: seq<int>)
    requires Masked(s, merged).Some?
    ensures Masked(Masked(s, merged).value, merged) == Masked(s, merged)
  {
    var t := Masked(s, merged).value;
    assert Masked(t, merged).value == t;
  }

  /** With no merged qubits every bitstring is its own partial key. */
  lemma MaskNothing(s: string)
    ensures Masked(s, []) == Some(s)
  {
    assert Masked(s, []).value == s;
  }

  /** merged_indices = list(range(n_qubits - active_qubits)) */
  function MergedIndices(nQubits: int, activeQubits: int): seq<int>
  {
    seq(if nQubits > activeQubits then nQubits - activeQubits else 0, i => i)
  }

  function Dashes(n: nat): string
  {
    seq(n, _ => '-')
  }

  /** On an n-qubit bitstring, merging range(n - active) keeps the first
      `active` characters and turns the rest into '-'; with active >= n
      nothing is masked. */
  lemma ActivePrefix(s: string, activeQubits: int)
    requires activeQubits >= 0
    ensures Masked(s, MergedIndices(|s|, activeQubits)) ==
              Some(if activeQubits >= |s| then s else s[..activeQubits] + Dashes(|s| - activeQubits))
  {
    var n := |s|;
    var merged := MergedIndices(n, activeQubits);
    if activeQubits < n {
      forall i | 0 <= i < |merged| ensures MaskPosition(n, merged[i]).Some? { }
      forall p: nat | p < n ensures Hit(n, merged, p) <==> activeQubits <= p {
        if activeQubits <= p {
          assert MaskPosition(n, merged[n - 1 - p]) == Some(p);
        }
      }
      assert Masked(s, merged).value == s[..activeQubits] + Dashes(n - activeQubits);
    } else {
      assert merged == [];
      MaskNothing(s);
    }
  }

  /** merge_counts after visiting the first n entries of counts. */
  function MergePrefix(counts: Dict<string, int>, merged: seq<int>, n: nat): Option<Dict<string, int>>
    requires n <= |counts.keys|
  {
    if n == 0 then Some(Empty())
    else
      match MergePrefix(counts, merged, n - 1)
      case None => None
      case Some(acc) =>
        var bitstring := counts.keys[n - 1];
        match Masked(bitstring, merged)
        case None => None
        case Some(key) => Some(AddTo(acc, key, GetOrZero(counts, bitstring)))
  }

  /** merge_counts(counts, merged_qubits); None is the IndexError. */
  function MergeCountsSpec(counts: Dict<string, int>, merged: seq<int>): Option<Dict<string, int>>
  {
    MergePrefix(counts, merged, |counts.keys|)
  }

  /** One pass of merge_counts' loop: the n-th entry added to its bin, or
      the IndexError its partial key raises. */
  method MergeStep(counts: Dict<string, int>, merged: seq<int>, n: nat, mergedDict: Dict<string, int>)
    returns (next: Option<Dict<string, int>>)
    requires KeysPresent(counts) && n < |counts.keys|
    requires MergePrefix(counts, merged, n) == Some(mergedDict)
    ensures next == MergePrefix(counts, merged, n + 1)
  {
    var bitstring := counts.keys[n];
    var ccount := counts.values[bitstring];
    var partialKey := PartialKey(bitstring, merged);
    if partialKey.None? {
      return None;
    }
    var key := partialKey.value;
    var d := mergedDict;
    if key !in d.values {
      d := Put(d, key, 0);
    }
    d := Put(d, key, d.values[key] + ccount);
    InitThenAdd(mergedDict, key, ccount);
    return Some(d);
  }

  method MergeCounts(counts: Dict<string, int>, merged: seq<int>) returns (r: Option<Dict<string, int>>)
    requires KeysPresent(counts)
    ensures r == MergeCountsSpec(counts, merged)
  {
    var mergedDict := Empty();
    for n := 0 to |counts.keys|
      invariant MergePrefix(counts, merged, n) == Some(mergedDict)
    {
      var next := MergeStep(counts, merged, n, mergedDict);
      if next.None? {
        MergePrefixFailed(counts, merged, n + 1, |counts.keys|);
        return None;
      }
      mergedDict := next.value;
    }
    return Some(mergedDict);
  }

  /** The part of merge_counts' result that bin `key` receives from ks. */
  function BinSum(ks: seq<string>, m: map<string, int>, merged: seq<int>, key: string): int
  {
    if |ks| == 0 then 0
    else
      BinSum(ks[..|ks| - 1], m, merged, key) +
      (if Masked(ks[|ks| - 1], merged) == Some(key) then ValueOrZero(m, ks[|ks| - 1]) else 0)
  }

  /** Once an entry fails to mask, the fold stays failed. */
  lemma {:induction false} MergePrefixFailed(counts: Dict<string, int>, merged: seq<int>, n: nat, m: nat)
    requires n <= m <= |counts.keys| && MergePrefix(counts, merged, n).None?
    ensures MergePrefix(counts, merged, m).None?
  {
    if m > n {
      MergePrefixFailed(counts, merged, n, m - 1);
    }
  }

  /** One step of the prefix fold: the n-th entry's count added to its bin. */
  lemma MergePrefixStep(counts: Dict<string, int>, merged: seq<int>, n: nat)
    requires 0 < n <= |counts.keys| && MergePrefix(counts, merged, n).Some?
    ensures MergePrefix(counts, merged, n - 1).Some? && Masked(counts.keys[n - 1], merged).Some?
    ensures MergePrefix(counts, merged, n).value ==
              AddTo(MergePrefix(counts, merged, n - 1).value, Masked(counts.keys[n - 1], merged).value,
                    GetOrZero(counts, counts.keys[n - 1]))
  {
  }

  /** The prefix fold succeeds iff every visited bitstring masks without IndexError. */
  lemma {:induction false} MergePrefixSucceeds(counts: Dict<string, int>, merged: seq<int>, n: nat)
    requires n <= |counts.keys|
    ensures MergePrefix(counts, merged, n).Some? <==>
              forall i :: 0 <= i < n ==> Masked(counts.keys[i], merged).Some?
  {
    if n > 0 {
      MergePrefixSucceeds(counts, merged, n - 1);
    }
  }

  /** The prefix fold yields a valid dictionary holding the visited total. */
  lemma {:induction false} MergePrefixTotal(counts: Dict<string, int>, merged: seq<int>, n: nat)
    requires n <= |counts.keys| && MergePrefix(counts, merged, n).Some?
    ensures Valid(MergePrefix(counts, merged, n).value)
    ensures Total(MergePrefix(counts, merged, n).value) == SumOver(counts.keys[..n], counts.values)
  {
    if n > 0 {
      MergePrefixTotal(counts, merged, n - 1);
      var acc := MergePrefix(counts, merged, n - 1).value;
      var bitstring := counts.keys[n - 1];
      TotalAddTo(acc, Masked(bitstring, merged).value, GetOrZero(counts, bitstring));
      SumOverSnoc(counts.keys, n, counts.values);
    }
  }

  /** Each bin of the prefix fold holds the counts of the visited bitstrings
      that mask to it. */
  lemma {:induction false} MergePrefixBins(counts: Dict<string, int>, merged: seq<int>, n: nat, key: string)
    requires n <= |counts.keys| && MergePrefix(counts, merged, n).Some?
    ensures GetOrZero(MergePrefix(counts, merged, n).value, key) ==
              BinSum(counts.keys[..n], counts.values, merged, key)
  {
    if n > 0 {
      MergePrefixStep(counts, merged, n);
      MergePrefixBins(counts, merged, n - 1, key);
      assert counts.keys[..n][..n - 1] == counts.keys[..n - 1];
      var acc := MergePrefix(counts, merged, n - 1).value;
      var bitstring := counts.keys[n - 1];
      var pk := Masked(bitstring, merged).value;
      var r := AddTo(acc, pk, GetOrZero(counts, bitstring));
      if key != pk {
        assert Get(r, key) == Get(acc, key);
      }
    }
  }

  /** The bins of the prefix fold are the partial keys of the visited bitstrings. */
  lemma {:induction false} MergePrefixKeys(counts: Dict<string, int>, merged: seq<int>, n: nat, key: string)
    requires n <= |counts.keys| && MergePrefix(counts, merged, n).Some?
    ensures key in MergePrefix(counts, merged, n).value.values <==>
              exists i :: 0 <= i < n && Masked(counts.keys[i], merged) == Some(key)
  {
    if n > 0 {
      MergePrefixStep(counts, merged, n);
      MergePrefixKeys(counts, merged, n - 1, key);
      var acc := MergePrefix(counts, merged, n - 1).value;
      var pk := Masked(counts.keys[n - 1], merged).value;
      assert key in MergePrefix(counts, merged, n).value.values <==> key in acc.values || key == pk;
      if key == pk {
        assert Masked(counts.keys[n - 1], merged) == Some(key);
      } else if key in acc.values {
        var i :| 0 <= i < n - 1 && Masked(counts.keys[i], merged) == Some(key);
        assert 0 <= i < n;
      } else {
        forall i | 0 <= i < n ensures Masked(counts.keys[i], merged) != Some(key) {
          if i < n - 1 {
            assert !(0 <= i < n - 1 && Masked(counts.keys[i], merged) == Some(key));
          }
        }
      }
    }
  }

  /** merge_counts raises IndexError iff some bitstring has an out-of-range
      merged qubit; otherwise its bins are the partial keys and each bin holds
      the sum of the counts that mask to it. */
  lemma MergeCountsBins(counts: Dict<string, int>, merged: seq<int>)
    requires Valid(counts)
    ensures MergeCountsSpec(counts, merged).Some? <==>
              forall i :: 0 <= i < |counts.keys| ==> Masked(counts.keys[i], merged).Some?
    ensures MergeCountsSpec(counts, merged).Some? ==>
              var out := MergeCountsSpec(counts, merged).value;
              Valid(out) &&
              (forall key :: GetOrZero(out, key) == BinSum(counts.keys, counts.values, merged, key)) &&
              (forall key :: key in out.keys <==>
                 exists i :: 0 <= i < |counts.keys| && Masked(counts.keys[i], merged) == Some(key))
  {
    var n := |counts.keys|;
    MergePrefixSucceeds(counts, merged, n);
    if MergeCountsSpec(counts, merged).Some? {
      MergePrefixTotal(counts, merged, n);
      assert counts.keys[..n] == counts.keys;
      forall key ensures GetOrZero(MergeCountsSpec(counts, merged).value, key) ==
                           BinSum(counts.keys, counts.values, merged, key) {
        MergePrefixBins(counts, merged, n, key);
      }
      forall key ensures key in MergeCountsSpec(counts, merged).value.keys <==>
                   exists i :: 0 <= i < n && Masked(counts.keys[i], merged) == Some(key) {
        MergePrefixKeys(counts, merged, n, key);
        assert key in MergeCountsSpec(counts, merged).value.keys <==> key in MergeCountsSpec(counts, merged).value.values;
      }
    }
  }

  /** The output bins hold exactly as many counts as the input. */
  lemma MergeCountsTotal(counts: Dict<string, int>, merged: seq<int>)
    requires Valid(counts) && MergeCountsSpec(counts, merged).Some?
    ensures Total(MergeCountsSpec(counts, merged).value) == Total(counts)
  {
    MergePrefixTotal(counts, merged, |counts.keys|);
    assert counts.keys[..|counts.keys|] == counts.keys;
  }

  /** When every bitstring is already its own partial key, the prefix fold
      rebuilds the visited entries, in the same order and with the same counts. */
  lemma {:induction false} MergeFixedPoint(counts: Dict<string, int>, merged: seq<int>, n: nat)
    requires Valid(counts) && n <= |counts.keys|
    requires forall i :: 0 <= i < |counts.keys| ==> Masked(counts.keys[i], merged) == Some(counts.keys[i])
    ensures MergePrefix(counts, merged, n) == Some(Take(counts, n))
  {
    if n > 0 {
      MergeFixedPoint(counts, merged, n - 1);
      TakeSnoc(counts, n);
      assert Masked(counts.keys[n - 1], merged) == Some(counts.keys[n - 1]);
    }
  }

  /** When every bitstring is already its own partial key, merge_counts
      returns its input unchanged. */
  lemma FixedPointAll(counts: Dict<string, int>, merged: seq<int>)
    requires Valid(counts)
    requires forall i :: 0 <= i < |counts.keys| ==> Masked(counts.keys[i], merged) == Some(counts.keys[i])
    ensures MergeCountsSpec(counts, merged) == Some(counts)
  {
    MergeFixedPoint(counts, merged, |counts.keys|);
    TakeAll(counts);
  }

  /** With an empty merged_qubits list the counts come back unchanged. */
  lemma MergeNothing(counts: Dict<string, int>)
    requires Valid(counts)
    ensures MergeCountsSpec(counts, []) == Some(counts)
  {
    forall i | 0 <= i < |counts.keys| ensures Masked(counts.keys[i], []) == Some(counts.keys[i]) {
      MaskNothing(counts.keys[i]);
    }
    FixedPointAll(counts, []);
  }

  /** Merging the merged counts again with the same qubits changes nothing. */
  lemma MergeIdempotent(counts: Dict<string, int>, merged: seq<int>)
    requires Valid(counts) && MergeCountsSpec(counts, merged).Some?
    ensures MergeCountsSpec(MergeCountsSpec(counts, merged).value, merged) == MergeCountsSpec(counts, merged)
  {
    var out := MergeCountsSpec(counts, merged).value;
    MergeCountsBins(counts, merged);
    forall i | 0 <= i < |out.keys| ensures Masked(out.keys[i], merged) == Some(out.keys[i]) {
      var key := out.keys[i];
      assert key in out.keys;
      var j :| 0 <= j < |counts.keys| && Masked(counts.keys[j], merged) == Some(key);
      MaskIdempotent(counts.keys[j], merged);
    }
    FixedPointAll(out, merged);
  }
}
