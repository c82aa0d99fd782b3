/**
 * The frequent-itemset filter: every candidate, in enumeration order, whose
 * support reaches the minimum support, paired with that support.
 */
module Frequent {
  import opened Combinatorics
  import opened Support

  /** One entry `(itemset, support)` of `frequent_itemsets`. */
  datatype FrequentItemset<T> = FrequentItemset(itemset: set<T>, support: real)

  /** Keeps, in order, each candidate whose support is at least minSupport. */
  function FilterFrequent<T(==)>(data: seq<seq<T>>, candidates: seq<seq<T>>, minSupport: real): seq<FrequentItemset<T>>
    requires |data| > 0 || candidates == []
  {
    if candidates == [] then []
    else
      var kept := FilterFrequent(data, candidates[..|candidates| - 1], minSupport);
      var itemset := Elems(candidates[|candidates| - 1]);
      var support := SupportOf(data, itemset);
      if support >= minSupport then kept + [FrequentItemset(itemset, support)] else kept
  }

  /**
   * `frequent_itemsets` for the key order `keys`. With fewer than two keys
   * there is no candidate, so no support is computed and data may be empty.
   */
  function FrequentItemsets<T(==)>(data: seq<seq<T>>, keys: seq<T>, minSupport: real): (r: seq<FrequentItemset<T>>)
    requires |data| > 0 || |keys| < 2
    ensures |keys| < 2 ==> r == []
  {
    FilterFrequent(data, ItemsetCandidates(keys), minSupport)
  }

  lemma FilterFrequentStep<T>(data: seq<seq<T>>, candidates: seq<seq<T>>, c: seq<T>, minSupport: real)
    requires |data| > 0
    ensures FilterFrequent(data, candidates + [c], minSupport)
         == FilterFrequent(data, candidates, minSupport)
          + (if SupportOf(data, Elems(c)) >= minSupport then [FrequentItemset(Elems(c), SupportOf(data, Elems(c)))] else [])
  {
    assert (candidates + [c])[..|candidates|] == candidates;
  }

  lemma {:induction false} FilterFrequentAppend<T>(data: seq<seq<T>>, a: seq<seq<T>>, b: seq<seq<T>>, minSupport: real)
    requires |data| > 0
    ensures FilterFrequent(data, a + b, minSupport) == FilterFrequent(data, a, minSupport) + FilterFrequent(data, b, minSupport)
    decreases |b|
  {
    if b == [] {
      assert a + b == a;
    } else {
      var n := |b| - 1;
      assert a + b == (a + b[..n]) + [b[n]];
      assert b == b[..n] + [b[n]];
      FilterFrequentAppend(data, a, b[..n], minSupport);
      FilterFrequentStep(data, a + b[..n], b[n], minSupport);
      FilterFrequentStep(data, b[..n], b[n], minSupport);
    }
  }

  // ---------------------------------------------------------------------------
  // Soundness: what every kept entry satisfies

  /** Every kept entry is the set of some candidate, with its support, at or above the threshold. */
  lemma {:induction false} FilterFrequentSound<T>(data: seq<seq<T>>, candidates: seq<seq<T>>, minSupport: real, i: nat)
    requires |data| > 0
    requires i < |FilterFrequent(data, candidates, minSupport)|
    ensures var e := FilterFrequent(data, candidates, minSupport)[i];
            && e.support == SupportOf(data, e.itemset) >= minSupport
            && exists j :: 0 <= j < |candidates| && e.itemset == Elems(candidates[j])
  {
    var n := |candidates| - 1;
    var kept := FilterFrequent(data, candidates[..n], minSupport);
    if i < |kept| {
      FilterFrequentSound(data, candidates[..n], minSupport, i);
      var j :| 0 <= j < n && kept[i].itemset == Elems(candidates[..n][j]);
      assert candidates[..n][j] == candidates[j];
    } else {
      assert FilterFrequent(data, candidates, minSupport)[i].itemset == Elems(candidates[n]);
    }
  }

  /**
   * Every entry of `frequent_itemsets` is a set of between 2 and N keys whose
   * support, stored with it, is at least minSupport.
   */
  lemma FrequentSound<T>(data: seq<seq<T>>, keys: seq<T>, minSupport: real, i: nat)
    requires NoDup(keys) && |data| > 0
    requires i < |FrequentItemsets(data, keys, minSupport)|
    ensures var e := FrequentItemsets(data, keys, minSupport)[i];
            && e.itemset <= Elems(keys)
            && 2 <= |e.itemset| <= |keys|
            && e.support == SupportOf(data, e.itemset) >= minSupport
  {
    var cands := ItemsetCandidates(keys);
    var e := FrequentItemsets(data, keys, minSupport)[i];
    assert e.support == SupportOf(data, e.itemset) >= minSupport
        && exists j :: 0 <= j < |cands| && e.itemset == Elems(cands[j]) by {
      FilterFrequentSound(data, cands, minSupport, i);
    }
    var j :| 0 <= j < |cands| && e.itemset == Elems(cands[j]);
    assert 2 <= |cands[j]| <= |keys| && Elems(cands[j]) <= Elems(keys) && |Elems(cands[j])| == |cands[j]| by {
      CandidateShape(keys, 2, |keys| + 1, j);
    }
  }

  // ---------------------------------------------------------------------------
  // Completeness: every frequent set appears, exactly once

  lemma {:induction false} FilterFrequentCount<T>(data: seq<seq<T>>, candidates: seq<seq<T>>, minSupport: real, S: set<T>, v: real)
    requires |data| > 0
    ensures multiset(FilterFrequent(data, candidates, minSupport))[FrequentItemset(S, v)]
         == if v == SupportOf(data, S) && v >= minSupport then ElemsCount(candidates, S) else 0
  {
    if candidates != [] {
      FilterFrequentCount(data, candidates[..|candidates| - 1], minSupport, S, v);
    }
  }

  /**
   * A set of keys is an entry of `frequent_itemsets` exactly once when it has
   * at least two keys and support at least minSupport, and never otherwise.
   */
  lemma FrequentExactlyOnce<T>(data: seq<seq<T>>, keys: seq<T>, minSupport: real, S: set<T>)
    requires NoDup(keys) && |data| > 0
    ensures multiset(FrequentItemsets(data, keys, minSupport))[FrequentItemset(S, SupportOf(data, S))]
         == if S <= Elems(keys) && 2 <= |S| && SupportOf(data, S) >= minSupport then 1 else 0
  {
    FilterFrequentCount(data, ItemsetCandidates(keys), minSupport, S, SupportOf(data, S));
    ItemsetCandidatesExactlyOnce(keys, S);
  }

  // ---------------------------------------------------------------------------
  // Order: entries keep the ascending-size order of the candidates

  lemma {:induction false} FilterFrequentAscending<T>(data: seq<seq<T>>, candidates: seq<seq<T>>, minSupport: real, i: nat, j: nat)
    requires |data| > 0
    requires AscendingLengths(candidates)
    requires forall a :: 0 <= a < |candidates| ==> |Elems(candidates[a])| == |candidates[a]|
    requires i <= j < |FilterFrequent(data, candidates, minSupport)|
    ensures |FilterFrequent(data, candidates, minSupport)[i].itemset| <= |FilterFrequent(data, candidates, minSupport)[j].itemset|
  {
    var n := |candidates| - 1;
    var init := candidates[..n];
    var kept := FilterFrequent(data, init, minSupport);
    var all := FilterFrequent(data, candidates, minSupport);
    assert forall a :: 0 <= a < n ==> init[a] == candidates[a];
    if j < |kept| {
      FilterFrequentAscending(data, init, minSupport, i, j);
    } else if i < |kept| {
      FilterFrequentSound(data, init, minSupport, i);
      var a :| 0 <= a < n && kept[i].itemset == Elems(init[a]);
      assert all[i] == kept[i];
      assert all[j].itemset == Elems(candidates[n]);
    }
  }

  /** `frequent_itemsets` is ordered by ascending itemset size. */
  lemma FrequentAscending<T>(data: seq<seq<T>>, keys: seq<T>, minSupport: real, i: nat, j: nat)
    requires NoDup(keys) && |data| > 0
    requires i <= j < |FrequentItemsets(data, keys, minSupport)|
    ensures |FrequentItemsets(data, keys, minSupport)[i].itemset| <= |FrequentItemsets(data, keys, minSupport)[j].itemset|
  {
    var cands := ItemsetCandidates(keys);
    ItemsetCandidatesAscending(keys);
    assert forall a :: 0 <= a < |cands| ==> |Elems(cands[a])| == |cands[a]| by {
      forall a | 0 <= a < |cands| ensures |Elems(cands[a])| == |cands[a]| {
        CandidateShape(keys, 2, |keys| + 1, a);
      }
    }
    FilterFrequentAscending(data, cands, minSupport, i, j);
  }

  // ---------------------------------------------------------------------------
  // Thresholds outside (0, 1]: the unchecked configuration values

  lemma {:induction false} FilterFrequentThresholds<T>(data: seq<seq<T>>, candidates: seq<seq<T>>, minSupport: real)
    requires |data| > 0
    ensures minSupport <= 0.0 ==> |FilterFrequent(data, candidates, minSupport)| == |candidates|
    ensures minSupport > 1.0 ==> FilterFrequent(data, candidates, minSupport) == []
  {
    if candidates != [] {
      FilterFrequentThresholds(data, candidates[..|candidates| - 1], minSupport);
    }
  }

  /**
   * A minimum support of at most 0 keeps all 2^N - N - 1 candidates; one above
   * 1 keeps none.
   */
  lemma FrequentThresholds<T>(data: seq<seq<T>>, keys: seq<T>, minSupport: real)
    requires |data| > 0
    ensures minSupport <= 0.0 ==> |FrequentItemsets(data, keys, minSupport)| == Pow2(|keys|) - |keys| - 1
    ensures minSupport > 1.0 ==> FrequentItemsets(data, keys, minSupport) == []
  {
    FilterFrequentThresholds(data, ItemsetCandidates(keys), minSupport);
    ItemsetCandidatesCount(keys);
  }
}
