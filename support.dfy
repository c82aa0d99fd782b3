/**
 * Support of an itemset over a list of transactions: the fraction of
 * transactions that contain every item of the itemset. Transactions are lists
 * (they may repeat an item); `itemset.issubset(transaction)` only asks whether
 * each item occurs at least once.
 */
module Support {

  datatype MiningError = ZeroDivision

  datatype Result<R> = Success(value: R) | Failure(error: MiningError)

  /** `itemset.issubset(transaction)`. */
  predicate Contains<T(==)>(transaction: seq<T>, itemset: set<T>) {
    forall x :: x in itemset ==> x in transaction
  }

  /** How many transactions contain the itemset (the generator sum). */
  function SupportCount<T(==)>(data: seq<seq<T>>, itemset: set<T>): (n: nat)
    ensures n <= |data|
  {
    if data == [] then 0
    else SupportCount(data[..|data| - 1], itemset) + (if Contains(data[|data| - 1], itemset) then 1 else 0)
  }

  /** The positions of the transactions that contain the itemset. */
  ghost function ContainingPositions<T>(data: seq<seq<T>>, itemset: set<T>): set<nat> {
    set i: nat | i < |data| && Contains(data[i], itemset)
  }

  /** Support as an exact fraction; defined only for a non-empty data set. */
  function SupportOf<T(==)>(data: seq<seq<T>>, itemset: set<T>): (r: real)
    requires |data| > 0
    ensures 0.0 <= r <= 1.0
  {
    SupportCountBound(SupportCount(data, itemset), |data|);
    SupportCount(data, itemset) as real / |data| as real
  }

  lemma SupportCountBound(count: nat, total: nat)
    requires count <= total && total > 0
    ensures 0.0 <= count as real / total as real <= 1.0
  {
    var q := count as real / total as real;
    assert q * total as real == count as real;
  }

  // ---------------------------------------------------------------------------
  // Properties

  /** The count is the number of positions whose transaction contains the itemset. */
  lemma {:induction false} SupportCountIsCardinality<T>(data: seq<seq<T>>, itemset: set<T>)
    ensures SupportCount(data, itemset) == |ContainingPositions(data, itemset)|
  {
    if data != [] {
      var n := |data| - 1;
      var init := data[..n];
      SupportCountIsCardinality(init, itemset);
      var before := ContainingPositions(init, itemset);
      var after := ContainingPositions(data, itemset);
      if Contains(data[n], itemset) {
        assert after == before + {n};
        assert n !in before;
      } else {
        assert after == before;
      }
    }
  }

  /** Every transaction contains the itemset exactly when the count is |data|. */
  lemma {:induction false} SupportCountAll<T>(data: seq<seq<T>>, itemset: set<T>)
    ensures SupportCount(data, itemset) == |data| <==> forall i :: 0 <= i < |data| ==> Contains(data[i], itemset)
  {
    if data != [] {
      var n := |data| - 1;
      SupportCountAll(data[..n], itemset);
      assert forall i :: 0 <= i < n ==> data[..n][i] == data[i];
    }
  }

  /** No transaction contains the itemset exactly when the count is 0. */
  lemma {:induction false} SupportCountNone<T>(data: seq<seq<T>>, itemset: set<T>)
    ensures SupportCount(data, itemset) == 0 <==> forall i :: 0 <= i < |data| ==> !Contains(data[i], itemset)
  {
    if data != [] {
      var n := |data| - 1;
      SupportCountNone(data[..n], itemset);
      assert forall i :: 0 <= i < n ==> data[..n][i] == data[i];
    }
  }

  /** Support is 1.0 when every transaction is a superset and 0.0 when none is. */
  lemma SupportExtremes<T>(data: seq<seq<T>>, itemset: set<T>)
    requires |data| > 0
    ensures SupportOf(data, itemset) == 1.0 <==> forall i :: 0 <= i < |data| ==> Contains(data[i], itemset)
    ensures SupportOf(data, itemset) == 0.0 <==> forall i :: 0 <= i < |data| ==> !Contains(data[i], itemset)
  {
    SupportCountAll(data, itemset);
    SupportCountNone(data, itemset);
    RatioExtremes(SupportCount(data, itemset), |data|);
  }

  lemma RatioExtremes(count: nat, total: nat)
    requires total > 0
    ensures count as real / total as real == 1.0 <==> count == total
    ensures count as real / total as real == 0.0 <==> count == 0
  {
    var q := count as real / total as real;
    assert q * total as real == count as real;
  }

  /** A larger itemset is contained in no more transactions. */
  lemma {:induction false} SupportCountAntiMonotone<T>(data: seq<seq<T>>, a: set<T>, b: set<T>)
    requires a <= b
    ensures SupportCount(data, b) <= SupportCount(data, a)
  {
    if data != [] {
      SupportCountAntiMonotone(data[..|data| - 1], a, b);
    }
  }

  /** Anti-monotonicity: A <= B implies support(B) <= support(A). */
  lemma SupportAntiMonotone<T>(data: seq<seq<T>>, a: set<T>, b: set<T>)
    requires |data| > 0 && a <= b
    ensures SupportOf(data, b) <= SupportOf(data, a)
  {
    SupportCountAntiMonotone(data, a, b);
    DivideMonotone(SupportCount(data, b) as real, SupportCount(data, a) as real, |data| as real);
  }

  lemma DivideMonotone(x: real, y: real, t: real)
    requires x <= y && t > 0.0
    ensures x / t <= y / t
  {
    assert y / t - x / t == (y - x) / t;
  }
}
