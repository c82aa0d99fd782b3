/**
 * The miner object. Its constructor stores the data set and both thresholds
 * (never reassigned afterwards, hence `const`) and empty result fields; the
 * two phases reset and refill the result fields with nested loops, and
 * `MineAssociationRules` calls them in order.
 */
module BruteForce {
  import opened Combinatorics
  import opened Support
  import opened ItemCounts
  import opened Frequent
  import opened Rules

  class BruteForceAssociationRuleMiner<T(==,!new)> {
    const data: seq<seq<T>>
    const minSupport: real
    const minConfidence: real
    /** The iteration order of Python sets, which the rule loop follows. */
    const setOrder: set<T> -> seq<T>

    /** `itemset_counts`: the dictionary's values ... */
    var itemsetCounts: map<T, nat>
    /** ... and its keys in insertion order. */
    var itemsetKeys: seq<T>
    var frequentItemsets: seq<FrequentItemset<T>>
    var associationRules: seq<AssociationRule<T>>

    /**
     * The dictionary's ordered keys are its keys, each once; lookups
     * `itemset_counts[item]` for items of frequent itemsets succeed and never
     * divide by zero.
     */
    ghost predicate Valid()
      reads this
    {
      && IsSetOrder(setOrder)
      && NoDup(itemsetKeys)
      && Elems(itemsetKeys) == itemsetCounts.Keys
      && CountsCover(frequentItemsets, itemsetCounts)
    }

    constructor (data: seq<seq<T>>, setOrder: set<T> -> seq<T>, minSupport: real := 0.1, minConfidence: real := 0.5)
      requires IsSetOrder(setOrder)
      ensures Valid()
      ensures this.data == data && this.setOrder == setOrder
      ensures this.minSupport == minSupport && this.minConfidence == minConfidence
      ensures itemsetCounts == map[] && itemsetKeys == []
      ensures frequentItemsets == [] && associationRules == []
    {
      this.data := data;
      this.setOrder := setOrder;
      this.minSupport := minSupport;
      this.minConfidence := minConfidence;
      itemsetCounts := map[];
      itemsetKeys := [];
      frequentItemsets := [];
      associationRules := [];
    }

    /**
     * `calculate_support`: the fraction of transactions that contain the
     * itemset; dividing by `len(data)` fails on an empty data set.
     */
    function CalculateSupport(itemset: set<T>): (r: Result<real>)
      ensures r.Failure? <==> |data| == 0
      ensures r.Success? ==> r.value == SupportCount(data, itemset) as real / |data| as real
      ensures r.Success? ==> 0.0 <= r.value <= 1.0
    {
      if |data| == 0 then Failure(ZeroDivision) else Success(SupportOf(data, itemset))
    }

    /**
     * `find_frequent_itemsets`: resets both fields, counts every item
     * occurrence into the dictionary, then keeps each candidate of size 2 to N
     * whose support reaches minSupport.
     */
    method FindFrequentItemsets()
      requires Valid()
      modifies this
      ensures Valid()
      ensures itemsetKeys == FirstSeen(Flatten(data))
      ensures itemsetCounts == OccurrenceCounts(Flatten(data))
      ensures |data| > 0 || |itemsetKeys| < 2
      ensures frequentItemsets == FrequentItemsets(data, itemsetKeys, minSupport)
      ensures associationRules == old(associationRules)
    {
      itemsetCounts := map[];
      itemsetKeys := [];
      frequentItemsets := [];
      CountItems();
      CollectFrequentItemsets();
    }

    /** The counting loop: every item of every transaction, in order. */
    method CountItems()
      requires itemsetCounts == map[] && itemsetKeys == [] && frequentItemsets == []
      modifies this
      ensures itemsetKeys == FirstSeen(Flatten(data))
      ensures itemsetCounts == OccurrenceCounts(Flatten(data))
      ensures frequentItemsets == [] && associationRules == old(associationRules)
    {
      for i := 0 to |data|
        invariant itemsetKeys == FirstSeen(Flatten(data[..i]))
        invariant itemsetCounts == OccurrenceCounts(Flatten(data[..i]))
        invariant frequentItemsets == [] && associationRules == old(associationRules)
      {
        CountTransaction(Flatten(data[..i]), data[i]);
        FlattenStep(data, i);
      }
      assert data[..|data|] == data;
    }

    /**
     * The inner counting loop over one transaction: after it the dictionary
     * holds the items seen so far followed by those of the transaction.
     */
    method CountTransaction(ghost seen: seq<T>, transaction: seq<T>)
      requires itemsetKeys == FirstSeen(seen) && itemsetCounts == OccurrenceCounts(seen)
      modifies this
      ensures itemsetKeys == FirstSeen(seen + transaction)
      ensures itemsetCounts == OccurrenceCounts(seen + transaction)
      ensures frequentItemsets == old(frequentItemsets) && associationRules == old(associationRules)
    {
      assert seen + transaction[..0] == seen;
      for j := 0 to |transaction|
        invariant itemsetKeys == FirstSeen(seen + transaction[..j])
        invariant itemsetCounts == OccurrenceCounts(seen + transaction[..j])
        invariant frequentItemsets == old(frequentItemsets) && associationRules == old(associationRules)
      {
        var item := transaction[j];
        ghost var before := seen + transaction[..j];
        assert seen + transaction[..j + 1] == before + [item] by {
          assert transaction[..j + 1] == transaction[..j] + [item];
        }
        if item in itemsetCounts {
          assert OccurrenceCounts(before + [item]) == itemsetCounts[item := itemsetCounts[item] + 1]
              && FirstSeen(before + [item]) == itemsetKeys by {
            CountStep(before, item);
          }
          itemsetCounts := itemsetCounts[item := itemsetCounts[item] + 1];
        } else {
          assert OccurrenceCounts(before + [item]) == itemsetCounts[item := 1]
              && FirstSeen(before + [item]) == itemsetKeys + [item] by {
            CountStep(before, item);
          }
          itemsetCounts := itemsetCounts[item := 1];
          itemsetKeys := itemsetKeys + [item];
        }
      }
      assert transaction[..|transaction|] == transaction;
    }

    /** The candidate loop: sizes 2 to N, combinations in `itertools` order. */
    method CollectFrequentItemsets()
      requires IsSetOrder(setOrder) && frequentItemsets == []
      requires itemsetKeys == FirstSeen(Flatten(data)) && itemsetCounts == OccurrenceCounts(Flatten(data))
      modifies this
      ensures Valid()
      ensures itemsetKeys == old(itemsetKeys) && itemsetCounts == old(itemsetCounts)
      ensures |data| > 0 || |itemsetKeys| < 2
      ensures frequentItemsets == FrequentItemsets(data, itemsetKeys, minSupport)
      ensures associationRules == old(associationRules)
    {
      ItemUniverse(data);
      var n := |itemsetCounts|;
      assert n == |itemsetKeys|;
      assert n >= 2 ==> |data| > 0;

      var size := 2;
      while size <= n
        invariant 2 <= size <= n + 1 || size == 2
        invariant itemsetKeys == old(itemsetKeys) && itemsetCounts == old(itemsetCounts)
        invariant associationRules == old(associationRules)
        invariant frequentItemsets == FilterFrequent(data, CandidatesOfSizes(itemsetKeys, 2, size), minSupport)
      {
        CollectOfSize(size);
        FilterFrequentAppend(data, CandidatesOfSizes(itemsetKeys, 2, size), Combinations(itemsetKeys, size), minSupport);
        size := size + 1;
      }
      FrequentCovered(data, minSupport);
    }

    /** The inner candidate loop for one size: `combinations(itemset_counts.keys(), size)`. */
    method CollectOfSize(size: nat)
      requires |data| > 0
      modifies this
      ensures frequentItemsets == old(frequentItemsets) + FilterFrequent(data, Combinations(itemsetKeys, size), minSupport)
      ensures itemsetKeys == old(itemsetKeys) && itemsetCounts == old(itemsetCounts)
      ensures associationRules == old(associationRules)
    {
      var combos := Combinations(itemsetKeys, size);
      assert combos[..0] == [];
      for c := 0 to |combos|
        invariant itemsetKeys == old(itemsetKeys) && itemsetCounts == old(itemsetCounts)
        invariant associationRules == old(associationRules)
        invariant frequentItemsets == old(frequentItemsets) + FilterFrequent(data, combos[..c], minSupport)
      {
        var itemset := Elems(combos[c]);
        var support := CalculateSupport(itemset);
        FilterFrequentStep(data, combos[..c], combos[c], minSupport);
        assert combos[..c + 1] == combos[..c] + [combos[c]];
        if support.value >= minSupport {
          frequentItemsets := frequentItemsets + [FrequentItemset(itemset, support.value)];
        }
      }
      assert combos[..|combos|] == combos;
    }

    /**
     * `generate_association_rules`: for every frequent itemset and each of its
     * items, in the set's iteration order, the rule `itemset - {item} => {item}`
     * when its confidence reaches minConfidence.
     */
    method GenerateAssociationRules()
      requires Valid()
      modifies this
      ensures Valid()
      ensures OrdersEntries(frequentItemsets, setOrder)
      ensures associationRules == RulesOf(frequentItemsets, itemsetCounts, setOrder, minConfidence)
      ensures itemsetCounts == old(itemsetCounts) && itemsetKeys == old(itemsetKeys)
      ensures frequentItemsets == old(frequentItemsets)
    {
      associationRules := [];
      assert frequentItemsets[..0] == [];

      for i := 0 to |frequentItemsets|
        invariant itemsetCounts == old(itemsetCounts) && itemsetKeys == old(itemsetKeys)
        invariant frequentItemsets == old(frequentItemsets)
        invariant OrdersEntries(frequentItemsets[..i], setOrder) && CountsCover(frequentItemsets[..i], itemsetCounts)
        invariant associationRules == RulesOf(frequentItemsets[..i], itemsetCounts, setOrder, minConfidence)
      {
        RulesOfStep(frequentItemsets, i, itemsetCounts, setOrder, minConfidence);
        RulesForEntry(frequentItemsets[i]);
      }
      assert frequentItemsets[..|frequentItemsets|] == frequentItemsets;
    }

    /**
     * The inner rule loop over one frequent itemset: its items in the set's
     * iteration order, each giving the rule with that item as consequent when
     * the confidence reaches minConfidence.
     */
    method RulesForEntry(entry: FrequentItemset<T>)
      requires forall x :: x in setOrder(entry.itemset) ==> x in itemsetCounts && itemsetCounts[x] >= 1
      modifies this
      ensures itemsetCounts == old(itemsetCounts) && itemsetKeys == old(itemsetKeys)
      ensures frequentItemsets == old(frequentItemsets)
      ensures associationRules == old(associationRules) + RulesOfItems(entry, setOrder(entry.itemset), itemsetCounts, minConfidence)
    {
      var items := setOrder(entry.itemset);
      assert items[..0] == [];
      for j := 0 to |items|
        invariant itemsetCounts == old(itemsetCounts) && itemsetKeys == old(itemsetKeys)
        invariant frequentItemsets == old(frequentItemsets)
        invariant associationRules == old(associationRules) + RulesOfItems(entry, items[..j], itemsetCounts, minConfidence)
      {
        var item := items[j];
        var antecedent := entry.itemset - {item};
        var confidence := LiteralConfidence(entry.support, itemsetCounts[item]);
        assert items[..j + 1] == items[..j] + [item];
        RulesOfItemsStep(entry, items[..j], item, itemsetCounts, minConfidence);
        if confidence >= minConfidence {
          associationRules := associationRules + [AssociationRule(antecedent, {item}, entry.support, confidence)];
        }
      }
      assert items[..|items|] == items;
    }

    /** `mine_association_rules`: both phases in order. */
    method MineAssociationRules()
      requires Valid()
      modifies this
      ensures Valid()
      ensures itemsetKeys == FirstSeen(Flatten(data))
      ensures itemsetCounts == OccurrenceCounts(Flatten(data))
      ensures |data| > 0 || |itemsetKeys| < 2
      ensures frequentItemsets == FrequentItemsets(data, itemsetKeys, minSupport)
      ensures OrdersEntries(frequentItemsets, setOrder)
      ensures associationRules == RulesOf(frequentItemsets, itemsetCounts, setOrder, minConfidence)
    {
      FindFrequentItemsets();
      GenerateAssociationRules();
    }
  }

  /**
   * Every item of a frequent itemset is a key of the dictionary with a count of
   * at least one, so `itemset_counts[item]` in the rule phase succeeds and is
   * not a division by zero.
   */
  lemma FrequentCovered<T>(data: seq<seq<T>>, minSupport: real)
    requires |data| > 0 || |FirstSeen(Flatten(data))| < 2
    ensures CountsCover(FrequentItemsets(data, FirstSeen(Flatten(data)), minSupport), OccurrenceCounts(Flatten(data)))
  {
    var keys, counts := FirstSeen(Flatten(data)), OccurrenceCounts(Flatten(data));
    ItemUniverse(data);
    var entries := FrequentItemsets(data, keys, minSupport);
    forall i | 0 <= i < |entries|
      ensures forall x :: x in entries[i].itemset ==> x in counts && counts[x] >= 1
    {
      FrequentSound(data, keys, minSupport, i);
    }
  }

  /**
   * Mining end to end yields each qualifying (frequent itemset, item) pair's
   * rule exactly once: the rule S - {x} => {x} with support v occurs once when
   * S is a set of at least two keys, v is its support and reaches minSupport,
   * and the rule's confidence reaches minConfidence; no other rule with
   * consequent {x} occurs.
   */
  lemma MinedRulesExactlyOnce<T(!new)>(data: seq<seq<T>>, order: set<T> -> seq<T>, minSupport: real, minConfidence: real, S: set<T>, v: real, x: T)
    requires IsSetOrder(order)
    requires x in S && x in OccurrenceCounts(Flatten(data))
    ensures |data| > 0 && OccurrenceCounts(Flatten(data))[x] >= 1
    ensures var entries := FrequentItemsets(data, FirstSeen(Flatten(data)), minSupport);
            OrdersEntries(entries, order) && CountsCover(entries, OccurrenceCounts(Flatten(data)))
    ensures var keys, counts := FirstSeen(Flatten(data)), OccurrenceCounts(Flatten(data));
            var rule := RuleFor(FrequentItemset(S, v), x, counts);
            multiset(RulesOf(FrequentItemsets(data, keys, minSupport), counts, order, minConfidence))[rule]
            == if S <= Elems(keys) && 2 <= |S| && v == SupportOf(data, S) && v >= minSupport && rule.confidence >= minConfidence
               then 1 else 0
  {
    var keys, counts := FirstSeen(Flatten(data)), OccurrenceCounts(Flatten(data));
    ItemUniverse(data);
    assert Occurrences(data, x) >= 1;
    var entries := FrequentItemsets(data, keys, minSupport);
    FrequentCovered(data, minSupport);
    assert OrdersEntries(entries, order);
    RulesCount(entries, counts, order, minConfidence, S, v, x);
    FilterFrequentCount(data, ItemsetCandidates(keys), minSupport, S, v);
    ItemsetCandidatesExactlyOnce(keys, S);
  }
}
