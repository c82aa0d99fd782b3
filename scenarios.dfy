/**
 * Verified clients of the miner: repeating `mine_association_rules` on the same
 * object gives the same results, and worked examples over small data sets.
 */
module Scenarios {
  import opened Combinatorics
  import opened Support
  import opened ItemCounts
  import opened Frequent
  import opened Rules
  import opened BruteForce

  // ---------------------------------------------------------------------------
  // The three-transaction example [[a, b], [a, b], [a, c]] for distinct a, b, c

  function Sample(a: int, b: int, c: int): seq<seq<int>> {
    [[a, b], [a, b], [a, c]]
  }

  /** The sample's transactions laid end to end. */
  lemma SampleFlatten(a: int, b: int, c: int)
    ensures Flatten(Sample(a, b, c)) == [a, b, a, b, a, c]
  {
    var d := Sample(a, b, c);
    assert d[..1] == [[a, b]] && d[..2] == [[a, b], [a, b]];
    FlattenStep(d, 0);
    FlattenStep(d, 1);
    FlattenStep(d, 2);
    assert d[..0] == [] && d[..3] == d;
  }

  /** The keys after the first five items a, b, a, b, a. */
  lemma SamplePrefixKeys(a: int, b: int)
    requires a != b
    ensures FirstSeen([a, b, a, b, a]) == [a, b]
  {
    var none: seq<int> := [];
    assert FirstSeen([a]) == [a] by {
      FirstSeenStep(none, a);
      assert none + [a] == [a];
    }
    assert FirstSeen([a, b]) == [a, b] by {
      FirstSeenStep([a], b);
      assert [a] + [b] == [a, b];
    }
    FirstSeenRepeats([a, b], [a, b, a]);
    assert [a, b] + [a, b, a] == [a, b, a, b, a];
  }

  /** Keys in first-seen order. */
  lemma SampleKeys(a: int, b: int, c: int)
    requires a != b && a != c && b != c
    ensures FirstSeen(Flatten(Sample(a, b, c))) == [a, b, c]
  {
    SampleFlatten(a, b, c);
    var x5 := [a, b, a, b, a];
    SamplePrefixKeys(a, b);
    FirstSeenStep(x5, c);
    assert x5 + [c] == [a, b, a, b, a, c];
  }

  /** Occurrence counts: a three times, b twice, c once. */
  lemma SampleCounts(a: int, b: int, c: int)
    requires a != b && a != c && b != c
    ensures OccurrenceCounts(Flatten(Sample(a, b, c))) == map[a := 3, b := 2, c := 1]
  {
    SampleFlatten(a, b, c);
    var none: seq<int> := [];
    var x1, x2, x3, x4, x5 := [a], [a, b], [a, b, a], [a, b, a, b], [a, b, a, b, a];
    assert OccurrenceCounts(x1) == map[a := 1] by {
      OccurrenceCountsStep(none, a);
      assert none + [a] == x1;
    }
    assert OccurrenceCounts(x2) == map[a := 1, b := 1] by {
      OccurrenceCountsStep(x1, b);
      assert x1 + [b] == x2;
    }
    assert OccurrenceCounts(x3) == map[a := 2, b := 1] by {
      OccurrenceCountsStep(x2, a);
      assert x2 + [a] == x3;
    }
    assert OccurrenceCounts(x4) == map[a := 2, b := 2] by {
      OccurrenceCountsStep(x3, b);
      assert x3 + [b] == x4;
    }
    assert OccurrenceCounts(x5) == map[a := 3, b := 2] by {
      OccurrenceCountsStep(x4, a);
      assert x4 + [a] == x5;
    }
    OccurrenceCountsStep(x5, c);
    assert x5 + [c] == [a, b, a, b, a, c];
  }

  /** The combinations of a one-element list. */
  lemma SingleCombinations(x: int)
    ensures Combinations([x], 0) == [[]]
    ensures Combinations([x], 1) == [[x]]
    ensures Combinations([x], 2) == [] && Combinations([x], 3) == []
  {
    var none: seq<int> := [];
    assert [x][1..] == none;
    assert Combinations(none, 0) == [[]];
    assert PrependAll(x, [[]]) == [[x]] by {
      assert |PrependAll(x, [[]])| == 1;
      assert PrependAll(x, [[]])[0] == [x] + [] == [x];
    }
  }

  /** The combinations of a two-element list. */
  lemma PairCombinations(x: int, y: int)
    ensures Combinations([x, y], 1) == [[x], [y]]
    ensures Combinations([x, y], 2) == [[x, y]]
    ensures Combinations([x, y], 3) == []
  {
    assert [x, y][1..] == [y];
    SingleCombinations(x);
    SingleCombinations(y);
    assert PrependAll(x, [[y]]) == [[x, y]] by {
      assert |PrependAll(x, [[y]])| == 1;
      assert PrependAll(x, [[y]])[0] == [x] + [y] == [x, y];
    }
    assert PrependAll(x, [[]]) == [[x]] by {
      assert |PrependAll(x, [[]])| == 1;
      assert PrependAll(x, [[]])[0] == [x] + [] == [x];
    }
  }

  /** The combinations of [a, b, c] of sizes 2 and 3. */
  lemma TripleCombinations(a: int, b: int, c: int)
    ensures Combinations([a, b, c], 2) == [[a, b], [a, c], [b, c]]
    ensures Combinations([a, b, c], 3) == [[a, b, c]]
  {
    var s := [a, b, c];
    assert s[1..] == [b, c];
    PairCombinations(b, c);
    var p := PrependAll(a, [[b], [c]]);
    assert p == [[a, b], [a, c]] by {
      assert |p| == 2;
      assert p[0] == [a] + [b] == [a, b] && p[1] == [a] + [c] == [a, c];
    }
    assert Combinations(s, 2) == p + [[b, c]];
    var q := PrependAll(a, [[b, c]]);
    assert q == [[a, b, c]] by {
      assert |q| == 1;
      assert q[0] == [a] + [b, c] == [a, b, c];
    }
    assert Combinations(s, 3) == q + [];
  }

  /** The candidates over the keys [a, b, c], in enumeration order. */
  lemma SampleCandidates(a: int, b: int, c: int)
    ensures ItemsetCandidates([a, b, c]) == [[a, b], [a, c], [b, c], [a, b, c]]
  {
    var s := [a, b, c];
    TripleCombinations(a, b, c);
    assert CandidatesOfSizes(s, 2, 2) == [];
    assert CandidatesOfSizes(s, 2, 3) == [] + Combinations(s, 2);
    assert CandidatesOfSizes(s, 2, 4) == CandidatesOfSizes(s, 2, 3) + Combinations(s, 3);
  }

  /** The count over three transactions, one transaction at a time. */
  lemma SupportCountOfThree(t1: seq<int>, t2: seq<int>, t3: seq<int>, S: set<int>)
    ensures SupportCount([t1, t2, t3], S)
         == (if Contains(t1, S) then 1 else 0) + (if Contains(t2, S) then 1 else 0) + (if Contains(t3, S) then 1 else 0)
  {
    var d := [t1, t2, t3];
    assert d[..2] == [t1, t2] && d[..2][..1] == [t1] && d[..2][..1][..0] == [];
    assert SupportCount([t1], S) == if Contains(t1, S) then 1 else 0;
    assert SupportCount([t1, t2], S) == SupportCount([t1], S) + if Contains(t2, S) then 1 else 0;
  }

  /** The supports of the four candidates. */
  lemma SampleSupports(a: int, b: int, c: int)
    requires a != b && a != c && b != c
    ensures SupportOf(Sample(a, b, c), {a, b}) == 2.0 / 3.0
    ensures SupportOf(Sample(a, b, c), {a, c}) == 1.0 / 3.0
    ensures SupportOf(Sample(a, b, c), {b, c}) == 0.0
    ensures SupportOf(Sample(a, b, c), {a, b, c}) == 0.0
  {
    var ab, ac := [a, b], [a, c];
    SupportCountOfThree(ab, ab, ac, {a, b});
    SupportCountOfThree(ab, ab, ac, {a, c});
    SupportCountOfThree(ab, ab, ac, {b, c});
    SupportCountOfThree(ab, ab, ac, {a, b, c});
    assert c !in ab && b !in ac;
    assert Contains(ab, {a, b}) && !Contains(ac, {a, b});
    assert !Contains(ab, {a, c}) && Contains(ac, {a, c});
    assert !Contains(ab, {b, c}) && !Contains(ac, {b, c});
    assert !Contains(ab, {a, b, c}) && !Contains(ac, {a, b, c});
  }

  /** At minimum support 0.3, supports 2/3 and 1/3 are kept; the two candidates of support 0 are not. */
  lemma SampleFrequent(a: int, b: int, c: int)
    requires a != b && a != c && b != c
    ensures FrequentItemsets(Sample(a, b, c), [a, b, c], 0.3)
         == [FrequentItemset({a, b}, 2.0 / 3.0), FrequentItemset({a, c}, 1.0 / 3.0)]
  {
    var d := Sample(a, b, c);
    SampleCandidates(a, b, c);
    SampleSupports(a, b, c);
    var ab, ac, bc, abc := [a, b], [a, c], [b, c], [a, b, c];
    assert Elems(ab) == {a, b} && Elems(ac) == {a, c} && Elems(bc) == {b, c} && Elems(abc) == {a, b, c};
    var none: seq<seq<int>> := [];
    var c1, c2, c3 := [ab], [ab, ac], [ab, ac, bc];
    FilterFrequentStep(d, none, ab, 0.3);
    assert none + [ab] == c1;
    FilterFrequentStep(d, c1, ac, 0.3);
    assert c1 + [ac] == c2;
    FilterFrequentStep(d, c2, bc, 0.3);
    assert c2 + [bc] == c3;
    FilterFrequentStep(d, c3, abc, 0.3);
    assert c3 + [abc] == [ab, ac, bc, abc];
  }

  /** A set of two elements is enumerated in one of its two orders. */
  lemma PairOrder(items: seq<int>, a: int, b: int)
    requires a != b && NoDup(items) && Elems(items) == {a, b}
    ensures items == [a, b] || items == [b, a]
  {
    NoDupDistinct(items);
    assert |{a, b}| == 2;
    assert items[0] in Elems(items) && items[1] in Elems(items);
  }

  /** Of {a, b}, item a has confidence (2/3)/3 = 2/9 < 0.3 and item b has (2/3)/2 = 1/3. */
  lemma FirstEntryRules(a: int, b: int, c: int, items: seq<int>)
    requires a != b && a != c && b != c
    requires items == [a, b] || items == [b, a]
    ensures RulesOfItems(FrequentItemset({a, b}, 2.0 / 3.0), items, map[a := 3, b := 2, c := 1], 0.3)
         == [AssociationRule({a}, {b}, 2.0 / 3.0, 1.0 / 3.0)]
  {
    var e, counts := FrequentItemset({a, b}, 2.0 / 3.0), map[a := 3, b := 2, c := 1];
    assert e.itemset - {b} == {a};
    assert RuleFor(e, b, counts) == AssociationRule({a}, {b}, 2.0 / 3.0, 1.0 / 3.0);
    assert RuleFor(e, a, counts).confidence < 0.3;
    var none: seq<int> := [];
    RulesOfItemsStep(e, none, items[0], counts, 0.3);
    RulesOfItemsStep(e, [items[0]], items[1], counts, 0.3);
    assert none + [items[0]] == [items[0]] && [items[0]] + [items[1]] == items;
  }

  /** Of {a, c}, item a has confidence (1/3)/3 = 1/9 < 0.3 and item c has (1/3)/1 = 1/3. */
  lemma SecondEntryRules(a: int, b: int, c: int, items: seq<int>)
    requires a != b && a != c && b != c
    requires items == [a, c] || items == [c, a]
    ensures RulesOfItems(FrequentItemset({a, c}, 1.0 / 3.0), items, map[a := 3, b := 2, c := 1], 0.3)
         == [AssociationRule({a}, {c}, 1.0 / 3.0, 1.0 / 3.0)]
  {
    var e, counts := FrequentItemset({a, c}, 1.0 / 3.0), map[a := 3, b := 2, c := 1];
    assert e.itemset - {c} == {a};
    assert RuleFor(e, c, counts) == AssociationRule({a}, {c}, 1.0 / 3.0, 1.0 / 3.0);
    assert RuleFor(e, a, counts).confidence < 0.3;
    var none: seq<int> := [];
    RulesOfItemsStep(e, none, items[0], counts, 0.3);
    RulesOfItemsStep(e, [items[0]], items[1], counts, 0.3);
    assert none + [items[0]] == [items[0]] && [items[0]] + [items[1]] == items;
  }

  /** At minimum confidence 0.3 the two rules {a} => {b} and {a} => {c}, whatever order each set is visited in. */
  lemma SampleRules(a: int, b: int, c: int, order: set<int> -> seq<int>)
    requires a != b && a != c && b != c
    requires OrdersEntries([FrequentItemset({a, b}, 2.0 / 3.0), FrequentItemset({a, c}, 1.0 / 3.0)], order)
    requires CountsCover([FrequentItemset({a, b}, 2.0 / 3.0), FrequentItemset({a, c}, 1.0 / 3.0)], map[a := 3, b := 2, c := 1])
    ensures RulesOf([FrequentItemset({a, b}, 2.0 / 3.0), FrequentItemset({a, c}, 1.0 / 3.0)], map[a := 3, b := 2, c := 1], order, 0.3)
         == [AssociationRule({a}, {b}, 2.0 / 3.0, 1.0 / 3.0), AssociationRule({a}, {c}, 1.0 / 3.0, 1.0 / 3.0)]
  {
    var entries := [FrequentItemset({a, b}, 2.0 / 3.0), FrequentItemset({a, c}, 1.0 / 3.0)];
    var counts := map[a := 3, b := 2, c := 1];
    var e0, e1 := entries[0], entries[1];
    PairOrder(order(e0.itemset), a, b);
    PairOrder(order(e1.itemset), a, c);
    FirstEntryRules(a, b, c, order(e0.itemset));
    SecondEntryRules(a, b, c, order(e1.itemset));
    RulesOfStep(entries, 0, counts, order, 0.3);
    RulesOfStep(entries, 1, counts, order, 0.3);
    assert entries[..0] == [] && entries[..2] == entries;
  }

  // ---------------------------------------------------------------------------
  // A single transaction of two items at minimum support 1.0

  /** The keys of one transaction [a, b]. */
  lemma SinglePairKeys(a: int, b: int)
    requires a != b
    ensures FirstSeen(Flatten([[a, b]])) == [a, b]
  {
    var data := [[a, b]];
    FlattenStep(data, 0);
    assert data[..0] == [] && data[..1] == data;
    var none: seq<int> := [];
    FirstSeenStep(none, a);
    FirstSeenStep([a], b);
    assert none + [a] == [a] && [a] + [b] == [a, b];
  }

  /** The support comparison is inclusive: the one pair reaches support exactly 1.0. */
  lemma SinglePairFrequent(a: int, b: int)
    requires a != b
    ensures FrequentItemsets([[a, b]], [a, b], 1.0) == [FrequentItemset({a, b}, 1.0)]
  {
    var data := [[a, b]];
    PairCombinations(a, b);
    var keys := [a, b];
    assert CandidatesOfSizes(keys, 2, 2) == [];
    assert ItemsetCandidates(keys) == [] + Combinations(keys, 2);
    assert Elems([a, b]) == {a, b};
    assert Contains([a, b], {a, b});
    assert data[..0] == [];
    assert SupportCount(data, {a, b}) == 1;
    var nocands: seq<seq<int>> := [];
    FilterFrequentStep(data, nocands, [a, b], 1.0);
    assert nocands + [[a, b]] == [[a, b]];
  }

  // ---------------------------------------------------------------------------
  // Clients of the class

  /** Mining the sample: keys, counts, frequent itemsets and rules. */
  method MineSample(order: set<int> -> seq<int>)
      returns (keys: seq<int>, counts: map<int, nat>, frequent: seq<FrequentItemset<int>>, rules: seq<AssociationRule<int>>)
    requires IsSetOrder(order)
    ensures keys == [1, 2, 3] && counts == map[1 := 3, 2 := 2, 3 := 1]
    ensures frequent == [FrequentItemset({1, 2}, 2.0 / 3.0), FrequentItemset({1, 3}, 1.0 / 3.0)]
    ensures rules == [AssociationRule({1}, {2}, 2.0 / 3.0, 1.0 / 3.0), AssociationRule({1}, {3}, 1.0 / 3.0, 1.0 / 3.0)]
  {
    var miner := new BruteForceAssociationRuleMiner(Sample(1, 2, 3), order, 0.3, 0.3);
    miner.MineAssociationRules();
    SampleKeys(1, 2, 3);
    SampleCounts(1, 2, 3);
    SampleFrequent(1, 2, 3);
    SampleRules(1, 2, 3, order);
    keys, counts := miner.itemsetKeys, miner.itemsetCounts;
    frequent, rules := miner.frequentItemsets, miner.associationRules;
  }

  /**
   * The support comparison is inclusive at the class level too: mining the
   * one transaction [1, 2] at minSupport 1.0 keeps ({1, 2}, 1.0).
   */
  method MineBoundary(order: set<int> -> seq<int>)
      returns (keys: seq<int>, frequent: seq<FrequentItemset<int>>)
    requires IsSetOrder(order)
    ensures keys == [1, 2]
    ensures frequent == [FrequentItemset({1, 2}, 1.0)]
  {
    var miner := new BruteForceAssociationRuleMiner([[1, 2]], order, 1.0);
    miner.MineAssociationRules();
    SinglePairKeys(1, 2);
    SinglePairFrequent(1, 2);
    keys, frequent := miner.itemsetKeys, miner.frequentItemsets;
  }

  /**
   * An empty data set raises nothing: there are no items, hence no candidate,
   * no support computation and no rule; calling calculate_support directly
   * divides by zero.
   */
  method MineEmpty(order: set<int> -> seq<int>)
      returns (keys: seq<int>, frequent: seq<FrequentItemset<int>>, rules: seq<AssociationRule<int>>, support: Result<real>)
    requires IsSetOrder(order)
    ensures keys == [] && frequent == [] && rules == []
    ensures support == Failure(ZeroDivision)
  {
    var miner := new BruteForceAssociationRuleMiner([], order);
    miner.MineAssociationRules();
    keys, frequent, rules := miner.itemsetKeys, miner.frequentItemsets, miner.associationRules;
    support := miner.CalculateSupport({1});
  }

  /** Mining twice gives the same dictionary, frequent itemsets and rules. */
  method MineTwice<T(==,!new)>(miner: BruteForceAssociationRuleMiner<T>)
      returns (first: (map<T, nat>, seq<T>, seq<FrequentItemset<T>>, seq<AssociationRule<T>>),
               second: (map<T, nat>, seq<T>, seq<FrequentItemset<T>>, seq<AssociationRule<T>>))
    requires miner.Valid()
    modifies miner
    ensures first == second
    ensures miner.Valid()
  {
    miner.MineAssociationRules();
    first := (miner.itemsetCounts, miner.itemsetKeys, miner.frequentItemsets, miner.associationRules);
    miner.MineAssociationRules();
    second := (miner.itemsetCounts, miner.itemsetKeys, miner.frequentItemsets, miner.associationRules);
  }
}
