/**
 * Rule derivation: for each frequent itemset and each of its items, the rule
 * `itemset - {item} => {item}`, kept when its confidence reaches the minimum
 * confidence. Confidence is the literal formula of the miner, the itemset's
 * support divided by the item's raw occurrence count, which is not the
 * textbook support(itemset) / support(antecedent).
 */
module Rules {
  import opened Combinatorics
  import opened Frequent

  /** One entry `(antecedent, {item}, support, confidence)` of `association_rules`. */
  datatype AssociationRule<T> = AssociationRule(antecedent: set<T>, consequent: set<T>, support: real, confidence: real)

  /** The miner's confidence: a support (a fraction) divided by a raw item count. */
  function LiteralConfidence(support: real, count: nat): (c: real)
    requires count >= 1
    ensures c * count as real == support
    ensures 0.0 <= support ==> 0.0 <= c <= support
  {
    support / count as real
  }

  /**
   * The iteration order of a Python set: some enumeration of each set that
   * lists every element once.
   */
  ghost predicate IsSetOrder<T(!new)>(order: set<T> -> seq<T>) {
    forall s :: NoDup(order(s)) && Elems(order(s)) == s
  }

  /** `order` enumerates the itemset of every entry, each item once. */
  ghost predicate OrdersEntries<T>(entries: seq<FrequentItemset<T>>, order: set<T> -> seq<T>) {
    forall i :: 0 <= i < |entries| ==> NoDup(order(entries[i].itemset)) && Elems(order(entries[i].itemset)) == entries[i].itemset
  }

  /** Every item of every entry has a count of at least one. */
  ghost predicate CountsCover<T>(entries: seq<FrequentItemset<T>>, counts: map<T, nat>) {
    forall i :: 0 <= i < |entries| ==> forall x :: x in entries[i].itemset ==> x in counts && counts[x] >= 1
  }

  /** The rule of `entry` whose consequent is `item`. */
  function RuleFor<T(==)>(entry: FrequentItemset<T>, item: T, counts: map<T, nat>): AssociationRule<T>
    requires item in counts && counts[item] >= 1
  {
    AssociationRule(entry.itemset - {item}, {item}, entry.support, LiteralConfidence(entry.support, counts[item]))
  }

  /** The rules of one entry, visiting its items in the order `items`. */
  function RulesOfItems<T(==)>(entry: FrequentItemset<T>, items: seq<T>, counts: map<T, nat>, minConfidence: real): seq<AssociationRule<T>>
    requires forall x :: x in items ==> x in counts && counts[x] >= 1
  {
    if items == [] then []
    else
      var rules := RulesOfItems(entry, items[..|items| - 1], counts, minConfidence);
      var rule := RuleFor(entry, items[|items| - 1], counts);
      if rule.confidence >= minConfidence then rules + [rule] else rules
  }

  /** `association_rules`: the rules of every entry, entry by entry. */
  function RulesOf<T(==)>(entries: seq<FrequentItemset<T>>, counts: map<T, nat>, order: set<T> -> seq<T>, minConfidence: real): seq<AssociationRule<T>>
    requires OrdersEntries(entries, order) && CountsCover(entries, counts)
  {
    if entries == [] then []
    else
      var n := |entries| - 1;
      assert forall x :: x in order(entries[n].itemset) ==> x in Elems(order(entries[n].itemset));
      RulesOf(entries[..n], counts, order, minConfidence)
        + RulesOfItems(entries[n], order(entries[n].itemset), counts, minConfidence)
  }

  lemma RulesOfItemsStep<T>(entry: FrequentItemset<T>, items: seq<T>, item: T, counts: map<T, nat>, minConfidence: real)
    requires forall x :: x in items + [item] ==> x in counts && counts[x] >= 1
    ensures RulesOfItems(entry, items + [item], counts, minConfidence)
         == RulesOfItems(entry, items, counts, minConfidence)
          + (if RuleFor(entry, item, counts).confidence >= minConfidence then [RuleFor(entry, item, counts)] else [])
  {
    assert (items + [item])[..|items|] == items;
  }

  lemma RulesOfStep<T>(entries: seq<FrequentItemset<T>>, i: nat, counts: map<T, nat>, order: set<T> -> seq<T>, minConfidence: real)
    requires OrdersEntries(entries, order) && CountsCover(entries, counts) && i < |entries|
    ensures CountsCover(entries[..i], counts) && CountsCover(entries[..i + 1], counts)
    ensures OrdersEntries(entries[..i], order) && OrdersEntries(entries[..i + 1], order)
    ensures forall x :: x in order(entries[i].itemset) ==> x in counts && counts[x] >= 1
    ensures RulesOf(entries[..i + 1], counts, order, minConfidence)
         == RulesOf(entries[..i], counts, order, minConfidence)
          + RulesOfItems(entries[i], order(entries[i].itemset), counts, minConfidence)
  {
    assert entries[..i + 1][..i] == entries[..i];
    assert forall x :: x in order(entries[i].itemset) ==> x in Elems(order(entries[i].itemset));
  }

  // ---------------------------------------------------------------------------
  // Soundness: every rule comes from an entry and one of its items

  /** `rule` is the rule of `entry` for `item`, and it reached the threshold. */
  ghost predicate DerivedFrom<T>(rule: AssociationRule<T>, entry: FrequentItemset<T>, item: T, counts: map<T, nat>, minConfidence: real) {
    && item in entry.itemset
    && item in counts && counts[item] >= 1
    && rule == RuleFor(entry, item, counts)
    && rule.confidence >= minConfidence
  }

  lemma {:induction false} RulesOfItemsSound<T>(entry: FrequentItemset<T>, items: seq<T>, counts: map<T, nat>, minConfidence: real, k: nat)
    requires forall x :: x in items ==> x in counts && counts[x] >= 1
    requires Elems(items) <= entry.itemset
    requires k < |RulesOfItems(entry, items, counts, minConfidence)|
    ensures exists x :: x in items && DerivedFrom(RulesOfItems(entry, items, counts, minConfidence)[k], entry, x, counts, minConfidence)
  {
    var n := |items| - 1;
    var init := items[..n];
    var rules := RulesOfItems(entry, init, counts, minConfidence);
    assert items == init + [items[n]];
    assert Elems(items) == Elems(init) + {items[n]};
    if k < |rules| {
      RulesOfItemsSound(entry, init, counts, minConfidence, k);
      var x :| x in init && DerivedFrom(rules[k], entry, x, counts, minConfidence);
      assert x in items;
    } else {
      assert items[n] in Elems(items);
    }
  }

  /** Every rule is derived from some frequent entry and one of its items, and none else exists. */
  lemma {:induction false} RulesSound<T>(entries: seq<FrequentItemset<T>>, counts: map<T, nat>, order: set<T> -> seq<T>, minConfidence: real, k: nat)
    requires OrdersEntries(entries, order) && CountsCover(entries, counts)
    requires k < |RulesOf(entries, counts, order, minConfidence)|
    ensures exists i, x :: 0 <= i < |entries| && DerivedFrom(RulesOf(entries, counts, order, minConfidence)[k], entries[i], x, counts, minConfidence)
  {
    var n := |entries| - 1;
    RulesOfStep(entries, n, counts, order, minConfidence);
    assert entries[..n + 1] == entries;
    var front := RulesOf(entries[..n], counts, order, minConfidence);
    var rule := RulesOf(entries, counts, order, minConfidence)[k];
    if k < |front| {
      RulesSound(entries[..n], counts, order, minConfidence, k);
      var i, x :| 0 <= i < n && DerivedFrom(front[k], entries[..n][i], x, counts, minConfidence);
      assert entries[..n][i] == entries[i];
      assert DerivedFrom(rule, entries[i], x, counts, minConfidence);
    } else {
      var items := order(entries[n].itemset);
      RulesOfItemsSound(entries[n], items, counts, minConfidence, k - |front|);
      var x :| x in items && DerivedFrom(rule, entries[n], x, counts, minConfidence);
    }
  }

  /**
   * The shape of a derived rule: antecedent and consequent are disjoint, their
   * union is the itemset, the consequent is the item, the support is the
   * itemset's, and with at least two items the antecedent is not empty.
   */
  lemma DerivedRuleShape<T>(rule: AssociationRule<T>, entry: FrequentItemset<T>, item: T, counts: map<T, nat>, minConfidence: real)
    requires DerivedFrom(rule, entry, item, counts, minConfidence)
    ensures rule.consequent == {item} && item in entry.itemset
    ensures rule.antecedent !! rule.consequent
    ensures rule.antecedent + rule.consequent == entry.itemset
    ensures |entry.itemset| >= 2 ==> rule.antecedent != {}
    ensures rule.support == entry.support
    ensures rule.confidence * counts[item] as real == entry.support && rule.confidence >= minConfidence
  {
    if rule.antecedent == {} {
      assert entry.itemset <= {item};
      SubsetCard(entry.itemset, {item});
    }
  }

  // ---------------------------------------------------------------------------
  // Completeness: every pair reaching the threshold yields exactly one rule

  lemma {:induction false} RulesOfItemsCount<T>(entry: FrequentItemset<T>, items: seq<T>, counts: map<T, nat>, minConfidence: real, S: set<T>, v: real, x: T)
    requires forall y :: y in items ==> y in counts && counts[y] >= 1
    requires NoDup(items) && Elems(items) <= entry.itemset
    requires x in S && x in counts && counts[x] >= 1
    ensures multiset(RulesOfItems(entry, items, counts, minConfidence))[RuleFor(FrequentItemset(S, v), x, counts)]
         == if entry == FrequentItemset(S, v) && x in items && RuleFor(entry, x, counts).confidence >= minConfidence then 1 else 0
  {
    if items != [] {
      var n := |items| - 1;
      var init, y := items[..n], items[n];
      assert items == init + [y];
      assert Elems(items) == Elems(init) + {y};
      InitNoDup(items);
      RulesOfItemsCount(entry, init, counts, minConfidence, S, v, x);
      RulesOfItemsStep(entry, init, y, counts, minConfidence);
      var target := RuleFor(FrequentItemset(S, v), x, counts);
      var r := RuleFor(entry, y, counts);
      assert y in entry.itemset;
      if r == target {
        assert {y} == {x};
        assert y == x;
        assert entry.itemset - {x} == S - {x};
        assert x in entry.itemset;
        assert entry.itemset == (entry.itemset - {x}) + {x};
        assert S == (S - {x}) + {x};
      }
    }
  }

  /**
   * For an item x of S whose rule reaches the threshold, that rule occurs in
   * `association_rules` as many times as the entry (S, v) occurs among the
   * entries; otherwise it does not occur.
   */
  lemma {:induction false} RulesCount<T>(entries: seq<FrequentItemset<T>>, counts: map<T, nat>, order: set<T> -> seq<T>, minConfidence: real, S: set<T>, v: real, x: T)
    requires OrdersEntries(entries, order) && CountsCover(entries, counts)
    requires x in S && x in counts && counts[x] >= 1
    ensures multiset(RulesOf(entries, counts, order, minConfidence))[RuleFor(FrequentItemset(S, v), x, counts)]
         == if RuleFor(FrequentItemset(S, v), x, counts).confidence >= minConfidence then multiset(entries)[FrequentItemset(S, v)] else 0
  {
    if entries != [] {
      var n := |entries| - 1;
      RulesOfStep(entries, n, counts, order, minConfidence);
      assert entries[..n + 1] == entries;
      assert entries == entries[..n] + [entries[n]];
      RulesCount(entries[..n], counts, order, minConfidence, S, v, x);
      var items := order(entries[n].itemset);
      RulesOfItemsCount(entries[n], items, counts, minConfidence, S, v, x);
      if entries[n] == FrequentItemset(S, v) {
        assert x in Elems(items);
      }
    }
  }
}
