# Brute-force association-rule miner, modelled in Dafny

This project models `BruteForceAssociationRuleMiner` from `brute_forace.py`. The miner
takes a list of transactions and two thresholds. It mines association rules by brute
force in three phases:

1. **Count items.** Every item of every transaction is counted into a dictionary. The
   dictionary keeps its keys in first-seen order.
2. **Enumerate and filter.** Every combination of 2 to N distinct keys is visited, in
   `itertools.combinations` order over that key order. Each combination whose support
   reaches `min_support` is kept, together with its support. Support is the fraction of
   transactions that contain every item of the combination.
3. **Derive rules.** For each frequent itemset and each of its items, the rule
   `itemset - {item} => {item}` is kept when its confidence reaches `min_confidence`.
   Confidence is the itemset's support divided by the item's raw count.

Module layout:

- `BruteForce` (`miner.dfy`) is the class itself.
  - `data`, `minSupport`, `minConfidence` and the set iteration order are `const` fields.
  - `itemsetCounts`/`itemsetKeys`, `frequentItemsets` and `associationRules` are the
    fields that the two phases reset and refill with nested loops.
  - Each loop is proved against a specification function on the inputs:
    - the counting loop against `ItemCounts`;
    - the candidate loop against `Frequent` over `Combinatorics`;
    - the rule loop against `Rules`.
- The specification modules carry the lemmas that state what the source promises:
  - counts and first-seen order;
  - the number of candidates, and that each candidate appears exactly once;
  - soundness, completeness and order of the frequent itemsets;
  - the shape and completeness of the rules;
  - anti-monotone support.
- `Scenarios` calls the class, in verified client methods, on a worked example, an empty
  data set and a boundary support of 1.0, and calls it twice in a row to show both calls
  leave identical results.

Modelling choices:

- **Items and transactions.** Items are a generic type `T` with equality.
- Transactions are `seq<seq<T>>`. They are lists, so an item may repeat inside one
  transaction.
- The dictionary's count is the item's total number of occurrences
  (`ItemCounts.OccurrencesOfFlatten`). This equals "transactions containing the item"
  only when no transaction repeats an item (`ItemCounts.OccurrencesWithoutDuplicates`).
  The count follows the code at lines 20-25, not the textbook definition.
- **Supports and confidences** are exact `real` fractions.
- Confidence is reproduced literally (line 40): a support divided by a raw count. It is
  not support(itemset) / support(antecedent).
- **Empty data set and thresholds.** The code raises nothing for an empty data set: with no
  items there is no candidate, so `calculate_support` is never called, and the model
  gives empty results. With thresholds outside [0, 1] the code also raises nothing: they
  are not checked and simply keep everything or nothing (`Frequent.FrequentThresholds`).
  The code validates neither the data set nor the thresholds, and the model follows it. Calling `calculate_support` directly on an empty data set divides by zero;
  `CalculateSupport` returns `Failure(ZeroDivision)`.
- **Set iteration order.** Python iterates a set (line 38) in an order the source code
  does not show. The miner is given that order as a function `setOrder` from a set to a
  sequence, which may list each set's elements in any order but must list each exactly
  once. The rule lemmas hold for every such order.
- **Distinct keys.** `NoDup(s)` says that a sequence has as many distinct elements as
  positions. `Combinatorics.NoDupDistinct` proves that this is the same as no two
  positions holding equal elements.

## Model

| member | source | states |
|---|---|---|
| BruteForce.BruteForceAssociationRuleMiner.Valid | brute_forace.py:20-40 | the invariant the methods keep: the set iteration order lists each set's elements once, the ordered keys are the dictionary's keys each once, and every item of every frequent itemset is a key with a count of at least 1 |
| BruteForce.BruteForceAssociationRuleMiner.constructor | brute_forace.py:5-11 | stores the data set and both thresholds (defaults 0.1 and 0.5) and starts with an empty dictionary, no frequent itemsets and no rules |
| BruteForce.BruteForceAssociationRuleMiner.CalculateSupport | brute_forace.py:13-14 | fails exactly when the data set is empty (division by zero); otherwise it returns the number of transactions containing the itemset divided by the number of transactions, a value in [0, 1] |
| BruteForce.BruteForceAssociationRuleMiner.FindFrequentItemsets | brute_forace.py:16-32 | resets the dictionary and the frequent list, then leaves the first-seen keys, the occurrence counts and exactly the frequent itemsets of the candidate enumeration; the rules are untouched |
| BruteForce.BruteForceAssociationRuleMiner.CountItems | brute_forace.py:20-25 | the nested counting loop leaves the keys in first-seen order over all transactions and the counts as the result of one increment per occurrence |
| BruteForce.BruteForceAssociationRuleMiner.CountTransaction | brute_forace.py:21-25 | the inner loop over one transaction extends the keys and counts of everything seen before to those of everything seen before followed by this transaction; frequent itemsets and rules are untouched |
| BruteForce.BruteForceAssociationRuleMiner.CollectFrequentItemsets | brute_forace.py:27-32 | the size loop from 2 to N appends exactly the candidates whose support reaches minSupport, in enumeration order, and leaves every item of every frequent itemset with a count of at least 1 |
| BruteForce.BruteForceAssociationRuleMiner.CollectOfSize | brute_forace.py:28-32 | one size's combination loop appends the frequent combinations of that size, in itertools order, to what was already there |
| BruteForce.BruteForceAssociationRuleMiner.GenerateAssociationRules | brute_forace.py:34-42 | resets the rules, then leaves exactly the rules of every frequent itemset and item, entry by entry, in set iteration order; the dictionary and the frequent list are unchanged |
| BruteForce.BruteForceAssociationRuleMiner.RulesForEntry | brute_forace.py:38-42 | the inner loop over one frequent itemset appends, in set iteration order, the rule of each of its items whose confidence reaches minConfidence, and changes nothing else |
| BruteForce.BruteForceAssociationRuleMiner.MineAssociationRules | brute_forace.py:44-46 | calls both phases in order: the new state is the counts, frequent itemsets and rules determined by the data and thresholds alone |
| BruteForce.MinedRulesExactlyOnce | brute_forace.py:16-42 | after both phases, the rule of a set S and an item x of S occurs exactly once when S is a set of at least two keys, the rule's support is the support of S and reaches minSupport, and its confidence reaches minConfidence; otherwise it does not occur |
| BruteForce.FrequentCovered | brute_forace.py:37-40 | every item of every frequent itemset is a dictionary key with a count of at least 1, so the lookup at line 40 succeeds and does not divide by zero |
| Support.Contains | brute_forace.py:14 | `itemset.issubset(transaction)`: every item of the itemset occurs in the transaction |
| Support.SupportCount | brute_forace.py:14 | the number of containing transactions is at most the number of transactions |
| Support.SupportOf | brute_forace.py:14 | support lies in [0, 1] |
| Support.SupportCountIsCardinality | brute_forace.py:14 | the summed count equals the number of positions whose transaction is a superset of the itemset |
| Support.SupportExtremes | brute_forace.py:14 | support is 1.0 exactly when every transaction is a superset, and 0.0 exactly when none is |
| Support.SupportCountAntiMonotone | brute_forace.py:14 | a larger itemset is contained in no more transactions |
| Support.SupportAntiMonotone | brute_forace.py:14 | A <= B implies support(B) <= support(A) |
| ItemCounts.Flatten | brute_forace.py:20-21 | the items in the order the nested loop visits them: transaction by transaction, each transaction in its own order |
| ItemCounts.FirstSeen | brute_forace.py:20-25 | the dictionary's key order: each item is appended when it is inserted the first time |
| ItemCounts.OccurrenceCounts | brute_forace.py:20-25 | the dictionary after the loop: for each visited item, its count is incremented, or set to 1 when it is new |
| ItemCounts.CountStep | brute_forace.py:22-25 | one iteration: a known item's count goes up by 1 and the key order stays the same; a new item gets count 1 and is appended to the keys |
| ItemCounts.FirstSeenElems | brute_forace.py:20-25 | the keys are exactly the items occurring in the transactions |
| ItemCounts.FirstSeenNoDup | brute_forace.py:20-25 | each key occurs once in the key order |
| ItemCounts.FirstSeenOrder | brute_forace.py:20-25 | of two keys, the earlier one was first seen earlier in the transactions |
| ItemCounts.OccurrenceCountsMeaning | brute_forace.py:22-25 | the dictionary has a key for each item seen, and its value is that item's number of occurrences, at least 1 |
| ItemCounts.OccurrencesOfFlatten | brute_forace.py:20-25 | occurrences in the visiting order equal the occurrences summed over the transactions |
| ItemCounts.OccurrencesWithoutDuplicates | brute_forace.py:23-25 | when no transaction repeats an item, the count equals the number of transactions containing the item |
| ItemCounts.ItemUniverse | brute_forace.py:20-25 | after counting, the keys are in first-seen order, each once; an item is a key exactly when it occurs in some transaction, and its count is its total number of occurrences, at least 1 |
| Combinatorics.Combinations | brute_forace.py:28 | `itertools.combinations(keys, k)`: the combinations starting with the first key, then those of the remaining keys, both recursively in this order |
| Combinatorics.CandidatesOfSizes | brute_forace.py:27-28 | the combinations of each size from lo to hi - 1, smaller sizes first |
| Combinatorics.ItemsetCandidates | brute_forace.py:27-28 | the candidates the miner visits: sizes 2 to N over the key order |
| Combinatorics.CombinationElems | brute_forace.py:28 | every combination of size k has k elements, all drawn from the keys |
| Combinatorics.CombinationNoDup | brute_forace.py:28-29 | over distinct keys, a combination repeats no key, so its set has exactly k elements |
| Combinatorics.CombinationsCount | brute_forace.py:28 | size k yields C(N, k) combinations |
| Combinatorics.ItemsetCandidatesCount | brute_forace.py:27-28 | sizes 2 to N yield 2^N - N - 1 candidates in all |
| Combinatorics.CombinationsExactlyOnce | brute_forace.py:28-29 | a set is produced by the size-k combinations exactly once when it is a k-element subset of the keys, never otherwise |
| Combinatorics.ItemsetCandidatesExactlyOnce | brute_forace.py:27-29 | every subset of at least two keys is a candidate exactly once, and no other set is |
| Combinatorics.CandidateShape | brute_forace.py:27-29 | a candidate of the sizes lo to hi - 1 has a length in that range, its set is drawn from the keys and, over distinct keys, has as many items as the combination |
| Combinatorics.CandidatesAscending | brute_forace.py:27-28 | the candidates of sizes lo to hi - 1 come in ascending length: no candidate is longer than a later one |
| Combinatorics.ItemsetCandidatesAscending | brute_forace.py:27-28 | the miner's candidates of sizes 2 to N come in ascending size |
| Frequent.FilterFrequent | brute_forace.py:29-32 | each candidate, in order, becomes its set and is kept with its support when that support is at least minSupport |
| Frequent.FrequentItemsets | brute_forace.py:27-32 | with fewer than two keys the frequent list is empty |
| Frequent.FilterFrequentAppend | brute_forace.py:27-32 | filtering two sequences of candidates one after the other is filtering their concatenation |
| Frequent.FrequentSound | brute_forace.py:27-32 | every entry is a set of 2 to N keys stored with its own support, which is at least minSupport |
| Frequent.FrequentExactlyOnce | brute_forace.py:27-32 | a set of keys is an entry exactly once when it has at least two keys and support at least minSupport, and never otherwise |
| Frequent.FrequentAscending | brute_forace.py:27-32 | entries keep the candidates' ascending-size order |
| Frequent.FrequentThresholds | brute_forace.py:31 | minSupport at most 0 keeps all 2^N - N - 1 candidates; minSupport above 1 keeps none |
| Rules.IsSetOrder | brute_forace.py:38 | the set iteration order lists each element of every set exactly once |
| Rules.RuleFor | brute_forace.py:39-42 | the rule of one item: antecedent the itemset without the item, consequent {item}, the itemset's support, and support over the item's count as confidence |
| Rules.RulesOfItems | brute_forace.py:38-42 | the rules of one entry: its items in iteration order, keeping those whose confidence reaches minConfidence |
| Rules.RulesOf | brute_forace.py:37-42 | the rules of all frequent entries, entry by entry |
| Rules.LiteralConfidence | brute_forace.py:40 | confidence times the item's count is the itemset's support, so a support in [0, 1] gives a confidence between 0 and the support |
| Rules.RulesOfItemsSound | brute_forace.py:38-42 | every rule of one entry is the rule of one of its items, and it reaches minConfidence |
| Rules.RulesSound | brute_forace.py:37-42 | every rule is the rule of some frequent entry and one of its items, and it reaches minConfidence |
| Rules.DerivedRuleShape | brute_forace.py:39-42 | the consequent is {item} with item in the itemset; antecedent and consequent are disjoint and make up the itemset; the antecedent is non-empty for itemsets of two or more; the rule's support is the itemset's; confidence times the count is the support |
| Rules.RulesOfItemsCount | brute_forace.py:38-42 | within one entry, the rule for an item appears once when its confidence reaches the threshold, and not otherwise |
| Rules.RulesCount | brute_forace.py:37-42 | each (frequent itemset, item) pair reaching minConfidence yields its rule once per occurrence of the entry, and a pair below it yields none |
| Scenarios.SamplePrefixKeys | brute_forace.py:20-25 | for distinct a, b the items a, b, a, b, a give the keys [a, b]: a repeated item does not move its key |
| Scenarios.SampleKeys | brute_forace.py:20-25 | for [[a, b], [a, b], [a, c]] with distinct a, b, c the keys are [a, b, c] |
| Scenarios.SampleCounts | brute_forace.py:20-25 | for the same data the counts are a: 3, b: 2, c: 1 |
| Scenarios.TripleCombinations | brute_forace.py:28 | the size-2 combinations of [a, b, c] are [a, b], [a, c], [b, c], and the size-3 one is [a, b, c], in itertools order |
| Scenarios.SampleCandidates | brute_forace.py:27-28 | the candidates over [a, b, c] are [a, b], [a, c], [b, c], [a, b, c], in that order |
| Scenarios.SampleSupports | brute_forace.py:14 | the four candidates have supports 2/3, 1/3, 0 and 0 |
| Scenarios.SampleFrequent | brute_forace.py:27-32 | at minSupport 0.3 the frequent itemsets are ({a, b}, 2/3) and ({a, c}, 1/3) |
| Scenarios.SampleRules | brute_forace.py:37-42 | at minConfidence 0.3 the rules are {a} => {b} and {a} => {c}, whatever order each set is visited in |
| Scenarios.PairOrder | brute_forace.py:38 | a two-element set is visited in one of its two orders |
| Scenarios.SinglePairKeys | brute_forace.py:20-25 | one transaction [a, b] of distinct items gives the keys [a, b] |
| Scenarios.SinglePairFrequent | brute_forace.py:31 | the comparison is inclusive: at minSupport 1.0 the pair {a, b} is kept with support exactly 1.0 |
| Scenarios.MineSample | brute_forace.py:16-46 | mining the sample with the class, for a, b, c = 1, 2, 3 and thresholds 0.3, yields those keys, counts, frequent itemsets and rules |
| Scenarios.MineBoundary | brute_forace.py:27-32 | mining [[1, 2]] with the class at minSupport 1.0 keeps ({1, 2}, 1.0): the comparison is inclusive |
| Scenarios.MineEmpty | brute_forace.py:13-32 | mining an empty data set with the class raises nothing and yields no keys, no frequent itemsets and no rules, while calculate_support on it fails with a division by zero |
| Scenarios.MineTwice | brute_forace.py:16-46 | mining twice yields the same dictionary, frequent itemsets and rules, because both phases reset their outputs first and data and thresholds never change |

## Left out

- `display_association_rules` (brute_forace.py:48-54) only prints, so it is not modelled.
- `groceries_analysis.py` is not part of this model: timing, CSV loading, the mlxtend
  comparison runs, plotting and the runtime extrapolation are I/O, foreign libraries and
  floating-point measurement.
- `dataset_generator.py` is not part of this model: it does random sampling and CSV
  reading and writing.
- `main.py` is not part of this model: it only orchestrates and checks the Python version.
- Floating-point rounding: supports and confidences are exact fractions, so a comparison
  that rounding would tip the other way is not modelled.
- Python set iteration order: it is hash-dependent, and the model takes it as a parameter
  `setOrder`. That parameter fixes one order per set value. So the model does not
  capture two equal sets being iterated in different orders. `Scenarios.MineTwice`
  depends on this choice.
- Python's data model: the data list is stored as an immutable value. Aliasing is not
  modelled, so a caller changing that list after construction has no counterpart.
  Transactions that are not iterable and items that are not hashable have no
  counterpart either.
- There is no invalid-input error for an empty data set or for a threshold outside
  [0, 1], because the code raises none. Such inputs get the code's results.
- The exponential running-time law is a performance claim, not behaviour.
