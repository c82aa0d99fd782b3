/**
 * Candidate enumeration of the brute-force miner: the combinations of the
 * distinct items in `itertools.combinations` order, grouped by ascending size,
 * and the counting facts about them (C(N, k) per size, 2^N - N - 1 in all).
 */
module Combinatorics {

  /** The elements of a sequence as a set (Python's `set(tuple)`). */
  function Elems<T(==)>(s: seq<T>): set<T> {
    set x | x in s
  }

  /** No element occurs twice. */
  predicate NoDup<T(==)>(s: seq<T>) {
    |Elems(s)| == |s|
  }

  /** Puts `x` in front of every sequence of `cs`, keeping their order. */
  function PrependAll<T(==)>(x: T, cs: seq<seq<T>>): (r: seq<seq<T>>)
    ensures |r| == |cs|
    ensures forall i :: 0 <= i < |r| ==> r[i] == [x] + cs[i]
  {
    seq(|cs|, i requires 0 <= i < |cs| => [x] + cs[i])
  }

  /**
   * The k-element combinations of `s` in the order `itertools.combinations`
   * yields them: lexicographic in the positions of `s`, so every combination
   * that starts with s[0] comes before every one that does not.
   */
  function Combinations<T(==)>(s: seq<T>, k: nat): seq<seq<T>>
    decreases |s|
  {
    if k == 0 then [[]]
    else if |s| == 0 then []
    else PrependAll(s[0], Combinations(s[1..], k - 1)) + Combinations(s[1..], k)
  }

  /**
   * All candidates of sizes lo, lo + 1, ..., hi - 1: the concatenation of the
   * per-size combination lists, smaller sizes first.
   */
  function CandidatesOfSizes<T(==)>(s: seq<T>, lo: nat, hi: nat): seq<seq<T>>
    decreases hi
  {
    if hi <= lo then [] else CandidatesOfSizes(s, lo, hi - 1) + Combinations(s, hi - 1)
  }

  /** The candidates the miner visits: every size from 2 up to the number of keys. */
  function ItemsetCandidates<T(==)>(keys: seq<T>): seq<seq<T>> {
    CandidatesOfSizes(keys, 2, |keys| + 1)
  }

  /** Pascal's rule for "n choose k". */
  function Binomial(n: nat, k: nat): nat {
    if k == 0 then 1
    else if n == 0 then 0
    else Binomial(n - 1, k - 1) + Binomial(n - 1, k)
  }

  /** Sum of Binomial(n, k) for lo <= k < hi. */
  function BinomialSum(n: nat, lo: nat, hi: nat): nat
    decreases hi
  {
    if hi <= lo then 0 else BinomialSum(n, lo, hi - 1) + Binomial(n, hi - 1)
  }

  function Pow2(n: nat): nat {
    if n == 0 then 1 else 2 * Pow2(n - 1)
  }

  /** How many sequences of `cs` have exactly the element set S. */
  function ElemsCount<T(==)>(cs: seq<seq<T>>, S: set<T>): nat {
    if cs == [] then 0
    else ElemsCount(cs[..|cs| - 1], S) + (if Elems(cs[|cs| - 1]) == S then 1 else 0)
  }

  // ---------------------------------------------------------------------------
  // Shape of the combinations

  /** Adding one element grows a set by one exactly when it was absent. */
  lemma AddCard<T>(A: set<T>, x: T)
    ensures |A + {x}| == if x in A then |A| else |A| + 1
  {
    if x in A {
      assert A + {x} == A;
    }
  }

  /** A sequence has at least as many positions as distinct elements. */
  lemma {:induction false} ElemsCardBound<T>(s: seq<T>)
    ensures |Elems(s)| <= |s|
  {
    if s != [] {
      ElemsCardBound(s[1..]);
      ElemsCons(s);
      AddCard(Elems(s[1..]), s[0]);
    }
  }

  /** NoDup says exactly that no two positions hold the same element. */
  lemma NoDupDistinct<T>(s: seq<T>)
    ensures NoDup(s) <==> forall i, j :: 0 <= i < j < |s| ==> s[i] != s[j]
  {
    if NoDup(s) {
      forall i, j | 0 <= i < j < |s| ensures s[i] != s[j] {
        SplitNoDup(s, i, j);
      }
    } else if forall i, j :: 0 <= i < j < |s| ==> s[i] != s[j] {
      DistinctNoDup(s);
    }
  }

  lemma {:induction false} DistinctNoDup<T>(s: seq<T>)
    requires forall i, j :: 0 <= i < j < |s| ==> s[i] != s[j]
    ensures NoDup(s)
  {
    if s != [] {
      var t := s[1..];
      assert forall i, j :: 0 <= i < j < |t| ==> t[i] != t[j] by {
        forall i, j | 0 <= i < j < |t| ensures t[i] != t[j] {
          assert t[i] == s[i + 1] && t[j] == s[j + 1];
        }
      }
      DistinctNoDup(t);
      assert s[0] !in Elems(t) by {
        forall k | 0 <= k < |t| ensures t[k] != s[0] {
          assert t[k] == s[k + 1];
        }
      }
      ElemsCons(s);
      AddCard(Elems(t), s[0]);
    }
  }

  /** Removing one position of a sequence without duplicates never removes a second element. */
  lemma {:induction false} SplitNoDup<T>(s: seq<T>, i: nat, j: nat)
    requires NoDup(s) && i < j < |s|
    ensures s[i] != s[j]
  {
    var rest := s[..j] + s[j + 1..];
    assert s == s[..j] + [s[j]] + s[j + 1..];
    assert Elems(s) == Elems(rest) + {s[j]};
    assert s[i] in Elems(rest) by {
      assert rest[i] == s[i];
    }
    ElemsCardBound(rest);
    AddCard(Elems(rest), s[j]);
  }

  lemma TailNoDup<T>(s: seq<T>)
    requires s != [] && NoDup(s)
    ensures NoDup(s[1..]) && s[0] !in Elems(s[1..])
    ensures Elems(s) == {s[0]} + Elems(s[1..])
  {
    ElemsCons(s);
    ElemsCardBound(s[1..]);
    AddCard(Elems(s[1..]), s[0]);
  }

  /** The last element of a sequence without duplicates is not among the others. */
  lemma InitNoDup<T>(s: seq<T>)
    requires s != [] && NoDup(s)
    ensures NoDup(s[..|s| - 1]) && s[|s| - 1] !in Elems(s[..|s| - 1])
    ensures Elems(s) == Elems(s[..|s| - 1]) + {s[|s| - 1]}
  {
    var n := |s| - 1;
    assert s == s[..n] + [s[n]];
    assert Elems(s) == Elems(s[..n]) + {s[n]};
    ElemsCardBound(s[..n]);
    AddCard(Elems(s[..n]), s[n]);
  }

  /** Appending an element not yet present keeps the sequence free of duplicates. */
  lemma SnocNoDup<T>(h: seq<T>, x: T)
    requires NoDup(h) && x !in Elems(h)
    ensures NoDup(h + [x])
  {
    assert Elems(h + [x]) == Elems(h) + {x};
    AddCard(Elems(h), x);
  }

  lemma ElemsCons<T>(s: seq<T>)
    requires s != []
    ensures Elems(s) == {s[0]} + Elems(s[1..])
  {
    assert s == [s[0]] + s[1..];
  }

  /** Every combination has k elements, drawn from `s`. */
  lemma {:induction false} CombinationElems<T>(s: seq<T>, k: nat, i: nat)
    requires i < |Combinations(s, k)|
    ensures |Combinations(s, k)[i]| == k
    ensures Elems(Combinations(s, k)[i]) <= Elems(s)
    decreases |s|
  {
    if k != 0 && |s| != 0 {
      var head, tail := PrependAll(s[0], Combinations(s[1..], k - 1)), Combinations(s[1..], k);
      ElemsCons(s);
      if i < |head| {
        CombinationElems(s[1..], k - 1, i);
        var c := Combinations(s[1..], k - 1)[i];
        assert Combinations(s, k)[i] == [s[0]] + c;
        ElemsCons([s[0]] + c);
        assert ([s[0]] + c)[1..] == c;
      } else {
        CombinationElems(s[1..], k, i - |head|);
        assert Combinations(s, k)[i] == tail[i - |head|];
      }
    }
  }

  /**
   * When `s` has no duplicate, neither has any combination, so
   * `set(combination)` has exactly k elements.
   */
  lemma {:induction false} CombinationNoDup<T>(s: seq<T>, k: nat, i: nat)
    requires i < |Combinations(s, k)| && NoDup(s)
    ensures NoDup(Combinations(s, k)[i])
    ensures |Elems(Combinations(s, k)[i])| == k
    decreases |s|, 1
  {
    var c := Combinations(s, k)[i];
    if k != 0 && |s| != 0 {
      var t := s[1..];
      var head, tail := PrependAll(s[0], Combinations(t, k - 1)), Combinations(t, k);
      assert NoDup(t) && s[0] !in Elems(t) by {
        TailNoDup(s);
      }
      if i < |head| {
        assert c == [s[0]] + Combinations(t, k - 1)[i];
        PrependedNoDup(t, s[0], k - 1, i);
      } else {
        assert c == tail[i - |head|];
        CombinationNoDup(t, k, i - |head|);
      }
    }
    assert |c| == k by {
      CombinationElems(s, k, i);
    }
  }

  /** A combination of the tail with the head in front has no duplicate. */
  lemma {:induction false} PrependedNoDup<T>(t: seq<T>, x: T, k: nat, i: nat)
    requires i < |Combinations(t, k)| && NoDup(t) && x !in Elems(t)
    ensures NoDup([x] + Combinations(t, k)[i])
    decreases |t| + 1, 0
  {
    var c := Combinations(t, k)[i];
    assert NoDup(c) by {
      CombinationNoDup(t, k, i);
    }
    assert Elems(c) <= Elems(t) by {
      CombinationElems(t, k, i);
    }
    ConsNoDup(x, c);
  }

  lemma ConsNoDup<T>(x: T, h: seq<T>)
    requires NoDup(h) && x !in Elems(h)
    ensures NoDup([x] + h)
  {
    assert Elems([x] + h) == {x} + Elems(h) by {
      ElemsCons([x] + h);
      assert ([x] + h)[1..] == h;
    }
    AddCard(Elems(h), x);
  }

  // ---------------------------------------------------------------------------
  // Counting: C(N, k) per size and 2^N - N - 1 in all

  /** Size k yields C(N, k) combinations. */
  lemma {:induction false} CombinationsCount<T>(s: seq<T>, k: nat)
    ensures |Combinations(s, k)| == Binomial(|s|, k)
    decreases |s|
  {
    if k != 0 && |s| != 0 {
      CombinationsCount(s[1..], k - 1);
      CombinationsCount(s[1..], k);
    }
  }

  lemma {:induction false} BinomialAboveN(n: nat, k: nat)
    requires k > n
    ensures Binomial(n, k) == 0
  {
    if n > 0 {
      BinomialAboveN(n - 1, k - 1);
      BinomialAboveN(n - 1, k);
    }
  }

  lemma {:induction false} BinomialOne(n: nat)
    ensures Binomial(n, 1) == n
  {
    if n > 0 {
      BinomialOne(n - 1);
    }
  }

  lemma {:induction false} BinomialSumSplit(n: nat, lo: nat, mid: nat, hi: nat)
    requires lo <= mid <= hi
    ensures BinomialSum(n, lo, hi) == BinomialSum(n, lo, mid) + BinomialSum(n, mid, hi)
    decreases hi
  {
    if mid < hi {
      BinomialSumSplit(n, lo, mid, hi - 1);
    }
  }

  /** Pascal's rule lifted to prefix sums of a row. */
  lemma {:induction false} BinomialSumPascal(n: nat, m: nat)
    ensures BinomialSum(n + 1, 0, m + 1) == BinomialSum(n, 0, m) + BinomialSum(n, 0, m + 1)
  {
    if m > 0 {
      BinomialSumPascal(n, m - 1);
    }
  }

  /** A whole row of Pascal's triangle sums to 2^n. */
  lemma {:induction false} BinomialRowSum(n: nat)
    ensures BinomialSum(n, 0, n + 1) == Pow2(n)
  {
    if n > 0 {
      BinomialRowSum(n - 1);
      BinomialSumPascal(n - 1, n);
      BinomialAboveN(n - 1, n);
    }
  }

  lemma {:induction false} CandidatesOfSizesCount<T>(s: seq<T>, lo: nat, hi: nat)
    ensures |CandidatesOfSizes(s, lo, hi)| == BinomialSum(|s|, lo, hi)
    decreases hi
  {
    if lo < hi {
      var front, last := CandidatesOfSizes(s, lo, hi - 1), Combinations(s, hi - 1);
      assert |front| == BinomialSum(|s|, lo, hi - 1) by {
        CandidatesOfSizesCount(s, lo, hi - 1);
      }
      assert |last| == Binomial(|s|, hi - 1) by {
        CombinationsCount(s, hi - 1);
      }
    }
  }

  /** The miner visits 2^N - N - 1 candidates for N keys. */
  lemma ItemsetCandidatesCount<T>(keys: seq<T>)
    ensures |ItemsetCandidates(keys)| == Pow2(|keys|) - |keys| - 1
  {
    var n := |keys|;
    CandidatesOfSizesCount(keys, 2, n + 1);
    BinomialRowSum(n);
    if n == 0 {
    } else {
      BinomialSumSplit(n, 0, 2, n + 1);
      BinomialOne(n);
    }
  }

  // ---------------------------------------------------------------------------
  // Every set of distinct keys of the right size is generated exactly once

  lemma {:induction false} ElemsCountAppend<T>(a: seq<seq<T>>, b: seq<seq<T>>, S: set<T>)
    ensures ElemsCount(a + b, S) == ElemsCount(a, S) + ElemsCount(b, S)
    decreases |b|
  {
    if b == [] {
      assert a + b == a;
    } else {
      assert (a + b)[..|a + b| - 1] == a + b[..|b| - 1];
      assert (a + b)[|a + b| - 1] == b[|b| - 1];
      ElemsCountAppend(a, b[..|b| - 1], S);
    }
  }

  lemma {:induction false} ElemsCountPrepend<T>(x: T, cs: seq<seq<T>>, S: set<T>)
    requires forall i :: 0 <= i < |cs| ==> x !in cs[i]
    ensures ElemsCount(PrependAll(x, cs), S) == if x in S then ElemsCount(cs, S - {x}) else 0
    decreases |cs|
  {
    if cs != [] {
      var n := |cs|;
      assert PrependAll(x, cs)[..n - 1] == PrependAll(x, cs[..n - 1]);
      ElemsCountPrepend(x, cs[..n - 1], S);
      var c := cs[n - 1];
      assert Elems([x] + c) == {x} + Elems(c);
      assert x !in Elems(c);
    }
  }

  /**
   * A set S is generated by Combinations(s, k) exactly once when it is a
   * k-element subset of the (distinct) elements of s, and never otherwise.
   */
  lemma {:induction false} CombinationsExactlyOnce<T>(s: seq<T>, k: nat, S: set<T>)
    requires NoDup(s)
    ensures ElemsCount(Combinations(s, k), S) == if S <= Elems(s) && |S| == k then 1 else 0
    decreases |s|, 2
  {
    if k == 0 {
      CombinationsOfZero(s, S);
    } else if s == [] {
      CombinationsOfNothing(s, k, S);
    } else {
      ExactlyOnceCons(s, k, S);
    }
  }

  /** The recursive case of CombinationsExactlyOnce: split on whether s[0] is in S. */
  lemma {:induction false} ExactlyOnceCons<T>(s: seq<T>, k: nat, S: set<T>)
    requires NoDup(s) && s != [] && k != 0
    ensures ElemsCount(Combinations(s, k), S) == if S <= Elems(s) && |S| == k then 1 else 0
    decreases |s|, 1
  {
    var x, t := s[0], s[1..];
    var withX := if x in S then ElemsCount(Combinations(t, k - 1), S - {x}) else 0;
    var withoutX := ElemsCount(Combinations(t, k), S);
    assert x in S ==> withX == if S - {x} <= Elems(t) && |S - {x}| == k - 1 then 1 else 0 by {
      if x in S {
        CombinationsOfTail(s, k - 1, S - {x});
      }
    }
    assert withoutX == if S <= Elems(t) && |S| == k then 1 else 0 by {
      CombinationsOfTail(s, k, S);
    }
    TailNoDup(s);
    CombinationsSplitCount(s, k, S);
    ExactlyOnceStep(x, S, Elems(s), Elems(t), k, withX, withoutX);
  }

  /** The induction hypothesis of CombinationsExactlyOnce, over the tail of the keys. */
  lemma {:induction false} CombinationsOfTail<T>(s: seq<T>, k: nat, S: set<T>)
    requires NoDup(s) && s != []
    ensures ElemsCount(Combinations(s[1..], k), S) == if S <= Elems(s[1..]) && |S| == k then 1 else 0
    decreases |s|, 0
  {
    TailNoDup(s);
    CombinationsExactlyOnce(s[1..], k, S);
  }

  /** The set arithmetic of one step of CombinationsExactlyOnce. */
  lemma ExactlyOnceStep<T>(x: T, S: set<T>, all: set<T>, rest: set<T>, k: nat, withX: nat, withoutX: nat)
    requires all == {x} + rest && x !in rest && k != 0
    requires withoutX == if S <= rest && |S| == k then 1 else 0
    requires x in S ==> withX == if S - {x} <= rest && |S - {x}| == k - 1 then 1 else 0
    requires x !in S ==> withX == 0
    ensures withX + withoutX == if S <= all && |S| == k then 1 else 0
  {
    SubsetOfCons(x, S, all, rest);
  }

  lemma SubsetOfCons<T>(x: T, S: set<T>, all: set<T>, rest: set<T>)
    requires all == {x} + rest && x !in rest
    ensures x in S ==> (S <= all) == (S - {x} <= rest) && |S - {x}| == |S| - 1 && !(S <= rest)
    ensures x !in S ==> (S <= all) == (S <= rest)
  {
  }

  lemma CombinationsOfZero<T>(s: seq<T>, S: set<T>)
    ensures ElemsCount(Combinations(s, 0), S) == if S <= Elems(s) && |S| == 0 then 1 else 0
  {
    var cs := Combinations(s, 0);
    assert cs == [[]];
    assert cs[..0] == [];
    assert Elems(cs[0]) == {};
    assert |S| == 0 <==> S == {};
  }

  lemma CombinationsOfNothing<T>(s: seq<T>, k: nat, S: set<T>)
    requires s == [] && k != 0
    ensures ElemsCount(Combinations(s, k), S) == if S <= Elems(s) && |S| == k then 1 else 0
  {
    assert S <= Elems(s) ==> S == {};
  }

  /** Splits the count over the two halves of the recursive case of Combinations. */
  lemma CombinationsSplitCount<T>(s: seq<T>, k: nat, S: set<T>)
    requires NoDup(s) && k != 0 && s != []
    ensures ElemsCount(Combinations(s, k), S)
         == (if s[0] in S then ElemsCount(Combinations(s[1..], k - 1), S - {s[0]}) else 0)
          + ElemsCount(Combinations(s[1..], k), S)
  {
    var x, t := s[0], s[1..];
    TailNoDup(s);
    var head := Combinations(t, k - 1);
    ElemsCountAppend(PrependAll(x, head), Combinations(t, k), S);
    forall i | 0 <= i < |head| ensures x !in head[i] {
      CombinationElems(t, k - 1, i);
      assert Elems(head[i]) <= Elems(t);
    }
    ElemsCountPrepend(x, head, S);
  }

  lemma {:induction false} CandidatesOfSizesExactlyOnce<T>(s: seq<T>, lo: nat, hi: nat, S: set<T>)
    requires NoDup(s)
    ensures ElemsCount(CandidatesOfSizes(s, lo, hi), S) == if S <= Elems(s) && lo <= |S| < hi then 1 else 0
    decreases hi
  {
    if lo < hi {
      var front, last := CandidatesOfSizes(s, lo, hi - 1), Combinations(s, hi - 1);
      var sub, size := S <= Elems(s), |S|;
      var x := ElemsCount(front, S);
      var y := ElemsCount(last, S);
      assert x == if sub && lo <= size < hi - 1 then 1 else 0 by {
        CandidatesOfSizesExactlyOnce(s, lo, hi - 1, S);
      }
      assert y == if sub && size == hi - 1 then 1 else 0 by {
        CombinationsExactlyOnce(s, hi - 1, S);
      }
      assert ElemsCount(front + last, S) == x + y by {
        ElemsCountAppend(front, last, S);
      }
    }
  }

  /**
   * Over distinct keys, every subset of at least two keys is a candidate
   * exactly once, and no other set is a candidate.
   */
  lemma ItemsetCandidatesExactlyOnce<T>(keys: seq<T>, S: set<T>)
    requires NoDup(keys)
    ensures ElemsCount(ItemsetCandidates(keys), S) == if S <= Elems(keys) && 2 <= |S| then 1 else 0
  {
    CandidatesOfSizesExactlyOnce(keys, 2, |keys| + 1, S);
    if S <= Elems(keys) {
      SubsetCard(S, Elems(keys));
    }
  }

  lemma SubsetCard<T>(a: set<T>, b: set<T>)
    requires a <= b
    ensures |a| <= |b|
  {
    assert b == a + (b - a);
  }

  /**
   * A candidate is a combination of the keys of a size in [lo, hi): its set
   * has as many items as its length.
   */
  lemma {:induction false} CandidateShape<T>(s: seq<T>, lo: nat, hi: nat, j: nat)
    requires j < |CandidatesOfSizes(s, lo, hi)|
    ensures lo <= |CandidatesOfSizes(s, lo, hi)[j]| < hi
    ensures Elems(CandidatesOfSizes(s, lo, hi)[j]) <= Elems(s)
    ensures NoDup(s) ==> |Elems(CandidatesOfSizes(s, lo, hi)[j])| == |CandidatesOfSizes(s, lo, hi)[j]|
    decreases hi
  {
    var front := CandidatesOfSizes(s, lo, hi - 1);
    var last := Combinations(s, hi - 1);
    var c := CandidatesOfSizes(s, lo, hi)[j];
    if j < |front| {
      assert c == front[j];
      CandidateShape(s, lo, hi - 1, j);
    } else {
      assert c == last[j - |front|];
      CombinationShape(s, hi - 1, j - |front|);
    }
  }

  /** CombinationElems and CombinationNoDup together, for one combination. */
  lemma CombinationShape<T>(s: seq<T>, k: nat, i: nat)
    requires i < |Combinations(s, k)|
    ensures |Combinations(s, k)[i]| == k
    ensures Elems(Combinations(s, k)[i]) <= Elems(s)
    ensures NoDup(s) ==> |Elems(Combinations(s, k)[i])| == k
  {
    CombinationElems(s, k, i);
    if NoDup(s) {
      CombinationNoDup(s, k, i);
    }
  }

  /** Each sequence of `cs` is at most as long as every later one. */
  ghost predicate AscendingLengths<T>(cs: seq<seq<T>>) {
    forall a, b :: 0 <= a <= b < |cs| ==> |cs[a]| <= |cs[b]|
  }

  lemma AscendingAppend<T>(a: seq<seq<T>>, b: seq<seq<T>>, m: nat)
    requires AscendingLengths(a)
    requires forall i :: 0 <= i < |a| ==> |a[i]| <= m
    requires forall i :: 0 <= i < |b| ==> |b[i]| == m
    ensures AscendingLengths(a + b)
  {
    var c := a + b;
    forall x, y | 0 <= x <= y < |c| ensures |c[x]| <= |c[y]| {
      if y < |a| {
        assert c[x] == a[x] && c[y] == a[y];
      } else if x < |a| {
        assert c[x] == a[x] && c[y] == b[y - |a|];
      } else {
        assert c[x] == b[x - |a|] && c[y] == b[y - |a|];
      }
    }
  }

  /** Candidates come in ascending size: a whole size group before the next. */
  lemma {:induction false} CandidatesAscending<T>(s: seq<T>, lo: nat, hi: nat)
    ensures AscendingLengths(CandidatesOfSizes(s, lo, hi))
    decreases hi
  {
    if lo < hi {
      CandidatesAscending(s, lo, hi - 1);
      AscendingStep(s, lo, hi);
    }
  }

  /** Appending the group of size hi - 1 keeps the candidates in ascending size. */
  lemma AscendingStep<T>(s: seq<T>, lo: nat, hi: nat)
    requires lo < hi && AscendingLengths(CandidatesOfSizes(s, lo, hi - 1))
    ensures AscendingLengths(CandidatesOfSizes(s, lo, hi))
  {
    var front, last := CandidatesOfSizes(s, lo, hi - 1), Combinations(s, hi - 1);
    CandidatesBelow(s, lo, hi - 1);
    CombinationsLength(s, hi - 1);
    AscendingAppend(front, last, hi - 1);
  }

  /** Every candidate of sizes below hi is shorter than hi. */
  lemma CandidatesBelow<T>(s: seq<T>, lo: nat, hi: nat)
    ensures forall i :: 0 <= i < |CandidatesOfSizes(s, lo, hi)| ==> |CandidatesOfSizes(s, lo, hi)[i]| <= hi
  {
    forall i | 0 <= i < |CandidatesOfSizes(s, lo, hi)| ensures |CandidatesOfSizes(s, lo, hi)[i]| <= hi {
      CandidateShape(s, lo, hi, i);
    }
  }

  /** Every combination of size k has length k. */
  lemma CombinationsLength<T>(s: seq<T>, k: nat)
    ensures forall i :: 0 <= i < |Combinations(s, k)| ==> |Combinations(s, k)[i]| == k
  {
    forall i | 0 <= i < |Combinations(s, k)| ensures |Combinations(s, k)[i]| == k {
      CombinationElems(s, k, i);
    }
  }

  /** The miner's candidates come in ascending size. */
  lemma ItemsetCandidatesAscending<T>(keys: seq<T>)
    ensures AscendingLengths(ItemsetCandidates(keys))
  {
    CandidatesAscending(keys, 2, |keys| + 1);
  }
}
