/**
 * The item universe built by the counting loop: a dictionary from item to
 * its number of occurrences, whose keys keep the order in which items were
 * first seen. The loop visits the transactions in order and the items of each
 * transaction in order, so it sees exactly the concatenation of all
 * transactions.
 */
module ItemCounts {
  import opened Combinatorics
  import opened Support

  /** The transactions laid end to end, in visiting order. */
  function Flatten<T>(data: seq<seq<T>>): (r: seq<T>)
    ensures |data| == 0 ==> r == []
  {
    if data == [] then [] else Flatten(data[..|data| - 1]) + data[|data| - 1]
  }

  /** The distinct elements of xs in first-seen order: a dict's key order after inserting xs. */
  function FirstSeen<T(==)>(xs: seq<T>): seq<T> {
    if xs == [] then []
    else
      var keys := FirstSeen(xs[..|xs| - 1]);
      if xs[|xs| - 1] in keys then keys else keys + [xs[|xs| - 1]]
  }

  /** The dictionary after `counts[x] += 1` (or `= 1` for a new key) for each x of xs in turn. */
  function OccurrenceCounts<T(==)>(xs: seq<T>): map<T, nat> {
    if xs == [] then map[]
    else
      var counts := OccurrenceCounts(xs[..|xs| - 1]);
      var x := xs[|xs| - 1];
      counts[x := if x in counts then counts[x] + 1 else 1]
  }

  /** Reference count: the occurrences of x summed over the transactions. */
  function Occurrences<T(==)>(data: seq<seq<T>>, x: T): nat {
    if data == [] then 0 else Occurrences(data[..|data| - 1], x) + multiset(data[|data| - 1])[x]
  }

  /** Index of the first occurrence of x. */
  function FirstIndex<T(==)>(xs: seq<T>, x: T): (i: nat)
    requires x in xs
    ensures i < |xs| && xs[i] == x
    ensures forall j :: 0 <= j < i ==> xs[j] != x
  {
    if xs[0] == x then 0 else 1 + FirstIndex(xs[1..], x)
  }

  // ---------------------------------------------------------------------------
  // One step of the counting loop

  lemma FlattenStep<T>(data: seq<seq<T>>, i: nat)
    requires i < |data|
    ensures Flatten(data[..i + 1]) == Flatten(data[..i]) + data[i]
  {
    assert data[..i + 1][..i] == data[..i];
  }

  lemma FirstSeenStep<T>(xs: seq<T>, x: T)
    ensures FirstSeen(xs + [x]) == if x in FirstSeen(xs) then FirstSeen(xs) else FirstSeen(xs) + [x]
  {
    assert (xs + [x])[..|xs|] == xs;
  }

  /** Items that are already keys leave the key order unchanged. */
  lemma {:induction false} FirstSeenRepeats<T>(xs: seq<T>, ys: seq<T>)
    requires forall y :: y in ys ==> y in FirstSeen(xs)
    ensures FirstSeen(xs + ys) == FirstSeen(xs)
    decreases |ys|
  {
    if ys == [] {
      assert xs + ys == xs;
    } else {
      var n := |ys| - 1;
      assert ys[n] in ys;
      FirstSeenRepeats(xs, ys[..n]);
      assert xs + ys == (xs + ys[..n]) + [ys[n]];
      FirstSeenStep(xs + ys[..n], ys[n]);
    }
  }

  lemma OccurrenceCountsStep<T>(xs: seq<T>, x: T)
    ensures OccurrenceCounts(xs + [x])
         == OccurrenceCounts(xs)[x := if x in OccurrenceCounts(xs) then OccurrenceCounts(xs)[x] + 1 else 1]
  {
    assert (xs + [x])[..|xs|] == xs;
  }

  /** One iteration of the counting loop on the dictionary seen so far. */
  lemma CountStep<T>(seen: seq<T>, item: T)
    ensures item in OccurrenceCounts(seen) <==> item in FirstSeen(seen)
    ensures item in OccurrenceCounts(seen) ==>
              && OccurrenceCounts(seen + [item]) == OccurrenceCounts(seen)[item := OccurrenceCounts(seen)[item] + 1]
              && FirstSeen(seen + [item]) == FirstSeen(seen)
    ensures item !in OccurrenceCounts(seen) ==>
              && OccurrenceCounts(seen + [item]) == OccurrenceCounts(seen)[item := 1]
              && FirstSeen(seen + [item]) == FirstSeen(seen) + [item]
  {
    OccurrenceCountsStep(seen, item);
    OccurrenceCountsMeaning(seen);
    FirstSeenStep(seen, item);
    FirstSeenElems(seen);
  }

  // ---------------------------------------------------------------------------
  // What the finished dictionary holds

  /** The keys are exactly the items seen. */
  lemma {:induction false} FirstSeenElems<T>(xs: seq<T>)
    ensures Elems(FirstSeen(xs)) == Elems(xs)
  {
    if xs != [] {
      var n := |xs| - 1;
      FirstSeenElems(xs[..n]);
      assert xs == xs[..n] + [xs[n]];
      assert Elems(xs) == Elems(xs[..n]) + {xs[n]};
      FirstSeenStep(xs[..n], xs[n]);
    }
  }

  /** Each key occurs exactly once. */
  lemma {:induction false} FirstSeenNoDup<T>(xs: seq<T>)
    ensures NoDup(FirstSeen(xs))
  {
    if xs != [] {
      var n := |xs| - 1;
      var keys := FirstSeen(xs[..n]);
      FirstSeenNoDup(xs[..n]);
      if xs[n] !in keys {
        SnocNoDup(keys, xs[n]);
      }
    }
  }

  lemma FirstIndexPrefix<T>(xs: seq<T>, y: T, z: T)
    requires z in xs
    ensures FirstIndex(xs + [y], z) == FirstIndex(xs, z)
  {
    var i1, i2 := FirstIndex(xs + [y], z), FirstIndex(xs, z);
    assert (xs + [y])[i2] == z;
    assert i1 <= i2;
    assert xs[i1] == z;
  }

  lemma FirstIndexNew<T>(xs: seq<T>, y: T)
    requires y !in xs
    ensures FirstIndex(xs + [y], y) == |xs|
  {
    var i := FirstIndex(xs + [y], y);
    assert forall k :: 0 <= k < |xs| ==> (xs + [y])[k] == xs[k];
  }

  /** Keys are in first-seen order: an earlier key was first seen earlier. */
  lemma {:induction false} FirstSeenOrder<T>(xs: seq<T>, i: nat, j: nat)
    requires i < j < |FirstSeen(xs)|
    ensures FirstSeen(xs)[i] in xs && FirstSeen(xs)[j] in xs
    ensures FirstIndex(xs, FirstSeen(xs)[i]) < FirstIndex(xs, FirstSeen(xs)[j])
  {
    var n := |xs| - 1;
    var init, y := xs[..n], xs[n];
    assert xs == init + [y];
    var keys := FirstSeen(init);
    FirstSeenStep(init, y);
    FirstSeenElems(init);
    FirstSeenElems(xs);
    var r := FirstSeen(xs);
    assert r[i] in Elems(r) && r[j] in Elems(r);
    if j < |keys| {
      FirstSeenOrder(init, i, j);
      assert r[i] == keys[i] && r[j] == keys[j];
      assert keys[i] in Elems(keys) && keys[j] in Elems(keys);
      FirstIndexPrefix(init, y, keys[i]);
      FirstIndexPrefix(init, y, keys[j]);
    } else {
      assert r[j] == y && y !in Elems(keys);
      assert r[i] == keys[i] && keys[i] in Elems(keys);
      FirstIndexNew(init, y);
      FirstIndexPrefix(init, y, keys[i]);
    }
  }

  /** The dictionary has a key for each item seen, holding its number of occurrences. */
  lemma {:induction false} OccurrenceCountsMeaning<T>(xs: seq<T>)
    ensures OccurrenceCounts(xs).Keys == Elems(xs)
    ensures forall x :: x in OccurrenceCounts(xs) ==> OccurrenceCounts(xs)[x] == multiset(xs)[x] >= 1
  {
    if xs != [] {
      var n := |xs| - 1;
      OccurrenceCountsMeaning(xs[..n]);
      assert xs == xs[..n] + [xs[n]];
      assert multiset(xs) == multiset(xs[..n]) + multiset{xs[n]};
      assert Elems(xs) == Elems(xs[..n]) + {xs[n]};
    }
  }

  /** The stored count of x is its total number of occurrences in all transactions. */
  lemma {:induction false} OccurrencesOfFlatten<T>(data: seq<seq<T>>, x: T)
    ensures multiset(Flatten(data))[x] == Occurrences(data, x)
  {
    if data != [] {
      var n := |data| - 1;
      OccurrencesOfFlatten(data[..n], x);
      assert multiset(Flatten(data)) == multiset(Flatten(data[..n])) + multiset(data[n]);
    }
  }

  /**
   * When no transaction repeats an item, the occurrence count is the number of
   * transactions containing the item, SupportCount(data, {x}).
   */
  lemma {:induction false} OccurrencesWithoutDuplicates<T>(data: seq<seq<T>>, x: T)
    requires forall i :: 0 <= i < |data| ==> NoDup(data[i])
    ensures Occurrences(data, x) == SupportCount(data, {x})
  {
    if data != [] {
      var n := |data| - 1;
      assert forall i :: 0 <= i < n ==> data[..n][i] == data[i];
      OccurrencesWithoutDuplicates(data[..n], x);
      NoDupMultiplicity(data[n], x);
    }
  }

  lemma {:induction false} NoDupMultiplicity<T>(t: seq<T>, x: T)
    requires NoDup(t)
    ensures multiset(t)[x] == if x in t then 1 else 0
  {
    if t != [] {
      TailNoDup(t);
      NoDupMultiplicity(t[1..], x);
      assert t == [t[0]] + t[1..];
      assert multiset(t) == multiset{t[0]} + multiset(t[1..]);
      assert x in t <==> x == t[0] || x in t[1..];
    }
  }

  /**
   * The universe: keys in first-seen order, each once; an item is a key
   * exactly when it occurs in some transaction, and its count is its total
   * number of occurrences.
   */
  lemma ItemUniverse<T>(data: seq<seq<T>>)
    ensures NoDup(FirstSeen(Flatten(data)))
    ensures Elems(FirstSeen(Flatten(data))) == OccurrenceCounts(Flatten(data)).Keys
    ensures forall x :: x in OccurrenceCounts(Flatten(data)) <==> Occurrences(data, x) >= 1
    ensures forall x :: x in OccurrenceCounts(Flatten(data)) ==>
              OccurrenceCounts(Flatten(data))[x] == Occurrences(data, x) >= 1
  {
    FirstSeenNoDup(Flatten(data));
    assert Elems(FirstSeen(Flatten(data))) == OccurrenceCounts(Flatten(data)).Keys by {
      FirstSeenElems(Flatten(data));
      OccurrenceCountsMeaning(Flatten(data));
    }
    forall x
      ensures x in OccurrenceCounts(Flatten(data)) <==> Occurrences(data, x) >= 1
      ensures x in OccurrenceCounts(Flatten(data)) ==> OccurrenceCounts(Flatten(data))[x] == Occurrences(data, x) >= 1
    {
      KeyOfItem(data, x);
    }
  }

  /** One item: it is a key exactly when it occurs, and then its count is its number of occurrences. */
  lemma KeyOfItem<T>(data: seq<seq<T>>, x: T)
    ensures x in OccurrenceCounts(Flatten(data)) <==> Occurrences(data, x) >= 1
    ensures x in OccurrenceCounts(Flatten(data)) ==> OccurrenceCounts(Flatten(data))[x] == Occurrences(data, x)
  {
    OccurrenceCountsMeaning(Flatten(data));
    OccurrencesOfFlatten(data, x);
    assert x in Elems(Flatten(data)) <==> multiset(Flatten(data))[x] > 0;
  }
}
