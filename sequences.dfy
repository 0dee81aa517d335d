/** Order-preserving "first occurrence wins" union of sequences, keyed by a
    projection. This is the behaviour of filling an insertion-ordered
    `Map` or `Set` and skipping keys that are already present, which the
    aggregator does for stores (mergeSources), tag names (mergeTags) and
    game keys (dedupeGames). */
module Sequences {

  /** No two elements of xs share a key. */
  ghost predicate UniqueBy<T, K>(xs: seq<T>, key: T -> K)
  {
    forall i, j :: 0 <= i < j < |xs| ==> key(xs[i]) != key(xs[j])
  }

  /** The set of keys that occur in xs. */
  ghost function KeySet<T, K>(xs: seq<T>, key: T -> K): set<K>
  {
    set x | x in xs :: key(x)
  }

  /** Walks xs from left to right and keeps an element only when its key
      has not been kept before. */
  ghost function FirstBy<T, K>(xs: seq<T>, key: T -> K): seq<T>
    decreases |xs|
  {
    if xs == [] then []
    else
      var kept := FirstBy(xs[..|xs| - 1], key);
      if key(xs[|xs| - 1]) in KeySet(kept, key) then kept else kept + [xs[|xs| - 1]]
  }

  lemma KeySetSingleton<T, K>(x: T, key: T -> K)
    ensures KeySet([x], key) == {key(x)}
  {
    assert x in [x];
  }

  /** One more element: FirstBy keeps it exactly when its key is new. */
  lemma FirstBySnoc<T, K>(xs: seq<T>, x: T, key: T -> K)
    ensures FirstBy(xs + [x], key)
      == if key(x) in KeySet(FirstBy(xs, key), key) then FirstBy(xs, key) else FirstBy(xs, key) + [x]
  {
    assert (xs + [x])[..|xs|] == xs;
  }

  /** The elements of xs whose key is not in ks, in order. */
  ghost function WithoutKeys<T, K>(xs: seq<T>, key: T -> K, ks: set<K>): (r: seq<T>)
    decreases |xs|
  {
    if xs == [] then []
    else
      var rest := WithoutKeys(xs[..|xs| - 1], key, ks);
      if key(xs[|xs| - 1]) in ks then rest else rest + [xs[|xs| - 1]]
  }

  /** xs occurs in ys in order, possibly with gaps. */
  ghost predicate IsSubsequence<T>(xs: seq<T>, ys: seq<T>)
    decreases |ys|
  {
    if xs == [] then true
    else if ys == [] then false
    else if xs[0] == ys[0] then IsSubsequence(xs[1..], ys[1..])
    else IsSubsequence(xs, ys[1..])
  }

  lemma KeySetAppend<T, K>(a: seq<T>, b: seq<T>, key: T -> K)
    ensures KeySet(a + b, key) == KeySet(a, key) + KeySet(b, key)
  {
    forall k | k in KeySet(a + b, key)
      ensures k in KeySet(a, key) + KeySet(b, key)
    {
      var x :| x in a + b && key(x) == k;
    }
  }

  /** Keeping the first element per key yields unique keys, loses no key, and
      invents no element. */
  lemma {:induction false} FirstByFacts<T, K>(xs: seq<T>, key: T -> K)
    ensures UniqueBy(FirstBy(xs, key), key)
    ensures KeySet(FirstBy(xs, key), key) == KeySet(xs, key)
    ensures forall y :: y in FirstBy(xs, key) ==> y in xs
    ensures |FirstBy(xs, key)| <= |xs|
    decreases |xs|
  {
    if xs != [] {
      var init, last := xs[..|xs| - 1], xs[|xs| - 1];
      assert xs == init + [last];
      FirstByFacts(init, key);
      KeySetAppend(init, [last], key);
      var kept := FirstBy(init, key);
      if key(last) !in KeySet(kept, key) {
        KeySetAppend(kept, [last], key);
        forall i, j | 0 <= i < j < |kept| + 1
          ensures key((kept + [last])[i]) != key((kept + [last])[j])
        {
          if j == |kept| {
            assert kept[i] in kept;
          }
        }
      }
    }
  }

  /** The elements of xs whose key is k, in order. */
  ghost function WithKey<T, K>(xs: seq<T>, key: T -> K, k: K): seq<T>
    decreases |xs|
  {
    if xs == [] then []
    else
      var rest := WithKey(xs[..|xs| - 1], key, k);
      if key(xs[|xs| - 1]) == k then rest + [xs[|xs| - 1]] else rest
  }

  lemma {:induction false} WithKeyEmpty<T, K>(xs: seq<T>, key: T -> K, k: K)
    requires k !in KeySet(xs, key)
    ensures WithKey(xs, key, k) == []
    decreases |xs|
  {
    if xs != [] {
      assert xs[|xs| - 1] in xs;
      assert forall x :: x in xs[..|xs| - 1] ==> x in xs;
      WithKeyEmpty(xs[..|xs| - 1], key, k);
    }
  }

  /** First occurrence wins: each kept element is the first element of xs
      that carries its key. */
  lemma {:induction false} FirstByFirstWins<T, K>(xs: seq<T>, key: T -> K)
    ensures forall i :: 0 <= i < |FirstBy(xs, key)| ==>
              var same := WithKey(xs, key, key(FirstBy(xs, key)[i]));
              same != [] && same[0] == FirstBy(xs, key)[i]
    decreases |xs|
  {
    if xs != [] {
      var init, last := xs[..|xs| - 1], xs[|xs| - 1];
      var kept := FirstBy(init, key);
      FirstByFirstWins(init, key);
      FirstByFacts(init, key);
      var r := FirstBy(xs, key);
      forall i | 0 <= i < |r|
        ensures WithKey(xs, key, key(r[i])) != [] && WithKey(xs, key, key(r[i]))[0] == r[i]
      {
        if i < |kept| {
          assert r[i] == kept[i];
          assert WithKey(init, key, key(kept[i])) != [];
        } else {
          assert r[i] == last && key(last) !in KeySet(init, key);
          WithKeyEmpty(init, key, key(last));
        }
      }
    }
  }

  /** A sequence whose keys are already unique is left unchanged. */
  lemma {:induction false} FirstByOfUnique<T, K>(xs: seq<T>, key: T -> K)
    requires UniqueBy(xs, key)
    ensures FirstBy(xs, key) == xs
    decreases |xs|
  {
    if xs != [] {
      var init, last := xs[..|xs| - 1], xs[|xs| - 1];
      FirstByOfUnique(init, key);
      assert key(last) !in KeySet(init, key);
      assert init + [last] == xs;
    }
  }

  /** Keeping first occurrences twice is the same as doing it once on the
      concatenation: earlier de-duplication of a prefix changes nothing. */
  lemma {:induction false} FirstByAbsorb<T, K>(a: seq<T>, b: seq<T>, key: T -> K)
    ensures FirstBy(FirstBy(a, key) + b, key) == FirstBy(a + b, key)
    decreases |b|
  {
    if b == [] {
      FirstByFacts(a, key);
      FirstByOfUnique(FirstBy(a, key), key);
      assert FirstBy(a, key) + b == FirstBy(a, key);
      assert a + b == a;
    } else {
      var init, last := b[..|b| - 1], b[|b| - 1];
      FirstByAbsorb(a, init, key);
      assert (FirstBy(a, key) + b)[..|FirstBy(a, key) + b| - 1] == FirstBy(a, key) + init;
      assert (a + b)[..|a + b| - 1] == a + init;
    }
  }

  /** Ordered union: the first-occurrence de-duplication of a + b is that of a
      followed by that of the elements of b whose key does not occur in a. */
  lemma {:induction false} FirstByAppend<T, K>(a: seq<T>, b: seq<T>, key: T -> K)
    ensures FirstBy(a + b, key) == FirstBy(a, key) + FirstBy(WithoutKeys(b, key, KeySet(a, key)), key)
    decreases |b|
  {
    if b == [] {
      assert a + b == a;
    } else {
      FirstByAppend(a, b[..|b| - 1], key);
      FirstByAppendStep(a, b, key);
    }
  }

  lemma FirstByAppendStep<T, K>(a: seq<T>, b: seq<T>, key: T -> K)
    requires b != []
    requires FirstBy(a + b[..|b| - 1], key) == FirstBy(a, key) + FirstBy(WithoutKeys(b[..|b| - 1], key, KeySet(a, key)), key)
    ensures FirstBy(a + b, key) == FirstBy(a, key) + FirstBy(WithoutKeys(b, key, KeySet(a, key)), key)
  {
    var fa, fn := FirstBy(a, key), FirstBy(WithoutKeys(b[..|b| - 1], key, KeySet(a, key)), key);
    StepWhole(a, b, key);
    StepNovel(a, b, key);
    AppendAssoc(fa, fn, [b[|b| - 1]]);
  }

  /** The last element of b, seen from FirstBy(a + b). */
  lemma StepWhole<T, K>(a: seq<T>, b: seq<T>, key: T -> K)
    requires b != []
    requires FirstBy(a + b[..|b| - 1], key) == FirstBy(a, key) + FirstBy(WithoutKeys(b[..|b| - 1], key, KeySet(a, key)), key)
    ensures var fa, fn := FirstBy(a, key), FirstBy(WithoutKeys(b[..|b| - 1], key, KeySet(a, key)), key);
      FirstBy(a + b, key)
        == if key(b[|b| - 1]) in KeySet(a, key) + KeySet(fn, key) then fa + fn else (fa + fn) + [b[|b| - 1]]
  {
    var init, last := b[..|b| - 1], b[|b| - 1];
    var fa, fn := FirstBy(a, key), FirstBy(WithoutKeys(init, key, KeySet(a, key)), key);
    SplitLast(b);
    AppendAssoc(a, init, [last]);
    FirstBySnoc(a + init, last, key);
    FirstByFacts(a, key);
    KeySetAppend(fa, fn, key);
  }

  /** The last element of b, seen from the de-duplication of its novel part. */
  lemma StepNovel<T, K>(a: seq<T>, b: seq<T>, key: T -> K)
    requires b != []
    ensures var fn := FirstBy(WithoutKeys(b[..|b| - 1], key, KeySet(a, key)), key);
      FirstBy(WithoutKeys(b, key, KeySet(a, key)), key)
        == if key(b[|b| - 1]) in KeySet(a, key) + KeySet(fn, key) then fn else fn + [b[|b| - 1]]
  {
    var init, last, ka := b[..|b| - 1], b[|b| - 1], KeySet(a, key);
    var novel := WithoutKeys(init, key, ka);
    SplitLast(b);
    WithoutKeysSnoc(init, last, key, ka);
    if key(last) in ka {
      assert WithoutKeys(b, key, ka) == novel;
    } else {
      assert WithoutKeys(b, key, ka) == novel + [last];
      FirstBySnoc(novel, last, key);
    }
  }

  lemma SplitLast<T>(b: seq<T>)
    requires b != []
    ensures b == b[..|b| - 1] + [b[|b| - 1]]
  {
  }

  lemma TakeOneMore<T>(xs: seq<T>, i: nat)
    requires i < |xs|
    ensures xs[..i + 1] == xs[..i] + [xs[i]]
  {
  }

  lemma AppendAssoc<T>(x: seq<T>, y: seq<T>, z: seq<T>)
    ensures (x + y) + z == x + (y + z)
  {
  }

  lemma WithoutKeysSnoc<T, K>(xs: seq<T>, x: T, key: T -> K, ks: set<K>)
    ensures WithoutKeys(xs + [x], key, ks)
      == if key(x) in ks then WithoutKeys(xs, key, ks) else WithoutKeys(xs, key, ks) + [x]
  {
    assert (xs + [x])[..|xs|] == xs;
  }

  /** Putting one more element in front of ys keeps xs a subsequence. */
  lemma {:induction false} SubsequenceCons<T>(xs: seq<T>, y: T, ys: seq<T>)
    requires IsSubsequence(xs, ys)
    ensures IsSubsequence(xs, [y] + ys)
    decreases |ys|, 1
  {
    var zs := [y] + ys;
    assert zs[1..] == ys;
    if xs != [] && xs[0] == y {
      SubsequenceTail(xs, ys);
    }
  }

  /** Dropping the first element of a subsequence keeps it one. */
  lemma {:induction false} SubsequenceTail<T>(xs: seq<T>, ys: seq<T>)
    requires xs != [] && IsSubsequence(xs, ys)
    ensures IsSubsequence(xs[1..], ys)
    decreases |ys|, 0
  {
    if xs[0] == ys[0] {
      SubsequenceCons(xs[1..], ys[0], ys[1..]);
    } else {
      SubsequenceTail(xs, ys[1..]);
      SubsequenceCons(xs[1..], ys[0], ys[1..]);
    }
    assert ys == [ys[0]] + ys[1..];
  }

  /** The same element in front of both sides. */
  lemma SubsequenceBoth<T>(x: T, xs: seq<T>, ys: seq<T>)
    requires IsSubsequence(xs, ys)
    ensures IsSubsequence([x] + xs, [x] + ys)
  {
    assert ([x] + xs)[1..] == xs && ([x] + ys)[1..] == ys;
  }


  /** An element occurs at most once in a sequence with unique keys. */
  lemma CountAtMostOne<T, K>(xs: seq<T>, key: T -> K, x: T)
    requires UniqueBy(xs, key)
    ensures multiset(xs)[x] <= 1
  {
    if x in xs {
      var a :| 0 <= a < |xs| && xs[a] == x;
      assert xs == xs[..a] + [x] + xs[a + 1..];
      forall c | 0 <= c < a ensures xs[..a][c] != x {
        assert key(xs[c]) != key(x);
      }
      var rest := xs[a + 1..];
      forall c | 0 <= c < |rest| ensures rest[c] != x {
        assert key(xs[a + 1 + c]) != key(x);
      }
      assert x !in xs[..a] && x !in rest;
    }
  }

  lemma DistinctPositions<T>(ys: seq<T>, i: nat, j: nat)
    requires i < j < |ys| && multiset(ys)[ys[i]] <= 1
    ensures ys[i] != ys[j]
  {
    assert ys == ys[..j] + [ys[j]] + ys[j + 1..];
    assert ys[..j][i] == ys[i];
  }

  /** Reordering keeps keys unique: a permutation of a sequence with unique
      keys has unique keys. */
  lemma UniqueByPermutation<T, K>(xs: seq<T>, ys: seq<T>, key: T -> K)
    requires multiset(xs) == multiset(ys)
    requires UniqueBy(xs, key)
    ensures UniqueBy(ys, key)
  {
    forall i, j | 0 <= i < j < |ys|
      ensures key(ys[i]) != key(ys[j])
    {
      CountAtMostOne(xs, key, ys[i]);
      DistinctPositions(ys, i, j);
      assert ys[i] in multiset(xs) && ys[j] in multiset(xs);
      var a :| 0 <= a < |xs| && xs[a] == ys[i];
      var b :| 0 <= b < |xs| && xs[b] == ys[j];
    }
  }

  /** A permutation has the same elements and the same keys. */
  lemma PermutationKeys<T, K>(xs: seq<T>, ys: seq<T>, key: T -> K)
    requires multiset(xs) == multiset(ys)
    ensures forall y :: y in ys <==> y in xs
    ensures KeySet(ys, key) == KeySet(xs, key)
  {
    forall y ensures y in ys <==> y in xs {
      assert y in ys <==> y in multiset(ys);
      assert y in xs <==> y in multiset(xs);
    }
  }
}
