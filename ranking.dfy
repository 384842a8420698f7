/** The ranking step of `KeywordMatcher.findBestMatches` (src/services/keywordMatcher.ts:40-41):
    `results.sort((a, b) => b.confidence - a.confidence)`. `Array.prototype.sort` is stable, so
    the result is ordered by non-increasing key with ties left in their original order. The sort
    is stated as an insertion sort; its lemmas say it is ordered, a permutation, and stable. */
module Ranking {

  predicate SortedDesc<T>(s: seq<T>, key: T -> real) {
    forall i, j :: 0 <= i < j < |s| ==> key(s[i]) >= key(s[j])
  }

  /** Inserts `x` after every element whose key is at least `x`'s. */
  function Insert<T>(x: T, s: seq<T>, key: T -> real): (r: seq<T>)
    ensures |r| == |s| + 1
  {
    if s == [] then [x]
    else if key(s[0]) >= key(x) then [s[0]] + Insert(x, s[1..], key)
    else [x] + s
  }

  function StableSort<T>(s: seq<T>, key: T -> real): (r: seq<T>)
    ensures |r| == |s|
  {
    if s == [] then [] else Insert(s[|s| - 1], StableSort(s[..|s| - 1], key), key)
  }

  /** The elements of `s` whose key is `v`, in order. */
  function WithKey<T>(s: seq<T>, key: T -> real, v: real): (r: seq<T>)
    ensures |r| <= |s|
  {
    if s == [] then []
    else (if key(s[0]) == v then [s[0]] else []) + WithKey(s[1..], key, v)
  }

  lemma {:induction false} InsertPermutation<T>(x: T, s: seq<T>, key: T -> real)
    ensures multiset(Insert(x, s, key)) == multiset(s) + multiset{x}
  {
    if s == [] {
      assert Insert(x, s, key) == [x];
    } else if key(s[0]) >= key(x) {
      InsertPermutation(x, s[1..], key);
      assert Insert(x, s, key) == [s[0]] + Insert(x, s[1..], key);
      assert s == [s[0]] + s[1..];
    } else {
      assert Insert(x, s, key) == [x] + s;
    }
  }

  lemma {:induction false} InsertSorted<T>(x: T, s: seq<T>, key: T -> real)
    requires SortedDesc(s, key)
    ensures SortedDesc(Insert(x, s, key), key)
  {
    if s != [] && key(s[0]) >= key(x) {
      InsertSorted(x, s[1..], key);
      InsertPermutation(x, s[1..], key);
      var r := Insert(x, s[1..], key);
      forall i | 0 <= i < |r| ensures key(s[0]) >= key(r[i]) {
        assert r[i] in multiset(r);
        if r[i] != x {
          assert r[i] in multiset(s[1..]);
          var k :| 0 <= k < |s[1..]| && s[1..][k] == r[i];
          assert s[k + 1] == r[i];
        }
      }
    }
  }

  /** The sorted sequence is ordered by non-increasing key and is a permutation of the input. */
  lemma {:induction false} StableSortSortedPermutation<T>(s: seq<T>, key: T -> real)
    ensures SortedDesc(StableSort(s, key), key)
    ensures multiset(StableSort(s, key)) == multiset(s)
  {
    if s != [] {
      StableSortSortedPermutation(s[..|s| - 1], key);
      InsertSorted(s[|s| - 1], StableSort(s[..|s| - 1], key), key);
      InsertPermutation(s[|s| - 1], StableSort(s[..|s| - 1], key), key);
      assert s == s[..|s| - 1] + [s[|s| - 1]];
    }
  }

  lemma {:induction false} WithKeyAppend<T>(a: seq<T>, b: seq<T>, key: T -> real, v: real)
    ensures WithKey(a + b, key, v) == WithKey(a, key, v) + WithKey(b, key, v)
  {
    if a != [] {
      WithKeyAppend(a[1..], b, key, v);
      assert (a + b)[1..] == a[1..] + b;
    } else {
      assert a + b == b;
    }
  }

  lemma {:induction false} WithKeyBelow<T>(s: seq<T>, key: T -> real, v: real)
    requires forall i :: 0 <= i < |s| ==> key(s[i]) < v
    ensures WithKey(s, key, v) == []
  {
    if s != [] {
      WithKeyBelow(s[1..], key, v);
    }
  }

  lemma {:induction false} InsertStable<T>(x: T, s: seq<T>, key: T -> real, v: real)
    requires SortedDesc(s, key)
    ensures WithKey(Insert(x, s, key), key, v) == WithKey(s, key, v) + WithKey([x], key, v)
  {
    if s == [] {
      assert Insert(x, s, key) == [x];
    } else if key(s[0]) >= key(x) {
      var rest := Insert(x, s[1..], key);
      assert Insert(x, s, key) == [s[0]] + rest;
      InsertStable(x, s[1..], key, v);
      WithKeyAppend([s[0]], rest, key, v);
      assert s == [s[0]] + s[1..];
      WithKeyAppend([s[0]], s[1..], key, v);
    } else {
      assert Insert(x, s, key) == [x] + s;
      WithKeyAppend([x], s, key, v);
      if key(x) == v {
        WithKeyBelow(s, key, v);
      } else {
        assert WithKey([x], key, v) == [];
      }
    }
  }

  /** Stability: for every key value, the elements carrying it appear in the sorted sequence in
      the same order as in the input. */
  lemma {:induction false} StableSortStable<T>(s: seq<T>, key: T -> real, v: real)
    ensures WithKey(StableSort(s, key), key, v) == WithKey(s, key, v)
  {
    if s != [] {
      var init := s[..|s| - 1];
      StableSortStable(init, key, v);
      StableSortSortedPermutation(init, key);
      InsertStable(s[|s| - 1], StableSort(init, key), key, v);
      assert s == init + [s[|s| - 1]];
      WithKeyAppend(init, [s[|s| - 1]], key, v);
    }
  }

  /** The elements with a positive key, in order. */
  function Positive<T>(s: seq<T>, key: T -> real): (r: seq<T>)
    ensures |r| <= |s|
  {
    if s == [] then []
    else Positive(s[..|s| - 1], key) + (if key(s[|s| - 1]) > 0.0 then [s[|s| - 1]] else [])
  }

  /** One more element: the filter of a longer prefix extends the filter of the shorter one. */
  lemma PositiveStep<T>(s: seq<T>, i: nat, key: T -> real)
    requires i < |s|
    ensures Positive(s[..i + 1], key) == Positive(s[..i], key) + (if key(s[i]) > 0.0 then [s[i]] else [])
  {
    assert s[..i + 1][..i] == s[..i];
  }

  lemma {:induction false} PositiveMembers<T>(s: seq<T>, key: T -> real)
    ensures forall x :: x in Positive(s, key) ==> x in s && key(x) > 0.0
    ensures forall i :: 0 <= i < |s| && key(s[i]) > 0.0 ==> s[i] in Positive(s, key)
  {
    if s != [] {
      PositiveMembers(s[..|s| - 1], key);
      assert s == s[..|s| - 1] + [s[|s| - 1]];
    }
  }

  lemma {:induction false} PositiveAppend<T>(a: seq<T>, b: seq<T>, key: T -> real)
    ensures Positive(a + b, key) == Positive(a, key) + Positive(b, key)
    decreases |b|
  {
    if b == [] {
      assert a + b == a;
    } else {
      var b' := b[..|b| - 1];
      assert (a + b)[..|a + b| - 1] == a + b';
      assert (a + b)[|a + b| - 1] == b[|b| - 1];
      PositiveAppend(a, b', key);
    }
  }

  lemma {:induction false} WithKeyMissing<T>(s: seq<T>, key: T -> real, v: real)
    requires forall x :: x in s ==> key(x) != v
    ensures WithKey(s, key, v) == []
  {
    if s != [] {
      assert forall x :: x in s[1..] ==> x in s;
      WithKeyMissing(s[1..], key, v);
    }
  }

  /** Position `k` holds the maximal key, that key is positive, and no earlier position holds
      it. */
  predicate IsFirstMaximal<T>(s: seq<T>, key: T -> real, k: int) {
    0 <= k < |s| && key(s[k]) > 0.0
    && (forall j :: 0 <= j < |s| ==> key(s[j]) <= key(s[k]))
    && (forall j :: 0 <= j < k ==> key(s[j]) < key(s[k]))
  }

  /** Ranking the positive elements of a sequence of non-negative keys: the ranking is empty
      exactly when every key is 0, and otherwise starts with the first element of maximal key. */
  lemma FirstMaximal<T>(s: seq<T>, key: T -> real)
    requires forall i :: 0 <= i < |s| ==> key(s[i]) >= 0.0
    ensures StableSort(Positive(s, key), key) == [] <==> forall i :: 0 <= i < |s| ==> key(s[i]) == 0.0
    ensures StableSort(Positive(s, key), key) != [] ==>
      exists k :: IsFirstMaximal(s, key, k) && StableSort(Positive(s, key), key)[0] == s[k]
  {
    var kept := Positive(s, key);
    var ranked := StableSort(kept, key);
    RankingHead(s, key);
    if ranked != [] {
      var m := ranked[0];
      var v := key(m);
      var k := FirstWithKey(s, key, v);
      FirstOfKey(s, key, k);
      StableSortStable(kept, key, v);
      assert WithKey(ranked, key, v)[0] == m;
      assert IsFirstMaximal(s, key, k);
    }
  }

  /** The head of the ranking is an element of `s` of maximal key; an empty ranking means every
      key is 0. */
  lemma RankingHead<T>(s: seq<T>, key: T -> real)
    requires forall i :: 0 <= i < |s| ==> key(s[i]) >= 0.0
    ensures var ranked := StableSort(Positive(s, key), key);
      (ranked == [] <==> forall i :: 0 <= i < |s| ==> key(s[i]) == 0.0)
      && (ranked != [] ==>
            (key(ranked[0]) > 0.0
             && (exists j :: 0 <= j < |s| && s[j] == ranked[0])
             && forall j :: 0 <= j < |s| ==> key(s[j]) <= key(ranked[0])))
  {
    var kept := Positive(s, key);
    var ranked := StableSort(kept, key);
    PositiveMembers(s, key);
    StableSortSortedPermutation(kept, key);
    if ranked != [] {
      var m := ranked[0];
      assert m in multiset(kept);
      forall j | 0 <= j < |s| ensures key(s[j]) <= key(m) {
        if key(s[j]) > 0.0 {
          assert s[j] in multiset(ranked);
          var p :| 0 <= p < |ranked| && ranked[p] == s[j];
        }
      }
    } else {
      assert kept == [];
      forall j | 0 <= j < |s| ensures key(s[j]) == 0.0 {
        assert s[j] !in kept;
      }
    }
  }

  /** When no earlier position has the key of position `k`, position `k` is the first kept
      element with that key. */
  lemma FirstOfKey<T>(s: seq<T>, key: T -> real, k: nat)
    requires k < |s| && key(s[k]) > 0.0
    requires forall j :: 0 <= j < k ==> key(s[j]) != key(s[k])
    ensures WithKey(Positive(s, key), key, key(s[k])) != []
    ensures WithKey(Positive(s, key), key, key(s[k]))[0] == s[k]
  {
    var v := key(s[k]);
    var before, rest := s[..k], s[k + 1..];
    assert s == before + [s[k]] + rest;
    PositiveAppend(before + [s[k]], rest, key);
    PositiveAppend(before, [s[k]], key);
    assert Positive([s[k]], key) == [s[k]] by {
      assert [s[k]][..0] == [];
    }
    PositiveMembers(before, key);
    forall x | x in Positive(before, key) ensures key(x) != v {
      var j :| 0 <= j < |before| && before[j] == x;
      assert s[j] == x;
    }
    WithKeyMissing(Positive(before, key), key, v);
    WithKeyAppend(Positive(before, key), [s[k]], key, v);
    WithKeyAppend(Positive(before, key) + [s[k]], Positive(rest, key), key, v);
    assert WithKey([s[k]], key, v) == [s[k]] by {
      assert [s[k]][1..] == [];
    }
  }

  /** The first position holding key `v`, when some position does. */
  lemma FirstWithKey<T>(s: seq<T>, key: T -> real, v: real) returns (k: nat)
    requires exists j :: 0 <= j < |s| && key(s[j]) == v
    ensures k < |s| && key(s[k]) == v
    ensures forall j :: 0 <= j < k ==> key(s[j]) != v
  {
    k := 0;
    while key(s[k]) != v
      invariant k < |s|
      invariant forall j :: 0 <= j < k ==> key(s[j]) != v
      invariant exists j :: k <= j < |s| && key(s[j]) == v
      decreases |s| - k
    {
      k := k + 1;
    }
  }
}
