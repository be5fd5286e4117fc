/**
 * The two vector operations the expectation list goes through: a stable
 * sort by a string key (`sort_by_cached_key`) and the removal of
 * consecutive repeats (`dedup`).
 */
module Sorting {
  import opened Text

  /** Each entry's key is no greater than the next one's. */
  predicate SortedBy<T>(xs: seq<T>, key: T -> string) {
    forall i :: 0 < i < |xs| ==> StrLe(key(xs[i - 1]), key(xs[i]))
  }

  /** Inserts `x` before the first entry whose key is not below its own. */
  function InsertBy<T>(x: T, ys: seq<T>, key: T -> string): (r: seq<T>)
    requires SortedBy(ys, key)
    ensures |r| == |ys| + 1
    ensures multiset(r) == multiset(ys) + multiset{x}
    ensures r[0] == x || (ys != [] && r[0] == ys[0])
    ensures SortedBy(r, key)
  {
    if ys == [] then [x]
    else if StrLe(key(x), key(ys[0])) then [x] + ys
    else
      StrLeTotal(key(x), key(ys[0]));
      assert ys == [ys[0]] + ys[1..];
      [ys[0]] + InsertBy(x, ys[1..], key)
  }

  /** Sorts by key, inserting each entry in front of the already sorted rest. */
  function SortBy<T>(xs: seq<T>, key: T -> string): (r: seq<T>)
    ensures multiset(r) == multiset(xs)
    ensures SortedBy(r, key)
  {
    if xs == [] then []
    else
      assert xs == [xs[0]] + xs[1..];
      InsertBy(xs[0], SortBy(xs[1..], key), key)
  }

  /** The tail of a sorted list is sorted. */
  lemma SortedTail<T>(xs: seq<T>, key: T -> string)
    requires xs != []
    ensures SortedBy(xs, key) ==> SortedBy(xs[1..], key)
  {
    if SortedBy(xs, key) {
      forall i | 0 < i < |xs[1..]|
        ensures StrLe(key(xs[1..][i - 1]), key(xs[1..][i]))
      {
        assert xs[1..][i - 1] == xs[i] && xs[1..][i] == xs[i + 1];
      }
    }
  }

  /** An entry whose key is no greater than the head's can go in front of a sorted list. */
  lemma SortedCons<T>(x: T, ys: seq<T>, key: T -> string)
    requires SortedBy(ys, key) && (ys != [] ==> StrLe(key(x), key(ys[0])))
    ensures SortedBy([x] + ys, key)
  {
    var r := [x] + ys;
    forall i | 0 < i < |r|
      ensures StrLe(key(r[i - 1]), key(r[i]))
    {
      if i > 1 {
        assert r[i - 1] == ys[i - 2] && r[i] == ys[i - 1];
      }
    }
  }

  /** Sorting keeps the members and the length. */
  lemma SortKeepsMembers<T>(xs: seq<T>, key: T -> string)
    ensures forall x :: x in SortBy(xs, key) <==> x in xs
    ensures |SortBy(xs, key)| == |xs|
  {
    var sorted := SortBy(xs, key);
    forall x ensures x in sorted <==> x in xs {
      assert x in sorted <==> x in multiset(sorted);
      assert x in xs <==> x in multiset(xs);
    }
    assert |sorted| == |multiset(sorted)| == |multiset(xs)| == |xs|;
  }

  /** The entries of `xs` whose key is `k`, in their order in `xs`. */
  function WithKey<T>(xs: seq<T>, key: T -> string, k: string): seq<T> {
    if xs == [] then [] else (if key(xs[0]) == k then [xs[0]] else []) + WithKey(xs[1..], key, k)
  }

  /** Unfolds `WithKey` on a list given as head and tail. */
  lemma WithKeyCons<T>(x: T, ys: seq<T>, key: T -> string, k: string)
    ensures WithKey([x] + ys, key, k) == (if key(x) == k then [x] else []) + WithKey(ys, key, k)
  {
    assert ([x] + ys)[0] == x && ([x] + ys)[1..] == ys;
  }

  /**
   * Inserting puts `x` in front of every entry with its own key, so among
   * the entries with equal keys it comes first.
   */
  lemma {:induction false} InsertIsStable<T>(x: T, ys: seq<T>, key: T -> string, k: string)
    requires SortedBy(ys, key)
    ensures WithKey(InsertBy(x, ys, key), key, k) == (if key(x) == k then [x] else []) + WithKey(ys, key, k)
    decreases |ys|
  {
    if ys == [] {
    } else if StrLe(key(x), key(ys[0])) {
      WithKeyCons(x, ys, key, k);
    } else {
      SortedTail(ys, key);
      InsertIsStable(x, ys[1..], key, k);
      WithKeyCons(ys[0], InsertBy(x, ys[1..], key), key, k);
      WithKeyCons(ys[0], ys[1..], key, k);
      assert ys == [ys[0]] + ys[1..];
      StrLeRefl(key(x));
    }
  }

  /** The sort is stable: entries with equal keys keep their input order, repeats included. */
  lemma {:induction false} SortIsStable<T>(xs: seq<T>, key: T -> string, k: string)
    ensures WithKey(SortBy(xs, key), key, k) == WithKey(xs, key, k)
    decreases |xs|
  {
    if xs != [] {
      SortIsStable(xs[1..], key, k);
      InsertIsStable(xs[0], SortBy(xs[1..], key), key, k);
      WithKeyCons(xs[0], xs[1..], key, k);
      assert xs == [xs[0]] + xs[1..];
    }
  }

  /** A key that occurs in a sorted list is no smaller than the head's. */
  lemma {:induction false} KeyAtLeastHead<T>(xs: seq<T>, key: T -> string, k: string)
    requires SortedBy(xs, key) && WithKey(xs, key, k) != []
    ensures xs != [] && StrLe(key(xs[0]), k)
    decreases |xs|
  {
    if key(xs[0]) == k {
      StrLeRefl(k);
    } else {
      SortedTail(xs, key);
      KeyAtLeastHead(xs[1..], key, k);
      StrLeTrans(key(xs[0]), key(xs[1]), k);
    }
  }

  /** A non-empty list has an entry under its head's key. */
  lemma WithKeyOwnKey<T>(xs: seq<T>, key: T -> string)
    requires xs != []
    ensures WithKey(xs, key, key(xs[0])) != []
  {
    WithKeyCons(xs[0], xs[1..], key, key(xs[0]));
    assert xs == [xs[0]] + xs[1..];
  }

  /**
   * A sorted list is determined by its entries of each key: two sorted lists
   * with the same entries, in the same order, under every key are equal.
   */
  lemma {:induction false} SortedByKeysUnique<T>(a: seq<T>, b: seq<T>, key: T -> string)
    requires SortedBy(a, key) && SortedBy(b, key)
    requires forall k :: WithKey(a, key, k) == WithKey(b, key, k)
    ensures a == b
    decreases |a|
  {
    if a == [] {
      if b != [] {
        WithKeyOwnKey(b, key);
      }
    } else if b == [] {
      WithKeyOwnKey(a, key);
    } else {
      var ka, kb := key(a[0]), key(b[0]);
      assert a == [a[0]] + a[1..];
      WithKeyCons(a[0], a[1..], key, ka);
      assert WithKey(a, key, ka) == WithKey(b, key, ka);
      KeyAtLeastHead(b, key, ka);
      assert b == [b[0]] + b[1..];
      WithKeyCons(b[0], b[1..], key, kb);
      assert WithKey(a, key, kb) == WithKey(b, key, kb);
      KeyAtLeastHead(a, key, kb);
      StrLeAntisym(ka, kb);
      WithKeyCons(b[0], b[1..], key, ka);
      assert a[0] == WithKey(a, key, ka)[0] == WithKey(b, key, ka)[0] == b[0];
      forall k ensures WithKey(a[1..], key, k) == WithKey(b[1..], key, k) {
        WithKeyCons(a[0], a[1..], key, k);
        WithKeyCons(b[0], b[1..], key, k);
        assert WithKey(a, key, k) == WithKey(b, key, k);
        if k == ka {
          assert WithKey(a, key, k) == [a[0]] + WithKey(a[1..], key, k);
          assert WithKey(b, key, k) == [b[0]] + WithKey(b[1..], key, k);
          assert WithKey(a[1..], key, k) == WithKey(a, key, k)[1..];
          assert WithKey(b[1..], key, k) == WithKey(b, key, k)[1..];
        } else {
          assert WithKey(a, key, k) == WithKey(a[1..], key, k);
          assert WithKey(b, key, k) == WithKey(b[1..], key, k);
        }
      }
      SortedTail(a, key);
      SortedTail(b, key);
      SortedByKeysUnique(a[1..], b[1..], key);
    }
  }

  /** Past an entry whose key is above `k`, a sorted list has no entry with key `k`. */
  lemma {:induction false} KeyAbsentAbove<T>(xs: seq<T>, key: T -> string, k: string)
    requires SortedBy(xs, key) && xs != []
    requires StrLe(k, key(xs[0])) && key(xs[0]) != k
    ensures WithKey(xs, key, k) == []
  {
    if WithKey(xs, key, k) != [] {
      KeyAtLeastHead(xs, key, k);
      StrLeAntisym(k, key(xs[0]));
    }
  }

  /** No entry is followed by an equal one. */
  predicate NoAdjacentRepeats<T(==)>(xs: seq<T>) {
    forall i :: 0 < i < |xs| ==> xs[i - 1] != xs[i]
  }

  /** An entry different from the head of a list without adjacent repeats can go in front of it. */
  lemma DistinctCons<T>(x: T, ys: seq<T>)
    requires NoAdjacentRepeats(ys)
    requires ys != [] ==> x != ys[0]
    ensures NoAdjacentRepeats([x] + ys)
  {
    var r := [x] + ys;
    forall i | 0 < i < |r|
      ensures r[i - 1] != r[i]
    {
      if i > 1 {
        assert r[i - 1] == ys[i - 2] && r[i] == ys[i - 1];
      }
    }
  }

  /** Removes consecutive repeated entries, keeping the first of each run. */
  function Dedup<T(==)>(xs: seq<T>): (r: seq<T>)
    ensures |r| <= |xs|
    ensures xs != [] ==> r != [] && r[0] == xs[0]
  {
    if |xs| <= 1 then xs
    else if xs[0] == xs[1] then Dedup(xs[1..])
    else [xs[0]] + Dedup(xs[1..])
  }

  /** Unfolds `Dedup` on a list given as head and tail. */
  lemma DedupCons<T>(x: T, ys: seq<T>)
    ensures Dedup([x] + ys) == if ys != [] && ys[0] == x then Dedup(ys) else [x] + Dedup(ys)
  {
    assert ([x] + ys)[1..] == ys;
  }

  /** Deduplicating keeps exactly the members. */
  lemma {:induction false} DedupMembers<T>(xs: seq<T>)
    ensures forall x :: x in Dedup(xs) <==> x in xs
    decreases |xs|
  {
    if |xs| > 1 {
      DedupMembers(xs[1..]);
      DedupCons(xs[0], xs[1..]);
      assert xs == [xs[0]] + xs[1..];
    }
  }

  /** No entry of the deduplicated list repeats its neighbour, and a sorted list stays sorted. */
  lemma {:induction false} DedupFacts<T>(xs: seq<T>, key: T -> string)
    ensures NoAdjacentRepeats(Dedup(xs))
    ensures SortedBy(xs, key) ==> SortedBy(Dedup(xs), key)
    decreases |xs|
  {
    if |xs| > 1 {
      var rest := Dedup(xs[1..]);
      DedupFacts(xs[1..], key);
      SortedTail(xs, key);
      if xs[0] == xs[1] {
        assert Dedup(xs) == rest;
      } else {
        assert Dedup(xs) == [xs[0]] + rest;
        assert rest[0] == xs[1];
        DistinctCons(xs[0], rest);
        if SortedBy(xs, key) {
          assert StrLe(key(xs[0]), key(xs[1]));
          SortedCons(xs[0], rest, key);
        }
      }
    }
  }

  /** Deduplicating one entry followed by a non-empty list. */
  lemma DedupAppendOne<T>(x: T, b: seq<T>)
    requires b != []
    ensures Dedup([x] + b) == [x] + if x == b[0] then Dedup(b)[1..] else Dedup(b)
  {
    DedupCons(x, b);
    assert Dedup(b) == [Dedup(b)[0]] + Dedup(b)[1..];
  }

  /** Putting the same entry in front of both sides keeps a split of `Dedup(a + b)`. */
  lemma DedupAppendStep<T>(x: T, a: seq<T>, b: seq<T>, tail: seq<T>)
    requires a != [] && Dedup(a + b) == Dedup(a) + tail
    ensures Dedup([x] + a + b) == Dedup([x] + a) + tail
  {
    assert [x] + a + b == [x] + (a + b);
    assert (a + b)[0] == a[0];
    DedupCons(x, a + b);
    DedupCons(x, a);
  }

  /**
   * Deduplicating a concatenation deduplicates each part, and drops the head
   * of the second part only when it repeats the last entry of the first:
   * only runs of equal neighbours are merged.
   */
  lemma {:induction false} DedupAppend<T>(a: seq<T>, b: seq<T>)
    requires a != [] && b != []
    ensures Dedup(a + b) == Dedup(a) + if a[|a| - 1] == b[0] then Dedup(b)[1..] else Dedup(b)
    decreases |a|
  {
    if |a| == 1 {
      assert a == [a[0]];
      DedupAppendOne(a[0], b);
    } else {
      var a' := a[1..];
      assert a'[|a'| - 1] == a[|a| - 1];
      DedupAppend(a', b);
      DedupAppendStep(a[0], a', b, if a[|a| - 1] == b[0] then Dedup(b)[1..] else Dedup(b));
      assert a == [a[0]] + a';
    }
  }

  /** A list without adjacent repeats is left as it is, however often an entry recurs. */
  lemma {:induction false} DedupKeepsNonAdjacent<T>(xs: seq<T>)
    requires NoAdjacentRepeats(xs)
    ensures Dedup(xs) == xs
    decreases |xs|
  {
    if |xs| > 1 {
      assert NoAdjacentRepeats(xs[1..]) by {
        forall i | 0 < i < |xs[1..]| ensures xs[1..][i - 1] != xs[1..][i] {
          assert xs[1..][i - 1] == xs[i] && xs[1..][i] == xs[i + 1];
        }
      }
      DedupKeepsNonAdjacent(xs[1..]);
      assert xs[0] != xs[1];
      assert xs == [xs[0]] + xs[1..];
    }
  }

  /** On a sorted list, deduplicating commutes with taking the entries of one key. */
  lemma {:induction false} DedupWithKey<T>(xs: seq<T>, key: T -> string, k: string)
    requires SortedBy(xs, key)
    ensures WithKey(Dedup(xs), key, k) == Dedup(WithKey(xs, key, k))
    decreases |xs|
  {
    if |xs| > 1 {
      var t := xs[1..];
      var w := WithKey(t, key, k);
      SortedTail(xs, key);
      DedupWithKey(t, key, k);
      assert xs == [xs[0]] + t && t == [xs[1]] + t[1..];
      WithKeyCons(xs[0], t, key, k);
      WithKeyCons(xs[1], t[1..], key, k);
      if key(xs[0]) != k {
        assert WithKey(xs, key, k) == w;
        if xs[0] != xs[1] {
          WithKeyCons(xs[0], Dedup(t), key, k);
        }
      } else {
        assert WithKey(xs, key, k) == [xs[0]] + w;
        DedupCons(xs[0], w);
        if key(xs[1]) == k {
          assert w[0] == xs[1];
        } else {
          assert StrLe(key(xs[0]), key(xs[1]));
          KeyAbsentAbove(t, key, k);
        }
        if xs[0] != xs[1] {
          assert Dedup(xs) == [xs[0]] + Dedup(t);
          WithKeyCons(xs[0], Dedup(t), key, k);
        }
      }
    }
  }

  /** Sorting and then deduplicating leaves, under each key, the deduplicated entries of that key in input order. */
  lemma SortDedupByKey<T>(xs: seq<T>, key: T -> string)
    ensures forall k :: WithKey(Dedup(SortBy(xs, key)), key, k) == Dedup(WithKey(xs, key, k))
  {
    forall k ensures WithKey(Dedup(SortBy(xs, key)), key, k) == Dedup(WithKey(xs, key, k)) {
      SortIsStable(xs, key, k);
      DedupWithKey(SortBy(xs, key), key, k);
    }
  }
}
