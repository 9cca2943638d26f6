/** Stable sorting by result and time stamp, and what truncating a sorted board keeps. */
module Ranking {

  /** Lower cost ranks first; equal costs rank by time stamp. */
  datatype Key = Key(cost: int, stamp: int)

  predicate KeyLe(a: Key, b: Key) {
    a.cost < b.cost || (a.cost == b.cost && a.stamp <= b.stamp)
  }

  ghost predicate Ascending<T(!new)>(xs: seq<T>, key: T -> Key) {
    forall i, j :: 0 <= i < j < |xs| ==> KeyLe(key(xs[i]), key(xs[j]))
  }

  /** Insert behind every entry that does not rank strictly after `e`. */
  function Place<T>(xs: seq<T>, e: T, key: T -> Key): (r: seq<T>)
    ensures |r| == |xs| + 1
  {
    if xs == [] then [e]
    else if KeyLe(key(xs[|xs| - 1]), key(e)) then xs + [e]
    else Place(xs[..|xs| - 1], e, key) + [xs[|xs| - 1]]
  }

  /** The stable sort: later entries are placed behind earlier equals. */
  function Sorted<T>(xs: seq<T>, key: T -> Key): (r: seq<T>)
    ensures |r| == |xs|
  {
    if xs == [] then [] else Place(Sorted(xs[..|xs| - 1], key), xs[|xs| - 1], key)
  }

  function Top<T>(xs: seq<T>, limit: nat): (r: seq<T>)
    ensures |r| <= limit && r <= xs
  {
    if |xs| > limit then xs[..limit] else xs
  }

  // ---------- Sorted is the stable sort ----------

  /** How many entries rank no later than `k`. */
  function AheadOf<T>(xs: seq<T>, k: Key, key: T -> Key): (n: nat)
    ensures n <= |xs|
  {
    if xs == [] then 0
    else AheadOf(xs[..|xs| - 1], k, key) + if KeyLe(key(xs[|xs| - 1]), k) then 1 else 0
  }

  lemma {:induction false} AheadIsPrefix<T(!new)>(xs: seq<T>, k: Key, key: T -> Key)
    requires Ascending(xs, key)
    ensures var n := AheadOf(xs, k, key);
            && (forall i :: 0 <= i < n ==> KeyLe(key(xs[i]), k))
            && (forall i :: n <= i < |xs| ==> !KeyLe(key(xs[i]), k))
  {
    if xs != [] {
      AheadIsPrefix(xs[..|xs| - 1], k, key);
    }
  }

  function Insert<T>(xs: seq<T>, e: T, n: nat): (r: seq<T>)
    requires n <= |xs|
    ensures |r| == |xs| + 1
  {
    xs[..n] + [e] + xs[n..]
  }

  lemma {:induction false} InsertAdds<T>(xs: seq<T>, e: T, n: nat)
    requires n <= |xs|
    ensures multiset(Insert(xs, e, n)) == multiset(xs) + multiset{e}
  {
    assert xs == xs[..n] + xs[n..];
  }

  lemma {:induction false} AllAhead<T(!new)>(xs: seq<T>, k: Key, key: T -> Key)
    requires Ascending(xs, key) && (xs == [] || KeyLe(key(xs[|xs| - 1]), k))
    ensures AheadOf(xs, k, key) == |xs|
  {
    AheadIsPrefix(xs, k, key);
  }

  lemma {:induction false} PlaceIsInsert<T(!new)>(xs: seq<T>, e: T, key: T -> Key)
    requires Ascending(xs, key)
    ensures Place(xs, e, key) == Insert(xs, e, AheadOf(xs, key(e), key))
  {
    if xs == [] || KeyLe(key(xs[|xs| - 1]), key(e)) {
      AllAhead(xs, key(e), key);
    } else {
      var init, last := xs[..|xs| - 1], xs[|xs| - 1];
      assert xs == init + [last];
      PlaceIsInsert(init, e, key);
    }
  }

  /** In a sorted sequence an entry goes right behind those that rank no later. */
  lemma {:induction false} PlaceAt<T(!new)>(xs: seq<T>, e: T, key: T -> Key)
    requires Ascending(xs, key)
    ensures var n := AheadOf(xs, key(e), key);
            Place(xs, e, key) == xs[..n] + [e] + xs[n..]
    ensures Ascending(Place(xs, e, key), key)
  {
    PlaceIsInsert(xs, e, key);
    AheadIsPrefix(xs, key(e), key);
  }

  lemma {:induction false} SortedAscends<T(!new)>(xs: seq<T>, key: T -> Key)
    ensures Ascending(Sorted(xs, key), key)
  {
    if xs != [] {
      SortedAscends(xs[..|xs| - 1], key);
      PlaceAt(Sorted(xs[..|xs| - 1], key), xs[|xs| - 1], key);
    }
  }

  lemma {:induction false} PlaceAdds<T(!new)>(xs: seq<T>, e: T, key: T -> Key)
    requires Ascending(xs, key)
    ensures multiset(Place(xs, e, key)) == multiset(xs) + multiset{e}
  {
    PlaceIsInsert(xs, e, key);
    InsertAdds(xs, e, AheadOf(xs, key(e), key));
  }

  lemma {:induction false} SortedPermutes<T(!new)>(xs: seq<T>, key: T -> Key)
    ensures multiset(Sorted(xs, key)) == multiset(xs)
  {
    if xs != [] {
      var init, last := xs[..|xs| - 1], xs[|xs| - 1];
      SortedPermutes(init, key);
      SortedAscends(init, key);
      PlaceAdds(Sorted(init, key), last, key);
      assert xs == init + [last];
    }
  }

  /** The entries with one key, in order. */
  function WithKey<T>(xs: seq<T>, k: Key, key: T -> Key): seq<T> {
    if xs == [] then []
    else WithKey(xs[..|xs| - 1], k, key) + if key(xs[|xs| - 1]) == k then [xs[|xs| - 1]] else []
  }

  lemma {:induction false} WithKeySplit<T(!new)>(a: seq<T>, b: seq<T>, k: Key, key: T -> Key)
    ensures WithKey(a + b, k, key) == WithKey(a, k, key) + WithKey(b, k, key)
    decreases |b|
  {
    if b == [] {
      assert a + b == a;
    } else {
      WithKeySplit(a, b[..|b| - 1], k, key);
      assert (a + b)[..|a + b| - 1] == a + b[..|b| - 1];
    }
  }

  lemma {:induction false} WithKeyNone<T(!new)>(xs: seq<T>, k: Key, key: T -> Key)
    requires forall i :: 0 <= i < |xs| ==> key(xs[i]) != k
    ensures WithKey(xs, k, key) == []
  {
    if xs != [] {
      WithKeyNone(xs[..|xs| - 1], k, key);
    }
  }

  lemma {:induction false} WithKeyInsert<T(!new)>(front: seq<T>, e: T, back: seq<T>, k: Key, key: T -> Key)
    requires key(e) == k ==> WithKey(back, k, key) == []
    ensures WithKey(front + [e] + back, k, key) == WithKey(front + back, k, key) + if key(e) == k then [e] else []
  {
    WithKeySplit(front, back, k, key);
    WithKeySplit(front + [e], back, k, key);
    assert (front + [e])[..|front|] == front;
  }

  lemma {:induction false} PlaceKeepsOrder<T(!new)>(xs: seq<T>, e: T, k: Key, key: T -> Key)
    requires Ascending(xs, key)
    ensures WithKey(Place(xs, e, key), k, key) == WithKey(xs, k, key) + if key(e) == k then [e] else []
  {
    var n := AheadOf(xs, key(e), key);
    PlaceIsInsert(xs, e, key);
    if key(e) == k {
      AheadIsPrefix(xs, k, key);
      forall i | 0 <= i < |xs[n..]| ensures key(xs[n..][i]) != k {
        assert !KeyLe(key(xs[n + i]), k);
      }
      WithKeyNone(xs[n..], k, key);
    }
    WithKeyInsert(xs[..n], e, xs[n..], k, key);
    assert xs == xs[..n] + xs[n..];
  }

  /** Equal keys keep their original order. */
  lemma {:induction false} SortedIsStable<T(!new)>(xs: seq<T>, k: Key, key: T -> Key)
    ensures WithKey(Sorted(xs, key), k, key) == WithKey(xs, k, key)
  {
    if xs != [] {
      SortedIsStable(xs[..|xs| - 1], k, key);
      SortedAscends(xs[..|xs| - 1], key);
      PlaceKeepsOrder(Sorted(xs[..|xs| - 1], key), xs[|xs| - 1], k, key);
    }
  }

  // ---------- sorting what is already sorted ----------

  lemma {:induction false} SortedFixed<T(!new)>(xs: seq<T>, key: T -> Key)
    requires Ascending(xs, key)
    ensures Sorted(xs, key) == xs
  {
    if xs != [] {
      SortedFixed(xs[..|xs| - 1], key);
      if |xs| > 1 {
        assert KeyLe(key(xs[|xs| - 2]), key(xs[|xs| - 1]));
      }
    }
  }

  lemma {:induction false} SortedAppend<T(!new)>(xs: seq<T>, e: T, key: T -> Key)
    ensures Sorted(xs + [e], key) == Place(Sorted(xs, key), e, key)
  {
    assert (xs + [e])[..|xs|] == xs;
  }

  // ---------- truncation ----------

  lemma {:induction false} AheadOfPrefix<T(!new)>(xs: seq<T>, m: nat, k: Key, key: T -> Key)
    requires Ascending(xs, key) && m <= |xs|
    ensures AheadOf(xs[..m], k, key) == if AheadOf(xs, k, key) <= m then AheadOf(xs, k, key) else m
  {
    AheadIsPrefix(xs, k, key);
    AheadIsPrefix(xs[..m], k, key);
    var a, b := AheadOf(xs, k, key), AheadOf(xs[..m], k, key);
    assert b < m ==> !KeyLe(key(xs[..m][b]), k) && xs[..m][b] == xs[b];
    assert a < |xs| ==> !KeyLe(key(xs[a]), k);
    assert a < m ==> xs[..m][a] == xs[a];
  }

  /** Truncating before placing a further entry loses nothing. */
  lemma {:induction false} TopPlace<T(!new)>(xs: seq<T>, e: T, limit: nat, key: T -> Key)
    requires Ascending(xs, key)
    ensures Top(Place(Top(xs, limit), e, key), limit) == Top(Place(xs, e, key), limit)
  {
    PlaceAt(xs, e, key);
    if |xs| > limit {
      PlaceAt(xs[..limit], e, key);
      AheadOfPrefix(xs, limit, key(e), key);
    }
  }
}
