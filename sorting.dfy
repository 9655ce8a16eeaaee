/** Ordering by a numeric key, largest first: Python's stable
    `list.sort(key=..., reverse=True)` and the database's `order_by('-field')`
    (whose order among equal keys the model takes to be the input order). */
module Sorting {
  import opened Seqs

  predicate SortedDesc<T>(s: seq<T>, key: T -> int) {
    forall i, j :: 0 <= i < j < |s| ==> key(s[i]) >= key(s[j])
  }

  /** The elements of `s` whose key is `v`, in their order in `s`. */
  function WithKey<T>(s: seq<T>, key: T -> int, v: int): seq<T> {
    if s == [] then [] else (if key(s[0]) == v then [s[0]] else []) + WithKey(s[1..], key, v)
  }

  lemma WithKeyCons<T>(y: T, t: seq<T>, key: T -> int, v: int)
    ensures WithKey([y] + t, key, v) == (if key(y) == v then [y] else []) + WithKey(t, key, v)
  {
    assert ([y] + t)[0] == y && ([y] + t)[1..] == t;
  }

  /** Puts `x` in front of the first element whose key is not larger than its own. */
  function Insert<T>(x: T, s: seq<T>, key: T -> int): (r: seq<T>)
    ensures |r| == |s| + 1
    ensures multiset(r) == multiset(s) + multiset{x}
  {
    if s == [] || key(s[0]) <= key(x) then [x] + s
    else
      assert s == [s[0]] + s[1..];
      [s[0]] + Insert(x, s[1..], key)
  }

  lemma SortedCons<T>(y: T, t: seq<T>, key: T -> int)
    requires SortedDesc(t, key) && forall j :: 0 <= j < |t| ==> key(y) >= key(t[j])
    ensures SortedDesc([y] + t, key)
  {
    var r := [y] + t;
    forall i, j | 0 <= i < j < |r| ensures key(r[i]) >= key(r[j]) {
      assert r[j] == t[j - 1];
      if i > 0 {
        assert r[i] == t[i - 1];
      }
    }
  }

  lemma {:induction false} InsertSorted<T>(x: T, s: seq<T>, key: T -> int)
    requires SortedDesc(s, key)
    ensures SortedDesc(Insert(x, s, key), key)
  {
    if s == [] || key(s[0]) <= key(x) {
      SortedCons(x, s, key);
    } else {
      var rest := Insert(x, s[1..], key);
      assert SortedDesc(s[1..], key);
      assert SortedDesc(rest, key) by {
        InsertSorted(x, s[1..], key);
      }
      forall j | 0 <= j < |rest| ensures key(s[0]) >= key(rest[j]) {
        assert rest[j] in multiset(rest);
        if rest[j] != x {
          assert rest[j] in multiset(s[1..]);
        }
      }
      SortedCons(s[0], rest, key);
    }
  }

  /** Two pieces of which one is empty may be swapped. */
  lemma SwapEmpty<T>(a: seq<T>, b: seq<T>, c: seq<T>)
    requires a == [] || b == []
    ensures a + (b + c) == b + (a + c)
  {
    if a == [] {
      assert a + (b + c) == b + c && a + c == c;
    } else {
      assert b + c == c && b + (a + c) == a + c;
    }
  }

  /** Among elements with equal keys, `x` comes first and the others keep their order. */
  lemma {:induction false} InsertStable<T>(x: T, s: seq<T>, key: T -> int, v: int)
    ensures WithKey(Insert(x, s, key), key, v) == WithKey([x], key, v) + WithKey(s, key, v)
  {
    var hx := if key(x) == v then [x] else [];
    assert WithKey([x], key, v) == hx by {
      WithKeyCons(x, [], key, v);
      assert hx + [] == hx;
    }
    if s == [] || key(s[0]) <= key(x) {
      WithKeyCons(x, s, key, v);
    } else {
      var rest := Insert(x, s[1..], key);
      var w := WithKey(s[1..], key, v);
      var h0 := if key(s[0]) == v then [s[0]] else [];
      InsertStable(x, s[1..], key, v);
      assert Insert(x, s, key) == [s[0]] + rest;
      WithKeyCons(s[0], rest, key, v);
      assert s == [s[0]] + s[1..];
      WithKeyCons(s[0], s[1..], key, v);
      SwapEmpty(h0, hx, w);
    }
  }

  /** Inserting `x` into a sorted, stable arrangement of `t` gives a sorted,
      stable arrangement of `[x] + t`. */
  lemma SortStep<T>(x: T, t: seq<T>, rest: seq<T>, key: T -> int)
    requires multiset(rest) == multiset(t) && SortedDesc(rest, key)
    requires forall v :: WithKey(rest, key, v) == WithKey(t, key, v)
    ensures multiset(Insert(x, rest, key)) == multiset([x] + t)
    ensures SortedDesc(Insert(x, rest, key), key)
    ensures forall v :: WithKey(Insert(x, rest, key), key, v) == WithKey([x] + t, key, v)
  {
    assert SortedDesc(Insert(x, rest, key), key) by {
      InsertSorted(x, rest, key);
    }
    assert multiset([x] + t) == multiset{x} + multiset(t);
    forall v ensures WithKey(Insert(x, rest, key), key, v) == WithKey([x] + t, key, v) {
      InsertStable(x, rest, key, v);
      WithKeyCons(x, [], key, v);
      WithKeyCons(x, t, key, v);
    }
  }

  /** A stable sort, largest key first. */
  function SortDesc<T>(s: seq<T>, key: T -> int): (r: seq<T>)
    ensures |r| == |s|
    ensures multiset(r) == multiset(s)
    ensures SortedDesc(r, key)
    ensures forall v :: WithKey(r, key, v) == WithKey(s, key, v)
  {
    if s == [] then []
    else
      var rest := SortDesc(s[1..], key);
      assert s == [s[0]] + s[1..];
      SortStep(s[0], s[1..], rest, key);
      Insert(s[0], rest, key)
  }

  /** `order_by('-key')[:n]`: the first `n` rows of the stable descending sort. */
  function Top<T>(s: seq<T>, key: T -> int, n: nat): seq<T> {
    Take(SortDesc(s, key), n)
  }

  /** The top rows are `min(n, |s|)` rows of `s`, largest key first, and no row
      left out has a larger key than a row kept. */
  lemma TopProperties<T>(s: seq<T>, key: T -> int, n: nat)
    ensures var r := Top(s, key, n);
      |r| == (if |s| <= n then |s| else n) &&
      SortedDesc(r, key) &&
      multiset(r) <= multiset(s) &&
      (forall i :: 0 <= i < |r| ==> r[i] in s)
    ensures var sorted := SortDesc(s, key);
      multiset(sorted) == multiset(s) && Top(s, key, n) <= sorted &&
      (forall i, j :: 0 <= i < |Top(s, key, n)| <= j < |sorted| ==> key(Top(s, key, n)[i]) >= key(sorted[j]))
  {
    var sorted := SortDesc(s, key);
    var r := Top(s, key, n);
    assert sorted == r + sorted[|r|..];
    assert multiset(sorted) == multiset(r) + multiset(sorted[|r|..]);
    forall i | 0 <= i < |r| ensures r[i] in s {
      assert r[i] in multiset(sorted);
    }
  }

  /** A row that the top `n` leave out (one more copy of it in `s` than among
      the top rows) has a key no larger than that of any row kept. */
  lemma TopDominates<T>(s: seq<T>, key: T -> int, n: nat, x: T)
    requires multiset(Top(s, key, n))[x] < multiset(s)[x]
    ensures forall i :: 0 <= i < |Top(s, key, n)| ==> key(Top(s, key, n)[i]) >= key(x)
  {
    var sorted := SortDesc(s, key);
    var r := Top(s, key, n);
    var rest := sorted[|r|..];
    assert sorted == r + rest;
    assert x in multiset(rest) by {
      assert multiset(sorted) == multiset(r) + multiset(rest);
    }
    var j :| 0 <= j < |rest| && rest[j] == x;
    forall i | 0 <= i < |r| ensures key(r[i]) >= key(x) {
      assert r[i] == sorted[i] && x == sorted[|r| + j];
    }
  }
}
