/** Grouped totals: `values(field).annotate(total=Sum('amount'), count=Count('id'))`
    followed by `order_by('-total')`. Groups are formed in the order their key
    first appears and then sorted stably by total, largest first. */
module Grouping {
  import opened Seqs
  import opened Sorting

  /** One output row: the key's value, the summed amount and the number of rows. */
  datatype Group = Group(title: string, total: int, count: nat)

  function GroupTotal(g: Group): int {
    g.total
  }

  function GroupCount(g: Group): int {
    g.count
  }

  function HasKey<T>(key: T -> string, k: string): T -> bool {
    x => key(x) == k
  }

  function LacksKey<T>(key: T -> string, k: string): T -> bool {
    x => key(x) != k
  }

  /** One group per distinct key of `s`, in order of first appearance. */
  function GroupBy<T(==)>(s: seq<T>, key: T -> string, amount: T -> int): seq<Group>
    decreases |s|
  {
    if s == [] then []
    else
      var k := key(s[0]);
      var rows := Filter(s, HasKey(key, k));
      [Group(k, Sum(rows, amount), |rows|)] + GroupBy(Filter(s[1..], LacksKey(key, k)), key, amount)
  }

  predicate DistinctTitles(g: seq<Group>) {
    forall i, j :: 0 <= i < j < |g| ==> g[i].title != g[j].title
  }

  /** `g` holds the total and the count of exactly the rows of `s` with its key,
      at least one. */
  predicate EntryOf<T(==)>(s: seq<T>, key: T -> string, amount: T -> int, g: Group) {
    var rows := Filter(s, HasKey(key, g.title));
    g.total == Sum(rows, amount) && g.count == |rows| && g.count >= 1
  }

  /** A group formed from the rows after the first one and without its key has
      another key, and holds the same rows as it would over all of `s`. */
  lemma EntryOfRest<T>(s: seq<T>, key: T -> string, amount: T -> int, g: Group)
    requires s != [] && EntryOf(Filter(s[1..], LacksKey(key, key(s[0]))), key, amount, g)
    ensures g.title != key(s[0]) && EntryOf(s, key, amount, g)
  {
    var k := key(s[0]);
    var w := Filter(s[1..], LacksKey(key, k));
    if g.title == k {
      FilterNone(w, HasKey(key, k));
    }
    FilterNested(s[1..], LacksKey(key, k), HasKey(key, g.title));
  }

  lemma GroupByHead<T>(s: seq<T>, key: T -> string, amount: T -> int)
    requires s != []
    ensures var k := key(s[0]);
      var rows := Filter(s, HasKey(key, k));
      GroupBy(s, key, amount) ==
        [Group(k, Sum(rows, amount), |rows|)] + GroupBy(Filter(s[1..], LacksKey(key, k)), key, amount)
  {
  }

  lemma EntryOfHead<T>(s: seq<T>, key: T -> string, amount: T -> int)
    requires s != []
    ensures |GroupBy(s, key, amount)| > 0 && GroupBy(s, key, amount)[0].title == key(s[0])
    ensures EntryOf(s, key, amount, GroupBy(s, key, amount)[0])
  {
    GroupByHead(s, key, amount);
    var k := key(s[0]);
    assert Filter(s, HasKey(key, k)) == [s[0]] + Filter(s[1..], HasKey(key, k));
  }

  /** Each group holds the total and the count of exactly the rows with its key,
      at least one. */
  lemma {:induction false} GroupByEntries<T>(s: seq<T>, key: T -> string, amount: T -> int)
    ensures forall i :: 0 <= i < |GroupBy(s, key, amount)| ==> EntryOf(s, key, amount, GroupBy(s, key, amount)[i])
    decreases |s|
  {
    if s != [] {
      var k := key(s[0]);
      var w := Filter(s[1..], LacksKey(key, k));
      var r := GroupBy(s, key, amount);
      var rest := GroupBy(w, key, amount);
      GroupByHead(s, key, amount);
      EntryOfHead(s, key, amount);
      assert r == [r[0]] + rest;
      GroupByEntries(w, key, amount);
      forall i | 0 <= i < |rest|
        ensures rest[i].title != k && EntryOf(s, key, amount, rest[i])
      {
        EntryOfRest(s, key, amount, rest[i]);
      }
      forall i | 0 <= i < |r| ensures EntryOf(s, key, amount, r[i]) {
        if i > 0 {
          assert r[i] == rest[i - 1];
        }
      }
    }
  }

  lemma DistinctCons(g: Group, rest: seq<Group>)
    requires DistinctTitles(rest) && forall i :: 0 <= i < |rest| ==> rest[i].title != g.title
    ensures DistinctTitles([g] + rest)
  {
    var r := [g] + rest;
    forall i, j | 0 <= i < j < |r| ensures r[i].title != r[j].title {
      assert r[j] == rest[j - 1];
      if i > 0 {
        assert r[i] == rest[i - 1];
      }
    }
  }

  /** No key has two groups. */
  lemma {:induction false} GroupByDistinct<T>(s: seq<T>, key: T -> string, amount: T -> int)
    ensures DistinctTitles(GroupBy(s, key, amount))
    decreases |s|
  {
    if s != [] {
      var k := key(s[0]);
      var w := Filter(s[1..], LacksKey(key, k));
      var r := GroupBy(s, key, amount);
      var rest := GroupBy(w, key, amount);
      GroupByHead(s, key, amount);
      GroupByDistinct(w, key, amount);
      GroupByEntries(w, key, amount);
      forall i | 0 <= i < |rest| ensures rest[i].title != k {
        EntryOfRest(s, key, amount, rest[i]);
      }
      DistinctCons(r[0], rest);
      assert r == [r[0]] + rest;
    }
  }

  function Titles(g: seq<Group>): set<string> {
    set i | 0 <= i < |g| :: g[i].title
  }

  lemma TitlesCons(g: Group, rest: seq<Group>)
    ensures Titles([g] + rest) == {g.title} + Titles(rest)
  {
    var r := [g] + rest;
    assert forall i :: 0 <= i < |rest| ==> r[i + 1] == rest[i];
    assert r[0] == g;
  }

  /** Every row's key has a group. */
  lemma {:induction false} GroupByCovers<T>(s: seq<T>, key: T -> string, amount: T -> int)
    ensures forall x :: x in s ==> key(x) in Titles(GroupBy(s, key, amount))
    decreases |s|
  {
    if s != [] {
      var k := key(s[0]);
      var w := Filter(s[1..], LacksKey(key, k));
      var r := GroupBy(s, key, amount);
      var rest := GroupBy(w, key, amount);
      GroupByHead(s, key, amount);
      GroupByCovers(w, key, amount);
      TitlesCons(r[0], rest);
      assert r == [r[0]] + rest;
      forall x | x in s && key(x) != k ensures key(x) in Titles(rest) {
        assert x in s[1..] by {
          assert s == [s[0]] + s[1..];
        }
        FilterMember(s[1..], LacksKey(key, k), x);
      }
    }
  }

  /** The group totals add up to the total over all rows, and the counts to the
      number of rows. */
  lemma {:induction false} GroupByConserves<T>(s: seq<T>, key: T -> string, amount: T -> int)
    ensures Sum(GroupBy(s, key, amount), GroupTotal) == Sum(s, amount)
    ensures Sum(GroupBy(s, key, amount), GroupCount) == |s|
    decreases |s|
  {
    if s != [] {
      var k := key(s[0]);
      var w := Filter(s[1..], LacksKey(key, k));
      var r := GroupBy(s, key, amount);
      assert Filter(s, LacksKey(key, k)) == w;
      GroupByConserves(w, key, amount);
      SumSplit(s, HasKey(key, k), LacksKey(key, k), amount);
      FilterSplit(s, HasKey(key, k), LacksKey(key, k));
      assert r[1..] == GroupBy(w, key, amount);
    }
  }

  /** `order_by('-total')` on the groups. */
  function Breakdown<T(==)>(s: seq<T>, key: T -> string, amount: T -> int): seq<Group> {
    SortDesc(GroupBy(s, key, amount), GroupTotal)
  }

  /** With distinct titles, every group occurs once. */
  lemma OccursOnce(g: seq<Group>, k: nat)
    requires DistinctTitles(g) && k < |g|
    ensures multiset(g)[g[k]] == 1
  {
    assert g == g[..k] + [g[k]] + g[k + 1..];
    forall c | 0 <= c < |g| && c != k ensures g[c] != g[k] {
      if c < k {
        assert g[c].title != g[k].title;
      } else {
        assert g[k].title != g[c].title;
      }
    }
    assert g[k] !in g[..k] && g[k] !in g[k + 1..];
  }

  /** An element at two positions occurs at least twice. */
  lemma OccursTwice<T>(h: seq<T>, i: nat, j: nat)
    requires i < j < |h| && h[i] == h[j]
    ensures multiset(h)[h[j]] >= 2
  {
    assert h == h[..j] + [h[j]] + h[j + 1..];
    assert h[i] in h[..j];
  }

  /** Rearranging groups keeps their titles distinct. */
  lemma DistinctTitlesPermutation(g: seq<Group>, h: seq<Group>)
    requires DistinctTitles(g) && multiset(g) == multiset(h)
    ensures DistinctTitles(h)
  {
    forall i, j | 0 <= i < j < |h| ensures h[i].title != h[j].title {
      assert h[i] in multiset(g) && h[j] in multiset(g);
      var a :| 0 <= a < |g| && g[a] == h[i];
      var b :| 0 <= b < |g| && g[b] == h[j];
      if h[i] == h[j] {
        OccursTwice(h, i, j);
        OccursOnce(g, b);
        assert false;
      }
      if a < b {
        assert g[a].title != g[b].title;
      } else if b < a {
        assert g[b].title != g[a].title;
      }
    }
  }

  lemma TitlesPermutation(g: seq<Group>, h: seq<Group>)
    requires multiset(g) == multiset(h)
    ensures Titles(g) == Titles(h)
  {
    forall t | t in Titles(g) ensures t in Titles(h) {
      var a :| 0 <= a < |g| && g[a].title == t;
      assert g[a] in multiset(h);
    }
    forall t | t in Titles(h) ensures t in Titles(g) {
      var a :| 0 <= a < |h| && h[a].title == t;
      assert h[a] in multiset(g);
    }
  }

  /** The breakdown is ordered by total, largest first (groups with equal totals
      in order of first appearance), and its totals and counts add up to those
      of all the rows. */
  lemma BreakdownTotals<T>(s: seq<T>, key: T -> string, amount: T -> int)
    ensures SortedDesc(Breakdown(s, key, amount), GroupTotal)
    ensures Sum(Breakdown(s, key, amount), GroupTotal) == Sum(s, amount)
    ensures Sum(Breakdown(s, key, amount), GroupCount) == |s|
  {
    var g := GroupBy(s, key, amount);
    GroupByConserves(s, key, amount);
    SumPermutation(g, Breakdown(s, key, amount), GroupTotal);
    SumPermutation(g, Breakdown(s, key, amount), GroupCount);
  }

  /** The breakdown has exactly one group per key of the rows, holding that
      key's total and count. */
  lemma BreakdownGroups<T>(s: seq<T>, key: T -> string, amount: T -> int)
    ensures DistinctTitles(Breakdown(s, key, amount))
    ensures forall i :: 0 <= i < |Breakdown(s, key, amount)| ==> EntryOf(s, key, amount, Breakdown(s, key, amount)[i])
    ensures forall x :: x in s ==> key(x) in Titles(Breakdown(s, key, amount))
  {
    var g := GroupBy(s, key, amount);
    var b := Breakdown(s, key, amount);
    GroupByEntries(s, key, amount);
    GroupByDistinct(s, key, amount);
    GroupByCovers(s, key, amount);
    DistinctTitlesPermutation(g, b);
    TitlesPermutation(g, b);
    forall i | 0 <= i < |b| ensures EntryOf(s, key, amount, b[i]) {
      assert b[i] in multiset(g);
      var a :| 0 <= a < |g| && g[a] == b[i];
    }
  }
}
