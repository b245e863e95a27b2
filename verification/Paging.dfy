/** Newest-first pages. Ordering by time and cutting to a limit leaves the order among equal times open, so a
    page is any prefix of any newest-first arrangement. */
module Paging {
  import opened Text
  import Sorting

  ghost predicate NewestFirst<T(!new)>(s: seq<T>, at: T -> int) {
    forall i, j :: 0 <= i < j < |s| ==> at(s[i]) >= at(s[j])
  }

  function Min(a: nat, b: nat): nat { if a < b then a else b }

  /** `all` arranged newest first. */
  ghost predicate Arranged<T(!new)>(order: seq<T>, all: seq<T>, at: T -> int) {
    multiset(order) == multiset(all) && NewestFirst(order, at)
  }

  /** What "order by time descending, limit n" over `all` may return. */
  ghost predicate Page<T(!new)>(page: seq<T>, all: seq<T>, at: T -> int, limit: nat) {
    exists order: seq<T> :: Arranged(order, all, at) && page == order[..Min(limit, |order|)]
  }

  /** The same thing said without an arrangement: of the right length, newest first, taken from `all`, and
      nothing left out is newer than anything taken. */
  ghost predicate Newest<T(!new)>(page: seq<T>, all: seq<T>, at: T -> int, limit: nat) {
    && |page| == Min(limit, |all|)
    && NewestFirst(page, at)
    && multiset(page) <= multiset(all)
    && forall x, y :: x in multiset(all) - multiset(page) && y in page ==> at(x) <= at(y)
  }

  // Sorting -----------------------------------------------------------------------------------------

  /** Newest first: by descending time. */
  function Sort<T>(s: seq<T>, at: T -> int): (r: seq<T>)
    ensures multiset(r) == multiset(s) && |r| == |s|
  {
    Sorting.Sort(s, (x: T) => -at(x))
  }

  lemma SortNewestFirst<T(!new)>(s: seq<T>, at: T -> int)
    ensures Arranged(Sort(s, at), s, at)
  {
    Sorting.SortAscending(s, (x: T) => -at(x));
  }

  lemma SortIsPage<T(!new)>(all: seq<T>, at: T -> int, limit: nat)
    ensures Page(Sort(all, at)[..Min(limit, |all|)], all, at, limit)
  {
    SortNewestFirst(all, at);
  }

  // The two descriptions agree ------------------------------------------------------------------------

  lemma SameLength<T>(a: seq<T>, b: seq<T>)
    requires multiset(a) == multiset(b)
    ensures |a| == |b|
  {
    assert |a| == |multiset(a)| && |b| == |multiset(b)|;
  }

  lemma PageIsNewest<T(!new)>(page: seq<T>, all: seq<T>, at: T -> int, limit: nat)
    requires Page(page, all, at, limit)
    ensures Newest(page, all, at, limit)
  {
    hide NewestFirst;
    var order :| Arranged(order, all, at) && page == order[..Min(limit, |order|)];
    SameLength(order, all);
    var rest := order[|page|..];
    assert order == page + rest;
    PrefixIsNewest(page, rest, all, at);
  }

  lemma PrefixIsNewest<T(!new)>(page: seq<T>, rest: seq<T>, all: seq<T>, at: T -> int)
    requires Arranged(page + rest, all, at)
    ensures NewestFirst(page, at) && multiset(page) <= multiset(all)
    ensures forall x, y :: x in multiset(all) - multiset(page) && y in page ==> at(x) <= at(y)
  {
    PrefixOrdered(page, rest, at);
    hide NewestFirst;
    assert multiset(all) == multiset(page) + multiset(rest);
    forall x, y | x in multiset(all) - multiset(page) && y in page ensures at(x) <= at(y) {
      assert x in multiset(rest);
      OrderedAcross(page, rest, at, x, y);
    }
  }

  lemma PrefixOrdered<T(!new)>(a: seq<T>, b: seq<T>, at: T -> int)
    requires NewestFirst(a + b, at)
    ensures NewestFirst(a, at)
  {
    assert forall i :: 0 <= i < |a| ==> (a + b)[i] == a[i];
  }

  lemma OrderedAcross<T(!new)>(a: seq<T>, b: seq<T>, at: T -> int, x: T, y: T)
    requires NewestFirst(a + b, at) && y in a && x in b
    ensures at(x) <= at(y)
  {
    var i :| 0 <= i < |b| && b[i] == x;
    var j :| 0 <= j < |a| && a[j] == y;
    assert (a + b)[j] == y && (a + b)[|a| + i] == x;
  }

  lemma NewestIsPage<T(!new)>(page: seq<T>, all: seq<T>, at: T -> int, limit: nat)
    requires Newest(page, all, at, limit)
    ensures Page(page, all, at, limit)
  {
    hide NewestFirst, Sort;
    var left := multiset(all) - multiset(page);
    var rest := Listed(left);
    var tail := Sort(rest, at);
    SortNewestFirst(rest, at);
    var order := page + tail;
    assert multiset(order) == multiset(page) + left == multiset(all);
    SameLength(order, all);
    Concatenated(page, tail, at, left);
    assert page == order[..|page|];
  }

  lemma Concatenated<T(!new)>(page: seq<T>, tail: seq<T>, at: T -> int, left: multiset<T>)
    requires NewestFirst(page, at) && NewestFirst(tail, at) && multiset(tail) == left
    requires forall x, y :: x in left && y in page ==> at(x) <= at(y)
    ensures NewestFirst(page + tail, at)
  {
    var order := page + tail;
    forall i, j | 0 <= i < j < |order| ensures at(order[i]) >= at(order[j]) {
      if j < |page| {
        assert order[i] == page[i] && order[j] == page[j];
      } else if i < |page| {
        assert order[i] == page[i] && order[j] == tail[j - |page|] && order[j] in multiset(tail);
      } else {
        assert order[i] == tail[i - |page|] && order[j] == tail[j - |page|];
      }
    }
  }

  /** Some list with the given elements. */
  lemma Listed<T(!new)>(m: multiset<T>) returns (s: seq<T>)
    ensures multiset(s) == m
    decreases |m|
  {
    if m == multiset{} {
      s := [];
    } else {
      var x :| x in m;
      var t := Listed(m - multiset{x});
      s := [x] + t;
    }
  }

  // Merging ---------------------------------------------------------------------------------------------

  lemma SameSize<T(!new)>(a: multiset<T>, b: multiset<T>)
    requires a <= b && |a| == |b|
    ensures a == b
  {
    assert b == a + (b - a);
    assert |b - a| == 0;
  }

  lemma LeftOutMeansFull<T(!new)>(mine: seq<T>, all: seq<T>, x: T)
    requires multiset(mine) <= multiset(all) && x in multiset(all) - multiset(mine)
    ensures |mine| < |all|
  {
    var left := multiset(all) - multiset(mine);
    assert multiset(all) == multiset(mine) + left;
    assert |multiset(all)| == |all| && |multiset(mine)| == |mine| && |left| > 0;
  }

  /** If one source left x out, its page is full: either the merged page is that very page, or some row of it
      was left out of the merged page. Both ways x is no newer than anything in the merged page. */
  lemma NothingNewerLeftOut<T(!new)>(
    page: seq<T>, mine: seq<T>, other: seq<T>, all: seq<T>, at: T -> int, limit: nat, x: T, y: T)
    requires Newest(mine, all, at, limit) && Newest(page, mine + other, at, limit)
    requires x in multiset(all) - multiset(mine) && y in page
    ensures at(x) <= at(y)
  {
    hide NewestFirst;
    LeftOutMeansFull(mine, all, x);
    assert |mine| == limit == |page|;
    if multiset(mine) <= multiset(page) {
      assert |multiset(mine)| == |mine| && |multiset(page)| == |page|;
      SameSize(multiset(mine), multiset(page));
      assert y in multiset(page);
    } else {
      var z :| multiset(mine)[z] > multiset(page)[z];
      assert multiset(mine + other) == multiset(mine) + multiset(other);
      assert z in multiset(mine + other) - multiset(page);
      assert z in multiset(mine);
    }
  }

  /** Fetching the newest `limit` of each of two sources, merging and cutting again gives a newest-`limit`
      page of the two sources together. */
  lemma MergedPage<T(!new)>(
    page: seq<T>, a: seq<T>, b: seq<T>, allA: seq<T>, allB: seq<T>, at: T -> int, limit: nat)
    requires Page(a, allA, at, limit) && Page(b, allB, at, limit) && Page(page, a + b, at, limit)
    ensures Page(page, allA + allB, at, limit)
  {
    hide Page;
    PageIsNewest(a, allA, at, limit);
    PageIsNewest(b, allB, at, limit);
    PageIsNewest(page, a + b, at, limit);
    MergedNewest(page, a, b, allA, allB, at, limit);
    NewestIsPage(page, allA + allB, at, limit);
  }

  lemma MergedNewest<T(!new)>(
    page: seq<T>, a: seq<T>, b: seq<T>, allA: seq<T>, allB: seq<T>, at: T -> int, limit: nat)
    requires Newest(a, allA, at, limit) && Newest(b, allB, at, limit) && Newest(page, a + b, at, limit)
    ensures Newest(page, allA + allB, at, limit)
  {
    hide NewestFirst;
    assert multiset(allA + allB) == multiset(allA) + multiset(allB);
    assert multiset(a + b) == multiset(a) + multiset(b);
    assert Newest(page, b + a, at, limit) by { assert multiset(b + a) == multiset(a + b); }
    forall x, y | x in multiset(allA + allB) - multiset(page) && y in page ensures at(x) <= at(y) {
      if x in multiset(a + b) - multiset(page) {
      } else if x in multiset(allA) - multiset(a) {
        NothingNewerLeftOut(page, a, b, allA, at, limit, x, y);
      } else {
        NothingNewerLeftOut(page, b, a, allB, at, limit, x, y);
      }
    }
  }

  // Relabelling -------------------------------------------------------------------------------------------

  function Map<A, B>(s: seq<A>, f: A -> B): (r: seq<B>)
    ensures |r| == |s|
    ensures forall i :: 0 <= i < |s| ==> r[i] == f(s[i])
  {
    if s == [] then [] else [f(s[0])] + Map(s[1..], f)
  }

  lemma MapAppend<A, B>(a: seq<A>, b: seq<A>, f: A -> B)
    ensures Map(a + b, f) == Map(a, f) + Map(b, f)
  {}

  /** The labels of a list, as a multiset, split at one element. */
  lemma MapMiddle<A, B>(before: seq<A>, x: A, after: seq<A>, f: A -> B)
    ensures multiset(Map(before + ([x] + after), f)) == multiset{f(x)} + multiset(Map(before + after, f))
  {
    MapAppend(before, [x] + after, f);
    MapAppend([x], after, f);
    MapAppend(before, after, f);
    assert Map([x], f) == [f(x)];
  }

  /** The head of one list found in a permutation of it. */
  lemma Extract<A(!new)>(a: seq<A>, b: seq<A>) returns (before: seq<A>, after: seq<A>)
    requires a != [] && multiset(a) == multiset(b)
    ensures b == before + ([a[0]] + after)
    ensures multiset(a[1..]) == multiset(before + after)
  {
    var x := a[0];
    assert x in multiset(b);
    var i :| 0 <= i < |b| && b[i] == x;
    before, after := b[..i], b[i + 1..];
    assert b == before + ([x] + after);
    assert a == [x] + a[1..];
    Cancel(x, multiset(a[1..]), multiset(before + after));
  }

  lemma Cancel<A(!new)>(x: A, m: multiset<A>, n: multiset<A>)
    requires multiset{x} + m == multiset{x} + n
    ensures m == n
  {
    forall y ensures m[y] == n[y] {
      assert (multiset{x} + m)[y] == (multiset{x} + n)[y];
    }
  }

  lemma {:induction false} MapPermutation<A(!new), B>(a: seq<A>, b: seq<A>, f: A -> B)
    requires multiset(a) == multiset(b)
    ensures multiset(Map(a, f)) == multiset(Map(b, f))
    decreases |a|
  {
    hide Map;
    SameLength(a, b);
    if a == [] {
      assert a == b;
    } else {
      var before, after := Extract(a, b);
      MapPermutation(a[1..], before + after, f);
      assert a == [] + ([a[0]] + a[1..]) && [] + a[1..] == a[1..];
      MapMiddle([], a[0], a[1..], f);
      MapMiddle(before, a[0], after, f);
    }
  }

  lemma MappedOrder<A(!new), B(!new)>(s: seq<A>, at: A -> int, f: A -> B, at': B -> int)
    requires NewestFirst(s, at) && forall x :: at'(f(x)) == at(x)
    ensures NewestFirst(Map(s, f), at')
  {}

  /** Relabelling rows without touching their times turns pages into pages. */
  lemma MappedPage<A(!new), B(!new)>(
    page: seq<A>, all: seq<A>, at: A -> int, f: A -> B, at': B -> int, limit: nat)
    requires Page(page, all, at, limit)
    requires forall x :: at'(f(x)) == at(x)
    ensures Page(Map(page, f), Map(all, f), at', limit)
  {
    hide Map;
    var order :| Arranged(order, all, at) && page == order[..Min(limit, |order|)];
    MapPermutation(order, all, f);
    var mapped := Map(order, f);
    MappedOrder(order, at, f, at');
    assert Map(page, f) == mapped[..Min(limit, |mapped|)];
  }
}
