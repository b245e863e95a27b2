/** Array.prototype.sort by an integer rank: stable, so equal ranks keep their order. */
module Sorting {
  function Insert<T>(x: T, s: seq<T>, rank: T -> int): (r: seq<T>)
    ensures multiset(r) == multiset{x} + multiset(s) && |r| == |s| + 1
  {
    if s == [] || rank(x) <= rank(s[0]) then [x] + s
    else
      assert s == [s[0]] + s[1..];
      [s[0]] + Insert(x, s[1..], rank)
  }

  function Sort<T>(s: seq<T>, rank: T -> int): (r: seq<T>)
    ensures multiset(r) == multiset(s) && |r| == |s|
  {
    if s == [] then []
    else
      assert s == [s[0]] + s[1..];
      Insert(s[0], Sort(s[1..], rank), rank)
  }

  ghost predicate Ascending<T(!new)>(s: seq<T>, rank: T -> int) {
    forall i, j :: 0 <= i < j < |s| ==> rank(s[i]) <= rank(s[j])
  }

  lemma {:induction false} InsertAscending<T(!new)>(x: T, s: seq<T>, rank: T -> int)
    requires Ascending(s, rank)
    ensures Ascending(Insert(x, s, rank), rank)
  {
    if s != [] && rank(x) > rank(s[0]) {
      InsertAscending(x, s[1..], rank);
      var tail := Insert(x, s[1..], rank);
      forall y | y in tail ensures rank(s[0]) <= rank(y) {
        assert y in multiset(tail);
        if y != x { assert y in s[1..]; }
      }
    }
  }

  lemma {:induction false} SortAscending<T(!new)>(s: seq<T>, rank: T -> int)
    ensures Ascending(Sort(s, rank), rank)
  {
    if s != [] {
      SortAscending(s[1..], rank);
      InsertAscending(s[0], Sort(s[1..], rank), rank);
    }
  }

  /** The elements of one rank, in order. */
  function OfRank<T>(s: seq<T>, rank: T -> int, n: int): seq<T> {
    if s == [] then [] else (if rank(s[0]) == n then [s[0]] else []) + OfRank(s[1..], rank, n)
  }

  lemma {:induction false} InsertStable<T(!new)>(x: T, s: seq<T>, rank: T -> int, n: int)
    ensures OfRank(Insert(x, s, rank), rank, n) == (if rank(x) == n then [x] else []) + OfRank(s, rank, n)
  {
    hide OfRank;
    if s == [] || rank(x) <= rank(s[0]) {
      OfRankFirst(x, s, rank, n);
    } else {
      InsertStable(x, s[1..], rank, n);
      OfRankFirst(s[0], Insert(x, s[1..], rank), rank, n);
      OfRankFirst(s[0], s[1..], rank, n);
      assert s == [s[0]] + s[1..];
    }
  }

  lemma OfRankFirst<T(!new)>(x: T, s: seq<T>, rank: T -> int, n: int)
    ensures OfRank([x] + s, rank, n) == (if rank(x) == n then [x] else []) + OfRank(s, rank, n)
  {
    assert ([x] + s)[1..] == s;
  }

  /** Sorting keeps the elements of each rank in the order given. */
  lemma {:induction false} SortStable<T(!new)>(s: seq<T>, rank: T -> int, n: int)
    ensures OfRank(Sort(s, rank), rank, n) == OfRank(s, rank, n)
  {
    if s != [] {
      SortStable(s[1..], rank, n);
      InsertStable(s[0], Sort(s[1..], rank), rank, n);
    }
  }
}
