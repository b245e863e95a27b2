/** Rows that refer to one another, and what the database's delete statement does to them: rows that cascade go
    too, rows that restrict refuse the statement, and the references of surviving rows are cleared. */
module Relations {
  import opened Text

  /** The tables around the inventory seeder, and all others by number. */
  datatype Table =
    | Documents | Items | Categories | Parties | Warehouses
    | Lines | ReturnLines | Levels | Movements | Payments | Allocations | Transfers | TransferItems
    | Other(number: nat)

  datatype Key = Key(table: Table, id: nat)

  /** Restrict also stands for NO ACTION: both refuse the statement. */
  datatype Action = Cascade | Restrict | SetNull

  datatype Ref = Ref(target: Key, action: Action)

  datatype Row = Row(business: nat, refs: set<Ref>)

  type Rows = map<Key, Row>

  predicate RefersInto(row: Row, keys: set<Key>, action: Action) {
    exists r :: r in row.refs && r.action == action && r.target in keys
  }

  /** The keys and the rows that cascade directly from them. */
  function Grown(rows: Rows, keys: set<Key>): set<Key> {
    keys + set k | k in rows && RefersInto(rows[k], keys, Cascade)
  }

  /** The rows that go with these, through any number of cascades. */
  function Closure(rows: Rows, keys: set<Key>): (all: set<Key>)
    requires keys <= rows.Keys
    ensures keys <= all <= rows.Keys
    decreases |rows.Keys - keys|
  {
    var next := Grown(rows, keys);
    if next == keys then keys
    else
      assert rows.Keys - next < rows.Keys - keys by { GrownIsMore(rows, keys); }
      SmallerSet(rows.Keys - next, rows.Keys - keys);
      Closure(rows, next)
  }

  lemma GrownIsMore(rows: Rows, keys: set<Key>)
    requires keys <= rows.Keys && Grown(rows, keys) != keys
    ensures rows.Keys - Grown(rows, keys) < rows.Keys - keys
  {
    var next := Grown(rows, keys);
    assert keys <= next <= rows.Keys;
    assert exists k :: k in next && k !in keys;
    var k :| k in next && k !in keys;
    assert k in rows.Keys - keys && k !in rows.Keys - next;
  }

  lemma SmallerSet(a: set<Key>, b: set<Key>)
    requires a < b
    ensures |a| < |b|
  {
    assert |b - a| > 0;
    assert b == a + (b - a);
  }

  /** No row outside cascades from one inside. */
  predicate Closed(rows: Rows, keys: set<Key>) {
    forall k :: k in rows && RefersInto(rows[k], keys, Cascade) ==> k in keys
  }

  lemma {:induction false} ClosureIsClosed(rows: Rows, keys: set<Key>)
    requires keys <= rows.Keys
    ensures Closed(rows, Closure(rows, keys))
    decreases |rows.Keys - keys|
  {
    hide RefersInto;
    var next := Grown(rows, keys);
    if next == keys {
      forall k | k in rows && RefersInto(rows[k], keys, Cascade) ensures k in keys {
        assert k in next;
      }
    } else {
      GrownIsMore(rows, keys);
      SmallerSet(rows.Keys - next, rows.Keys - keys);
      ClosureIsClosed(rows, next);
    }
  }

  lemma WiderRefers(row: Row, a: set<Key>, b: set<Key>, action: Action)
    requires a <= b && RefersInto(row, a, action)
    ensures RefersInto(row, b, action)
  {}

  lemma {:induction false} ClosureIsLeast(rows: Rows, keys: set<Key>, closed: set<Key>)
    requires keys <= rows.Keys && keys <= closed && Closed(rows, closed)
    ensures Closure(rows, keys) <= closed
    decreases |rows.Keys - keys|
  {
    hide RefersInto;
    var next := Grown(rows, keys);
    if next != keys {
      GrownIsMore(rows, keys);
      SmallerSet(rows.Keys - next, rows.Keys - keys);
      forall k | k in next ensures k in closed {
        if k !in keys {
          WiderRefers(rows[k], keys, closed, Cascade);
        }
      }
      ClosureIsLeast(rows, next, closed);
    }
  }

  /** What goes with some rows is the least set that holds them and is closed under cascades. */
  lemma ClosureIsLeastClosed(rows: Rows, keys: set<Key>)
    requires keys <= rows.Keys
    ensures keys <= Closure(rows, keys) <= rows.Keys && Closed(rows, Closure(rows, keys))
    ensures forall closed :: keys <= closed && Closed(rows, closed) ==> Closure(rows, keys) <= closed
  {
    hide Closure, Closed;
    ClosureIsClosed(rows, keys);
    forall closed | keys <= closed && Closed(rows, closed) ensures Closure(rows, keys) <= closed {
      ClosureIsLeast(rows, keys, closed);
    }
  }

  // ---------------------------------------------------------------------------------------------
  // Deleting
  // ---------------------------------------------------------------------------------------------

  function Cleared(row: Row, gone: set<Key>): Row {
    row.(refs := set r | r in row.refs && r.target !in gone)
  }

  /** The rows without those gone. */
  function Purged(rows: Rows, gone: set<Key>): (left: Rows)
    ensures left.Keys == rows.Keys - gone
  {
    map k | k in rows && k !in gone :: Cleared(rows[k], gone)
  }

  /** Some remaining row restricts one that goes. */
  predicate Blocked(rows: Rows, gone: set<Key>) {
    exists k :: k in rows && k !in gone && RefersInto(rows[k], gone, Restrict)
  }

  /** One delete statement over the rows of these ids that exist; None when it is refused. */
  function Deleted(rows: Rows, ids: set<Key>): Option<Rows> {
    var gone := Closure(rows, ids * rows.Keys);
    if Blocked(rows, gone) then None else Some(Purged(rows, gone))
  }

  lemma PurgedTwice(rows: Rows, a: set<Key>, b: set<Key>)
    ensures Purged(Purged(rows, a), b) == Purged(rows, a + b)
  {
    forall k | k in rows && k !in a + b ensures Purged(Purged(rows, a), b)[k] == Purged(rows, a + b)[k] {
      assert Cleared(Cleared(rows[k], a), b).refs == Cleared(rows[k], a + b).refs;
    }
  }

  lemma ClearedRefers(row: Row, gone: set<Key>, keys: set<Key>, action: Action)
    ensures RefersInto(Cleared(row, gone), keys, action) <==> RefersInto(row, keys - gone, action)
  {
    var cleared := Cleared(row, gone);
    if RefersInto(row, keys - gone, action) {
      var r :| r in row.refs && r.action == action && r.target in keys - gone;
      assert r in cleared.refs;
    }
  }

  lemma SplitRefers(row: Row, a: set<Key>, b: set<Key>, action: Action)
    ensures RefersInto(row, a + b, action) <==> RefersInto(row, a, action) || RefersInto(row, b, action)
  {}

  /** What goes after some rows went already is what would have gone with them, less those rows. */
  lemma ClosureAfterPurge(rows: Rows, gone: set<Key>, ids: set<Key>)
    requires gone <= rows.Keys && Closed(rows, gone)
    ensures var left := Purged(rows, gone);
      Closure(rows, gone + ids * rows.Keys) == gone + Closure(left, ids * left.Keys)
  {
    hide RefersInto, Closure;
    var left := Purged(rows, gone);
    var inner, outer := Closure(left, ids * left.Keys), Closure(rows, gone + ids * rows.Keys);
    ClosureIsClosed(left, ids * left.Keys);
    ClosureIsClosed(rows, gone + ids * rows.Keys);
    assert Closed(rows, gone + inner) by {
      forall k | k in rows && RefersInto(rows[k], gone + inner, Cascade) ensures k in gone + inner {
        SplitRefers(rows[k], gone, inner, Cascade);
        if k !in gone {
          assert inner - gone == inner;
          ClearedRefers(rows[k], gone, inner, Cascade);
        }
      }
    }
    assert gone + ids * rows.Keys <= gone + inner;
    ClosureIsLeast(rows, gone + ids * rows.Keys, gone + inner);
    assert Closed(left, outer - gone) by {
      forall k | k in left && RefersInto(left[k], outer - gone, Cascade) ensures k in outer - gone {
        ClearedRefers(rows[k], gone, outer - gone, Cascade);
        WiderRefers(rows[k], outer - gone - gone, outer, Cascade);
      }
    }
    assert ids * left.Keys <= outer - gone;
    ClosureIsLeast(left, ids * left.Keys, outer - gone);
  }

  /** After some rows went unblocked, the rest is blocked exactly when all of it together would have been. */
  lemma BlockedAfterPurge(rows: Rows, gone: set<Key>, more: set<Key>)
    requires !Blocked(rows, gone) && more <= rows.Keys - gone
    ensures Blocked(Purged(rows, gone), more) <==> Blocked(rows, gone + more)
  {
    hide RefersInto;
    var left := Purged(rows, gone);
    forall k | k in rows && k !in gone + more
      ensures RefersInto(left[k], more, Restrict) <==> RefersInto(rows[k], gone + more, Restrict)
    {
      assert more - gone == more;
      ClearedRefers(rows[k], gone, more, Restrict);
      SplitRefers(rows[k], gone, more, Restrict);
    }
  }

  // ---------------------------------------------------------------------------------------------
  // Several statements, one after the other
  // ---------------------------------------------------------------------------------------------

  /** The rows left and how many statements went through before one was refused. */
  function DeletedAll(rows: Rows, groups: seq<set<Key>>): (r: (Rows, nat))
    ensures r.1 <= |groups|
    decreases |groups|
  {
    if groups == [] then (rows, 0)
    else
      match Deleted(rows, groups[0])
      case None => (rows, 0)
      case Some(left) =>
        var (end, n) := DeletedAll(left, groups[1..]);
        (end, n + 1)
  }

  function Union(groups: seq<set<Key>>): (u: set<Key>)
    ensures forall k :: k in u <==> exists i :: 0 <= i < |groups| && k in groups[i]
  {
    if groups == [] then {}
    else
      assert groups == [groups[0]] + groups[1..];
      groups[0] + Union(groups[1..])
  }

  /** Everything the first n statements take. */
  function Taken(rows: Rows, groups: seq<set<Key>>, n: nat): set<Key>
    requires n <= |groups|
  {
    Closure(rows, Union(groups[..n]) * rows.Keys)
  }

  lemma TakenFirst(rows: Rows, groups: seq<set<Key>>, n: nat)
    requires 0 < n <= |groups|
    ensures var gone := Closure(rows, groups[0] * rows.Keys);
      Taken(rows, groups, n) == gone + Taken(Purged(rows, gone), groups[1..], n - 1)
  {
    hide Closure, Closed, Union;
    var gone := Closure(rows, groups[0] * rows.Keys);
    var ids := Union(groups[1..][..n - 1]);
    assert groups[..n] == [groups[0]] + groups[1..][..n - 1];
    assert Union(groups[..n]) == groups[0] + ids by { UnionFirst(groups[0], groups[1..][..n - 1]); }
    ClosureIsClosed(rows, groups[0] * rows.Keys);
    ClosureAfterPurge(rows, gone, ids);
    var all := (groups[0] + ids) * rows.Keys;
    ClosureIsClosed(rows, all);
    ClosureIsLeast(rows, groups[0] * rows.Keys, Closure(rows, all));
    ClosureIsLeast(rows, gone + ids * rows.Keys, Closure(rows, all));
    ClosureIsClosed(rows, gone + ids * rows.Keys);
    ClosureIsLeast(rows, all, Closure(rows, gone + ids * rows.Keys));
  }

  lemma UnionFirst(first: set<Key>, rest: seq<set<Key>>)
    ensures Union([first] + rest) == first + Union(rest)
  {
    assert ([first] + rest)[1..] == rest;
  }

  /** The statements all go through if and only if no prefix of them is blocked from outside what it takes; and
      however many go through, the rows left are those none of them takes. */
  lemma {:induction false} DeletedAllIs(rows: Rows, groups: seq<set<Key>>)
    ensures var (left, n) := DeletedAll(rows, groups);
      && left == Purged(rows, Taken(rows, groups, n))
      && (forall i :: 0 <= i <= n ==> !Blocked(rows, Taken(rows, groups, i)))
      && (n < |groups| ==> Blocked(rows, Taken(rows, groups, n + 1)))
    decreases |groups|
  {
    hide Blocked, Purged, Taken, Closure;
    NothingTaken(rows, groups);
    if groups != [] {
      var gone := Closure(rows, groups[0] * rows.Keys);
      TakenFirst(rows, groups, 1);
      NothingTaken(Purged(rows, gone), groups[1..]);
      assert Taken(rows, groups, 1) == gone;
      if !Blocked(rows, gone) {
        var left := Purged(rows, gone);
        DeletedAllIs(left, groups[1..]);
        var (end, n) := DeletedAll(left, groups[1..]);
        forall i | 0 <= i <= |groups| - 1
          ensures Blocked(rows, Taken(rows, groups, i + 1)) <==> Blocked(left, Taken(left, groups[1..], i))
        {
          TakenFirst(rows, groups, i + 1);
          TakenIsThere(left, groups[1..], i);
          BlockedAfterPurge(rows, gone, Taken(left, groups[1..], i));
        }
        TakenFirst(rows, groups, n + 1);
        PurgedTwice(rows, gone, Taken(left, groups[1..], n));
        forall i | 0 <= i <= n + 1 ensures !Blocked(rows, Taken(rows, groups, i)) {
          if i > 0 {
            assert !Blocked(left, Taken(left, groups[1..], i - 1));
          }
        }
      }
    }
  }

  lemma TakenIsThere(rows: Rows, groups: seq<set<Key>>, n: nat)
    requires n <= |groups|
    ensures Taken(rows, groups, n) <= rows.Keys
  {}

  lemma NothingTaken(rows: Rows, groups: seq<set<Key>>)
    ensures Taken(rows, groups, 0) == {} && Purged(rows, {}) == rows && !Blocked(rows, {})
  {
    assert Union(groups[..0]) == {};
    assert Closed(rows, {});
    ClosureIsLeast(rows, {}, {});
    forall k | k in rows ensures Cleared(rows[k], {}) == rows[k] {
      assert Cleared(rows[k], {}).refs == rows[k].refs;
    }
  }
}
