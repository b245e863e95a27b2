/** Deleting demo data: deleteAllSeedDataForBusiness of packages/core/src/admin/demo-seed-tracking.ts, over the
    tables of 20260907190000_admin_demo_seed_tool.sql and the rows it tracks. */
module SeedData {
  import opened Text
  import opened Relations

  /** An alert may name a stock level by id, without a reference the database checks. */
  datatype Alert = Alert(business: nat, aboutLevel: bool, entity: Option<nat>)

  datatype Batch = Batch(business: nat, records: seq<Key>)

  datatype State = State(rows: Rows, alerts: map<nat, Alert>, batches: seq<Batch>)

  /** A delete the database refuses, a call that fails for any other reason, or a completed run with its counts. */
  datatype Result = Refused | Failed | Removed(batches: nat, records: nat)

  /** Every tracking record of a business. */
  function RecordsOf(batches: seq<Batch>, business: nat): seq<Key> {
    if batches == [] then []
    else (if batches[0].business == business then batches[0].records else []) + RecordsOf(batches[1..], business)
  }

  function OthersBatches(batches: seq<Batch>, business: nat): (others: seq<Batch>)
    ensures |others| <= |batches|
    ensures forall b :: b in others <==> b in batches && b.business != business
  {
    if batches == [] then []
    else
      assert batches == [batches[0]] + batches[1..];
      (if batches[0].business == business then [] else [batches[0]]) + OthersBatches(batches[1..], business)
  }

  // ---------------------------------------------------------------------------------------------
  // The order of the statements
  // ---------------------------------------------------------------------------------------------

  const DELETION_ORDER: seq<Table> := [Documents, Items, Categories, Parties, Warehouses]

  /** The tables of the records, in order of first appearance. */
  function TablesOf(records: seq<Key>): (tables: seq<Table>)
    ensures forall t :: t in tables <==> exists k :: k in records && k.table == t
  {
    if records == [] then []
    else
      var front, last := TablesOf(records[..|records| - 1]), records[|records| - 1];
      assert records == records[..|records| - 1] + [last];
      assert last in records;
      assert forall t :: t in front ==> exists k :: k in records && k.table == t;
      if last.table in front then front else front + [last.table]
  }

  function Unlisted(tables: seq<Table>): (r: seq<Table>)
    ensures forall t :: t in r <==> t in tables && t !in DELETION_ORDER
  {
    if tables == [] then []
    else
      assert tables == [tables[0]] + tables[1..];
      (if tables[0] in DELETION_ORDER then [] else [tables[0]]) + Unlisted(tables[1..])
  }

  function Present(order: seq<Table>, tables: seq<Table>): (r: seq<Table>)
    ensures forall t :: t in r <==> t in order && t in tables
  {
    if order == [] then []
    else
      assert order == [order[0]] + order[1..];
      (if order[0] in tables then [order[0]] else []) + Present(order[1..], tables)
  }

  /** Sorting by place in the deletion order: an unlisted table has place -1 and so comes first. */
  function Ordered(tables: seq<Table>): (r: seq<Table>)
    ensures forall t :: t in r <==> t in tables
  {
    Unlisted(tables) + Present(DELETION_ORDER, tables)
  }

  function InTable(records: seq<Key>, table: Table): (ids: set<Key>)
    ensures forall k :: k in ids <==> k in records && k.table == table
  {
    set k | k in records && k.table == table
  }

  /** The ids of each statement. */
  function Groups(records: seq<Key>): (groups: seq<set<Key>>)
    ensures forall k :: k in records <==> exists i :: 0 <= i < |groups| && k in groups[i]
  {
    var tables := Ordered(TablesOf(records));
    var groups := seq(|tables|, i requires 0 <= i < |tables| => InTable(records, tables[i]));
    assert forall k :: k in records ==> exists i :: 0 <= i < |groups| && k in groups[i] by {
      forall k | k in records ensures exists i :: 0 <= i < |groups| && k in groups[i] {
        assert k.table in tables;
        var i :| 0 <= i < |tables| && tables[i] == k.table;
        assert k in groups[i];
      }
    }
    groups
  }

  // ---------------------------------------------------------------------------------------------
  // The whole run
  // ---------------------------------------------------------------------------------------------

  /** A stock-level alert of the business whose stock level is not among the business's. */
  predicate Orphaned(rows: Rows, business: nat, a: Alert) {
    && a.business == business && a.aboutLevel
    && !(a.entity.Some? && Key(Levels, a.entity.value) in rows
         && rows[Key(Levels, a.entity.value)].business == business)
  }

  function WithoutOrphans(rows: Rows, business: nat, alerts: map<nat, Alert>): map<nat, Alert> {
    map id | id in alerts && !Orphaned(rows, business, alerts[id]) :: alerts[id]
  }

  /** The run with no call failing: only a delete can be refused. */
  function DeleteSeedData(s: State, business: nat): (r: (State, Result))
    ensures !r.1.Failed?
  {
    var records := RecordsOf(s.batches, business);
    if records == [] then (s, Removed(0, 0))
    else
      var groups := Groups(records);
      var (rows, n) := DeletedAll(s.rows, groups);
      if n < |groups| then (s.(rows := rows), Refused)
      else
        var others := OthersBatches(s.batches, business);
        (State(rows, WithoutOrphans(rows, business, s.alerts), others),
         Removed(|s.batches| - |others|, |records|))
  }

  /** How many delete statements are sent before the call numbered failAt, counted from zero, breaks. */
  function Reach(groups: seq<set<Key>>, failAt: nat): nat { if failAt < |groups| then failAt else |groups| }

  /** A delete whose answer is lost: it took its rows unless the database refused it. */
  function Landed(rows: Rows, ids: set<Key>): Rows {
    match Deleted(rows, ids)
    case None => rows
    case Some(left) => left
  }

  /** The run when its call numbered failAt breaks: the delete statements come first, then reading the stock levels
      and deleting alerts, then deleting the batches. landed tells whether the call had its effect all the same and
      only its answer was lost. */
  function Attempt(s: State, business: nat, failAt: nat, landed: bool): (State, Result) {
    var records := RecordsOf(s.batches, business);
    if records == [] then (s, Removed(0, 0))
    else
      var groups := Groups(records);
      var sent := groups[..Reach(groups, failAt)];
      var (rows, n) := DeletedAll(s.rows, sent);
      if n < |sent| then (s.(rows := rows), Refused)
      else if failAt < |groups| then (s.(rows := if landed then Landed(rows, groups[failAt]) else rows), Failed)
      else
        var alerts, others := WithoutOrphans(rows, business, s.alerts), OthersBatches(s.batches, business);
        if failAt == |groups| then (s.(rows := rows, alerts := if landed then alerts else s.alerts), Failed)
        else if failAt == |groups| + 1 then (State(rows, alerts, if landed then others else s.batches), Failed)
        else (State(rows, alerts, others), Removed(|s.batches| - |others|, |records|))
  }

  /** A run whose calls all work is the plain one. */
  lemma UnbrokenAttempt(s: State, business: nat, failAt: nat, landed: bool)
    requires failAt > |Groups(RecordsOf(s.batches, business))| + 1
    ensures Attempt(s, business, failAt, landed) == DeleteSeedData(s, business)
  {
    hide Groups, DeletedAll, WithoutOrphans, OthersBatches, RecordsOf;
    var groups := Groups(RecordsOf(s.batches, business));
    assert groups[..|groups|] == groups;
  }

  /** The tracked rows that exist, and all that cascades with them. */
  function Doomed(s: State, business: nat): (d: set<Key>)
    ensures d <= s.rows.Keys
  {
    Closure(s.rows, (set k | k in RecordsOf(s.batches, business)) * s.rows.Keys)
  }

  lemma AllTaken(rows: Rows, records: seq<Key>)
    ensures Taken(rows, Groups(records), |Groups(records)|) == Closure(rows, (set k | k in records) * rows.Keys)
  {
    hide Closure;
    var groups := Groups(records);
    assert groups[..|groups|] == groups;
    assert Union(groups) == set k | k in records;
  }

  lemma EndRows(s: State, business: nat)
    requires RecordsOf(s.batches, business) != [] && DeleteSeedData(s, business).1.Removed?
    ensures DeleteSeedData(s, business).0.rows == Purged(s.rows, Doomed(s, business))
  {
    hide Groups, Closure, DeletedAll, Purged, RecordsOf, Taken;
    var records := RecordsOf(s.batches, business);
    DeletedAllIs(s.rows, Groups(records));
    AllTaken(s.rows, records);
  }

  lemma TrackedAreDoomed(s: State, business: nat)
    ensures forall k :: k in RecordsOf(s.batches, business) && k in s.rows ==> k in Doomed(s, business)
  {
    hide Closure, RecordsOf;
    var records := RecordsOf(s.batches, business);
    assert forall k :: k in records && k in s.rows ==> k in (set x | x in records) * s.rows.Keys;
  }

  /** A run that goes through removes exactly the tracked rows and their cascades, keeps every other row but for
      its references to them, and drops the business's batches with their records. Of the alerts of the business
      about a stock level exactly those stay whose level is still there and the business's, and every other alert
      stays. The counts are those of the batches and of the tracking records. */
  lemma EndState(s: State, business: nat)
    requires RecordsOf(s.batches, business) != [] && DeleteSeedData(s, business).1.Removed?
    ensures var (s', result) := DeleteSeedData(s, business);
      && s'.rows == Purged(s.rows, Doomed(s, business))
      && (forall k :: k in RecordsOf(s.batches, business) ==> k !in s'.rows)
      && (forall k :: k in s'.rows <==> k in s.rows && k !in Doomed(s, business))
      && (forall k :: k in s'.rows ==> s'.rows[k].business == s.rows[k].business)
      && (forall k, r :: k in s'.rows ==>
            (r in s'.rows[k].refs <==> r in s.rows[k].refs && r.target !in Doomed(s, business)))
      && (forall id :: id in s.alerts && s.alerts[id].business == business && s.alerts[id].aboutLevel ==>
            (id in s'.alerts <==>
               && s.alerts[id].entity.Some? && Key(Levels, s.alerts[id].entity.value) in s'.rows
               && s'.rows[Key(Levels, s.alerts[id].entity.value)].business == business))
      && (forall id :: id in s.alerts && !(s.alerts[id].business == business && s.alerts[id].aboutLevel) ==>
            id in s'.alerts)
      && (forall id :: id in s'.alerts ==> id in s.alerts && s'.alerts[id] == s.alerts[id])
      && (forall b :: b in s'.batches <==> b in s.batches && b.business != business)
      && result == Removed(|s.batches| - |s'.batches|, |RecordsOf(s.batches, business)|)
  {
    hide Groups, DeletedAll, OthersBatches, RecordsOf, Doomed;
    EndRows(s, business);
    TrackedAreDoomed(s, business);
  }

  /** So an alert about a stock level of the business survives the run if and only if nothing tracked takes that
      level along. */
  lemma AlertOnAKeptLevelStays(s: State, business: nat, id: nat, level: nat)
    requires RecordsOf(s.batches, business) != [] && DeleteSeedData(s, business).1.Removed?
    requires id in s.alerts && s.alerts[id] == Alert(business, true, Some(level))
    requires Key(Levels, level) in s.rows && s.rows[Key(Levels, level)].business == business
    ensures id in DeleteSeedData(s, business).0.alerts <==> Key(Levels, level) !in Doomed(s, business)
  {
    hide DeleteSeedData, RecordsOf, Doomed;
    EndState(s, business);
  }

  /** Refused part way, the run leaves alerts, batches and tracking records as they were, and of the rows exactly
      those the statements before the refused one took are gone. */
  lemma RefusedKeepsTracking(s: State, business: nat)
    requires DeleteSeedData(s, business).1.Refused?
    ensures var s', groups := DeleteSeedData(s, business).0, Groups(RecordsOf(s.batches, business));
      && s'.alerts == s.alerts && s'.batches == s.batches
      && var n := DeletedAll(s.rows, groups).1;
         && n < |groups| && s'.rows == Purged(s.rows, Taken(s.rows, groups, n))
         && Blocked(s.rows, Taken(s.rows, groups, n + 1))
  {
    hide Groups, Closure, DeletedAll, Purged, RecordsOf, Taken, Blocked;
    DeletedAllIs(s.rows, Groups(RecordsOf(s.batches, business)));
  }

  /** Without tracking records nothing changes, even when the business has (empty) batches. */
  lemma NothingTracked(s: State, business: nat)
    ensures RecordsOf(s.batches, business) == [] ==> DeleteSeedData(s, business) == (s, Removed(0, 0))
    ensures forall b :: b in s.batches && b.business == business && b.records != [] ==>
      RecordsOf(s.batches, business) != []
  {
    forall b | b in s.batches && b.business == business && b.records != []
      ensures RecordsOf(s.batches, business) != []
    {
      HasRecords(s.batches, b);
    }
  }

  lemma {:induction false} HasRecords(batches: seq<Batch>, b: Batch)
    requires b in batches && b.records != []
    ensures RecordsOf(batches, b.business) != []
  {
    if batches[0] != b {
      assert batches == [batches[0]] + batches[1..];
      HasRecords(batches[1..], b);
    }
  }

  // ---------------------------------------------------------------------------------------------
  // When a run goes through
  // ---------------------------------------------------------------------------------------------

  /** What a reference from one table to another does, in the tables around the seeder. */
  function ActionOf(from: Table, to: Table): Option<Action> {
    match (from, to)
    case (Documents, Parties) => Some(Restrict)
    case (Lines, Documents) => Some(Cascade)
    case (Lines, Items) => Some(Restrict)
    case (ReturnLines, Lines) => Some(Cascade)
    case (Items, Categories) => Some(SetNull)
    case (Items, Parties) => Some(SetNull)
    case (Categories, Categories) => Some(SetNull)
    case (Levels, Items) => Some(Cascade)
    case (Levels, Warehouses) => Some(Cascade)
    case (Movements, Items) => Some(Cascade)
    case (Movements, Warehouses) => Some(Cascade)
    case (Payments, Parties) => Some(Restrict)
    case (Allocations, Payments) => Some(Cascade)
    case (Allocations, Documents) => Some(Restrict)
    case (Transfers, Warehouses) => Some(Restrict)
    case (TransferItems, Transfers) => Some(Cascade)
    case (TransferItems, Items) => Some(Restrict)
    case _ => None
  }

  /** The seeder tracks rows of the five tables of the deletion order. */
  predicate FromSeeder(records: seq<Key>) {
    forall k :: k in records ==> k.table in DELETION_ORDER
  }

  /** The named tables whose rows can go with rows the seeder tracked. */
  predicate Reachable(t: Table) {
    t in DELETION_ORDER || t == Lines || t == ReturnLines || t == Levels || t == Movements
  }

  /** The same for all tables, given the numbers of the other tables whose rows cascade from these, at whatever
      distance: party roles, contacts, item attributes, e-invoices and so on. */
  predicate CanGo(goes: set<nat>, t: Table) {
    if t.Other? then t.number in goes else Reachable(t)
  }

  /** Between named tables a reference does what the schema says. Another table may refer to anything, and is among
      those that go if its rows cascade from rows that can go; only such a table restricts none of these. */
  predicate RefFits(goes: set<nat>, from: Table, to: Table, action: Action) {
    if from.Other? then
      CanGo(goes, to) ==> (action == Cascade ==> from.number in goes) && (action == Restrict ==> from.number !in goes)
    else if to.Other? then to.number in goes ==> action == SetNull
    else ActionOf(from, to) == Some(action)
  }

  predicate FollowsSchema(goes: set<nat>, rows: Rows) {
    forall k, r :: k in rows && r in rows[k].refs ==> RefFits(goes, k.table, r.target.table, r.action)
  }

  lemma ListedIsReachable(goes: set<nat>, t: Table)
    requires t in DELETION_ORDER
    ensures CanGo(goes, t)
  {}

  lemma CascadeCanGo(goes: set<nat>, from: Table, to: Table)
    requires RefFits(goes, from, to, Cascade) && CanGo(goes, to)
    ensures CanGo(goes, from) && from != Documents && (from == Lines ==> to == Documents)
  {}

  lemma RestrictThatGoes(goes: set<nat>, from: Table, to: Table)
    requires RefFits(goes, from, to, Restrict) && CanGo(goes, from) && CanGo(goes, to)
    ensures from == Documents || from == Lines
  {}

  lemma OnlyTheseGo(goes: set<nat>, rows: Rows, ids: set<Key>)
    requires FollowsSchema(goes, rows) && ids <= rows.Keys && forall k :: k in ids ==> k.table in DELETION_ORDER
    ensures forall k :: k in Closure(rows, ids) ==> CanGo(goes, k.table)
    ensures forall k :: k in Closure(rows, ids) && k.table == Documents ==> k in ids
  {
    hide Closure, RefFits, CanGo, DELETION_ORDER;
    forall k | k in ids ensures CanGo(goes, k.table) {
      ListedIsReachable(goes, k.table);
    }
    var limit := set k | k in rows && CanGo(goes, k.table) && (k.table == Documents ==> k in ids);
    forall k | k in rows && RefersInto(rows[k], limit, Cascade) ensures k in limit {
      var r :| r in rows[k].refs && r.action == Cascade && r.target in limit;
      CascadeCanGo(goes, k.table, r.target.table);
    }
    ClosureIsLeast(rows, ids, limit);
  }

  /** Of the rows that go with tracked ones, those that restrict another such row are documents and their lines, and
      these go with the first statement. */
  lemma RestrictorsGoFirst(goes: set<nat>, rows: Rows, ids: set<Key>, k: Key)
    requires FollowsSchema(goes, rows) && ids <= rows.Keys && (forall x :: x in ids ==> x.table in DELETION_ORDER)
    requires k in Closure(rows, ids) && RefersInto(rows[k], Closure(rows, ids), Restrict)
    ensures k in Closure(rows, set x | x in ids && x.table == Documents)
  {
    hide Closure, RefFits, CanGo;
    var documents := set x | x in ids && x.table == Documents;
    var first := Closure(rows, documents);
    OnlyTheseGo(goes, rows, ids);
    var r :| r in rows[k].refs && r.action == Restrict && r.target in Closure(rows, ids);
    RestrictThatGoes(goes, k.table, r.target.table);
    if k.table == Lines {
      LinesGoFirst(goes, rows, ids, k);
    }
  }

  lemma LinesGoFirst(goes: set<nat>, rows: Rows, ids: set<Key>, k: Key)
    requires FollowsSchema(goes, rows) && ids <= rows.Keys && (forall x :: x in ids ==> x.table in DELETION_ORDER)
    requires k in Closure(rows, ids) && k.table == Lines
    ensures k in Closure(rows, set x | x in ids && x.table == Documents)
  {
    hide Closure, RefFits, CanGo;
    var first := Closure(rows, set x | x in ids && x.table == Documents);
    ClosureIsClosed(rows, set x | x in ids && x.table == Documents);
    var limit := set x |
      x in rows && CanGo(goes, x.table) && ((x.table == Lines || x.table == Documents) ==> x in first);
    forall x | x in ids ensures x in limit {
      ListedIsReachable(goes, x.table);
      assert x.table != Lines by { LinesAreUnlisted(); }
    }
    forall x | x in rows && RefersInto(rows[x], limit, Cascade) ensures x in limit {
      var r :| r in rows[x].refs && r.action == Cascade && r.target in limit;
      CascadeCanGo(goes, x.table, r.target.table);
      if x.table == Lines {
        assert RefersInto(rows[x], first, Cascade);
      }
    }
    ClosureIsLeast(rows, ids, limit);
  }

  lemma LinesAreUnlisted()
    ensures Lines !in DELETION_ORDER
  {}

  lemma ClosureGrows(rows: Rows, a: set<Key>, b: set<Key>)
    requires a <= b <= rows.Keys
    ensures Closure(rows, a) <= Closure(rows, b)
  {
    ClosureIsClosed(rows, b);
    ClosureIsLeast(rows, a, Closure(rows, b));
  }

  lemma {:induction false} NoneUnlisted(tables: seq<Table>)
    requires forall t :: t in tables ==> t in DELETION_ORDER
    ensures Unlisted(tables) == []
  {
    hide DELETION_ORDER;
    if tables != [] {
      assert tables[0] in tables;
      NoneUnlisted(tables[1..]);
    }
  }

  lemma DocumentsFirst(records: seq<Key>, k: Key)
    requires FromSeeder(records) && k in records && k.table == Documents
    ensures |Groups(records)| > 0 && Groups(records)[0] == InTable(records, Documents)
  {
    var tables := TablesOf(records);
    forall t | t in tables ensures t in DELETION_ORDER {
      var k :| k in records && k.table == t;
    }
    NoneUnlisted(tables);
    assert DELETION_ORDER[0] == Documents && Documents in tables;
    assert Present(DELETION_ORDER, tables)[0] == Documents;
  }

  /** The tracked ids that exist. */
  function Tracked(s: State, business: nat): (ids: set<Key>)
    ensures ids <= s.rows.Keys
    ensures forall k :: k in ids <==> k in RecordsOf(s.batches, business) && k in s.rows
  {
    (set k | k in RecordsOf(s.batches, business)) * s.rows.Keys
  }

  lemma BlockedOnlyFromOutside(goes: set<nat>, s: State, business: nat, n: nat)
    requires FollowsSchema(goes, s.rows) && FromSeeder(RecordsOf(s.batches, business))
    requires 0 < n <= |Groups(RecordsOf(s.batches, business))|
    requires Blocked(s.rows, Taken(s.rows, Groups(RecordsOf(s.batches, business)), n))
    ensures Blocked(s.rows, Closure(s.rows, Tracked(s, business)))
  {
    hide Closure, FollowsSchema, Groups, RecordsOf, RefersInto, Union;
    var records := RecordsOf(s.batches, business);
    var groups, ids := Groups(records), Tracked(s, business);
    var gone := Taken(s.rows, groups, n);
    var k :| k in s.rows && k !in gone && RefersInto(s.rows[k], gone, Restrict);
    ClosureGrows(s.rows, Union(groups[..n]) * s.rows.Keys, ids);
    WiderRefers(s.rows[k], gone, Closure(s.rows, ids), Restrict);
    if k in Closure(s.rows, ids) {
      InsideGoesFirst(goes, s, business, n, k);
    }
  }

  /** A restricting row that goes at all goes with the first statement. */
  lemma InsideGoesFirst(goes: set<nat>, s: State, business: nat, n: nat, k: Key)
    requires FollowsSchema(goes, s.rows) && FromSeeder(RecordsOf(s.batches, business))
    requires 0 < n <= |Groups(RecordsOf(s.batches, business))|
    requires k in Closure(s.rows, Tracked(s, business))
    requires RefersInto(s.rows[k], Closure(s.rows, Tracked(s, business)), Restrict)
    ensures k in Taken(s.rows, Groups(RecordsOf(s.batches, business)), n)
  {
    hide Closure, FollowsSchema, Groups, RecordsOf, RefersInto, Union;
    var records := RecordsOf(s.batches, business);
    var groups, ids := Groups(records), Tracked(s, business);
    var documents := set x | x in ids && x.table == Documents;
    RestrictorsGoFirst(goes, s.rows, ids, k);
    EmptyClosure(s.rows);
    if documents != {} {
      var d :| d in documents;
      DocumentsFirst(records, d);
      assert groups[..n][0] == groups[0];
      assert documents <= Union(groups[..n]) * s.rows.Keys;
      ClosureGrows(s.rows, documents, Union(groups[..n]) * s.rows.Keys);
    }
  }

  lemma EmptyClosure(rows: Rows)
    ensures Closure(rows, {}) == {}
  {
    assert Closed(rows, {});
    ClosureIsLeast(rows, {}, {});
  }

  /** On rows of the schema, the run for data the seeder tracked goes through if and only if no row that stays
      restricts a row that goes: no line of an untracked document on a tracked item, but also no untracked document,
      payment or row of another table on a tracked party, no payment allocated to a tracked document, and no
      transfer. */
  lemma GoesThroughIff(goes: set<nat>, s: State, business: nat)
    requires FollowsSchema(goes, s.rows) && FromSeeder(RecordsOf(s.batches, business))
    requires RecordsOf(s.batches, business) != []
    ensures DeleteSeedData(s, business).1.Removed? <==> !Blocked(s.rows, Closure(s.rows, Tracked(s, business)))
  {
    hide Closure, FollowsSchema, Groups, RecordsOf, Blocked, Taken, DeletedAll, Purged, FromSeeder;
    var records := RecordsOf(s.batches, business);
    var groups := Groups(records);
    var n := DeletedAll(s.rows, groups).1;
    DeletedAllIs(s.rows, groups);
    AllTaken(s.rows, records);
    if n < |groups| {
      BlockedOnlyFromOutside(goes, s, business, n + 1);
    }
  }

  /** Whatever row is not taken and restricts a tracked one refuses the run. */
  lemma RestrictingRowBlocks(goes: set<nat>, s: State, business: nat, k: Key, target: Key)
    requires FollowsSchema(goes, s.rows) && FromSeeder(RecordsOf(s.batches, business))
    requires target in RecordsOf(s.batches, business) && target in s.rows
    requires k in s.rows && k !in RecordsOf(s.batches, business) && Ref(target, Restrict) in s.rows[k].refs
    requires k.table == Documents || !CanGo(goes, k.table)
    ensures DeleteSeedData(s, business).1.Refused?
  {
    hide Closure, FollowsSchema, RecordsOf, DeleteSeedData, CanGo;
    var ids := Tracked(s, business);
    var gone := Closure(s.rows, ids);
    GoesThroughIff(goes, s, business);
    OnlyTheseGo(goes, s.rows, ids);
    assert Ref(target, Restrict).target in gone;
    assert RefersInto(s.rows[k], gone, Restrict);
  }

  /** A document that is not tracked and names a tracked party refuses the run, even when no line of any document
      names a tracked item. */
  lemma UntrackedDocumentBlocks(goes: set<nat>, s: State, business: nat, document: Key, party: Key)
    requires FollowsSchema(goes, s.rows) && FromSeeder(RecordsOf(s.batches, business))
    requires document in s.rows && document.table == Documents && document !in RecordsOf(s.batches, business)
    requires party in RecordsOf(s.batches, business) && party in s.rows && Ref(party, Restrict) in s.rows[document].refs
    ensures DeleteSeedData(s, business).1.Refused?
  {
    hide FollowsSchema, RecordsOf, DeleteSeedData;
    RestrictingRowBlocks(goes, s, business, document, party);
  }

  /** So does a row of any other table that restricts a tracked row, such as a field-service job or opportunity, an
      assessment or an investor on a tracked party. */
  lemma OtherTableBlocks(goes: set<nat>, s: State, business: nat, k: Key, target: Key)
    requires FollowsSchema(goes, s.rows) && FromSeeder(RecordsOf(s.batches, business))
    requires target in RecordsOf(s.batches, business) && target in s.rows
    requires k in s.rows && k.table.Other? && Ref(target, Restrict) in s.rows[k].refs
    ensures DeleteSeedData(s, business).1.Refused?
  {
    hide RecordsOf, DeleteSeedData, DELETION_ORDER;
    assert target.table in DELETION_ORDER;
    ListedIsReachable(goes, target.table);
    assert RefFits(goes, k.table, target.table, Restrict);
    if k in RecordsOf(s.batches, business) {
      OthersAreUnlisted(k.table);
    }
    RestrictingRowBlocks(goes, s, business, k, target);
  }

  lemma OthersAreUnlisted(t: Table)
    ensures t.Other? ==> t !in DELETION_ORDER
  {}

  lemma SchemaStays(goes: set<nat>, rows: Rows, gone: set<Key>)
    requires FollowsSchema(goes, rows)
    ensures FollowsSchema(goes, Purged(rows, gone))
  {}

  lemma EndAfterPurge(rows: Rows, gone: set<Key>, s: State, business: nat)
    requires gone <= rows.Keys && Closed(rows, gone) && s.rows == Purged(rows, gone)
    requires RecordsOf(s.batches, business) != [] && DeleteSeedData(s, business).1.Removed?
    ensures var ids := set k | k in RecordsOf(s.batches, business);
      DeleteSeedData(s, business).0.rows == Purged(rows, Closure(rows, gone + ids * rows.Keys))
  {
    hide Closure, RecordsOf, DeleteSeedData, Closed, Purged;
    var ids := set k | k in RecordsOf(s.batches, business);
    EndRows(s, business);
    ClosureAfterPurge(rows, gone, ids);
    PurgedTwice(rows, gone, Closure(s.rows, ids * s.rows.Keys));
  }

  /** Deleting A then B takes the closure of both. */
  lemma TogetherAfterPurge(rows: Rows, first: set<Key>, ids: set<Key>)
    requires first <= rows.Keys
    ensures var gone := Closure(rows, first);
      Closure(rows, gone + ids * rows.Keys) == Closure(rows, first + ids * rows.Keys)
  {
    hide Closure, Closed;
    var gone, all := Closure(rows, first), first + ids * rows.Keys;
    ClosureIsClosed(rows, first);
    ClosureIsClosed(rows, all);
    ClosureIsClosed(rows, gone + ids * rows.Keys);
    ClosureIsLeast(rows, first, Closure(rows, all));
    ClosureIsLeast(rows, gone + ids * rows.Keys, Closure(rows, all));
    ClosureIsLeast(rows, all, Closure(rows, gone + ids * rows.Keys));
  }

  /** A run refused part way, the blockers then deleted, and the run repeated: the rows left are exactly those that
      deleting the tracked rows and the blockers together takes from the rows there were at first; alerts and
      batches end as after any run that goes through. */
  lemma RerunReachesTheEnd(s: State, business: nat, blockers: set<Key>, cleared: Rows)
    requires RecordsOf(s.batches, business) != [] && DeleteSeedData(s, business).1.Refused?
    requires Deleted(DeleteSeedData(s, business).0.rows, blockers) == Some(cleared)
    requires DeleteSeedData(DeleteSeedData(s, business).0.(rows := cleared), business).1.Removed?
    ensures var end := DeleteSeedData(DeleteSeedData(s, business).0.(rows := cleared), business).0;
      && end.rows == Purged(s.rows, Closure(s.rows, Tracked(s, business) + blockers * s.rows.Keys))
      && end.alerts == WithoutOrphans(end.rows, business, s.alerts)
      && end.batches == OthersBatches(s.batches, business)
  {
    hide Closure, RecordsOf, Closed, Purged, Groups, DeletedAll, Taken, WithoutOrphans, OthersBatches, Blocked;
    var records := RecordsOf(s.batches, business);
    var groups := Groups(records);
    var partial := DeleteSeedData(s, business).0;
    var n := DeletedAll(s.rows, groups).1;
    RefusedKeepsTracking(s, business);
    RerunRows(s.rows, records, n, blockers, cleared, partial.(rows := cleared), business);
  }

  /** Whether the repeated run goes through is decided by the same condition, on the rows it finds. */
  lemma RerunGoesThroughIff(goes: set<nat>, s: State, business: nat, blockers: set<Key>, cleared: Rows)
    requires FollowsSchema(goes, s.rows) && FromSeeder(RecordsOf(s.batches, business))
    requires RecordsOf(s.batches, business) != [] && DeleteSeedData(s, business).1.Refused?
    requires Deleted(DeleteSeedData(s, business).0.rows, blockers) == Some(cleared)
    ensures var again := DeleteSeedData(s, business).0.(rows := cleared);
      DeleteSeedData(again, business).1.Removed? <==> !Blocked(cleared, Closure(cleared, Tracked(again, business)))
  {
    hide Closure, RecordsOf, Groups, DeletedAll, Taken, Purged, FollowsSchema, Blocked, FromSeeder;
    var partial := DeleteSeedData(s, business).0;
    RefusedKeepsTracking(s, business);
    var n := DeletedAll(s.rows, Groups(RecordsOf(s.batches, business))).1;
    SchemaStays(goes, s.rows, Taken(s.rows, Groups(RecordsOf(s.batches, business)), n));
    SchemaStays(goes, partial.rows, Closure(partial.rows, blockers * partial.rows.Keys));
    GoesThroughIff(goes, partial.(rows := cleared), business);
  }

  lemma RerunRows(rows: Rows, records: seq<Key>, n: nat, blockers: set<Key>, cleared: Rows, again: State,
                  business: nat)
    requires n <= |Groups(records)| && records != [] && records == RecordsOf(again.batches, business)
    requires Deleted(Purged(rows, Taken(rows, Groups(records), n)), blockers) == Some(cleared)
    requires again.rows == cleared && DeleteSeedData(again, business).1.Removed?
    ensures DeleteSeedData(again, business).0.rows
         == Purged(rows, Closure(rows, (set k | k in records) * rows.Keys + blockers * rows.Keys))
  {
    hide Closure, RecordsOf, Closed, Purged, Groups, DeleteSeedData, Blocked, Union;
    var tracked := set k | k in records;
    var prefix := Union(Groups(records)[..n]) * rows.Keys;
    var taken := Closure(rows, prefix);
    var left := Purged(rows, taken);
    var more := Closure(left, blockers * left.Keys);
    assert prefix <= tracked by { PrefixIsTracked(records, n); }
    ClosureIsClosed(rows, prefix);
    ClosureAfterPurge(rows, taken, blockers);
    TogetherAfterPurge(rows, prefix, blockers);
    var first := prefix + blockers * rows.Keys;
    assert taken + more == Closure(rows, first);
    PurgedTwice(rows, taken, more);
    ClosureIsClosed(rows, first);
    EndAfterPurge(rows, Closure(rows, first), again, business);
    TogetherAfterPurge(rows, first, tracked);
    assert first + tracked * rows.Keys == tracked * rows.Keys + blockers * rows.Keys;
  }

  lemma PrefixIsTracked(records: seq<Key>, n: nat)
    requires n <= |Groups(records)|
    ensures Union(Groups(records)[..n]) <= set k | k in records
  {
    hide Groups;
    var groups := Groups(records);
    forall k | k in Union(groups[..n]) ensures k in records {
      var i :| 0 <= i < n && k in groups[..n][i];
      assert k in groups[i];
    }
  }

  /** What the statements take from what earlier ones left is what they take together. */
  lemma TakenAgain(rows: Rows, groups: seq<set<Key>>, n: nat, m: nat)
    requires n <= |groups| && m <= |groups|
    ensures var gone := Taken(rows, groups, n);
      gone + Taken(Purged(rows, gone), groups, m) == Taken(rows, groups, if n < m then m else n)
  {
    hide Closure, Closed, Purged, Union;
    var most := if n < m then m else n;
    var a, b := Union(groups[..n]), Union(groups[..m]);
    ClosureIsClosed(rows, a * rows.Keys);
    ClosureAfterPurge(rows, Taken(rows, groups, n), b);
    TogetherAfterPurge(rows, a * rows.Keys, b);
    UnionGrows(groups, n, most);
    UnionGrows(groups, m, most);
    assert a * rows.Keys + b * rows.Keys == Union(groups[..most]) * rows.Keys;
  }

  lemma UnionGrows(groups: seq<set<Key>>, n: nat, m: nat)
    requires n <= m <= |groups|
    ensures Union(groups[..n]) <= Union(groups[..m])
  {
    forall k | k in Union(groups[..n]) ensures k in Union(groups[..m]) {
      var i :| 0 <= i < n && k in groups[..n][i];
      assert groups[..m][i] == groups[..n][i];
    }
  }

  /** Statements that all go through go through again on what any first few of them left, with the same end. */
  lemma DeletedAgain(rows: Rows, groups: seq<set<Key>>, n: nat)
    requires n <= |groups| && DeletedAll(rows, groups).1 == |groups|
    ensures DeletedAll(Purged(rows, Taken(rows, groups, n)), groups) == DeletedAll(rows, groups)
  {
    hide Closure, Closed, Purged, Taken, Blocked, DeletedAll;
    var left := Purged(rows, Taken(rows, groups, n));
    DeletedAllIs(rows, groups);
    DeletedAllIs(left, groups);
    TakenIsThere(rows, groups, n);
    forall m | 0 <= m <= |groups| ensures !Blocked(left, Taken(left, groups, m)) {
      TakenIsThere(left, groups, m);
      BlockedAfterPurge(rows, Taken(rows, groups, n), Taken(left, groups, m));
      TakenAgain(rows, groups, n, m);
    }
    var m := DeletedAll(left, groups).1;
    assert m == |groups|;
    TakenAgain(rows, groups, n, |groups|);
    PurgedTwice(rows, Taken(rows, groups, n), Taken(left, groups, |groups|));
  }

  lemma OrphansGoOnce(rows: Rows, business: nat, alerts: map<nat, Alert>)
    ensures WithoutOrphans(rows, business, WithoutOrphans(rows, business, alerts))
         == WithoutOrphans(rows, business, alerts)
  {}

  /** The answer lost is that of the last call, the delete of the batches. */
  predicate LastAnswerLost(s: State, business: nat, failAt: nat, landed: bool) {
    landed && failAt == |Groups(RecordsOf(s.batches, business))| + 1
  }

  /** Wherever a run that nothing restricts breaks, at any of its deletes, at the alerts or at the batches, with the
      broken call done or not, repeating it ends in the state of a run that never broke. Its tracking records are
      still there, and the repeated run counts them, unless all that was lost is the last answer: then nothing is
      tracked and the repeated run changes nothing. */
  lemma RerunAfterFailure(s: State, business: nat, failAt: nat, landed: bool)
    requires DeleteSeedData(s, business).1.Removed? && Attempt(s, business, failAt, landed).1.Failed?
    ensures var broken, last := Attempt(s, business, failAt, landed).0, LastAnswerLost(s, business, failAt, landed);
      && DeleteSeedData(broken, business).0 == DeleteSeedData(s, business).0
      && (last <==> RecordsOf(broken.batches, business) == [])
      && (if last then DeleteSeedData(broken, business) == (broken, Removed(0, 0))
          else broken.batches == s.batches && DeleteSeedData(broken, business).1 == DeleteSeedData(s, business).1)
  {
    hide Groups, Closure, Purged, Taken, Blocked, RecordsOf, OthersBatches, WithoutOrphans, DeletedAll, Landed;
    var records := RecordsOf(s.batches, business);
    var groups := Groups(records);
    var n := if failAt < |groups| && landed then failAt + 1 else Reach(groups, failAt);
    SentRows(s.rows, groups, Reach(groups, failAt));
    SentRows(s.rows, groups, n);
    DeletedAgain(s.rows, groups, n);
    OthersHaveNone(s.batches, business);
    if failAt < |groups| {
      LandedRows(s.rows, groups, failAt);
    } else {
      OrphansGoOnce(DeletedAll(s.rows, groups).0, business, s.alerts);
      assert groups[..|groups|] == groups;
    }
  }

  lemma {:induction false} OthersHaveNone(batches: seq<Batch>, business: nat)
    ensures RecordsOf(OthersBatches(batches, business), business) == []
  {
    if batches != [] {
      OthersHaveNone(batches[1..], business);
      var others, rest := OthersBatches(batches, business), OthersBatches(batches[1..], business);
      if batches[0].business == business {
        assert others == rest;
      } else {
        assert others == [batches[0]] + rest;
        assert others[1..] == rest && others[0] == batches[0];
      }
    }
  }

  /** One statement more, its answer lost. */
  lemma LandedRows(rows: Rows, groups: seq<set<Key>>, n: nat)
    requires n < |groups|
    requires DeletedAll(rows, groups[..n]).1 == n
    ensures Landed(DeletedAll(rows, groups[..n]).0, groups[n]) == DeletedAll(rows, groups[..n + 1]).0
  {
    assert groups[..n + 1] == groups[..n] + [groups[n]];
    LandedNext(rows, groups[..n], groups[n]);
  }

  lemma {:induction false} LandedNext(rows: Rows, groups: seq<set<Key>>, ids: set<Key>)
    requires DeletedAll(rows, groups).1 == |groups|
    ensures DeletedAll(rows, groups + [ids]).0 == Landed(DeletedAll(rows, groups).0, ids)
    decreases |groups|
  {
    hide Deleted;
    if groups == [] {
      assert groups + [ids] == [ids] && [ids][1..] == [];
      if Deleted(rows, ids).Some? {
        assert DeletedAll(Deleted(rows, ids).value, []).0 == Deleted(rows, ids).value;
      }
    } else {
      assert (groups + [ids])[1..] == groups[1..] + [ids];
      LandedNext(Deleted(rows, groups[0]).value, groups[1..], ids);
    }
  }

  lemma SentRows(rows: Rows, groups: seq<set<Key>>, n: nat)
    requires n <= |groups| && DeletedAll(rows, groups).1 == |groups|
    ensures DeletedAll(rows, groups[..n]) == (Purged(rows, Taken(rows, groups, n)), n)
  {
    hide Closure, Closed, Purged, Taken, Blocked, DeletedAll;
    DeletedAllIs(rows, groups);
    DeletedAllIs(rows, groups[..n]);
    var m := DeletedAll(rows, groups[..n]).1;
    assert groups[..n][..m] == groups[..m];
    SameTaken(rows, groups, n, m);
    if m < n {
      SameTaken(rows, groups, n, m + 1);
    }
  }

  lemma SameTaken(rows: Rows, groups: seq<set<Key>>, n: nat, m: nat)
    requires m <= n <= |groups|
    ensures Taken(rows, groups[..n], m) == Taken(rows, groups, m)
  {
    hide Closure, Union;
    assert groups[..n][..m] == groups[..m];
  }

  /** What was added since goes with the tracked rows, and nothing else does. */
  lemma AddedRowsGo(before: Rows, rows: Rows, ids: set<Key>)
    requires before.Keys <= rows.Keys && (forall k :: k in before ==> rows[k] == before[k])
    requires forall k, r :: k in before && r in before[k].refs ==> r.target in before
    requires ids <= rows.Keys - before.Keys && rows.Keys - before.Keys <= Closure(rows, ids)
    ensures Closure(rows, ids) == rows.Keys - before.Keys
    ensures !Blocked(rows, Closure(rows, ids)) && Purged(rows, Closure(rows, ids)) == before
  {
    hide Closure;
    var added := rows.Keys - before.Keys;
    assert forall k, action :: k in before ==> !RefersInto(rows[k], added, action);
    ClosureIsLeast(rows, ids, added);
    forall k | k in before ensures Cleared(rows[k], added) == before[k] {
      assert Cleared(rows[k], added).refs == before[k].refs;
    }
  }

  /** Deleting right after seeding undoes it: when every row the seeder added is tracked or cascades from a tracked
      one, the run goes through and leaves exactly the rows there were before. */
  lemma SeedingIsUndone(goes: set<nat>, before: Rows, s: State, business: nat)
    requires FollowsSchema(goes, s.rows) && FromSeeder(RecordsOf(s.batches, business))
    requires RecordsOf(s.batches, business) != []
    requires before.Keys <= s.rows.Keys && (forall k :: k in before ==> s.rows[k] == before[k])
    requires forall k, r :: k in before && r in before[k].refs ==> r.target in before
    requires forall k :: k in RecordsOf(s.batches, business) ==> k !in before
    requires s.rows.Keys - before.Keys <= Closure(s.rows, Tracked(s, business))
    ensures DeleteSeedData(s, business).1.Removed? && DeleteSeedData(s, business).0.rows == before
  {
    hide Closure, FollowsSchema, FromSeeder, RecordsOf, DeleteSeedData, Blocked, Purged;
    AddedRowsGo(before, s.rows, Tracked(s, business));
    GoesThroughIff(goes, s, business);
    EndRows(s, business);
  }

  // ---------------------------------------------------------------------------------------------
  // The run as it is made
  // ---------------------------------------------------------------------------------------------

  lemma NextRecord(records: seq<Key>, i: nat)
    requires i < |records|
    ensures TablesOf(records[..i + 1])
         == if records[i].table in TablesOf(records[..i]) then TablesOf(records[..i])
            else TablesOf(records[..i]) + [records[i].table]
    ensures forall t ::
      var before, added := InTable(records[..i], t), if t == records[i].table then {records[i]} else {};
      InTable(records[..i + 1], t) == before + added
  {
    assert records[..i + 1][..i] == records[..i];
    assert records[..i + 1] == records[..i] + [records[i]];
  }

  lemma NoRecords()
    ensures TablesOf([]) == []
  {}

  lemma NotYetGrouped(records: seq<Key>, table: Table)
    requires table !in TablesOf(records)
    ensures InTable(records, table) == {}
  {
    assert forall k :: k !in InTable(records, table);
  }

  /** The records grouped by table: the tables in order of first appearance, and the ids of each. */
  method GroupByTable(records: seq<Key>) returns (tables: seq<Table>, ids: map<Table, set<Key>>)
    ensures tables == TablesOf(records)
    ensures forall t :: t in ids <==> t in tables
    ensures forall t :: t in ids ==> ids[t] == InTable(records, t)
  {
    hide TablesOf, InTable;
    tables, ids := [], map[];
    NoRecords();
    for i := 0 to |records|
      invariant tables == TablesOf(records[..i])
      invariant forall t :: t in ids <==> t in tables
      invariant forall t :: t in ids ==> ids[t] == InTable(records[..i], t)
    {
      var table := records[i].table;
      NextRecord(records, i);
      if table !in ids {
        NotYetGrouped(records[..i], table);
        tables := tables + [table];
        ids := ids[table := {}];
      }
      ids := ids[table := ids[table] + {records[i]}];
    }
    assert records[..|records|] == records;
  }

  lemma GroupsAre(records: seq<Key>)
    ensures var tables := Ordered(TablesOf(records));
      && |Groups(records)| == |tables|
      && forall i :: 0 <= i < |tables| ==> Groups(records)[i] == InTable(records, tables[i])
  {}

  lemma NoStatement(rows: Rows, groups: seq<set<Key>>)
    ensures DeletedAll(rows, groups[|groups|..]) == (rows, 0)
  {}

  lemma NextStatement(rows: Rows, groups: seq<set<Key>>, i: nat)
    requires i < |groups|
    ensures DeletedAll(rows, groups[i..])
         == match Deleted(rows, groups[i])
            case None => (rows, 0)
            case Some(left) => (DeletedAll(left, groups[i + 1..]).0, DeletedAll(left, groups[i + 1..]).1 + 1)
  {
    hide Deleted;
    assert groups[i..][1..] == groups[i + 1..] && groups[i..][0] == groups[i];
  }

  function KeysOf(table: Table, ids: seq<nat>): seq<Key> {
    seq(|ids|, i requires 0 <= i < |ids| => Key(table, ids[i]))
  }

  class SeedStore {
    var rows: Rows
    var alerts: map<nat, Alert>
    var batches: seq<Batch>

    ghost function Current(): State
      reads this
    {
      State(rows, alerts, batches)
    }

    /** trackSeedRecords; false when the batch does not exist. */
    method TrackSeedRecords(batch: nat, table: Table, ids: seq<nat>) returns (ok: bool)
      modifies this`batches
      ensures ok == (ids == [] || batch < |batches|)
      ensures |batches| == |old(batches)|
      ensures forall i :: 0 <= i < |batches| ==>
        batches[i] == if i == batch then old(batches[i]).(records := old(batches[i]).records + KeysOf(table, ids))
                      else old(batches[i])
    {
      assert ids == [] ==> KeysOf(table, ids) == [];
      if ids == [] {
        return true;
      }
      if batch >= |batches| {
        return false;
      }
      batches := batches[batch := batches[batch].(records := batches[batch].records + KeysOf(table, ids))];
      return true;
    }

    /** failAt is the number of the call that breaks, its effect landed or not; beyond the last one, none breaks. */
    method DeleteAllSeedDataForBusiness(business: nat, failAt: nat, landed: bool) returns (result: Result)
      modifies this
      ensures (Current(), result) == Attempt(old(Current()), business, failAt, landed)
    {
      hide RecordsOf, TablesOf, InTable, Ordered, Groups, Deleted, DeletedAll, WithoutOrphans, OthersBatches, Landed;
      var records := RecordsOf(batches, business);
      if records == [] {
        return Removed(0, 0);
      }
      var tables, ids := GroupByTable(records);
      var ordered := Ordered(tables);
      ghost var groups := Groups(records);
      ghost var sent := groups[..Reach(groups, failAt)];
      GroupsAre(records);
      assert sent[0..] == sent;
      var i := 0;
      while i < |ordered|
        invariant 0 <= i <= |ordered| == |groups| && i <= failAt
        invariant alerts == old(alerts) && batches == old(batches)
        invariant DeletedAll(old(rows), sent).0 == DeletedAll(rows, sent[i..]).0
        invariant DeletedAll(old(rows), sent).1 == i + DeletedAll(rows, sent[i..]).1
      {
        if i == failAt {
          NoStatement(rows, sent);
          if landed {
            rows := Landed(rows, ids[ordered[i]]);
          }
          return Failed;
        }
        var left := Deleted(rows, ids[ordered[i]]);
        NextStatement(rows, sent, i);
        if left.None? {
          return Refused;
        }
        rows := left.value;
        i := i + 1;
      }
      NoStatement(rows, sent);
      if failAt != i || landed {
        alerts := WithoutOrphans(rows, business, alerts);
      }
      if failAt == i {
        return Failed;
      }
      var others := OthersBatches(batches, business);
      result := if failAt == i + 1 then Failed else Removed(|batches| - |others|, |records|);
      if failAt != i + 1 || landed {
        batches := others;
      }
    }
  }
}
