/** Grouping businesses into organizations (packages/core/src/admin/platform-organizations.ts). */
module Organizations {
  import opened Sorting
  import opened Text

  datatype Business = Business(id: string, name: string, environment: string, parentId: Option<string>)
  datatype Group = Group(root: Business, environments: seq<Business>)

  const ENVIRONMENT_ORDER: seq<string> := ["production", "development", "test", "staging", "sandbox"]

  function IndexOf(s: seq<string>, x: string): int {
    if s == [] then -1
    else if s[0] == x then 0
    else
      var i := IndexOf(s[1..], x);
      if i < 0 then -1 else i + 1
  }

  function Rank(b: Business): int { IndexOf(ENVIRONMENT_ORDER, b.environment) }

  // Grouping --------------------------------------------------------------------------------------------

  function Ids(rows: seq<Business>): set<string> { set r | r in rows :: r.id }

  /** No link, an empty link, or a link to a business that is not listed. */
  predicate IsRoot(r: Business, ids: set<string>) {
    r.parentId.None? || r.parentId.value == "" || r.parentId.value !in ids
  }

  function Roots(rows: seq<Business>, ids: set<string>): seq<Business> {
    if rows == [] then [] else (if IsRoot(rows[0], ids) then [rows[0]] else []) + Roots(rows[1..], ids)
  }

  function Children(rows: seq<Business>, id: string): seq<Business> {
    if rows == [] then [] else (if rows[0].parentId == Some(id) then [rows[0]] else []) + Children(rows[1..], id)
  }

  function GroupOf(root: Business, rows: seq<Business>): Group {
    Group(root, Sort([root] + Children(rows, root.id), Rank))
  }

  function GroupsOf(roots: seq<Business>, rows: seq<Business>): (groups: seq<Group>)
    ensures |groups| == |roots|
  {
    if roots == [] then [] else [GroupOf(roots[0], rows)] + GroupsOf(roots[1..], rows)
  }

  lemma {:induction false} GroupsAre(roots: seq<Business>, rows: seq<Business>)
    ensures forall i :: 0 <= i < |roots| ==> GroupsOf(roots, rows)[i] == GroupOf(roots[i], rows)
  {
    hide GroupOf;
    if roots != [] {
      GroupsAre(roots[1..], rows);
    }
  }

  /** `nameRank` stands for the order localeCompare gives names. */
  function GroupOrganizations(rows: seq<Business>, nameRank: string -> int): seq<Group> {
    Sort(GroupsOf(Roots(rows, Ids(rows)), rows), (g: Group) => nameRank(g.root.name))
  }

  function Find(groups: seq<Group>, id: string): Option<Group> {
    if groups == [] then None else if groups[0].root.id == id then Some(groups[0]) else Find(groups[1..], id)
  }

  function Select(rows: seq<Business>, id: string): Option<Business> {
    if rows == [] then None else if rows[0].id == id then Some(rows[0]) else Select(rows[1..], id)
  }

  function RootId(selected: Business, ids: set<string>): string {
    if selected.parentId.Some? && selected.parentId.value != "" && selected.parentId.value in ids
    then selected.parentId.value else selected.id
  }

  function Restricted(rows: seq<Business>, id: string): seq<Business> {
    if rows == [] then []
    else (if rows[0].id == id || rows[0].parentId == Some(id) then [rows[0]] else []) + Restricted(rows[1..], id)
  }

  /** The organization a business belongs to, grouped from its own rows only. */
  function GetOrganization(rows: seq<Business>, id: string, nameRank: string -> int): Option<Group> {
    match Select(rows, id)
    case None => None
    case Some(selected) =>
      var rootId := RootId(selected, Ids(rows));
      Find(GroupOrganizations(Restricted(rows, rootId), nameRank), rootId)
  }

  // ---------------------------------------------------------------------------------------------
  // Who is in a group
  // ---------------------------------------------------------------------------------------------

  /** Ids are unique and never empty. */
  ghost predicate ProperIds(rows: seq<Business>) {
    && (forall r :: r in rows ==> r.id != "")
    && forall i, j :: 0 <= i < j < |rows| ==> rows[i].id != rows[j].id
  }

  /** Every link leads to a root or to nothing. */
  ghost predicate LinksLeadToRoots(rows: seq<Business>) {
    forall r :: r in rows ==> Placed(rows, r)
  }

  /** A root, or linked to one. */
  ghost predicate Placed(rows: seq<Business>, r: Business) {
    IsRoot(r, Ids(rows)) || HasRoot(rows, r.parentId.value)
  }

  ghost predicate HasRoot(rows: seq<Business>, id: string) {
    exists p :: p in rows && p.id == id && IsRoot(p, Ids(rows))
  }

  /** All environments of all groups, counted. */
  function Listed(groups: seq<Group>): multiset<Business> {
    if groups == [] then multiset{} else multiset(groups[0].environments) + Listed(groups[1..])
  }

  lemma {:induction false} ListedInsert(g: Group, groups: seq<Group>, rank: Group -> int)
    ensures Listed(Insert(g, groups, rank)) == multiset(g.environments) + Listed(groups)
  {
    if groups == [] || rank(g) <= rank(groups[0]) {
      assert ([g] + groups)[1..] == groups;
    } else {
      ListedInsert(g, groups[1..], rank);
      var tail := Insert(g, groups[1..], rank);
      assert ([groups[0]] + tail)[1..] == tail;
    }
  }

  lemma {:induction false} ListedSorted(groups: seq<Group>, rank: Group -> int)
    ensures Listed(Sort(groups, rank)) == Listed(groups)
  {
    if groups != [] {
      ListedSorted(groups[1..], rank);
      ListedInsert(groups[0], Sort(groups[1..], rank), rank);
    }
  }

  function CountId(rows: seq<Business>, id: string): nat {
    if rows == [] then 0 else (if rows[0].id == id then 1 else 0) + CountId(rows[1..], id)
  }

  lemma {:induction false} ChildrenCount(rows: seq<Business>, id: string, r: Business)
    ensures multiset(Children(rows, id))[r] == if r.parentId == Some(id) then multiset(rows)[r] else 0
  {
    if rows != [] {
      assert rows == [rows[0]] + rows[1..];
      ChildrenCount(rows[1..], id, r);
    }
  }

  lemma {:induction false} RootsCount(rows: seq<Business>, ids: set<string>, r: Business)
    ensures multiset(Roots(rows, ids))[r] == if IsRoot(r, ids) then multiset(rows)[r] else 0
  {
    hide IsRoot;
    if rows != [] {
      assert rows == [rows[0]] + rows[1..];
      RootsCount(rows[1..], ids, r);
    }
  }

  lemma EnvironmentCount(root: Business, rows: seq<Business>, r: Business)
    ensures multiset(GroupOf(root, rows).environments)[r]
         == (if r == root then 1 else 0) + (if r.parentId == Some(root.id) then multiset(rows)[r] else 0)
  {
    hide Sort;
    ChildrenCount(rows, root.id, r);
    assert multiset([root] + Children(rows, root.id)) == multiset{root} + multiset(Children(rows, root.id));
  }

  /** A business is listed once for itself if it is a root, and once for every root its link names. */
  lemma {:induction false} ListedCount(roots: seq<Business>, rows: seq<Business>, r: Business)
    requires multiset(rows)[r] == 1
    ensures Listed(GroupsOf(roots, rows))[r]
         == multiset(roots)[r] + (if r.parentId.Some? then CountId(roots, r.parentId.value) else 0)
  {
    hide GroupOf;
    if roots != [] {
      ListedCount(roots[1..], rows, r);
      assert roots == [roots[0]] + roots[1..];
      EnvironmentCount(roots[0], rows, r);
    }
  }

  lemma {:induction false} RootsIds(rows: seq<Business>, ids: set<string>, id: string)
    requires forall i, j :: 0 <= i < j < |rows| ==> rows[i].id != rows[j].id
    ensures CountId(Roots(rows, ids), id) == if exists p :: p in rows && p.id == id && IsRoot(p, ids) then 1 else 0
  {
    hide IsRoot;
    if rows != [] {
      RootsIds(rows[1..], ids, id);
      assert rows == [rows[0]] + rows[1..];
      if rows[0].id == id && IsRoot(rows[0], ids) {
        assert rows[0] in rows;
        assert forall p :: p in rows[1..] ==> p.id != id;
        assert Roots(rows, ids)[1..] == Roots(rows[1..], ids);
      } else if IsRoot(rows[0], ids) {
        assert Roots(rows, ids)[1..] == Roots(rows[1..], ids);
      } else {
        assert Roots(rows, ids) == Roots(rows[1..], ids);
      }
    }
  }

  lemma {:induction false} OnceEach(rows: seq<Business>, r: Business)
    requires r in rows && forall i, j :: 0 <= i < j < |rows| ==> rows[i].id != rows[j].id
    ensures multiset(rows)[r] == 1
  {
    assert rows == [rows[0]] + rows[1..];
    if r == rows[0] {
      assert forall p :: p in rows[1..] ==> p.id != r.id;
    } else {
      OnceEach(rows[1..], r);
    }
  }

  /** What the order of the groups leaves open to count. */
  lemma ListedAnyOrder(rows: seq<Business>, nameRank: string -> int)
    ensures Listed(GroupOrganizations(rows, nameRank)) == Listed(GroupsOf(Roots(rows, Ids(rows)), rows))
  {
    hide Listed, GroupsOf, Roots, Ids, Sort;
    ListedSorted(GroupsOf(Roots(rows, Ids(rows)), rows), (g: Group) => nameRank(g.root.name));
  }

  lemma PlacedIff(rows: seq<Business>, r: Business)
    requires ProperIds(rows) && r in rows
    ensures var roots := Roots(rows, Ids(rows));
      multiset(roots)[r] + (if r.parentId.Some? then CountId(roots, r.parentId.value) else 0)
        == if Placed(rows, r) then 1 else 0
  {
    hide Roots, CountId;
    var ids := Ids(rows);
    OnceEach(rows, r);
    RootsCount(rows, ids, r);
    if r.parentId.Some? {
      RootsIds(rows, ids, r.parentId.value);
    }
  }

  /** How often a listed business appears over all groups: once if it is a root or its link names a root,
      never if its link names a business that is itself linked. */
  lemma AppearsOnceOrNever(rows: seq<Business>, nameRank: string -> int, r: Business)
    requires ProperIds(rows) && r in rows
    ensures Listed(GroupOrganizations(rows, nameRank))[r]
         == if Placed(rows, r) then 1 else 0
  {
    hide Listed, GroupsOf, GroupOrganizations, Roots, Ids, CountId, Placed;
    ListedAnyOrder(rows, nameRank);
    OnceEach(rows, r);
    ListedCount(Roots(rows, Ids(rows)), rows, r);
    PlacedIff(rows, r);
  }

  lemma {:induction false} UnlistedIn(roots: seq<Business>, rows: seq<Business>, r: Business)
    requires r !in rows && forall p :: p in roots ==> p in rows
    ensures Listed(GroupsOf(roots, rows))[r] == 0
  {
    hide GroupOf;
    if roots != [] {
      assert roots[0] in roots;
      EnvironmentCount(roots[0], rows, r);
      UnlistedIn(roots[1..], rows, r);
    }
  }

  lemma {:induction false} RootsAreRows(rows: seq<Business>, ids: set<string>)
    ensures forall p :: p in Roots(rows, ids) <==> p in rows && IsRoot(p, ids)
  {
    hide IsRoot;
    if rows != [] {
      assert rows == [rows[0]] + rows[1..];
      RootsAreRows(rows[1..], ids);
    }
  }

  /** The groups partition the businesses exactly when every link leads to a root or to nothing. A business
      two links below its organization is in no group. */
  lemma PartitionIffLinksLeadToRoots(rows: seq<Business>, nameRank: string -> int)
    requires ProperIds(rows)
    ensures Listed(GroupOrganizations(rows, nameRank)) == multiset(rows) <==> LinksLeadToRoots(rows)
  {
    hide Placed, GroupOrganizations;
    var all := Listed(GroupOrganizations(rows, nameRank));
    forall r | r in rows ensures all[r] == (if Placed(rows, r) then 1 else 0) && multiset(rows)[r] == 1 {
      AppearsOnceOrNever(rows, nameRank, r);
      OnceEach(rows, r);
    }
    forall r | r !in rows ensures all[r] == 0 && multiset(rows)[r] == 0 {
      StrangersAreUnlisted(rows, nameRank, r);
    }
    if LinksLeadToRoots(rows) {
      assert forall r :: all[r] == multiset(rows)[r];
    }
  }

  lemma StrangersAreUnlisted(rows: seq<Business>, nameRank: string -> int, r: Business)
    requires r !in rows
    ensures Listed(GroupOrganizations(rows, nameRank))[r] == 0
  {
    var roots := Roots(rows, Ids(rows));
    ListedSorted(GroupsOf(roots, rows), (g: Group) => nameRank(g.root.name));
    RootsAreRows(rows, Ids(rows));
    UnlistedIn(roots, rows, r);
  }

  lemma {:induction false} IndexIs(s: seq<string>, x: string)
    ensures IndexOf(s, x) == -1 <==> x !in s
    ensures -1 <= IndexOf(s, x) < |s|
    ensures IndexOf(s, x) >= 0 ==> s[IndexOf(s, x)] == x && forall i :: 0 <= i < IndexOf(s, x) ==> s[i] != x
  {
    if s != [] {
      IndexIs(s[1..], x);
      assert s == [s[0]] + s[1..];
    }
  }

  /** In a group production comes before development, that before test, then staging and then sandbox; an environment of
      no known kind comes before all of them. */
  lemma EnvironmentsInOrder(rows: seq<Business>, nameRank: string -> int, g: Group, i: nat, j: nat)
    requires g in GroupOrganizations(rows, nameRank) && i < j < |g.environments|
    ensures var order, a, b :=
      ["production", "development", "test", "staging", "sandbox"], g.environments[i].environment,
      g.environments[j].environment;
      && (b !in order ==> a !in order)
      && forall p, q :: 0 <= p < 5 && 0 <= q < 5 && a == order[p] && b == order[q] ==> p <= q
  {
    hide GroupOrganizations, IndexOf;
    GroupsAreOrdered(rows, nameRank);
    var a, b := g.environments[i], g.environments[j];
    assert Rank(a) <= Rank(b);
    IndexIs(ENVIRONMENT_ORDER, a.environment);
    IndexIs(ENVIRONMENT_ORDER, b.environment);
    EnvironmentsAreDistinct();
  }

  lemma EnvironmentsAreDistinct()
    ensures forall i, j :: 0 <= i < j < 5 ==> ENVIRONMENT_ORDER[i] != ENVIRONMENT_ORDER[j]
  {}

  /** Environments and groups come out in their display order. */
  lemma GroupsAreOrdered(rows: seq<Business>, nameRank: string -> int)
    ensures Ascending(GroupOrganizations(rows, nameRank), (g: Group) => nameRank(g.root.name))
    ensures forall g :: g in GroupOrganizations(rows, nameRank) ==>
      && g.root in rows && IsRoot(g.root, Ids(rows))
      && Ascending(g.environments, Rank)
      && multiset(g.environments) == multiset{g.root} + multiset(Children(rows, g.root.id))
  {
    hide IsRoot, Sort;
    var roots := Roots(rows, Ids(rows));
    var groups := GroupsOf(roots, rows);
    GroupsAre(roots, rows);
    var rank := (g: Group) => nameRank(g.root.name);
    SortAscending(groups, rank);
    RootsAreRows(rows, Ids(rows));
    forall g | g in GroupOrganizations(rows, nameRank)
      ensures g.root in rows && IsRoot(g.root, Ids(rows))
      ensures Ascending(g.environments, Rank)
      ensures multiset(g.environments) == multiset{g.root} + multiset(Children(rows, g.root.id))
    {
      assert g in multiset(Sort(groups, rank));
      var i :| 0 <= i < |groups| && groups[i] == g;
      SortAscending([roots[i]] + Children(rows, roots[i].id), Rank);
    }
  }

  // ---------------------------------------------------------------------------------------------
  // One organization
  // ---------------------------------------------------------------------------------------------

  lemma {:induction false} FindInSome(groups: seq<Group>, g: Group)
    requires g in groups && forall h :: h in groups && h.root.id == g.root.id ==> h == g
    ensures Find(groups, g.root.id) == Some(g)
  {
    if groups[0].root.id == g.root.id {
      assert groups[0] in groups;
    } else {
      assert forall h :: h in groups[1..] ==> h in groups;
      FindInSome(groups[1..], g);
    }
  }

  lemma GroupKeepsRoot(rows: seq<Business>)
    ensures forall r :: GroupOf(r, rows).root == r
  {}

  /** A root's group is found under its id. */
  lemma RootIsFound(rows: seq<Business>, nameRank: string -> int, root: Business)
    requires root in rows && IsRoot(root, Ids(rows))
    requires forall p :: p in rows && p.id == root.id ==> p == root
    ensures Find(GroupOrganizations(rows, nameRank), root.id) == Some(GroupOf(root, rows))
  {
    hide IsRoot, GroupOf, Sort;
    var roots := Roots(rows, Ids(rows));
    var groups := GroupsOf(roots, rows);
    GroupsAre(roots, rows);
    var rank := (g: Group) => nameRank(g.root.name);
    GroupKeepsRoot(rows);
    var sorted := Sort(groups, rank);
    RootsAreRows(rows, Ids(rows));
    var g := GroupOf(root, rows);
    var i :| 0 <= i < |roots| && roots[i] == root;
    assert groups[i] == g;
    assert g in multiset(sorted) && g in sorted;
    forall h | h in sorted && h.root.id == root.id ensures h == g {
      assert h in multiset(sorted) && h in groups;
      var j :| 0 <= j < |groups| && groups[j] == h;
      assert roots[j] in roots && roots[j] == root;
    }
    FindInSome(sorted, g);
  }

  lemma {:induction false} RestrictedRows(rows: seq<Business>, id: string)
    ensures forall r :: r in Restricted(rows, id) <==> r in rows && (r.id == id || r.parentId == Some(id))
    ensures Children(Restricted(rows, id), id) == Children(rows, id)
  {
    if rows != [] {
      assert rows == [rows[0]] + rows[1..];
      RestrictedRows(rows[1..], id);
      if rows[0].id == id || rows[0].parentId == Some(id) {
        assert Restricted(rows, id)[1..] == Restricted(rows[1..], id);
      } else {
        assert Restricted(rows, id) == Restricted(rows[1..], id);
      }
    }
  }

  lemma {:induction false} SelectMeaning(rows: seq<Business>, id: string)
    ensures Select(rows, id).Some? <==> id in Ids(rows)
    ensures Select(rows, id).Some? ==> Select(rows, id).value in rows && Select(rows, id).value.id == id
  {
    if rows != [] {
      assert rows == [rows[0]] + rows[1..];
      SelectMeaning(rows[1..], id);
    }
  }

  lemma {:induction false} FindNone(groups: seq<Group>, id: string)
    requires forall g :: g in groups ==> g.root.id != id
    ensures Find(groups, id).None?
  {
    if groups != [] {
      assert groups[0] in groups;
      FindNone(groups[1..], id);
    }
  }

  lemma PlacedIsItsGroup(rows: seq<Business>, nameRank: string -> int, selected: Business)
    requires ProperIds(rows) && selected in rows && Placed(rows, selected)
    ensures var rootId := RootId(selected, Ids(rows));
      var group := Find(GroupOrganizations(Restricted(rows, rootId), nameRank), rootId);
      && group == Find(GroupOrganizations(rows, nameRank), rootId)
      && group.Some? && selected in group.value.environments
  {
    var ids := Ids(rows);
    var rootId := RootId(selected, ids);
    var root: Business;
    if IsRoot(selected, ids) {
      root := selected;
    } else {
      assert HasRoot(rows, selected.parentId.value);
      root :| root in rows && root.id == selected.parentId.value && IsRoot(root, ids);
    }
    assert root.id == rootId;
    forall p | p in rows && p.id == root.id ensures p == root {}
    RootIsFound(rows, nameRank, root);
    var own := Restricted(rows, rootId);
    RestrictedRows(rows, rootId);
    assert Ids(own) <= ids;
    RootIsFound(own, nameRank, root);
    assert GroupOf(root, own) == GroupOf(root, rows);
    ChildrenCount(rows, rootId, selected);
    var g := GroupOf(root, rows);
    assert multiset(g.environments) == multiset{root} + multiset(Children(rows, rootId));
    OnceEach(rows, selected);
    assert selected in multiset(g.environments);
  }

  lemma UnplacedHasNoGroup(rows: seq<Business>, nameRank: string -> int, selected: Business)
    requires ProperIds(rows) && selected in rows && !Placed(rows, selected)
    ensures Find(GroupOrganizations(rows, nameRank), RootId(selected, Ids(rows))).None?
  {
    hide GroupOrganizations;
    GroupsAreOrdered(rows, nameRank);
    var groups, rootId := GroupOrganizations(rows, nameRank), RootId(selected, Ids(rows));
    assert rootId == selected.parentId.value && !HasRoot(rows, rootId);
    forall g | g in groups ensures g.root.id != rootId {
      assert g.root in rows && IsRoot(g.root, Ids(rows));
    }
    FindNone(groups, rootId);
  }

  /** Asking for one business gives the very group that grouping all businesses gives its organization if and only if
      that business is a root or linked to one; the group then holds it. Otherwise the list of all groups has none
      under that organization's id. */
  lemma OneOrganizationIsItsGroup(rows: seq<Business>, nameRank: string -> int, id: string)
    requires ProperIds(rows) && id in Ids(rows)
    ensures Select(rows, id).Some?
    ensures var selected, group := Select(rows, id).value, GetOrganization(rows, id, nameRank);
      var listed := Find(GroupOrganizations(rows, nameRank), RootId(selected, Ids(rows)));
      && (Placed(rows, selected) <==> group.Some? && group == listed)
      && (Placed(rows, selected) ==> group.Some? && selected in group.value.environments)
      && (!Placed(rows, selected) ==> listed.None?)
  {
    hide GroupOrganizations, Placed;
    SelectMeaning(rows, id);
    var selected := Select(rows, id).value;
    if Placed(rows, selected) {
      PlacedIsItsGroup(rows, nameRank, selected);
    } else {
      UnplacedHasNoGroup(rows, nameRank, selected);
    }
  }
}
