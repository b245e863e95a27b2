/** The AI usage list (packages/core/src/admin/platform-ai-usage.ts): a bounded fetch from each of two ledgers,
    merged, sorted and cut. */
module AiUsage {
  import opened Text
  import opened Paging

  datatype CoreRow = CoreRow(id: string, businessId: string, operation: string, createdAt: int)
  datatype DiscoveryRow = DiscoveryRow(id: string, workspaceId: string, operation: string, createdAt: int)
  datatype Ledger = Core | Discovery

  datatype Run = Run(
    id: string, source: Ledger, operation: string, moduleKey: Option<string>,
    businessId: Option<string>, businessName: Option<string>, createdAt: int)

  /** The lookups that label rows: business names, and the business a workspace belongs to. */
  datatype Directory = Directory(nameOf: map<string, string>, businessOf: map<string, string>)

  function Lookup(m: map<string, string>, key: string): Option<string> {
    if key in m then Some(m[key]) else None
  }

  const CRM_OPERATIONS: seq<string> := [
    "summarize_customer", "summarize_conversation", "check_response_quality",
    "draft_review_response", "draft_customer_reply", "auto_send_customer_reply"]

  function FromCore(row: CoreRow, dir: Directory): Run {
    Run(row.id, Core, row.operation, if row.operation in CRM_OPERATIONS then Some("crm") else None,
        Some(row.businessId), Lookup(dir.nameOf, row.businessId), row.createdAt)
  }

  /** A workspace whose business cannot be resolved leaves both business fields empty. */
  function FromDiscovery(row: DiscoveryRow, dir: Directory): Run {
    var business := Lookup(dir.businessOf, row.workspaceId);
    var name := if business.Some? then Lookup(dir.nameOf, business.value) else None;
    Run(row.id, Discovery, row.operation, Some("discovery"),
        if name.Some? then business else None, name, row.createdAt)
  }

  /** Every run of both ledgers, labelled. */
  function AllRuns(core: seq<CoreRow>, discovery: seq<DiscoveryRow>, dir: Directory): seq<Run> {
    Map(core, (r: CoreRow) => FromCore(r, dir)) + Map(discovery, (r: DiscoveryRow) => FromDiscovery(r, dir))
  }

  /** A run of the core ledger names its business, and the business's name when there is one; it belongs to the CRM
      exactly when its operation is one of the CRM's. */
  predicate SaysCore(run: Run, row: CoreRow, dir: Directory) {
    && run.id == row.id && run.operation == row.operation && run.createdAt == row.createdAt
    && run.businessId == Some(row.businessId)
    && (run.businessName.Some? <==> row.businessId in dir.nameOf)
    && (run.businessName.Some? ==> run.businessName.value == dir.nameOf[row.businessId])
    && (run.moduleKey == Some("crm") <==> row.operation in CRM_OPERATIONS)
    && (run.moduleKey != Some("crm") ==> run.moduleKey.None?)
  }

  /** A run of the discovery ledger belongs to discovery, and names the business of its workspace exactly when that has
      a name, and then with it. */
  predicate SaysDiscovery(run: Run, row: DiscoveryRow, dir: Directory) {
    && run.id == row.id && run.operation == row.operation && run.createdAt == row.createdAt
    && run.moduleKey == Some("discovery")
    && (run.businessId.Some? <==> run.businessName.Some?)
    && (run.businessId.Some? <==> row.workspaceId in dir.businessOf && dir.businessOf[row.workspaceId] in dir.nameOf)
    && (run.businessId.Some? ==>
          && run.businessId.value == dir.businessOf[row.workspaceId]
          && run.businessName.value == dir.nameOf[run.businessId.value])
  }

  /** What a listed run says of its row. */
  lemma LabelsMean(core: seq<CoreRow>, discovery: seq<DiscoveryRow>, dir: Directory, run: Run)
    requires run in AllRuns(core, discovery, dir)
    ensures run.source == Core ==> exists row :: row in core && SaysCore(run, row, dir)
    ensures run.source == Discovery ==> exists row :: row in discovery && SaysDiscovery(run, row, dir)
  {
    hide CRM_OPERATIONS, Map;
    var cores, discoveries :=
      Map(core, (r: CoreRow) => FromCore(r, dir)), Map(discovery, (r: DiscoveryRow) => FromDiscovery(r, dir));
    if run in cores {
      var i :| 0 <= i < |core| && cores[i] == run;
      assert core[i] in core && run == FromCore(core[i], dir);
    } else {
      var i :| 0 <= i < |discovery| && discoveries[i] == run;
      assert discovery[i] in discovery && run == FromDiscovery(discovery[i], dir);
    }
  }

  function At(run: Run): int { run.createdAt }

  /** A database query: newest first, at most `limit` rows. */
  method Fetch<T(!new)>(ledger: seq<T>, at: T -> int, limit: nat) returns (rows: seq<T>)
    ensures Page(rows, ledger, at, limit)
  {
    rows := Sort(ledger, at)[..Min(limit, |ledger|)];
    SortIsPage(ledger, at, limit);
  }

  /** The list is a newest-`limit` page of all runs of both ledgers. */
  method ListAiUsage(core: seq<CoreRow>, discovery: seq<DiscoveryRow>, dir: Directory, limit: nat := 100)
    returns (page: seq<Run>)
    ensures Page(page, AllRuns(core, discovery, dir), At, limit)
    ensures |page| == Min(limit, |core| + |discovery|)
  {
    hide Page, Sort;
    var coreRows := Fetch(core, (r: CoreRow) => r.createdAt, limit);
    var discoveryRows := Fetch(discovery, (r: DiscoveryRow) => r.createdAt, limit);
    var fromCore, fromDiscovery := (r: CoreRow) => FromCore(r, dir), (r: DiscoveryRow) => FromDiscovery(r, dir);
    var coreRuns, discoveryRuns := Map(coreRows, fromCore), Map(discoveryRows, fromDiscovery);
    var merged := coreRuns + discoveryRuns;
    page := Sort(merged, At);
    page := page[..Min(limit, |merged|)];
    SortIsPage(merged, At, limit);
    MappedPage(coreRows, core, (r: CoreRow) => r.createdAt, fromCore, At, limit);
    MappedPage(discoveryRows, discovery, (r: DiscoveryRow) => r.createdAt, fromDiscovery, At, limit);
    MergedPage(page, coreRuns, discoveryRuns, Map(core, fromCore), Map(discovery, fromDiscovery), At, limit);
    PageIsNewest(page, Map(core, fromCore) + Map(discovery, fromDiscovery), At, limit);
  }

  /** No run left out is strictly newer than a run returned. */
  lemma NoNewerRunOmitted(page: seq<Run>, all: seq<Run>, limit: nat, omitted: Run, shown: Run)
    requires Page(page, all, At, limit)
    requires omitted in multiset(all) - multiset(page) && shown in page
    ensures omitted.createdAt <= shown.createdAt
  {
    PageIsNewest(page, all, At, limit);
  }
}
