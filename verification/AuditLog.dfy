/** Audit search (packages/core/src/admin/platform-audit-log.ts, platform-audit-log-types.ts): querying only the
    source a filter names must give what merging every source and filtering would give. */
module AuditLog {
  import opened Text
  import opened Paging

  const NEW_RESOURCE_TYPES: seq<string> := [
    "compliance_country", "compliance_pack", "compliance_pack_feature", "plan_feature", "plan_limit",
    "plan_module", "ai_operation_switch", "business_override", "legal_document", "organization",
    "business_environment", "business_address", "business_status", "business_notes", "organization_plan",
    "organization_profile"]

  const LEGACY_RESOURCE_TYPES: seq<string> := [
    "plan", "feature_flag", "announcement", "system_policies", "ai_provider", "ai_provider_routing",
    "ai_feature_policies", "email_provider", "email_template", "integration", "module_status"]

  datatype Entry = Entry(
    id: string, resourceType: string, severity: string, performedBy: Option<string>, action: string,
    performedAt: int)

  /** One row of a resource type's own event table. */
  datatype Event = Event(eventId: string, severity: string, performedBy: Option<string>, action: string,
                         performedAt: int)

  datatype Filters = Filters(
    resourceType: Option<string>, severity: Option<string>, actorId: Option<string>, action: Option<string>,
    dateFrom: Option<int>, dateTo: Option<int>)

  /** An absent or empty text filter asks for nothing. */
  predicate Asks(filter: Option<string>) { filter.Some? && filter.value != "" }

  predicate Matches(e: Entry, f: Filters) {
    && (Asks(f.resourceType) ==> e.resourceType == f.resourceType.value)
    && (Asks(f.severity) ==> e.severity == f.severity.value)
    && (Asks(f.actorId) ==> e.performedBy == f.actorId)
    && (Asks(f.action) ==> e.action == f.action.value)
    && (f.dateFrom.Some? ==> e.performedAt >= f.dateFrom.value)
    && (f.dateTo.Some? ==> e.performedAt <= f.dateTo.value)
  }

  function Filter(entries: seq<Entry>, f: Filters): seq<Entry> {
    if entries == [] then []
    else (if Matches(entries[0], f) then [entries[0]] else []) + Filter(entries[1..], f)
  }

  // Sources -----------------------------------------------------------------------------------------

  /** The rows of the unified log whose type the search knows. */
  function NewEntries(log: seq<Entry>): seq<Entry> {
    if log == [] then []
    else (if log[0].resourceType in NEW_RESOURCE_TYPES then [log[0]] else []) + NewEntries(log[1..])
  }

  function LegacyEntry(resourceType: string, e: Event): Entry {
    Entry("legacy:" + resourceType + ":" + e.eventId, resourceType, e.severity, e.performedBy, e.action,
          e.performedAt)
  }

  function LegacyEntries(resourceType: string, history: map<string, seq<Event>>): seq<Entry> {
    if resourceType in history then Map(history[resourceType], (e: Event) => LegacyEntry(resourceType, e)) else []
  }

  function AllLegacy(types: seq<string>, history: map<string, seq<Event>>): seq<Entry> {
    if types == [] then [] else LegacyEntries(types[0], history) + AllLegacy(types[1..], history)
  }

  function Only(types: seq<string>, wanted: string): seq<string> {
    if types == [] then [] else (if types[0] == wanted then [types[0]] else []) + Only(types[1..], wanted)
  }

  /** Every source merged, then filtered. */
  function FullResult(log: seq<Entry>, history: map<string, seq<Event>>, f: Filters): seq<Entry> {
    Filter(NewEntries(log) + AllLegacy(LEGACY_RESOURCE_TYPES, history), f)
  }

  /** Only the sources the resource-type filter can match, then filtered. */
  function NarrowedResult(log: seq<Entry>, history: map<string, seq<Event>>, f: Filters): seq<Entry> {
    var named := Asks(f.resourceType);
    var wantsNew := !named || f.resourceType.value in NEW_RESOURCE_TYPES;
    var wantsLegacy := !named || f.resourceType.value in LEGACY_RESOURCE_TYPES;
    var legacyTypes := if named then Only(LEGACY_RESOURCE_TYPES, f.resourceType.value) else LEGACY_RESOURCE_TYPES;
    Filter((if wantsNew then NewEntries(log) else [])
           + (if wantsLegacy then AllLegacy(legacyTypes, history) else []), f)
  }

  // ---------------------------------------------------------------------------------------------
  // Narrowing loses and adds nothing
  // ---------------------------------------------------------------------------------------------

  lemma {:induction false} FilterAppend(a: seq<Entry>, b: seq<Entry>, f: Filters)
    ensures Filter(a + b, f) == Filter(a, f) + Filter(b, f)
  {
    hide Matches;
    if a == [] {
      assert a + b == b;
    } else {
      assert (a + b)[1..] == a[1..] + b;
      FilterAppend(a[1..], b, f);
    }
  }

  lemma {:induction false} FilterNone(entries: seq<Entry>, f: Filters)
    requires Asks(f.resourceType)
    requires forall e :: e in entries ==> e.resourceType != f.resourceType.value
    ensures Filter(entries, f) == []
  {
    if entries != [] {
      assert entries[0] in entries && forall e :: e in entries[1..] ==> e in entries;
      FilterNone(entries[1..], f);
    }
  }

  lemma {:induction false} NewEntriesTypes(log: seq<Entry>)
    ensures forall e :: e in NewEntries(log) <==> e in log && e.resourceType in NEW_RESOURCE_TYPES
  {
    hide NEW_RESOURCE_TYPES;
    if log != [] {
      assert log == [log[0]] + log[1..];
      NewEntriesTypes(log[1..]);
    }
  }

  lemma LegacyEntriesTypes(t: string, history: map<string, seq<Event>>)
    ensures forall e :: e in LegacyEntries(t, history) ==> e.resourceType == t
  {}

  /** Dropping the event tables of other types changes nothing once the filter names one type. */
  lemma {:induction false} LegacyNarrowed(types: seq<string>, history: map<string, seq<Event>>, f: Filters)
    requires Asks(f.resourceType)
    ensures Filter(AllLegacy(types, history), f)
         == Filter(AllLegacy(Only(types, f.resourceType.value), history), f)
  {
    hide Matches, LegacyEntries;
    if types != [] {
      var t, wanted := types[0], f.resourceType.value;
      LegacyNarrowed(types[1..], history, f);
      FilterAppend(LegacyEntries(t, history), AllLegacy(types[1..], history), f);
      if t == wanted {
        var rest := Only(types[1..], wanted);
        assert Only(types, wanted) == [t] + rest;
        assert ([t] + rest)[1..] == rest;
        FilterAppend(LegacyEntries(t, history), AllLegacy(rest, history), f);
      } else {
        LegacyEntriesTypes(t, history);
        FilterNone(LegacyEntries(t, history), f);
        assert Only(types, wanted) == Only(types[1..], wanted);
      }
    }
  }

  lemma {:induction false} OnlyNone(types: seq<string>, wanted: string)
    requires wanted !in types
    ensures Only(types, wanted) == []
  {
    if types != [] { OnlyNone(types[1..], wanted); }
  }

  /** For every filter, whichever list its type is on or neither, the narrowed search keeps exactly the
      entries the full search keeps. */
  lemma NarrowedIsFull(log: seq<Entry>, history: map<string, seq<Event>>, f: Filters)
    ensures NarrowedResult(log, history, f) == FullResult(log, history, f)
  {
    hide Matches, LEGACY_RESOURCE_TYPES, NEW_RESOURCE_TYPES, Filter, AllLegacy, NewEntries;
    if Asks(f.resourceType) {
      var wanted, types := f.resourceType.value, LEGACY_RESOURCE_TYPES;
      FilterAppend(NewEntries(log), AllLegacy(types, history), f);
      LegacyNarrowed(types, history, f);
      NothingToFilter(history, f);
      if wanted !in NEW_RESOURCE_TYPES {
        NewEntriesTypes(log);
        FilterNone(NewEntries(log), f);
      }
      if wanted !in types { OnlyNone(types, wanted); }
      var new' := if wanted in NEW_RESOURCE_TYPES then NewEntries(log) else [];
      var legacy := if wanted in types then AllLegacy(Only(types, wanted), history) else [];
      FilterAppend(new', legacy, f);
    }
  }

  lemma NothingToFilter(history: map<string, seq<Event>>, f: Filters)
    ensures Filter([], f) == [] && AllLegacy([], history) == []
  {}

  function At(e: Entry): int { e.performedAt }

  /** A newest-`limit` page of the full, filtered merge, though only the named source was queried. */
  method SearchPlatformAuditLog(log: seq<Entry>, history: map<string, seq<Event>>, f: Filters, limit: nat := 100)
    returns (page: seq<Entry>)
    ensures Page(page, FullResult(log, history, f), At, limit)
    ensures Newest(page, FullResult(log, history, f), At, limit)
  {
    hide FullResult, NarrowedResult;
    var merged := NarrowedResult(log, history, f);
    page := Sort(merged, At);
    page := page[..Min(limit, |merged|)];
    SortIsPage(merged, At, limit);
    NarrowedIsFull(log, history, f);
    PageIsNewest(page, FullResult(log, history, f), At, limit);
  }

  // ---------------------------------------------------------------------------------------------
  // What the search can see
  // ---------------------------------------------------------------------------------------------

  lemma {:induction false} FilterKeeps(entries: seq<Entry>, f: Filters)
    ensures forall e :: e in Filter(entries, f) <==> e in entries && Matches(e, f)
  {
    hide Matches;
    if entries != [] {
      assert entries == [entries[0]] + entries[1..];
      FilterKeeps(entries[1..], f);
    }
  }

  /** The entry shows an event of its type's own table, under an id that names both. */
  predicate InEventTable(e: Entry, history: map<string, seq<Event>>) {
    && e.resourceType in history
    && exists x :: x in history[e.resourceType] && Shows(e, x)
  }

  predicate Shows(e: Entry, x: Event) {
    && e.id == "legacy:" + e.resourceType + ":" + x.eventId && e.severity == x.severity
    && e.performedBy == x.performedBy && e.action == x.action && e.performedAt == x.performedAt
  }

  lemma {:induction false} MapHolds(t: string, events: seq<Event>, e: Entry)
    ensures e in Map(events, (x: Event) => LegacyEntry(t, x)) <==> exists x :: x in events && LegacyEntry(t, x) == e
  {
    hide LegacyEntry;
    if events != [] {
      MapHolds(t, events[1..], e);
      assert events == [events[0]] + events[1..];
    }
  }

  lemma ShowsIff(e: Entry, x: Event)
    ensures Shows(e, x) <==> LegacyEntry(e.resourceType, x) == e
  {}

  lemma LegacyEntriesHold(t: string, history: map<string, seq<Event>>, e: Entry)
    ensures e in LegacyEntries(t, history) <==> e.resourceType == t && InEventTable(e, history)
  {
    hide LegacyEntry, Shows;
    if t in history {
      MapHolds(t, history[t], e);
      forall x ensures Shows(e, x) <==> LegacyEntry(e.resourceType, x) == e {
        ShowsIff(e, x);
      }
      if e.resourceType != t { LegacyEntriesTypes(t, history); }
    }
  }

  lemma {:induction false} AllLegacyHolds(types: seq<string>, history: map<string, seq<Event>>, e: Entry)
    ensures e in AllLegacy(types, history) <==> e.resourceType in types && InEventTable(e, history)
  {
    hide LegacyEntries, InEventTable;
    if types != [] {
      LegacyEntriesHold(types[0], history, e);
      AllLegacyHolds(types[1..], history, e);
      assert types == [types[0]] + types[1..];
    }
  }

  /** What the search finds, exactly: of the entries that have everything the filters ask for, the rows of the unified
      log whose type it reads there and the entries of the event tables of the types it reads there. A filter that is
      absent or empty asks for nothing. */
  lemma FoundIff(log: seq<Entry>, history: map<string, seq<Event>>, f: Filters, e: Entry)
    ensures e in FullResult(log, history, f) <==>
      && (f.resourceType == None || f.resourceType == Some("") || f.resourceType == Some(e.resourceType))
      && (f.severity == None || f.severity == Some("") || f.severity == Some(e.severity))
      && (f.actorId == None || f.actorId == Some("") || f.actorId == e.performedBy)
      && (f.action == None || f.action == Some("") || f.action == Some(e.action))
      && (f.dateFrom.Some? ==> f.dateFrom.value <= e.performedAt)
      && (f.dateTo.Some? ==> e.performedAt <= f.dateTo.value)
      && (|| (e in log && e.resourceType in NEW_RESOURCE_TYPES)
          || (e.resourceType in LEGACY_RESOURCE_TYPES && InEventTable(e, history)))
  {
    hide LEGACY_RESOURCE_TYPES, NEW_RESOURCE_TYPES, AllLegacy, NewEntries, Filter, InEventTable;
    NewEntriesTypes(log);
    AllLegacyHolds(LEGACY_RESOURCE_TYPES, history, e);
    FilterKeeps(NewEntries(log) + AllLegacy(LEGACY_RESOURCE_TYPES, history), f);
  }

  lemma NoTypeIsReadTwice(t: string)
    requires t in LEGACY_RESOURCE_TYPES
    ensures t !in NEW_RESOURCE_TYPES
  {}

  /** So a matching row of the unified log whose type has no event table of its own is found exactly when its type
      is one of those the search reads from that log (rows of any other type, such as the plan_price rows the price
      trigger writes, never are), and an entry of a type with an event table exactly when that table holds it. */
  lemma FoundIffTypeIsRead(log: seq<Entry>, history: map<string, seq<Event>>, f: Filters, row: Entry)
    requires Matches(row, f)
    ensures row in log && row.resourceType !in LEGACY_RESOURCE_TYPES ==>
      (row in FullResult(log, history, f) <==> row.resourceType in NEW_RESOURCE_TYPES)
    ensures row.resourceType in LEGACY_RESOURCE_TYPES ==>
      (row in FullResult(log, history, f) <==> InEventTable(row, history))
  {
    hide LEGACY_RESOURCE_TYPES, NEW_RESOURCE_TYPES, FullResult, InEventTable;
    FoundIff(log, history, f, row);
    if row.resourceType in LEGACY_RESOURCE_TYPES {
      NoTypeIsReadTwice(row.resourceType);
    }
  }

  /** A filter that names a type in neither list finds nothing, whatever the log and the event tables hold. */
  lemma UnlistedTypeIsNeverFound(log: seq<Entry>, history: map<string, seq<Event>>, f: Filters)
    requires Asks(f.resourceType)
    requires f.resourceType.value !in NEW_RESOURCE_TYPES && f.resourceType.value !in LEGACY_RESOURCE_TYPES
    ensures FullResult(log, history, f) == []
  {
    hide NEW_RESOURCE_TYPES, LEGACY_RESOURCE_TYPES, AllLegacy, NewEntries, Filter, Matches;
    NewEntriesTypes(log);
    forall e | e in AllLegacy(LEGACY_RESOURCE_TYPES, history) ensures e.resourceType in LEGACY_RESOURCE_TYPES {
      AllLegacyHolds(LEGACY_RESOURCE_TYPES, history, e);
    }
    FilterNone(NewEntries(log) + AllLegacy(LEGACY_RESOURCE_TYPES, history), f);
  }

  /** The types offered as filters whose rows are never read. */
  const NEVER_READ: seq<string> := ["plan_price", "billing_provider", "billing_settings"]

  /** Every type offered as a filter. */
  const OFFERED: seq<string> := [
    "compliance_country", "compliance_pack", "compliance_pack_feature", "plan_feature", "plan_limit", "plan_module",
    "plan", "plan_price", "ai_operation_switch", "business_override", "legal_document", "organization",
    "business_environment", "business_address", "business_status", "business_notes", "organization_plan",
    "organization_profile", "billing_provider", "billing_settings", "feature_flag", "announcement", "system_policies",
    "ai_provider", "ai_provider_routing", "ai_feature_policies", "email_provider", "email_template", "integration",
    "module_status"]

  predicate Searched(t: string) { t in NEW_RESOURCE_TYPES || t in LEGACY_RESOURCE_TYPES }

  lemma OfferedAreSearched(t: string)
    requires t in OFFERED && t !in NEVER_READ
    ensures Searched(t)
  {}

  lemma SearchedAreOffered(t: string)
    requires Searched(t)
    ensures t in OFFERED
  {}

  /** The types the search reads are exactly those it offers but three. */
  lemma OfferedIsSearchedIff(t: string)
    ensures Searched(t) <==> t in OFFERED && t !in NEVER_READ
  {
    hide Searched, OFFERED;
    if Searched(t) {
      SearchedAreOffered(t);
      NeverReadAreNotSearched();
    } else if t in OFFERED && t !in NEVER_READ {
      OfferedAreSearched(t);
    }
  }

  lemma NeverReadAreNotSearched()
    ensures forall t :: t in NEVER_READ ==> !Searched(t)
  {
    hide NEW_RESOURCE_TYPES, LEGACY_RESOURCE_TYPES;
    PlanPriceIsUnlisted();
    BillingProviderIsUnlisted();
    BillingSettingsAreUnlisted();
  }

  lemma PlanPriceIsUnlisted()
    ensures "plan_price" !in NEW_RESOURCE_TYPES && "plan_price" !in LEGACY_RESOURCE_TYPES
  {}

  lemma BillingProviderIsUnlisted()
    ensures "billing_provider" !in NEW_RESOURCE_TYPES && "billing_provider" !in LEGACY_RESOURCE_TYPES
  {}

  lemma BillingSettingsAreUnlisted()
    ensures "billing_settings" !in NEW_RESOURCE_TYPES && "billing_settings" !in LEGACY_RESOURCE_TYPES
  {}

  /** Filtering by one of these three finds nothing, whatever else the filter says. */
  lemma NeverReadTypesAreNeverFound(log: seq<Entry>, history: map<string, seq<Event>>, f: Filters)
    requires f.resourceType.Some? && f.resourceType.value in NEVER_READ
    ensures FullResult(log, history, f) == []
  {
    hide FullResult, NEW_RESOURCE_TYPES, LEGACY_RESOURCE_TYPES;
    PlanPriceIsUnlisted();
    BillingProviderIsUnlisted();
    BillingSettingsAreUnlisted();
    UnlistedTypeIsNeverFound(log, history, f);
  }
}
