/** The field-by-field comparison of two snapshots: packages/core/src/admin/config-history-diff.ts. */
module ConfigDiff {
  import opened Text
  import opened Json
  import Decimal
  import opened FeatureRollout
  import opened SnapshotForms
  import opened ConfigHistory
  import ConfigRuns

  /** A snapshot's fields, or no snapshot at all. */
  type MaybeSnapshot = Option<seq<Member>>

  datatype FieldDiff = FieldDiff(field: string, before: Value, after: Value)

  const IGNORED: set<string> := {"updated_at", "updated_by", "created_at"}

  function Keys(entries: seq<Member>): (keys: seq<string>)
    ensures |keys| == |entries| && forall i :: 0 <= i < |keys| ==> keys[i] == entries[i].key
  {
    seq(|entries|, i requires 0 <= i < |entries| => entries[i].key)
  }

  function KeysOf(s: MaybeSnapshot): seq<string> { Keys(s.GetOr([])) }

  lemma {:induction false} FieldIsThere(entries: seq<Member>, key: string)
    ensures var v := Field(entries, key);
      (v.Some? <==> key in Keys(entries)) && (v.Some? ==> Member(key, v.value) in entries)
  {
    if entries != [] && entries[0].key != key {
      FieldIsThere(entries[1..], key);
      assert Keys(entries) == [entries[0].key] + Keys(entries[1..]);
    }
  }

  /** The value of a field; None when it is missing. */
  function At(s: MaybeSnapshot, key: string): Option<Value> { Field(s.GetOr([]), key) }

  /** JSON.stringify of a field; a missing one has no text. */
  function FieldText(v: Option<Value>): Option<string> {
    if v.Some? then Some(Stringify(v.value)) else None
  }

  predicate Listed(before: MaybeSnapshot, after: MaybeSnapshot, field: string) {
    field !in IGNORED && FieldText(At(before, field)) != FieldText(At(after, field))
  }

  function Entry(before: MaybeSnapshot, after: MaybeSnapshot, field: string): FieldDiff {
    FieldDiff(field, At(before, field).GetOr(Null), At(after, field).GetOr(Null))
  }

  function DiffsAmong(before: MaybeSnapshot, after: MaybeSnapshot, fields: seq<string>): seq<FieldDiff> {
    if fields == [] then []
    else
      DiffsAmong(before, after, fields[..|fields| - 1])
      + (if Listed(before, after, fields[|fields| - 1]) then [Entry(before, after, fields[|fields| - 1])] else [])
  }

  function Fields(before: MaybeSnapshot, after: MaybeSnapshot): seq<string> {
    Dedupe(KeysOf(before) + KeysOf(after))
  }

  function Diffs(before: MaybeSnapshot, after: MaybeSnapshot): seq<FieldDiff> {
    DiffsAmong(before, after, Fields(before, after))
  }

  method DiffSnapshotFields(before: MaybeSnapshot, after: MaybeSnapshot) returns (diffs: seq<FieldDiff>)
    ensures diffs == Diffs(before, after)
  {
    hide Field, Stringify, Dedupe;
    var fields := Dedupe(KeysOf(before) + KeysOf(after));
    diffs := [];
    for i := 0 to |fields|
      invariant diffs == DiffsAmong(before, after, fields[..i])
    {
      var field := fields[i];
      assert fields[..i + 1][..i] == fields[..i];
      if field in IGNORED {
        continue;
      }
      var b, a := At(before, field), At(after, field);
      if FieldText(b) != FieldText(a) {
        diffs := diffs + [FieldDiff(field, b.GetOr(Null), a.GetOr(Null))];
      }
    }
    assert fields[..|fields|] == fields;
  }

  predicate WellFormedSnapshot(s: MaybeSnapshot) {
    forall e :: e in s.GetOr([]) ==> WellFormed(e.value)
  }

  /** Two fields have the same text exactly when they are equal, a missing one being equal to no value. */
  lemma SameTextIffSame(before: MaybeSnapshot, after: MaybeSnapshot, field: string)
    requires WellFormedSnapshot(before) && WellFormedSnapshot(after)
    ensures FieldText(At(before, field)) == FieldText(At(after, field)) <==> At(before, field) == At(after, field)
  {
    hide Stringify, WellFormed;
    var b, a := At(before, field), At(after, field);
    FieldIsThere(before.GetOr([]), field);
    FieldIsThere(after.GetOr([]), field);
    if b.Some? && a.Some? {
      StringifyInjective(b.value, a.value);
    }
  }

  predicate Distinct(s: seq<string>) { forall i, j :: 0 <= i < j < |s| ==> s[i] != s[j] }

  lemma {:induction false} DiffsAmongAre(before: MaybeSnapshot, after: MaybeSnapshot, fields: seq<string>)
    requires Distinct(fields)
    ensures var diffs := DiffsAmong(before, after, fields);
      && (forall d :: d in diffs <==> d.field in fields && Listed(before, after, d.field)
                                      && d == Entry(before, after, d.field))
      && forall i, j :: 0 <= i < j < |diffs| ==> diffs[i].field != diffs[j].field
  {
    hide Listed, Entry;
    if fields != [] {
      var n := |fields| - 1;
      DiffsAmongAre(before, after, fields[..n]);
      assert fields == fields[..n] + [fields[n]];
      var front := DiffsAmong(before, after, fields[..n]);
      EntryField(before, after, fields[n]);
      forall i | 0 <= i < |front| ensures front[i].field != fields[n] {
        assert front[i] in front;
      }
    }
  }

  lemma EntryField(before: MaybeSnapshot, after: MaybeSnapshot, field: string)
    ensures Entry(before, after, field).field == field
  {}

  lemma ListedIsKnown(before: MaybeSnapshot, after: MaybeSnapshot, field: string)
    requires Listed(before, after, field)
    ensures field in Fields(before, after)
  {
    hide Stringify, Dedupe, Keys, Field;
    FieldIsThere(before.GetOr([]), field);
    FieldIsThere(after.GetOr([]), field);
  }

  /** Every non-ignored field on which the snapshots differ is listed exactly once, with both its values, a
      missing one shown as null; and nothing else is listed. */
  lemma EachDifferenceOnce(before: MaybeSnapshot, after: MaybeSnapshot)
    requires WellFormedSnapshot(before) && WellFormedSnapshot(after)
    ensures var diffs := Diffs(before, after);
      && (forall i, j :: 0 <= i < j < |diffs| ==> diffs[i].field != diffs[j].field)
      && (forall d :: d in diffs ==> d == Entry(before, after, d.field))
      && forall f :: Entry(before, after, f) in diffs <==> f !in IGNORED && At(before, f) != At(after, f)
  {
    hide Field, Stringify, Dedupe, WellFormedSnapshot, Entry, DiffsAmong;
    DiffsAmongAre(before, after, Fields(before, after));
    forall f
      ensures Entry(before, after, f) in Diffs(before, after) <==> f !in IGNORED && At(before, f) != At(after, f)
    {
      EntryField(before, after, f);
      SameTextIffSame(before, after, f);
      if Listed(before, after, f) {
        ListedIsKnown(before, after, f);
      }
    }
  }

  /** The comparison is empty if and only if all non-ignored fields agree. */
  lemma EmptyIffAllAgree(before: MaybeSnapshot, after: MaybeSnapshot)
    requires WellFormedSnapshot(before) && WellFormedSnapshot(after)
    ensures Diffs(before, after) == [] <==> forall f :: f !in IGNORED ==> At(before, f) == At(after, f)
  {
    hide Diffs, At, Entry, WellFormedSnapshot;
    EachDifferenceOnce(before, after);
    var diffs := Diffs(before, after);
    if diffs != [] {
      assert diffs[0] in diffs;
      var f := diffs[0].field;
      assert Entry(before, after, f) in diffs;
      assert f !in IGNORED && At(before, f) != At(after, f);
    } else {
      forall f | f !in IGNORED ensures At(before, f) == At(after, f) {
        assert Entry(before, after, f) !in diffs;
      }
    }
  }

  /** A listed field can show null on both sides: exactly when one snapshot holds null and the other lacks it. */
  lemma LooksEqualIffNullMeetsMissing(before: MaybeSnapshot, after: MaybeSnapshot, f: string)
    requires WellFormedSnapshot(before) && WellFormedSnapshot(after)
    requires f !in IGNORED && At(before, f) != At(after, f)
    ensures var d := Entry(before, after, f);
      && d in Diffs(before, after)
      && (d.before == d.after <==> {At(before, f), At(after, f)} == {None, Some(Null)})
  {
    hide Diffs, At, WellFormedSnapshot;
    EachDifferenceOnce(before, after);
    var b, a := At(before, f), At(after, f);
    assert None in {b, a} <==> b.None? || a.None?;
    assert Some(Null) in {b, a} <==> b == Some(Null) || a == Some(Null);
  }

  /** Comparing the other way round lists the same fields with their sides exchanged. */
  lemma OtherWayRound(before: MaybeSnapshot, after: MaybeSnapshot, d: FieldDiff)
    requires WellFormedSnapshot(before) && WellFormedSnapshot(after)
    ensures d in Diffs(before, after) <==> FieldDiff(d.field, d.after, d.before) in Diffs(after, before)
  {
    hide Diffs, At, WellFormedSnapshot;
    EachDifferenceOnce(before, after);
    EachDifferenceOnce(after, before);
    assert Entry(after, before, d.field) == FieldDiff(d.field, Entry(before, after, d.field).after,
                                                      Entry(before, after, d.field).before);
  }

  // ---------------------------------------------------------------------------------------------
  // Comparing a restored row with the version it was restored from
  // ---------------------------------------------------------------------------------------------

  function TextValue(s: Option<string>): Value { if s.Some? then Str(s.value) else Null }

  function IntValue(n: Option<int>): Value { if n.Some? then Num(Decimal.IntText(n.value)) else Null }

  function TextsValue(s: seq<string>): Value { Arr(Strings(s)) }

  /** How the database writes an instant. */
  type Stamp = Time -> string

  function TimeValue(stamp: Stamp, t: Option<Time>): Value { if t.Some? then Str(stamp(t.value)) else Null }

  function IdentityColumns(identity: Identity): seq<Member> {
    match identity
    case PlanIdentity(key) => [Member("key", Str(key))]
    case FlagIdentity(key, scope) => [Member("feature_key", Str(key)), Member("scope_type", Str(scope))]
    case NoticeIdentity(kind, audience) => [Member("type", Str(kind)), Member("audience_type", Str(audience))]
    case PolicyIdentity => []
  }

  function PolicyColumns(p: Policies): seq<Member> {
    [Member("session_duration_minutes", IntValue(p.sessionMinutes)),
     Member("password_min_length", IntValue(Some(p.passwordMinLength))),
     Member("password_require_uppercase", Bool(p.requireUppercase)),
     Member("password_require_number", Bool(p.requireNumber)),
     Member("password_require_symbol", Bool(p.requireSymbol)),
     Member("max_file_size_mb", IntValue(p.maxFileSizeMb)),
     Member("default_timezone", Str(p.timezone)), Member("default_currency", Str(p.currency)),
     Member("data_retention_default_days", IntValue(p.dataRetentionDays)),
     Member("audit_retention_days", IntValue(p.auditRetentionDays)),
     Member("rate_limit_api_per_minute", IntValue(Some(p.apiPerMinute))),
     Member("rate_limit_ai_per_minute", IntValue(p.aiPerMinute)),
     Member("rate_limit_webhooks_per_minute", IntValue(p.webhooksPerMinute)),
     Member("rate_limit_imports_per_hour", IntValue(p.importsPerHour)),
     Member("rate_limit_exports_per_hour", IntValue(p.exportsPerHour)),
     Member("rate_limit_automation_per_minute", IntValue(p.automationPerMinute))]
  }

  function PatchColumns(stamp: Stamp, patch: Patch): seq<Member> {
    match patch
    case PlanPatch(name, description, price, interval, currency, status, order, visible) =>
      [Member("name", Str(name)), Member("description", TextValue(description)),
       Member("price", Num(PriceText(price))), Member("billing_interval", Str(interval)),
       Member("currency", Str(currency)), Member("status", Str(status)),
       Member("display_order", IntValue(Some(order))), Member("marketing_visible", Bool(visible))]
    case FlagPatch(description, enabled, from, to) =>
      [Member("description", TextValue(description)), Member("enabled", Bool(enabled)),
       Member("effective_from", TimeValue(stamp, from)), Member("effective_to", TimeValue(stamp, to))]
    case NoticePatch(title, message, publish, expire, start, end, modules, enabled) =>
      [Member("title", Str(title)), Member("message", Str(message)),
       Member("publish_at", TimeValue(stamp, publish)), Member("expire_at", TimeValue(stamp, expire)),
       Member("maintenance_start", TimeValue(stamp, start)), Member("maintenance_end", TimeValue(stamp, end)),
       Member("affected_modules", TextsValue(modules)), Member("enabled", Bool(enabled))]
    case PolicyPatch(p) => PolicyColumns(p)
  }

  /** The columns outside a restore: a flag's rollout and the rollout a rollback would bring back. */
  const ROLLOUT_COLUMNS: set<string> :=
    {"rollout_stage", "rollout_percentage", "rollout_business_ids", "rollout_plan_keys", "last_good_rollout"}

  function RolloutColumns(rollout: Option<FlagRollout>): seq<Member> {
    match rollout
    case None => []
    case Some(FlagRollout(r, lastGood)) =>
      [Member("rollout_stage", Str(StageName(r.stage))),
       Member("rollout_percentage", IntValue(Some(r.percentage))),
       Member("rollout_business_ids", TextsValue(r.businessIds)), Member("rollout_plan_keys", TextsValue(r.planKeys)),
       Member("last_good_rollout", if lastGood.Some? then Snapshot(lastGood.value) else Null)]
  }

  /** A stored row as its history holds it; the book-keeping columns can be anything. */
  function SnapshotOf(stamp: Stamp, id: string, row: Row, bookkeeping: seq<Member>): seq<Member> {
    [Member("id", Str(id))] + IdentityColumns(row.identity) + PatchColumns(stamp, row.patch)
    + (RolloutColumns(row.rollout) + bookkeeping)
  }

  lemma {:induction false} FieldOfSum(a: seq<Member>, b: seq<Member>, key: string)
    ensures Field(a + b, key) == if Field(a, key).Some? then Field(a, key) else Field(b, key)
  {
    if a == [] {
      assert a + b == b;
    } else {
      assert (a + b)[1..] == a[1..] + b;
      FieldOfSum(a[1..], b, key);
    }
  }

  predicate OnlyBookkeeping(entries: seq<Member>) {
    forall e :: e in entries ==> e.key in IGNORED
  }

  lemma BookkeepingIsIgnored(entries: seq<Member>, key: string)
    requires OnlyBookkeeping(entries) && key !in IGNORED
    ensures Field(entries, key) == None
  {
    hide Field;
    FieldIsThere(entries, key);
  }

  lemma RolloutColumn(rollout: Option<FlagRollout>, key: string)
    requires key !in ROLLOUT_COLUMNS
    ensures Field(RolloutColumns(rollout), key) == None
  {
    hide Snapshot, Strings, IntValue, Field, StageName;
    var columns := RolloutColumns(rollout);
    FieldIsThere(columns, key);
    assert forall i :: 0 <= i < |columns| ==> Keys(columns)[i] in ROLLOUT_COLUMNS;
  }

  lemma DifferingColumn(stamp: Stamp, id: string, a: Row, b: Row, x: seq<Member>, y: seq<Member>, f: string)
    requires a.identity == b.identity && a.patch == b.patch
    requires OnlyBookkeeping(x) && OnlyBookkeeping(y) && f !in IGNORED
    requires f !in ROLLOUT_COLUMNS || a.rollout == b.rollout
    ensures Field(SnapshotOf(stamp, id, a, x), f) == Field(SnapshotOf(stamp, id, b, y), f)
  {
    hide Field, IdentityColumns, PatchColumns, RolloutColumns, OnlyBookkeeping;
    var shared := [Member("id", Str(id))] + IdentityColumns(a.identity) + PatchColumns(stamp, a.patch);
    FieldOfSum(shared, RolloutColumns(a.rollout) + x, f);
    FieldOfSum(shared, RolloutColumns(b.rollout) + y, f);
    FieldOfSum(RolloutColumns(a.rollout), x, f);
    FieldOfSum(RolloutColumns(b.rollout), y, f);
    BookkeepingIsIgnored(x, f);
    BookkeepingIsIgnored(y, f);
    if f !in ROLLOUT_COLUMNS {
      RolloutColumn(a.rollout, f);
      RolloutColumn(b.rollout, f);
    }
  }

  lemma DiffersWhenListed(before: MaybeSnapshot, after: MaybeSnapshot, d: FieldDiff)
    requires d in Diffs(before, after)
    ensures d.field !in IGNORED && At(before, d.field) != At(after, d.field)
  {
    hide Field, Dedupe, Stringify;
    DiffsAmongAre(before, after, Fields(before, after));
  }

  /** Rows that agree on what a restore writes are shown apart on rollout columns only, and on nothing when
      the rollouts agree too. */
  lemma OnlyRolloutShows(stamp: Stamp, id: string, a: Row, b: Row, x: seq<Member>, y: seq<Member>)
    requires a.identity == b.identity && a.patch == b.patch && OnlyBookkeeping(x) && OnlyBookkeeping(y)
    ensures var diffs := Diffs(Some(SnapshotOf(stamp, id, a, x)), Some(SnapshotOf(stamp, id, b, y)));
      && (forall d :: d in diffs ==> d.field in ROLLOUT_COLUMNS)
      && (a.rollout == b.rollout ==> diffs == [])
  {
    hide Diffs, SnapshotOf, Field, OnlyBookkeeping;
    var before, after := Some(SnapshotOf(stamp, id, a, x)), Some(SnapshotOf(stamp, id, b, y));
    var diffs := Diffs(before, after);
    forall d | d in diffs ensures d.field in ROLLOUT_COLUMNS && a.rollout != b.rollout {
      DiffersWhenListed(before, after, d);
      if d.field !in ROLLOUT_COLUMNS || a.rollout == b.rollout {
        DifferingColumn(stamp, id, a, b, x, y, d.field);
        assert false;
      }
    }
    if diffs != [] {
      assert diffs[0] in diffs;
    }
  }

  /** After restoring a canonical version of a reachable store, the comparison of that version with the row
      lists at most rollout columns; for plans, announcements and policies it is empty. */
  lemma RestoredRowShowsNoDifference(s: Store, r: Resource, eventId: nat, reason: string, stamp: Stamp, id: string,
                                     x: seq<Member>, y: seq<Member>)
    requires Inv(s) && ConfigRuns.Restorable(s, r, eventId, reason)
    requires Canonical(s.log[eventId].after.value)
    requires OnlyBookkeeping(x) && OnlyBookkeeping(y)
    ensures r in Restore(s, r.kind, Some(r.id), eventId, reason).0.rows
    ensures var s' := Restore(s, r.kind, Some(r.id), eventId, reason).0;
      var diffs := Diffs(Some(SnapshotOf(stamp, id, s.log[eventId].after.value, x)),
                         Some(SnapshotOf(stamp, id, s'.rows[r], y)));
      && (forall d :: d in diffs ==> r.kind == Flags && d.field in ROLLOUT_COLUMNS)
      && (r.kind != Flags ==> diffs == [])
  {
    hide Diffs, SnapshotOf, Restore, Inv, Canonical, OnlyBookkeeping, Matched, Versions,
      Allowed, Commit, KnownModules, EventFits;
    var version := s.log[eventId].after.value;
    ConfigRuns.RestoreIsExactIffCanonical(s, r, eventId, reason);
    var row := ConfigRuns.RestoredRow(s, r, version);
    ConfigRuns.CommitWrites(s, r, row, Trim(reason));
    RestoredRollout(s, r, eventId, reason);
    OnlyRolloutShows(stamp, id, version, row, x, y);
  }

  lemma RestoredRollout(s: Store, r: Resource, eventId: nat, reason: string)
    requires Inv(s) && ConfigRuns.Restorable(s, r, eventId, reason)
    ensures s.log[eventId].after.value.identity == s.rows[r].identity
    ensures r.kind != Flags ==> s.log[eventId].after.value.rollout == s.rows[r].rollout
  {
    hide Allowed, Versions, RowInv;
    ConfigRuns.VersionFits(s, r, eventId);
    ConfigRuns.RowFits(s, r);
  }
}
