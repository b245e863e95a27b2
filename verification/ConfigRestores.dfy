/** Which stored versions can be restored at all, and what the row becomes: the dispatcher of
    packages/core/src/admin/config-history.ts with the four restore functions it calls. */
module ConfigRestores {
  import opened Text
  import opened Decimal
  import opened SnapshotForms
  import opened ConfigHistory
  import opened ConfigRuns

  // ---------------------------------------------------------------------------------------------
  // What a stored version reads as
  // ---------------------------------------------------------------------------------------------

  function SettleOptional(s: Option<string>): Option<string> { EmptyToNone(Trim(s.GetOr(""))) }

  function SettleTime(t: Option<Time>): Option<Time> { if t.Some? then Some(WholeMs(t.value)) else None }

  function SettleCurrency(s: string): string { Upper(Trim(s)) }

  function SettleModules(modules: seq<string>): seq<string> { ReadModules(Join(modules, ",")) }

  /** A version's editable fields after the way through the form: texts trimmed, empty ones null, times on whole
      milliseconds, currencies in capitals, modules listed once, and only maintenance with a window and modules. */
  function Settled(version: Row): Patch {
    match version.patch
    case PlanPatch(name, description, price, interval, currency, status, order, visible) =>
      PlanPatch(Trim(name), SettleOptional(description), price, interval, SettleCurrency(currency), status, order,
                visible)
    case FlagPatch(description, enabled, from, to) =>
      FlagPatch(SettleOptional(description), enabled, SettleTime(from), SettleTime(to))
    case NoticePatch(title, message, publish, expire, start, end, modules, enabled) =>
      if version.identity.NoticeIdentity? && version.identity.kind == "maintenance" then
        NoticePatch(Trim(title), Trim(message), SettleTime(publish), SettleTime(expire), SettleTime(start),
                    SettleTime(end), SettleModules(modules), enabled)
      else
        NoticePatch(Trim(title), Trim(message), SettleTime(publish), SettleTime(expire), None, None, [], enabled)
    case PolicyPatch(p) => PolicyPatch(p.(timezone := Trim(p.timezone), currency := SettleCurrency(p.currency)))
  }

  predicate Within(s: string, min: nat, max: nat) { min <= |Trim(s)| <= max }

  predicate InOrderOnMs(start: Option<Time>, end: Option<Time>) { InOrder(SettleTime(start), SettleTime(end)) }

  /** The versions the update schemas accept. A window must still be in order on whole milliseconds, also one of an
      announcement that is not about maintenance. */
  predicate Readable(version: Row) {
    match version.patch
    case PlanPatch(name, _, _, interval, currency, status, _, _) =>
      Trim(name) != "" && IsCurrency(SettleCurrency(currency)) && interval in INTERVALS && status in STATUSES
    case FlagPatch(description, _, from, to) =>
      |Trim(description.GetOr(""))| <= 2000 && InOrderOnMs(from, to)
    case NoticePatch(title, message, publish, expire, start, end, _, _) =>
      && Within(title, 1, 200) && Within(message, 1, 5000)
      && version.identity.NoticeIdentity? && version.identity.kind in KINDS
      && InOrderOnMs(publish, expire) && InOrderOnMs(start, end)
    case PolicyPatch(p) =>
      && p.passwordMinLength > 0 && p.apiPerMinute > 0
      && Within(p.timezone, 1, 100) && IsCurrency(SettleCurrency(p.currency))
      && Positive(p.sessionMinutes) && Positive(p.maxFileSizeMb) && Positive(p.dataRetentionDays)
      && Positive(p.auditRetentionDays) && Positive(p.aiPerMinute) && Positive(p.webhooksPerMinute)
      && Positive(p.importsPerHour) && Positive(p.exportsPerHour) && Positive(p.automationPerMinute)
  }

  lemma DateSettles(t: Option<Time>)
    ensures ReadDate(DateOf(t)) == Some(SettleTime(t))
  {}

  lemma PlanSettles(row: Row)
    requires row.patch.PlanPatch?
    ensures ReadForm(FormOf(row)) == if Readable(row) then Some(Settled(row)) else None
  {
    hide ReadPrice, PriceText, Upper, IsCurrency, ReadInt, IntText, Trim;
    PriceReads(row.patch.price);
    ReadIntText(row.patch.displayOrder);
  }

  lemma FlagSettles(row: Row)
    requires row.patch.FlagPatch?
    ensures ReadForm(FormOf(row)) == if Readable(row) then Some(Settled(row)) else None
  {
    hide Trim, ReadDate, DateOf, SettleTime;
    DateSettles(row.patch.from);
    DateSettles(row.patch.to);
  }

  lemma NoticeSettles(row: Row)
    requires row.patch.NoticePatch? && row.identity.NoticeIdentity?
    ensures ReadForm(FormOf(row)) == if Readable(row) then Some(Settled(row)) else None
  {
    hide Trim, ReadModules, Join, KINDS, ReadDate, DateOf, SettleTime;
    var p := row.patch;
    DateSettles(p.publishAt);
    DateSettles(p.expireAt);
    DateSettles(p.maintenanceStart);
    DateSettles(p.maintenanceEnd);
  }

  lemma PolicySettles(row: Row)
    requires row.patch.PolicyPatch?
    ensures ReadForm(FormOf(row)) == if Readable(row) then Some(Settled(row)) else None
  {
    hide Trim, Upper, IsCurrency, ReadOptionalPositive, NumberText, ReadInt, IntText, Positive;
    var p := row.patch.policies;
    ReadIntText(p.passwordMinLength);
    ReadIntText(p.apiPerMinute);
    OptionalPositiveReads(p.sessionMinutes);
    OptionalPositiveReads(p.maxFileSizeMb);
    OptionalPositiveReads(p.dataRetentionDays);
    OptionalPositiveReads(p.auditRetentionDays);
    OptionalPositiveReads(p.aiPerMinute);
    OptionalPositiveReads(p.webhooksPerMinute);
    OptionalPositiveReads(p.importsPerHour);
    OptionalPositiveReads(p.exportsPerHour);
    OptionalPositiveReads(p.automationPerMinute);
  }

  /** The form a stored version turns back into is accepted if and only if the version is readable, and then means its
      settled fields. */
  lemma VersionSettles(row: Row)
    requires Matched(row)
    ensures ReadForm(FormOf(row)) == if Readable(row) then Some(Settled(row)) else None
  {
    hide ReadForm, FormOf, Readable, Settled;
    match row.patch
    case PlanPatch(_, _, _, _, _, _, _, _) => PlanSettles(row);
    case FlagPatch(_, _, _, _) => FlagSettles(row);
    case NoticePatch(_, _, _, _, _, _, _, _) => NoticeSettles(row);
    case PolicyPatch(_) => PolicySettles(row);
  }

  /** Settling is done once: a readable version is canonical exactly when settling leaves it as it is, and what it
      settles to is canonical. */
  lemma SettledIsCanonical(row: Row)
    requires Matched(row) && Readable(row)
    ensures Canonical(row) <==> Settled(row) == row.patch
    ensures Matched(row.(patch := Settled(row))) && Canonical(row.(patch := Settled(row)))
  {
    hide Readable, ReadForm, FormOf, Canonical, Trim, Upper, ReadModules;
    VersionSettles(row);
    SnapshotReadsBack(row);
    FormOfNamesType(row);
    SettledFits(row);
    WrittenIsCanonical(FormOf(row), row.(patch := Settled(row)));
  }

  lemma FormOfNamesType(row: Row)
    requires Matched(row)
    ensures FormOf(row).NoticeForm? ==> FormOf(row).kind == row.identity.kind
  {
    hide PriceText, IntText, Join, NumberText;
  }

  lemma SettledFits(row: Row)
    requires Matched(row) && Readable(row)
    ensures Matched(row.(patch := Settled(row))) && FitsType(row.(patch := Settled(row)))
  {
    hide Trim, Upper, ReadModules, Join, IsCurrency, SettleTime, Positive, KINDS;
  }

  // ---------------------------------------------------------------------------------------------
  // Which restores go through
  // ---------------------------------------------------------------------------------------------

  /** A readable version of an admitted row settles to fields the table admits. */
  lemma SettledIsAllowed(version: Row, row: Row)
    requires Matched(version) && Allowed(version) && Readable(version) && version.identity == row.identity
    ensures Allowed(row.(patch := Settled(version)))
  {
    hide Trim, Upper, ReadModules, Join, SettleTime, Positive, KINDS, IsCurrency;
    match version.patch
    case PlanPatch(name, _, _, _, _, _, _, _) => TrimTwice(name);
    case FlagPatch(_, _, _, _) =>
    case NoticePatch(title, message, _, _, _, _, _, _) =>
      TrimTwice(title);
      TrimTwice(message);
      NothingInOrder();
    case PolicyPatch(_) =>
  }

  lemma NothingInOrder()
    ensures InOrder(None, None)
  {}

  /** The version is on the list the dispatcher looks at, is not the newest, and is not a deletion's; and the row it
      would be restored to is there. */
  ghost predicate OnList(s: Store, kind: Kind, id: Option<nat>, eventId: nat) {
    var versions := Versions(s.log, kind, id);
    && kind != Other && (kind == PolicyTable || id.Some?)
    && eventId in versions && eventId != versions[|versions| - 1]
    && s.log[eventId].after.Some?
    && Target(kind, id) in s.rows
  }

  function Target(kind: Kind, id: Option<nat>): Resource {
    if kind == PolicyTable || id.None? then POLICY else Resource(kind, id.value)
  }

  lemma {:induction false} SameVersions(log: seq<Event>, kind: Kind, id: Option<nat>, r: Resource)
    requires r.kind == kind && (kind != PolicyTable ==> id == Some(r.id))
    ensures Versions(log, kind, id) == Versions(log, r.kind, Some(r.id))
  {
    if log != [] { SameVersions(log[..|log| - 1], kind, id, r); }
  }

  lemma ListedFits(s: Store, kind: Kind, id: Option<nat>, eventId: nat)
    requires Inv(s) && OnList(s, kind, id, eventId)
    ensures var version, r := s.log[eventId].after.value, Target(kind, id);
      && Matched(version) && Allowed(version) && version.identity == s.rows[r].identity
      && KindOf(version.identity) == r.kind == kind
  {
    hide Inv, Versions, Matched, Allowed, KindOf;
    var r := Target(kind, id);
    SameVersions(s.log, kind, id, r);
    VersionFits(s, r, eventId);
  }

  /** Whatever the dispatcher is asked: the restore goes through if and only if the version is on the list and readable,
      the reason has 1 to 500 characters, and the modules it settles to exist; the row then gets the version's settled
      fields and keeps the rest, with one event; and otherwise nothing changes. */
  lemma RestoreGoesThroughIff(s: Store, kind: Kind, id: Option<nat>, eventId: nat, reason: string)
    requires Inv(s)
    ensures var (s', outcome) := Restore(s, kind, id, eventId, reason);
      && (outcome == Done <==>
            && OnList(s, kind, id, eventId) && GoodReason(reason)
            && Readable(s.log[eventId].after.value)
            && KnownModules(Settled(s.log[eventId].after.value), s.modules))
      && (outcome == Done ==>
            var r := Target(kind, id);
            s' == Commit(s, r, s.rows[r].(patch := Settled(s.log[eventId].after.value)), Trim(reason)))
      && (outcome != Done ==> s' == s)
  {
    hide Inv, Versions, Readable, Settled, Allowed, Matched, KindOf, Edit, Commit, FormOf, FormKind, ReadForm, Trim,
      KnownModules;
    TrimTwice(reason);
    TrimEmptyIffBlank(reason);
    RefusedRestore(s, kind, id, eventId, reason);
    if OnList(s, kind, id, eventId) && Trim(reason) != "" {
      ListedFits(s, kind, id, eventId);
      EditOfVersion(s, Target(kind, id), s.log[eventId].after.value, Trim(reason));
    } else {
      NotListedIsRefused(s, kind, id, eventId, reason);
    }
  }

  lemma RefusedRestore(s: Store, kind: Kind, id: Option<nat>, eventId: nat, reason: string)
    ensures Restore(s, kind, id, eventId, reason).1 != Done ==> Restore(s, kind, id, eventId, reason).0 == s
  {
    hide Versions, ReadForm, FormOf, Allowed, Trim, KnownModules, FormKind;
  }

  lemma NotListedIsRefused(s: Store, kind: Kind, id: Option<nat>, eventId: nat, reason: string)
    requires !OnList(s, kind, id, eventId) || Trim(reason) == ""
    ensures Restore(s, kind, id, eventId, reason).1 != Done
  {
    hide Versions, ReadForm, FormOf, Allowed, Trim, KnownModules, FormKind;
  }

  /** The edit a restore makes. */
  lemma EditOfVersion(s: Store, r: Resource, version: Row, reason: string)
    requires r in s.rows && version.identity == s.rows[r].identity && KindOf(version.identity) == r.kind
    requires Matched(version) && Allowed(version)
    ensures var (s', outcome) := Edit(s, r, FormOf(version), reason);
      && (outcome == Done <==>
            GoodReason(reason) && Readable(version) && KnownModules(Settled(version), s.modules))
      && (outcome == Done ==> s' == Commit(s, r, s.rows[r].(patch := Settled(version)), Trim(reason)))
  {
    hide Readable, Settled, Allowed, KindOf, Commit, FormOf, FormKind, ReadForm, Trim, KnownModules;
    VersionSettles(version);
    FormOfKind(version);
    if Readable(version) {
      SettledIsAllowed(version, s.rows[r]);
    }
  }
}
