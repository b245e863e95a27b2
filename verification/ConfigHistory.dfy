/** Configuration history (packages/core/src/admin/config-history.ts): rows, their append-only event log, and
    restoring a version by editing the row with the form the version turns back into. The row and its event
    are written together by the database functions of the plan, flag, announcement and policy migrations. */
module ConfigHistory {
  import opened Text
  import opened SnapshotForms
  import FeatureRollout

  /** The four restorable tables, and all the others, which have a history but no restore. */
  datatype Kind = Plans | Flags | Notices | PolicyTable | Other

  datatype Resource = Resource(kind: Kind, id: nat)

  const POLICY: Resource := Resource(PolicyTable, 0)

  /** One row of an events table; its id is its place in the log. Deleting a resource clears the links. */
  datatype Event = Event(kind: Kind, link: Option<nat>, before: Option<Row>, after: Option<Row>, reason: string)

  datatype Store = Store(rows: map<Resource, Row>, log: seq<Event>, modules: set<string>, businesses: set<string>)

  datatype Failure =
    | NoReason | InvalidInput | NotFound | UnknownModule | ConstraintViolated | MaintenanceOnly | KeyExists
    | RolloutRefused | NotRestorable | NoSuchVersion | RecordsDeletion | AlreadyCurrent | NothingSelected

  datatype Outcome = Done | Refused(why: Failure)

  function KindOf(identity: Identity): Kind {
    match identity
    case PlanIdentity(_) => Plans
    case FlagIdentity(_, _) => Flags
    case NoticeIdentity(_, _) => Notices
    case PolicyIdentity => PolicyTable
  }

  function FormKind(f: Form): Kind {
    match f
    case PlanForm(_, _, _, _, _, _, _, _) => Plans
    case FlagForm(_, _, _, _) => Flags
    case NoticeForm(_, _, _, _, _, _, _, _, _) => Notices
    case PolicyForm(_, _, _, _, _, _, _, _, _, _, _, _, _, _, _, _) => PolicyTable
  }

  // ---------------------------------------------------------------------------------------------
  // The table constraints
  // ---------------------------------------------------------------------------------------------

  predicate FitsInteger(n: int) { -0x8000_0000 <= n < 0x8000_0000 }

  predicate PositiveInteger(n: Option<int>) { n.Some? ==> 0 < n.value && FitsInteger(n.value) }

  /** What the table's own types and checks admit. */
  predicate Allowed(row: Row) {
    match row.patch
    case PlanPatch(name, _, price, interval, _, status, order, _) =>
      Trim(name) != "" && price < 100_000_000_000_000 && interval in INTERVALS && status in STATUSES
      && FitsInteger(order)
    case FlagPatch(description, _, from, to) =>
      (description.Some? ==> |description.value| <= 2000) && InOrder(from, to)
    case NoticePatch(title, message, publish, expire, start, end, modules, _) =>
      && 0 < |Trim(title)| && |title| <= 200 && 0 < |Trim(message)| && |message| <= 5000
      && InOrder(publish, expire) && InOrder(start, end)
      && (row.identity.NoticeIdentity? && row.identity.kind != "maintenance" ==>
            start == None && end == None && modules == [])
    case PolicyPatch(p) =>
      && PositiveInteger(Some(p.passwordMinLength)) && PositiveInteger(Some(p.apiPerMinute))
      && PositiveInteger(p.sessionMinutes) && PositiveInteger(p.maxFileSizeMb)
      && PositiveInteger(p.dataRetentionDays) && PositiveInteger(p.auditRetentionDays)
      && PositiveInteger(p.aiPerMinute) && PositiveInteger(p.webhooksPerMinute)
      && PositiveInteger(p.importsPerHour) && PositiveInteger(p.exportsPerHour)
      && PositiveInteger(p.automationPerMinute)
  }

  predicate KnownModules(patch: Patch, modules: set<string>) {
    patch.NoticePatch? ==> forall m :: m in patch.modules ==> m in modules
  }

  predicate GoodReason(reason: string) { 1 <= |Trim(reason)| <= 500 }

  // ---------------------------------------------------------------------------------------------
  // Operations, on the state of the tables
  // ---------------------------------------------------------------------------------------------

  function Commit(s: Store, r: Resource, row: Row, reason: string): Store
    requires r in s.rows
  {
    s.(rows := s.rows[r := row],
       log := s.log + [Event(r.kind, Some(r.id), Some(s.rows[r]), Some(row), reason)])
  }

  /** The validated update behind every edit and every restore. */
  function Edit(s: Store, r: Resource, form: Form, reason: string): (Store, Outcome) {
    if !GoodReason(reason) then (s, Refused(NoReason))
    else if FormKind(form) != r.kind || ReadForm(form).None? then (s, Refused(InvalidInput))
    else if r !in s.rows then (s, Refused(NotFound))
    else
      var patch := ReadForm(form).value;
      var row := s.rows[r].(patch := patch);
      if !KnownModules(patch, s.modules) then (s, Refused(UnknownModule))
      else if !Allowed(row) then (s, Refused(ConstraintViolated))
      else (Commit(s, r, row, Trim(reason)), Done)
  }

  const NEW_ROLLOUT := FlagRollout(FeatureRollout.Rollout(FeatureRollout.All, 0, [], []), None)

  predicate Unused(s: Store, r: Resource) {
    r !in s.rows && forall e :: e in s.log ==> !(e.kind == r.kind && e.link == Some(r.id))
  }

  /** Plan keys and flag keys are unique. */
  predicate KeyTaken(s: Store, identity: Identity) {
    exists r :: r in s.rows && match (s.rows[r].identity, identity)
      case (PlanIdentity(a), PlanIdentity(b)) => a == b
      case (FlagIdentity(a, _), FlagIdentity(b, _)) => a == b
      case _ => false
  }

  predicate MaintenanceFields(form: Form)
    requires form.NoticeForm?
  {
    ReadDate(form.maintenanceStart) != Some(None) || ReadDate(form.maintenanceEnd) != Some(None)
    || ReadModules(form.modules) != []
  }

  /** A new row under a fresh id, with its first event. The policy row is never created. */
  function Create(s: Store, r: Resource, identity: Identity, form: Form, reason: string): (Store, Outcome) {
    if !GoodReason(reason) then (s, Refused(NoReason))
    else if r.kind == PolicyTable || KindOf(identity) != r.kind || FormKind(form) != r.kind
            || ReadForm(form).None? || !Unused(s, r) then (s, Refused(InvalidInput))
    else if form.NoticeForm? && (form.kind != identity.kind || (form.kind != "maintenance" && MaintenanceFields(form)))
    then (s, Refused(MaintenanceOnly))
    else if KeyTaken(s, identity) then (s, Refused(KeyExists))
    else
      var row := Row(identity, ReadForm(form).value, if r.kind == Flags then Some(NEW_ROLLOUT) else None);
      if !KnownModules(row.patch, s.modules) || !Allowed(row) then (s, Refused(ConstraintViolated))
      else (s.(rows := s.rows[r := row], log := s.log + [Event(r.kind, Some(r.id), None, Some(row), Trim(reason))]),
            Done)
  }

  function Unlinked(e: Event, r: Resource): Event {
    if e.kind == r.kind && e.link == Some(r.id) then e.(link := None) else e
  }

  function Unlink(log: seq<Event>, r: Resource): (cleared: seq<Event>)
    ensures |cleared| == |log|
  {
    seq(|log|, i requires 0 <= i < |log| => Unlinked(log[i], r))
  }

  /** Only flags and announcements can be deleted; their events stay, without the link. */
  function Delete(s: Store, r: Resource, reason: string): (Store, Outcome) {
    if !GoodReason(reason) then (s, Refused(NoReason))
    else if r !in s.rows || !(r.kind == Flags || r.kind == Notices) then (s, Refused(NotFound))
    else (s.(rows := s.rows - {r},
             log := Unlink(s.log, r) + [Event(r.kind, None, Some(s.rows[r]), None, Trim(reason))]), Done)
  }

  /** End an announcement now: an unpublished one is switched off, a running one gets its end time. */
  function End(s: Store, r: Resource, now: Time, reason: string): (Store, Outcome) {
    if Trim(reason) == "" then (s, Refused(NoReason))
    else if r !in s.rows || r.kind != Notices || !s.rows[r].patch.NoticePatch? then (s, Refused(NotFound))
    else
      var p := s.rows[r].patch;
      if !p.noticeEnabled || (p.expireAt.Some? && p.expireAt.value <= now) then (s, Done)
      else
        var p' := if p.publishAt.Some? && p.publishAt.value > now then p.(noticeEnabled := false)
                  else p.(expireAt := Some(now));
        var row := s.rows[r].(patch := p');
        if !Allowed(row) then (s, Refused(ConstraintViolated)) else (Commit(s, r, row, Trim(reason)), Done)
  }

  /** What a rollout may name: the keys of the stored plans, and the businesses there are. */
  function KnownTo(s: Store): FeatureRollout.Catalog {
    FeatureRollout.Catalog(set r | r in s.rows && s.rows[r].identity.PlanIdentity? :: s.rows[r].identity.planKey,
                           s.businesses)
  }

  /** A rollout change or rollback of a flag; setting what is already set writes nothing. */
  function ChangeRollout(s: Store, r: Resource, change: FeatureRollout.Change, reason: string): (Store, Outcome) {
    if !GoodReason(reason) then (s, Refused(NoReason))
    else if r !in s.rows || r.kind != Flags || !Matched(s.rows[r]) || !s.rows[r].identity.FlagIdentity?
    then (s, Refused(NotFound))
    else
      var row := s.rows[r];
      var before := FeatureRollout.Switch(row.patch.flagEnabled, row.rollout.value.current, row.rollout.value.lastGood);
      var result := match change
        case Set(setting) => FeatureRollout.SetRollout(KnownTo(s), before, setting)
        case RollBack => FeatureRollout.Rollback(before);
      match result
      case None => (s, Refused(RolloutRefused))
      case Some(after) =>
        if after == before then (s, Done)
        else
          var row' := row.(patch := row.patch.(flagEnabled := after.enabled),
                           rollout := Some(FlagRollout(after.rollout, after.lastGood)));
          (Commit(s, r, row', Trim(reason)), Done)
  }

  // Versions ------------------------------------------------------------------------------------------

  /** The events table of a kind, narrowed to one instance unless the kind has only one. */
  predicate InHistory(e: Event, kind: Kind, id: Option<nat>) {
    e.kind == kind && (kind != PolicyTable && id.Some? ==> e.link == id)
  }

  /** Event ids oldest first: version k is the k-th of them. */
  function Versions(log: seq<Event>, kind: Kind, id: Option<nat>): (ids: seq<nat>)
    ensures forall i :: 0 <= i < |ids| ==> ids[i] < |log| && InHistory(log[ids[i]], kind, id)
    ensures forall i, j :: 0 <= i < j < |ids| ==> ids[i] < ids[j]
  {
    if log == [] then []
    else
      var n := |log| - 1;
      Versions(log[..n], kind, id) + (if InHistory(log[n], kind, id) then [n] else [])
  }

  /** The restore dispatcher. */
  function Restore(s: Store, kind: Kind, id: Option<nat>, eventId: nat, reason: string): (Store, Outcome) {
    if kind == Other then (s, Refused(NotRestorable))
    else if Trim(reason) == "" then (s, Refused(NoReason))
    else
      var versions := Versions(s.log, kind, id);
      if eventId !in versions then (s, Refused(NoSuchVersion))
      else if s.log[eventId].after.None? then (s, Refused(RecordsDeletion))
      else if eventId == versions[|versions| - 1] then (s, Refused(AlreadyCurrent))
      else if kind != PolicyTable && id.None? then (s, Refused(NothingSelected))
      else
        var r := if kind == PolicyTable then POLICY else Resource(kind, id.value);
        Edit(s, r, FormOf(s.log[eventId].after.value), Trim(reason))
  }

  // ---------------------------------------------------------------------------------------------
  // Runs
  // ---------------------------------------------------------------------------------------------

  datatype Op =
    | EditOp(r: Resource, form: Form, reason: string)
    | CreateOp(r: Resource, identity: Identity, form: Form, reason: string)
    | DeleteOp(r: Resource, reason: string)
    | EndOp(r: Resource, now: Time, reason: string)
    | RolloutOp(r: Resource, change: FeatureRollout.Change, reason: string)
    | RestoreOp(kind: Kind, id: Option<nat>, eventId: nat, reason: string)
    | OutsideOp(modules: set<string>, businesses: set<string>)

  function Step(s: Store, op: Op): (Store, Outcome) {
    match op
    case EditOp(r, form, reason) => Edit(s, r, form, reason)
    case CreateOp(r, identity, form, reason) => Create(s, r, identity, form, reason)
    case DeleteOp(r, reason) => Delete(s, r, reason)
    case EndOp(r, now, reason) => End(s, r, now, reason)
    case RolloutOp(r, change, reason) => ChangeRollout(s, r, change, reason)
    case RestoreOp(kind, id, eventId, reason) => Restore(s, kind, id, eventId, reason)
    case OutsideOp(modules, businesses) => (s.(modules := modules, businesses := businesses), Done)
  }

  function Run(s: Store, ops: seq<Op>): Store
    decreases |ops|
  {
    if ops == [] then s else Step(Run(s, ops[..|ops| - 1]), ops[|ops| - 1]).0
  }

  /** The version list of one resource. */
  function History(s: Store, r: Resource): (ids: seq<nat>)
    ensures forall i :: 0 <= i < |ids| ==> ids[i] < |s.log|
  {
    Versions(s.log, r.kind, Some(r.id))
  }

  /** Each event of a resource starts from what the one before it left. */
  ghost predicate Chained(s: Store, r: Resource) {
    var ids := History(s, r);
    forall i, j :: 0 <= i < j < |ids| && j == i + 1 ==> s.log[ids[j]].before == s.log[ids[i]].after
  }

  /** An event of r leaves a row of r's kind and identity that the table admits. */
  predicate EventFits(e: Event, r: Resource, row: Row) {
    && e.after.Some? && Matched(e.after.value) && Allowed(e.after.value)
    && e.after.value.identity == row.identity
  }

  ghost predicate RowInv(s: Store, r: Resource)
    requires r in s.rows
  {
    var row, ids := s.rows[r], History(s, r);
    && Matched(row) && Allowed(row) && KindOf(row.identity) == r.kind
    && Chained(s, r)
    && (ids != [] ==> s.log[ids[|ids| - 1]].after == Some(row))
    && forall i :: 0 <= i < |ids| ==> EventFits(s.log[ids[i]], r, row)
  }

  /** What every run keeps: each row is well formed, its events chain, and the last one left the row as it is;
      the policy row exists, alone of its kind; and linked events belong to existing rows. */
  ghost predicate Inv(s: Store) {
    && (forall r :: r in s.rows ==> RowInv(s, r))
    && POLICY in s.rows && (forall r :: r in s.rows && r.kind == PolicyTable ==> r == POLICY)
    && (forall e :: e in s.log && e.link.Some? ==> Resource(e.kind, e.link.value) in s.rows)
    && (forall e :: e in s.log && e.kind == PolicyTable ==> e.link == Some(0))
  }
}
