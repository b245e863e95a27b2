/** What each change of the configuration tables needs and leaves behind, said of the rows: creating, editing, deleting
    and ending, from platform-plans.ts, platform-feature-flags.ts, platform-announcements.ts and
    platform-system-policies.ts in packages/core/src/admin with the functions of their migrations. */
module ConfigEdits {
  import opened Text
  import opened SnapshotForms
  import opened ConfigHistory
  import opened ConfigRuns
  import FeatureRollout

  // ---------------------------------------------------------------------------------------------
  // Keys
  // ---------------------------------------------------------------------------------------------

  /** Two plans with one key, or two flags with one key. */
  predicate SameKey(a: Identity, b: Identity) {
    || (a.PlanIdentity? && b.PlanIdentity? && a.planKey == b.planKey)
    || (a.FlagIdentity? && b.FlagIdentity? && a.featureKey == b.featureKey)
  }

  ghost predicate KeysUnique(rows: map<Resource, Row>) {
    forall a, b :: a in rows && b in rows && a != b ==> !SameKey(rows[a].identity, rows[b].identity)
  }

  /** No row appears, and none changes its identity. */
  ghost predicate IdentitiesStay(before: map<Resource, Row>, after: map<Resource, Row>) {
    forall r :: r in after ==> r in before && after[r].identity == before[r].identity
  }

  lemma StayingKeepsKeys(before: map<Resource, Row>, after: map<Resource, Row>)
    requires KeysUnique(before) && IdentitiesStay(before, after)
    ensures KeysUnique(after)
  {}

  lemma EditStays(s: Store, r: Resource, form: Form, reason: string)
    ensures IdentitiesStay(s.rows, Edit(s, r, form, reason).0.rows)
  {
    hide ReadForm, Allowed, Trim, KnownModules, FormKind;
  }

  lemma RestoreStays(s: Store, kind: Kind, id: Option<nat>, eventId: nat, reason: string)
    ensures IdentitiesStay(s.rows, Restore(s, kind, id, eventId, reason).0.rows)
  {
    hide Edit, Versions, FormOf, Trim;
    if Restore(s, kind, id, eventId, reason).0 != s {
      var r := if kind == PolicyTable then POLICY else Resource(kind, id.value);
      EditStays(s, r, FormOf(s.log[eventId].after.value), Trim(reason));
    }
  }

  lemma OthersStay(s: Store, op: Op)
    requires !op.CreateOp?
    ensures IdentitiesStay(s.rows, Step(s, op).0.rows)
  {
    hide Edit, Restore, Allowed, Trim, KnownTo, Matched, FeatureRollout.SetRollout, FeatureRollout.Rollback;
    match op
    case EditOp(r, form, reason) => EditStays(s, r, form, reason);
    case RestoreOp(kind, id, eventId, reason) => RestoreStays(s, kind, id, eventId, reason);
    case _ =>
  }

  lemma CreatedKeepsKeys(s: Store, r: Resource, identity: Identity, form: Form, reason: string)
    requires KeysUnique(s.rows)
    ensures KeysUnique(Create(s, r, identity, form, reason).0.rows)
  {
    hide ReadForm, Allowed, Trim, KnownModules, FormKind, MaintenanceFields, Unused;
    var s' := Create(s, r, identity, form, reason).0;
    if s' != s {
      forall q | q in s.rows ensures !SameKey(s.rows[q].identity, identity) {
        assert !KeyTaken(s, identity);
      }
    }
  }

  /** Over any run no two plans share a key and no two flags do. */
  lemma {:induction false} EveryRunKeepsKeysUnique(s: Store, ops: seq<Op>)
    requires KeysUnique(s.rows)
    ensures KeysUnique(Run(s, ops).rows)
    decreases |ops|
  {
    hide Step, KeysUnique;
    if ops != [] {
      var front, op := Run(s, ops[..|ops| - 1]), ops[|ops| - 1];
      EveryRunKeepsKeysUnique(s, ops[..|ops| - 1]);
      if op.CreateOp? {
        CreatedKeepsKeys(front, op.r, op.identity, op.form, op.reason);
        CreateStep(front, op);
      } else {
        OthersStay(front, op);
        StayingKeepsKeys(front.rows, Step(front, op).0.rows);
      }
    }
  }

  lemma CreateStep(s: Store, op: Op)
    requires op.CreateOp?
    ensures Step(s, op) == Create(s, op.r, op.identity, op.form, op.reason)
  {}

  // ---------------------------------------------------------------------------------------------
  // Creating and editing
  // ---------------------------------------------------------------------------------------------

  predicate ReasonFits(reason: string) { 1 <= |Trim(reason)| <= 500 }

  /** No row, and no event, has this place. */
  ghost predicate FreshPlace(s: Store, r: Resource) {
    r !in s.rows && forall e :: e in s.log ==> e.kind != r.kind || e.link != Some(r.id)
  }

  /** The form does not ask for maintenance fields, or is about maintenance. */
  predicate MaintenanceFits(form: Form) {
    form.NoticeForm? && form.kind != "maintenance" ==>
      && ReadDate(form.maintenanceStart) == Some(None) && ReadDate(form.maintenanceEnd) == Some(None)
      && ReadModules(form.modules) == []
  }

  /** The row a creation makes: what the form says, and for a flag a rollout that reaches everybody and has nothing to
      fall back to. */
  function NewRow(identity: Identity, patch: Patch): Row {
    Row(identity, patch,
        if identity.FlagIdentity? then Some(FlagRollout(FeatureRollout.Rollout(FeatureRollout.All, 0, [], []), None))
        else None)
  }

  /** A creation goes through if and only if its reason has 1 to 500 characters, its form is one of the kind and is
      accepted, an announcement says its own type and asks for maintenance fields only if it is about that, no row has
      the key, the modules exist and the table admits the row; it then adds that one row and one event, from nothing to
      it. */
  lemma CreateGoesThroughIff(s: Store, r: Resource, identity: Identity, form: Form, reason: string)
    requires FreshPlace(s, r)
    ensures var (s', outcome) := Create(s, r, identity, form, reason);
      && (outcome == Done <==>
            && ReasonFits(reason) && ReadForm(form).Some?
            && KindOf(identity) == FormKind(form) == r.kind != PolicyTable
            && (form.NoticeForm? ==> form.kind == identity.kind) && MaintenanceFits(form)
            && (forall q :: q in s.rows ==> !SameKey(s.rows[q].identity, identity))
            && KnownModules(ReadForm(form).value, s.modules) && Allowed(NewRow(identity, ReadForm(form).value)))
      && (outcome == Done ==>
            var row := NewRow(identity, ReadForm(form).value);
            && s'.rows == s.rows[r := row]
            && s'.log == s.log + [Event(r.kind, Some(r.id), None, Some(row), Trim(reason))]
            && s'.modules == s.modules && s'.businesses == s.businesses)
      && (outcome != Done ==> s' == s)
  {
    hide ReadForm, Allowed, Trim, KnownModules, FormKind, ReadDate, ReadModules;
    assert (exists q :: q in s.rows && SameKey(s.rows[q].identity, identity)) <==> KeyTaken(s, identity);
  }

  /** A new flag reaches every business, once it is on. */
  lemma NewFlagReachesEveryone(identity: Identity, patch: Patch, bucket: FeatureRollout.Buckets, key: string,
                               b: FeatureRollout.Business)
    requires identity.FlagIdentity?
    ensures NewRow(identity, patch).rollout.Some?
    ensures FeatureRollout.InRollout(bucket, key, NewRow(identity, patch).rollout.value.current, b)
  {}

  /** An edit goes through if and only if its reason fits, its form is one of the row's kind and is accepted, the row is
      there, the modules exist and the table admits what it becomes; it then changes the row's editable fields to what
      the form says, and nothing else, with one event. */
  lemma EditGoesThroughIff(s: Store, r: Resource, form: Form, reason: string)
    ensures var (s', outcome) := Edit(s, r, form, reason);
      && (outcome == Done <==>
            && ReasonFits(reason) && r in s.rows && FormKind(form) == r.kind && ReadForm(form).Some?
            && KnownModules(ReadForm(form).value, s.modules)
            && Allowed(Row(s.rows[r].identity, ReadForm(form).value, s.rows[r].rollout)))
      && (outcome == Done ==>
            var row := Row(s.rows[r].identity, ReadForm(form).value, s.rows[r].rollout);
            && s'.rows == s.rows[r := row]
            && s'.log == s.log + [Event(r.kind, Some(r.id), Some(s.rows[r]), Some(row), Trim(reason))]
            && s'.modules == s.modules && s'.businesses == s.businesses)
      && (outcome != Done ==> s' == s)
  {
    hide ReadForm, Allowed, Trim, KnownModules, FormKind;
  }

  // ---------------------------------------------------------------------------------------------
  // Deleting
  // ---------------------------------------------------------------------------------------------

  /** A deletion goes through if and only if its reason fits and the row is a flag or an announcement that is there. The
      row goes, with one event from it to nothing; what earlier events say stays, and of the links to rows exactly those
      to this one are cleared; so every other row keeps its history. */
  lemma DeleteGoesThroughIff(s: Store, r: Resource, reason: string)
    ensures var (s', outcome) := Delete(s, r, reason);
      && (outcome == Done <==> ReasonFits(reason) && r in s.rows && (r.kind == Flags || r.kind == Notices))
      && (outcome == Done ==>
            && s'.rows == s.rows - {r} && |s'.log| == |s.log| + 1
            && s'.log[|s.log|] == Event(r.kind, None, Some(s.rows[r]), None, Trim(reason))
            && (forall i :: 0 <= i < |s.log| ==>
                  s'.log[i] == if s.log[i].kind == r.kind && s.log[i].link == Some(r.id) then s.log[i].(link := None)
                               else s.log[i])
            && forall q :: q in s'.rows ==> History(s', q) == History(s, q))
      && (outcome != Done ==> s' == s)
  {
    hide Trim, Versions, Unlink;
    var s' := Delete(s, r, reason).0;
    UnlinkedEvents(s.log, r);
    if Delete(s, r, reason).1 == Done {
      forall q | q in s'.rows ensures History(s', q) == History(s, q) {
        VersionsUnlink(s.log, r, q);
        VersionsAppend(Unlink(s.log, r), s'.log[|s.log|], q.kind, Some(q.id));
        OtherHistory(s'.log[|s.log|], q);
      }
    }
  }

  lemma UnlinkedEvents(log: seq<Event>, r: Resource)
    ensures forall i :: 0 <= i < |log| ==>
      Unlink(log, r)[i] == if log[i].kind == r.kind && log[i].link == Some(r.id) then log[i].(link := None) else log[i]
  {}

  lemma OtherHistory(e: Event, q: Resource)
    requires e.link.None? && e.kind != PolicyTable
    ensures !InHistory(e, q.kind, Some(q.id))
  {}

  // ---------------------------------------------------------------------------------------------
  // Ending
  // ---------------------------------------------------------------------------------------------

  /** isAnnouncementActive. */
  predicate Active(p: Patch, at: Time)
    requires p.NoticePatch?
  {
    && p.noticeEnabled && (p.publishAt.Some? ==> at >= p.publishAt.value)
    && (p.expireAt.Some? ==> at <= p.expireAt.value)
  }

  /** Ending an announcement goes through if and only if there is a reason and it is there, but not at the very instant
      it starts, where its end would not come after its start. From then on it is never active, whether it was still to
      start, running or over; up to then it was active exactly when it would have been; and only whether it is on and
      when it ends can have changed. */
  lemma EndedIsOver(s: Store, r: Resource, now: Time, reason: string)
    requires Inv(s)
    ensures var (s', outcome) := End(s, r, now, reason);
      && (outcome == Done <==>
            && Trim(reason) != "" && r in s.rows && r.kind == Notices && s.rows[r].patch.NoticePatch?
            && !(Active(s.rows[r].patch, now) && s.rows[r].patch.publishAt == Some(now)
                 && s.rows[r].patch.expireAt != Some(now)))
      && (outcome == Done ==>
            && r in s'.rows && s'.rows[r].patch.NoticePatch?
            && (forall at :: at > now ==> !Active(s'.rows[r].patch, at))
            && (forall at :: at <= now ==> (Active(s'.rows[r].patch, at) <==> Active(s.rows[r].patch, at)))
            && s'.rows == s.rows[r := s.rows[r].(patch := s.rows[r].patch.(
                 noticeEnabled := s'.rows[r].patch.noticeEnabled, expireAt := s'.rows[r].patch.expireAt))])
      && (outcome != Done ==> s' == s)
  {
    hide Trim, Chained, EventFits, History, Versions;
    if r in s.rows { assert RowInv(s, r); }
  }
}
