/** The configuration tables as the code changes them: rows rewritten in place and an event appended in the
    same transaction. Every method is tied to the operation of the same name on the state of the tables. */
module ConfigStore {
  import opened Text
  import opened SnapshotForms
  import opened ConfigHistory
  import FeatureRollout

  lemma FlagShape(row: Row)
    requires Matched(row) && row.identity.FlagIdentity?
    ensures row.patch.FlagPatch? && row.rollout.Some?
  {}

  class Tables {
    var rows: map<Resource, Row>
    var log: seq<Event>
    var modules: set<string>
    var businesses: set<string>

    ghost function State(): Store
      reads this
    {
      Store(rows, log, modules, businesses)
    }

    constructor (rows: map<Resource, Row>, modules: set<string>, businesses: set<string>)
      ensures State() == Store(rows, [], modules, businesses)
    {
      this.rows := rows;
      this.log := [];
      this.modules := modules;
      this.businesses := businesses;
    }

    /** UPDATE ... RETURNING followed by the event insert. */
    method Write(r: Resource, row: Row, reason: string)
      requires r in rows
      modifies this`rows, this`log
      ensures State() == Commit(old(State()), r, row, reason)
    {
      var before := rows[r];
      rows := rows[r := row];
      log := log + [Event(r.kind, Some(r.id), Some(before), Some(row), reason)];
    }

    /** updatePlatformPlan, updateFeatureFlag, updateAnnouncement and updateSystemPolicies. */
    method Update(r: Resource, form: Form, reason: string) returns (outcome: Outcome)
      modifies this`rows, this`log
      ensures (State(), outcome) == Edit(old(State()), r, form, reason)
    {
      hide ReadForm, Allowed, Trim;
      if !GoodReason(reason) {
        return Refused(NoReason);
      }
      var patch := ReadForm(form);
      if FormKind(form) != r.kind || patch.None? {
        return Refused(InvalidInput);
      }
      if r !in rows {
        return Refused(NotFound);
      }
      var row := rows[r].(patch := patch.value);
      if !KnownModules(patch.value, modules) {
        return Refused(UnknownModule);
      }
      if !Allowed(row) {
        return Refused(ConstraintViolated);
      }
      Write(r, row, Trim(reason));
      return Done;
    }

    /** createPlatformPlan, createFeatureFlag and createAnnouncement; r is the id the database draws. */
    method Insert(r: Resource, identity: Identity, form: Form, reason: string) returns (outcome: Outcome)
      modifies this`rows, this`log
      ensures (State(), outcome) == Create(old(State()), r, identity, form, reason)
    {
      hide ReadForm, Allowed, Trim, KnownModules, KeyTaken, Unused, MaintenanceFields;
      if !GoodReason(reason) {
        return Refused(NoReason);
      }
      var patch := ReadForm(form);
      if r.kind == PolicyTable || KindOf(identity) != r.kind || FormKind(form) != r.kind || patch.None?
         || !Unused(Store(rows, log, modules, businesses), r) {
        return Refused(InvalidInput);
      }
      if form.NoticeForm? && (form.kind != identity.kind || (form.kind != "maintenance" && MaintenanceFields(form))) {
        return Refused(MaintenanceOnly);
      }
      if KeyTaken(Store(rows, log, modules, businesses), identity) {
        return Refused(KeyExists);
      }
      var row := Row(identity, patch.value, if r.kind == Flags then Some(NEW_ROLLOUT) else None);
      if !KnownModules(patch.value, modules) || !Allowed(row) {
        return Refused(ConstraintViolated);
      }
      rows := rows[r := row];
      log := log + [Event(r.kind, Some(r.id), None, Some(row), Trim(reason))];
      return Done;
    }

    /** setFeatureFlagRollout and rollbackFeatureFlag. */
    method SetRollout(r: Resource, change: FeatureRollout.Change, reason: string) returns (outcome: Outcome)
      modifies this`rows, this`log
      ensures (State(), outcome) == ChangeRollout(old(State()), r, change, reason)
    {
      hide Trim, FeatureRollout.SetRollout, FeatureRollout.Rollback, Matched;
      if !GoodReason(reason) {
        return Refused(NoReason);
      }
      if r !in rows || r.kind != Flags || !Matched(rows[r]) || !rows[r].identity.FlagIdentity? {
        return Refused(NotFound);
      }
      var row := rows[r];
      FlagShape(row);
      var before := FeatureRollout.Switch(row.patch.flagEnabled, row.rollout.value.current, row.rollout.value.lastGood);
      var known := KnownTo(Store(rows, log, modules, businesses));
      var after := if change.Set? then FeatureRollout.SetRollout(known, before, change.r)
                   else FeatureRollout.Rollback(before);
      if after.None? {
        return Refused(RolloutRefused);
      }
      if after.value == before {
        return Done;
      }
      var row' := row.(patch := row.patch.(flagEnabled := after.value.enabled),
                       rollout := Some(FlagRollout(after.value.rollout, after.value.lastGood)));
      Write(r, row', Trim(reason));
      return Done;
    }

    /** deleteFeatureFlag and deleteAnnouncement. */
    method Remove(r: Resource, reason: string) returns (outcome: Outcome)
      modifies this`rows, this`log
      ensures (State(), outcome) == Delete(old(State()), r, reason)
    {
      hide Trim;
      if !GoodReason(reason) {
        return Refused(NoReason);
      }
      if r !in rows || !(r.kind == Flags || r.kind == Notices) {
        return Refused(NotFound);
      }
      var before := rows[r];
      rows := rows - {r};
      log := Unlink(log, r) + [Event(r.kind, None, Some(before), None, Trim(reason))];
      return Done;
    }

    /** endAnnouncement. */
    method EndNow(r: Resource, now: Time, reason: string) returns (outcome: Outcome)
      modifies this`rows, this`log
      ensures (State(), outcome) == End(old(State()), r, now, reason)
    {
      hide Allowed, Trim;
      if Trim(reason) == "" {
        return Refused(NoReason);
      }
      if r !in rows || r.kind != Notices || !rows[r].patch.NoticePatch? {
        return Refused(NotFound);
      }
      var patch := rows[r].patch;
      if !patch.noticeEnabled || (patch.expireAt.Some? && patch.expireAt.value <= now) {
        return Done;
      }
      if patch.publishAt.Some? && patch.publishAt.value > now {
        patch := patch.(noticeEnabled := false);
      } else {
        patch := patch.(expireAt := Some(now));
      }
      var row := rows[r].(patch := patch);
      if !Allowed(row) {
        return Refused(ConstraintViolated);
      }
      Write(r, row, Trim(reason));
      return Done;
    }

    /** restoreConfigVersion. */
    method RestoreVersion(kind: Kind, id: Option<nat>, eventId: nat, reason: string) returns (outcome: Outcome)
      modifies this`rows, this`log
      ensures (State(), outcome) == Restore(old(State()), kind, id, eventId, reason)
    {
      hide Edit, FormOf, Trim, Versions, InHistory;
      if kind == Other {
        return Refused(NotRestorable);
      }
      if Trim(reason) == "" {
        return Refused(NoReason);
      }
      var versions := Versions(log, kind, id);
      if eventId !in versions {
        return Refused(NoSuchVersion);
      }
      var target := log[eventId];
      if target.after.None? {
        return Refused(RecordsDeletion);
      }
      if eventId == versions[|versions| - 1] {
        return Refused(AlreadyCurrent);
      }
      if kind != PolicyTable && id.None? {
        return Refused(NothingSelected);
      }
      var r := if kind == PolicyTable then POLICY else Resource(kind, id.value);
      outcome := Update(r, FormOf(target.after.value), Trim(reason));
    }
  }
}
