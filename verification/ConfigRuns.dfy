/** What holds of every run of edits, creations, deletions, rollout changes and restores. */
module ConfigRuns {
  import opened Text
  import opened Decimal
  import opened SnapshotForms
  import opened ConfigHistory
  import FeatureRollout

  // ---------------------------------------------------------------------------------------------
  // Version lists
  // ---------------------------------------------------------------------------------------------

  lemma VersionsAppend(log: seq<Event>, e: Event, kind: Kind, id: Option<nat>)
    ensures Versions(log + [e], kind, id)
         == Versions(log, kind, id) + (if InHistory(e, kind, id) then [|log|] else [])
  {
    assert (log + [e])[..|log|] == log;
  }

  /** Clearing one resource's links leaves every other resource's versions where they were. */
  lemma {:induction false} VersionsUnlink(log: seq<Event>, r: Resource, other: Resource)
    requires r != other && r.kind != PolicyTable
    ensures Versions(Unlink(log, r), other.kind, Some(other.id)) == Versions(log, other.kind, Some(other.id))
  {
    if log != [] {
      var n := |log| - 1;
      VersionsUnlink(log[..n], r, other);
      assert Unlink(log, r)[..n] == Unlink(log[..n], r);
    }
  }

  lemma {:induction false} NoVersions(log: seq<Event>, r: Resource)
    requires r.kind != PolicyTable
    requires forall e :: e in log ==> !(e.kind == r.kind && e.link == Some(r.id))
    ensures Versions(log, r.kind, Some(r.id)) == []
  {
    if log != [] {
      var n := |log| - 1;
      assert log[n] in log && forall e :: e in log[..n] ==> e in log;
      NoVersions(log[..n], r);
    }
  }

  /** A resource whose version list is carried over unchanged keeps its part of the invariant. */
  lemma RowKept(s: Store, s': Store, r: Resource)
    requires r in s.rows && RowInv(s, r) && r in s'.rows && s'.rows[r] == s.rows[r]
    requires History(s', r) == History(s, r)
    requires forall i :: 0 <= i < |History(s, r)| ==>
      var n := History(s, r)[i];
      s'.log[n].before == s.log[n].before && s'.log[n].after == s.log[n].after
    ensures RowInv(s', r)
  {
    hide Matched, Allowed, History;
  }

  lemma SameIdentityFits(e: Event, r: Resource, a: Row, b: Row)
    requires EventFits(e, r, a) && a.identity == b.identity
    ensures EventFits(e, r, b)
  {}

  lemma NewEventFits(e: Event, r: Resource, row: Row)
    requires e.after == Some(row) && Matched(row) && Allowed(row)
    ensures EventFits(e, r, row)
  {}

  lemma CommittedRow(s: Store, r: Resource, row: Row, reason: string)
    requires Inv(s) && r in s.rows
    requires Matched(row) && Allowed(row) && row.identity == s.rows[r].identity
    ensures var s' := Commit(s, r, row, reason);
      RowInv(s', r) && History(s', r) == History(s, r) + [|s.log|]
  {
    hide Matched, Allowed, Versions, EventFits;
    var s' := Commit(s, r, row, reason);
    var e := s'.log[|s.log|];
    NewEventFits(e, r, row);
    VersionsAppend(s.log, e, r.kind, Some(r.id));
    var ids, ids' := History(s, r), History(s', r);
    assert ids' == ids + [|s.log|];
    forall i | 0 <= i < |ids'| ensures EventFits(s'.log[ids'[i]], r, row) {
      if i < |ids| { SameIdentityFits(s.log[ids[i]], r, s.rows[r], row); }
    }
    forall i, j | 0 <= i < j < |ids'| && j == i + 1
      ensures s'.log[ids'[j]].before == s'.log[ids'[i]].after
    {
      if j < |ids| { assert s.log[ids[j]].before == s.log[ids[i]].after; }
    }
  }

  lemma CommitKeepsInv(s: Store, r: Resource, row: Row, reason: string)
    requires Inv(s) && r in s.rows
    requires Matched(row) && Allowed(row) && row.identity == s.rows[r].identity
    ensures Inv(Commit(s, r, row, reason))
  {
    hide Matched, Allowed, RowInv, Versions;
    var s' := Commit(s, r, row, reason);
    forall q | q in s'.rows ensures RowInv(s', q) {
      if q == r {
        CommittedRow(s, r, row, reason);
      } else {
        VersionsAppend(s.log, s'.log[|s.log|], q.kind, Some(q.id));
        assert History(s', q) == History(s, q);
        RowKept(s, s', q);
      }
    }
  }

  lemma ReadFormKind(f: Form)
    requires ReadForm(f).Some?
    ensures match FormKind(f)
      case Plans => ReadForm(f).value.PlanPatch?
      case Flags => ReadForm(f).value.FlagPatch?
      case Notices => ReadForm(f).value.NoticePatch?
      case PolicyTable => ReadForm(f).value.PolicyPatch?
      case Other => false
  {
    hide ReadPrice, ReadCurrency, ReadText, ReadInt, ReadModules, ReadOptionalPositive, Trim;
  }

  lemma EditKeepsInv(s: Store, r: Resource, form: Form, reason: string)
    requires Inv(s)
    ensures Inv(Edit(s, r, form, reason).0)
  {
    hide ReadForm, Allowed, Commit, Trim;
    if Edit(s, r, form, reason).0 != s {
      ReadFormKind(form);
      var row := s.rows[r].(patch := ReadForm(form).value);
      assert RowInv(s, r);
      CommitKeepsInv(s, r, row, Trim(reason));
    }
  }

  lemma CreateMakes(s: Store, r: Resource, identity: Identity, form: Form, reason: string)
    requires Create(s, r, identity, form, reason).1 == Done
    ensures var s' := Create(s, r, identity, form, reason).0;
      && r.kind != PolicyTable && Unused(s, r) && r in s'.rows && s'.rows == s.rows[r := s'.rows[r]]
      && Matched(s'.rows[r]) && Allowed(s'.rows[r]) && KindOf(s'.rows[r].identity) == r.kind
      && s'.log == s.log + [Event(r.kind, Some(r.id), None, Some(s'.rows[r]), Trim(reason))]
  {
    hide ReadForm, Allowed, Trim, KeyTaken, MaintenanceFields, KnownModules, Unused;
    ReadFormKind(form);
  }

  lemma CreateKeepsInv(s: Store, r: Resource, identity: Identity, form: Form, reason: string)
    requires Inv(s)
    ensures Inv(Create(s, r, identity, form, reason).0)
  {
    hide Allowed, Trim, RowInv, Versions, Create, Matched;
    var (s', outcome) := Create(s, r, identity, form, reason);
    if outcome == Done {
      CreateMakes(s, r, identity, form, reason);
      var e := s'.log[|s.log|];
      forall q | q in s'.rows ensures RowInv(s', q) {
        VersionsAppend(s.log, e, q.kind, Some(q.id));
        if q == r {
          NoVersions(s.log, r);
          CreatedRow(s', r, |s.log|);
        } else {
          assert History(s', q) == History(s, q);
          RowKept(s, s', q);
        }
      }
    } else {
      CreateRefused(s, r, identity, form, reason);
    }
  }

  lemma CreateRefused(s: Store, r: Resource, identity: Identity, form: Form, reason: string)
    ensures Create(s, r, identity, form, reason).1.Refused? ==> Create(s, r, identity, form, reason).0 == s
  {
    hide ReadForm, Allowed, Trim, KeyTaken, MaintenanceFields, KnownModules, Unused;
  }

  /** The tables as migrations leave them: admitted rows, the policy row among them, and no history yet. */
  lemma FreshStoreHasInv(rows: map<Resource, Row>, modules: set<string>, businesses: set<string>)
    requires POLICY in rows
    requires forall r :: r in rows ==> Matched(rows[r]) && Allowed(rows[r]) && KindOf(rows[r].identity) == r.kind
    requires forall r :: r in rows && r.kind == PolicyTable ==> r == POLICY
    ensures Inv(Store(rows, [], modules, businesses))
  {
    hide Matched, Allowed;
  }

  lemma CreatedRow(s: Store, r: Resource, n: nat)
    requires r in s.rows && Matched(s.rows[r]) && Allowed(s.rows[r]) && KindOf(s.rows[r].identity) == r.kind
    requires n < |s.log| && History(s, r) == [n] && s.log[n].after == Some(s.rows[r])
    ensures RowInv(s, r)
  {
    hide Matched, Allowed, Versions;
  }

  lemma DeleteKeepsInv(s: Store, r: Resource, reason: string)
    requires Inv(s)
    ensures Inv(Delete(s, r, reason).0)
  {
    hide Trim, RowInv, Versions;
    var (s', outcome) := Delete(s, r, reason);
    if outcome == Done {
      var cleared := Unlink(s.log, r);
      forall q | q in s'.rows ensures RowInv(s', q) {
        VersionsAppend(cleared, s'.log[|cleared|], q.kind, Some(q.id));
        VersionsUnlink(s.log, r, q);
        assert History(s', q) == History(s, q);
        RowKept(s, s', q);
      }
      forall e | e in s'.log && e.link.Some? ensures Resource(e.kind, e.link.value) in s'.rows {
        var i :| 0 <= i < |s'.log| && s'.log[i] == e;
        assert i < |s.log| && e == Unlinked(s.log[i], r);
        assert s.log[i] in s.log;
      }
      forall e | e in s'.log && e.kind == PolicyTable ensures e.link == Some(0) {
        var i :| 0 <= i < |s'.log| && s'.log[i] == e;
        assert i < |s.log| && e == Unlinked(s.log[i], r);
        assert s.log[i] in s.log;
      }
    }
  }

  lemma EndKeepsInv(s: Store, r: Resource, now: Time, reason: string)
    requires Inv(s)
    ensures Inv(End(s, r, now, reason).0)
  {
    hide Trim, Commit, Allowed;
    var s' := End(s, r, now, reason).0;
    if s' != s {
      assert RowInv(s, r);
      var p := s.rows[r].patch;
      var p' := if p.publishAt.Some? && p.publishAt.value > now then p.(noticeEnabled := false)
                else p.(expireAt := Some(now));
      CommitKeepsInv(s, r, s.rows[r].(patch := p'), Trim(reason));
    }
  }

  lemma RolloutKeepsInv(s: Store, r: Resource, change: FeatureRollout.Change, reason: string)
    requires Inv(s)
    ensures Inv(ChangeRollout(s, r, change, reason).0)
  {
    hide Trim, Commit;
    var s' := ChangeRollout(s, r, change, reason).0;
    if s' != s {
      assert RowInv(s, r);
      RolloutCommits(s, r, change, reason);
    }
  }

  lemma RolloutCommits(s: Store, r: Resource, change: FeatureRollout.Change, reason: string)
    requires Inv(s) && r in s.rows && RowInv(s, r)
    requires ChangeRollout(s, r, change, reason).0 != s
    ensures Inv(ChangeRollout(s, r, change, reason).0)
  {
    hide Trim, Commit, Inv, FeatureRollout.SetRollout, FeatureRollout.Rollback;
    var row := s.rows[r];
    var before := FeatureRollout.Switch(row.patch.flagEnabled, row.rollout.value.current, row.rollout.value.lastGood);
    var after := (match change
      case Set(setting) => FeatureRollout.SetRollout(KnownTo(s), before, setting)
      case RollBack => FeatureRollout.Rollback(before)).value;
    var row' := row.(patch := row.patch.(flagEnabled := after.enabled),
                     rollout := Some(FlagRollout(after.rollout, after.lastGood)));
    CommitKeepsInv(s, r, row', Trim(reason));
  }

  lemma StepKeepsInv(s: Store, op: Op)
    requires Inv(s)
    ensures Inv(Step(s, op).0)
  {
    hide Inv, Edit, Create, Delete, End, ChangeRollout, Versions;
    match op
    case EditOp(r, form, reason) => EditKeepsInv(s, r, form, reason);
    case CreateOp(r, identity, form, reason) => CreateKeepsInv(s, r, identity, form, reason);
    case DeleteOp(r, reason) => DeleteKeepsInv(s, r, reason);
    case EndOp(r, now, reason) => EndKeepsInv(s, r, now, reason);
    case RolloutOp(r, change, reason) => RolloutKeepsInv(s, r, change, reason);
    case RestoreOp(kind, id, eventId, reason) => RestoreKeepsInv(s, kind, id, eventId, reason);
    case OutsideOp(modules, businesses) => OutsideKeepsInv(s, modules, businesses);
  }

  lemma RestoreKeepsInv(s: Store, kind: Kind, id: Option<nat>, eventId: nat, reason: string)
    requires Inv(s)
    ensures Inv(Restore(s, kind, id, eventId, reason).0)
  {
    hide Inv, Edit, Versions, FormOf;
    if Restore(s, kind, id, eventId, reason).0 != s {
      var r := if kind == PolicyTable then POLICY else Resource(kind, id.value);
      EditKeepsInv(s, r, FormOf(s.log[eventId].after.value), Trim(reason));
    }
  }

  lemma OutsideKeepsInv(s: Store, modules: set<string>, businesses: set<string>)
    requires Inv(s)
    ensures Inv(s.(modules := modules, businesses := businesses))
  {
    hide RowInv, Versions;
    var s' := s.(modules := modules, businesses := businesses);
    forall r | r in s'.rows ensures RowInv(s', r) {
      assert RowInv(s, r) && History(s', r) == History(s, r);
      RowKept(s, s', r);
    }
  }

  /** Over every run: rows stay well formed, every resource's events chain, and its last event left the row
      as it is now. */
  lemma {:induction false} EveryRunKeepsInv(s: Store, ops: seq<Op>)
    requires Inv(s)
    ensures Inv(Run(s, ops))
    decreases |ops|
  {
    hide Inv, Step;
    if ops != [] {
      EveryRunKeepsInv(s, ops[..|ops| - 1]);
      StepKeepsInv(Run(s, ops[..|ops| - 1]), ops[|ops| - 1]);
    }
  }

  /** A refused operation of any kind changes nothing. */
  lemma RefusalChangesNothing(s: Store, op: Op)
    ensures Step(s, op).1.Refused? ==> Step(s, op).0 == s
  {
    hide ReadForm, Allowed, Commit, Versions, Trim, KeyTaken, FormOf, FormKind, KnownModules, MaintenanceFields;
  }

  predicate OnlyAdds(s: Store, s': Store) {
    |s.log| <= |s'.log| <= |s.log| + 1 && s'.log[..|s.log|] == s.log
  }

  lemma EditOnlyAdds(s: Store, r: Resource, form: Form, reason: string)
    ensures OnlyAdds(s, Edit(s, r, form, reason).0)
  {
    hide ReadForm, Allowed, Trim;
  }

  /** The log only grows, by one event at most, and what past events recorded stays as it was. */
  lemma HistoryIsAppendOnly(s: Store, op: Op)
    ensures var s' := Step(s, op).0;
      && |s.log| <= |s'.log| <= |s.log| + 1
      && forall i :: 0 <= i < |s.log| ==>
           && s'.log[i].kind == s.log[i].kind && s'.log[i].before == s.log[i].before
           && s'.log[i].after == s.log[i].after && s'.log[i].reason == s.log[i].reason
           && (!op.DeleteOp? ==> s'.log[i] == s.log[i])
  {
    hide ReadForm, Allowed, Versions, Trim, KeyTaken, Edit, End, ChangeRollout, Create, Delete, Restore;
    match op
    case EditOp(r, form, reason) => EditOnlyAdds(s, r, form, reason);
    case RestoreOp(kind, id, eventId, reason) => RestoreOnlyAdds(s, kind, id, eventId, reason);
    case CreateOp(r, identity, form, reason) => CreateOnlyAdds(s, r, identity, form, reason);
    case DeleteOp(r, reason) => DeleteAddsAndUnlinks(s, r, reason);
    case EndOp(r, now, reason) => EndOnlyAdds(s, r, now, reason);
    case RolloutOp(r, change, reason) => RolloutOnlyAdds(s, r, change, reason);
    case OutsideOp(_, _) =>
  }

  lemma RestoreOnlyAdds(s: Store, kind: Kind, id: Option<nat>, eventId: nat, reason: string)
    ensures OnlyAdds(s, Restore(s, kind, id, eventId, reason).0)
  {
    hide Edit, Versions, FormOf, Trim;
    if Restore(s, kind, id, eventId, reason).0 != s {
      var r := if kind == PolicyTable then POLICY else Resource(kind, id.value);
      EditOnlyAdds(s, r, FormOf(s.log[eventId].after.value), Trim(reason));
    }
  }

  lemma CreateOnlyAdds(s: Store, r: Resource, identity: Identity, form: Form, reason: string)
    ensures OnlyAdds(s, Create(s, r, identity, form, reason).0)
  {
    hide ReadForm, Allowed, Trim, KeyTaken;
  }

  lemma DeleteAddsAndUnlinks(s: Store, r: Resource, reason: string)
    ensures var s' := Delete(s, r, reason).0;
      && |s.log| <= |s'.log| <= |s.log| + 1
      && forall i :: 0 <= i < |s.log| ==> s'.log[i] == s.log[i] || s'.log[i] == Unlinked(s.log[i], r)
  {
    hide Trim;
  }

  lemma EndOnlyAdds(s: Store, r: Resource, now: Time, reason: string)
    ensures OnlyAdds(s, End(s, r, now, reason).0)
  {
    hide Allowed, Trim;
  }

  lemma RolloutOnlyAdds(s: Store, r: Resource, change: FeatureRollout.Change, reason: string)
    ensures OnlyAdds(s, ChangeRollout(s, r, change, reason).0)
  {
    hide Trim, FeatureRollout.SetRollout, FeatureRollout.Rollback;
  }

  // ---------------------------------------------------------------------------------------------
  // Restoring
  // ---------------------------------------------------------------------------------------------

  /** The conditions the dispatcher and the database check before a restore goes through: version k of r is
      on the list and not the newest, the reason fits, and its modules still exist. */
  ghost predicate Restorable(s: Store, r: Resource, eventId: nat, reason: string) {
    && r in s.rows && r.kind != Other && GoodReason(reason)
    && eventId in History(s, r) && eventId != History(s, r)[|History(s, r)| - 1]
    && s.log[eventId].after.Some? && KnownModules(s.log[eventId].after.value.patch, s.modules)
  }

  /** The row after a restore: the version's editable fields on the current row's identity and rollout. */
  function RestoredRow(s: Store, r: Resource, version: Row): Row
    requires r in s.rows
  {
    s.rows[r].(patch := version.patch)
  }

  lemma AllowedByIdentity(a: Row, b: Row)
    requires a.patch == b.patch && a.identity == b.identity && Allowed(a)
    ensures Allowed(b)
  {
    hide Trim;
  }

  lemma TrimmedReason(reason: string)
    requires GoodReason(reason)
    ensures Trim(reason) != "" && GoodReason(Trim(reason)) && Trim(Trim(reason)) == Trim(reason)
  {
    TrimTwice(reason);
  }

  lemma VersionFits(s: Store, r: Resource, eventId: nat)
    requires Inv(s) && r in s.rows && eventId in History(s, r)
    ensures EventFits(s.log[eventId], r, s.rows[r]) && KindOf(s.rows[r].identity) == r.kind
  {
    hide EventFits, History, Matched, Allowed;
    assert RowInv(s, r);
    var ids := History(s, r);
    var i :| 0 <= i < |ids| && ids[i] == eventId;
    assert EventFits(s.log[ids[i]], r, s.rows[r]);
  }

  lemma RowFits(s: Store, r: Resource)
    requires Inv(s) && r in s.rows
    ensures Matched(s.rows[r]) && KindOf(s.rows[r].identity) == r.kind
  {
    hide Allowed, History, EventFits, Matched, Chained;
    assert RowInv(s, r);
  }

  lemma FormOfKind(row: Row)
    requires Matched(row)
    ensures FormKind(FormOf(row)) == KindOf(row.identity)
  {
    hide PriceText, IntText, Join, NumberText;
  }

  /** A version's form belongs to its row's kind, and restoring is one edit with it. */
  lemma RestoreIsEdit(s: Store, r: Resource, eventId: nat, reason: string)
    requires Inv(s) && Restorable(s, r, eventId, reason)
    ensures Restore(s, r.kind, Some(r.id), eventId, reason)
         == Edit(s, r, FormOf(s.log[eventId].after.value), Trim(reason))
    ensures FormKind(FormOf(s.log[eventId].after.value)) == r.kind
    ensures EventFits(s.log[eventId], r, s.rows[r])
  {
    hide Allowed, Edit, Trim, FormOf, FormKind, Matched, Versions, RowInv, KnownModules;
    TrimmedReason(reason);
    VersionFits(s, r, eventId);
    FormOfKind(s.log[eventId].after.value);
  }

  /** Restoring version k of a reachable store goes through and appends exactly one event, from the current row
      to that row with version k's editable fields; identity (plan key, flag key and scope, announcement type
      and audience) and rollout stay; and all this holds if and only if version k is canonical. */
  lemma RestoreIsExactIffCanonical(s: Store, r: Resource, eventId: nat, reason: string)
    requires Inv(s) && Restorable(s, r, eventId, reason)
    ensures var version := s.log[eventId].after.value;
      var (s', outcome) := Restore(s, r.kind, Some(r.id), eventId, reason);
      Canonical(version) <==>
        && outcome == Done
        && s' == Commit(s, r, RestoredRow(s, r, version), Trim(reason))
  {
    hide Canonical, ReadForm, FormOf, FormKind, Allowed, Versions, Trim, Edit, Restore, Inv, KnownModules, Matched,
      Commit;
    var version := s.log[eventId].after.value;
    var form := FormOf(version);
    RestoreIsEdit(s, r, eventId, reason);
    TrimmedReason(reason);
    SnapshotReadsBack(version);
    if Canonical(version) {
      AllowedByIdentity(version, RestoredRow(s, r, version));
      EditGoesThrough(s, r, form, Trim(reason));
    } else {
      EditWritesForm(s, r, form, Trim(reason));
      CommitWrites(s, r, RestoredRow(s, r, version), Trim(reason));
    }
  }

  lemma EditGoesThrough(s: Store, r: Resource, form: Form, reason: string)
    requires GoodReason(reason) && FormKind(form) == r.kind && ReadForm(form).Some? && r in s.rows
    requires KnownModules(ReadForm(form).value, s.modules)
    requires Allowed(s.rows[r].(patch := ReadForm(form).value))
    ensures Edit(s, r, form, reason) == (Commit(s, r, s.rows[r].(patch := ReadForm(form).value), Trim(reason)), Done)
  {
    hide ReadForm, Allowed, Trim, KnownModules, FormKind, Commit;
  }

  lemma EditWritesForm(s: Store, r: Resource, form: Form, reason: string)
    ensures var (s', outcome) := Edit(s, r, form, reason);
      outcome == Done ==> r in s'.rows && ReadForm(form) == Some(s'.rows[r].patch)
  {
    hide ReadForm, Allowed, Trim, KnownModules, FormKind;
  }

  lemma CommitWrites(s: Store, r: Resource, row: Row, reason: string)
    requires r in s.rows
    ensures r in Commit(s, r, row, reason).rows && Commit(s, r, row, reason).rows[r] == row
  {}

  lemma LastVersionIsRow(s: Store, r: Resource)
    requires Inv(s) && r in s.rows && History(s, r) != []
    ensures s.log[History(s, r)[|History(s, r)| - 1]].after == Some(s.rows[r])
  {
    hide Matched, Allowed, History;
    assert RowInv(s, r);
  }

  lemma EditCommits(s: Store, r: Resource, form: Form, reason: string)
    requires Edit(s, r, form, reason).1 == Done
    ensures r in s.rows && ReadForm(form).Some?
    ensures Edit(s, r, form, reason).0 == Commit(s, r, s.rows[r].(patch := ReadForm(form).value), Trim(reason))
  {
    hide ReadForm, Allowed, Trim, KnownModules, FormKind, Commit;
  }

  /** After an edit the version that was current before it is on the list, one place from the end. */
  lemma EditLeavesVersion(s: Store, r: Resource, form: Form, reason: string, again: string)
    requires Inv(s) && Edit(s, r, form, reason).1 == Done && GoodReason(again)
    requires r in s.rows && History(s, r) != [] && KnownModules(s.rows[r].patch, s.modules)
    ensures var current, s1 := History(s, r)[|History(s, r)| - 1], Edit(s, r, form, reason).0;
      && Inv(s1) && Restorable(s1, r, current, again)
      && s1.log[current].after == Some(s.rows[r]) && RestoredRow(s1, r, s.rows[r]) == s.rows[r]
      && s1.rows == s.rows[r := s1.rows[r]] && |s1.log| == |s.log| + 1
  {
    hide Versions, Trim, Inv, KnownModules, Matched, Allowed, Edit, ReadForm;
    var ids, s1 := History(s, r), Edit(s, r, form, reason).0;
    var current := ids[|ids| - 1];
    EditKeepsInv(s, r, form, reason);
    EditCommits(s, r, form, reason);
    LastVersionIsRow(s, r);
    RowFits(s, r);
    VersionsAppend(s.log, s1.log[|s.log|], r.kind, Some(r.id));
    assert History(s1, r) == ids + [|s.log|];
    assert (ids + [|s.log|])[|ids| - 1] == current;
    assert s1.log[current] == s.log[current];
  }

  /** Any edit of a row with a history can be undone: restoring the version that was current before it goes through
      and gives back exactly the rows before, if and only if the row before was canonical. */
  lemma RestoreUndoesEdit(s: Store, r: Resource, form: Form, reason: string, again: string)
    requires Inv(s) && Edit(s, r, form, reason).1 == Done && GoodReason(again)
    requires r in s.rows && History(s, r) != [] && KnownModules(s.rows[r].patch, s.modules)
    ensures var current := History(s, r)[|History(s, r)| - 1];
      var (s2, outcome) := Restore(Edit(s, r, form, reason).0, r.kind, Some(r.id), current, again);
      Canonical(s.rows[r]) <==> outcome == Done && s2.rows == s.rows && |s2.log| == |s.log| + 2
  {
    hide Canonical, Versions, Restore, Trim, Inv, KnownModules, Matched, Allowed, Edit, Restorable, History;
    var current, s1 := History(s, r)[|History(s, r)| - 1], Edit(s, r, form, reason).0;
    EditLeavesVersion(s, r, form, reason, again);
    RestoreIsExactIffCanonical(s1, r, current, again);
    if Canonical(s.rows[r]) {
      assert s1.rows[r := s.rows[r]] == s.rows;
    } else {
      RestoreIsEdit(s1, r, current, again);
      EditWritesForm(s1, r, FormOf(s.rows[r]), Trim(again));
      RowFits(s, r);
      SnapshotReadsBack(s.rows[r]);
    }
  }

  /** So can any restore that goes through, exact or not. */
  lemma RestoreUndoesRestore(s: Store, r: Resource, eventId: nat, reason: string, again: string)
    requires Inv(s) && Restorable(s, r, eventId, reason) && GoodReason(again)
    requires Restore(s, r.kind, Some(r.id), eventId, reason).1 == Done
    requires KnownModules(s.rows[r].patch, s.modules)
    ensures var current := History(s, r)[|History(s, r)| - 1];
      var s1 := Restore(s, r.kind, Some(r.id), eventId, reason).0;
      var (s2, outcome) := Restore(s1, r.kind, Some(r.id), current, again);
      Canonical(s.rows[r]) <==> outcome == Done && s2.rows == s.rows && |s2.log| == |s.log| + 2
  {
    hide Canonical, Versions, Restore, Trim, Inv, KnownModules, Matched, Allowed, Edit;
    RestoreIsEdit(s, r, eventId, reason);
    RestoreUndoesEdit(s, r, FormOf(s.log[eventId].after.value), Trim(reason), again);
  }

  // ---------------------------------------------------------------------------------------------
  // Which runs stay canonical
  // ---------------------------------------------------------------------------------------------

  ghost predicate AllCanonical(s: Store) {
    && (forall r :: r in s.rows ==> Canonical(s.rows[r]))
    && forall e :: e in s.log && e.after.Some? ==> Canonical(e.after.value)
  }

  /** An announcement is ended on a whole millisecond. */
  predicate Orderly(op: Op) { op.EndOp? ==> op.now % 1000 == 0 }

  lemma CommitKeepsCanonical(s: Store, r: Resource, row: Row, reason: string)
    requires AllCanonical(s) && r in s.rows && Canonical(row)
    ensures AllCanonical(Commit(s, r, row, reason))
  {
    hide Canonical;
  }

  /** Every edit that goes through keeps every version canonical, whatever type its form names: fields of another
      type are cleared by the form or refused by the table. */
  lemma EditKeepsCanonical(s: Store, r: Resource, form: Form, reason: string)
    requires Inv(s) && AllCanonical(s)
    ensures AllCanonical(Edit(s, r, form, reason).0)
  {
    hide Canonical, ReadForm, Allowed, Trim, Commit, FitsType;
    if Edit(s, r, form, reason).0 != s {
      var row := s.rows[r].(patch := ReadForm(form).value);
      ReadFormKind(form);
      RowFits(s, r);
      EditFitsType(s.rows[r], row);
      WrittenIsCanonical(form, row);
      CommitKeepsCanonical(s, r, row, Trim(reason));
    }
  }

  lemma EditFitsType(before: Row, after: Row)
    requires Canonical(before) && Matched(before) && Matched(after) && before.identity == after.identity
    requires Allowed(after)
    ensures FitsType(after)
  {
    hide Trim, TidyText, TidyModules;
  }

  lemma RolloutKeepsCanonical(s: Store, r: Resource, change: FeatureRollout.Change, reason: string)
    requires AllCanonical(s)
    ensures AllCanonical(ChangeRollout(s, r, change, reason).0)
  {
    hide Trim, FeatureRollout.SetRollout, FeatureRollout.Rollback;
  }

  lemma EndKeepsCanonical(s: Store, r: Resource, now: Time, reason: string)
    requires Inv(s) && AllCanonical(s) && now % 1000 == 0
    ensures AllCanonical(End(s, r, now, reason).0)
  {
    hide Trim, Commit;
    var s' := End(s, r, now, reason).0;
    if s' != s {
      assert RowInv(s, r);
      var p := s.rows[r].patch;
      var p' := if p.publishAt.Some? && p.publishAt.value > now then p.(noticeEnabled := false)
                else p.(expireAt := Some(now));
      EndedIsCanonical(s.rows[r], s.rows[r].(patch := p'), now);
      CommitKeepsCanonical(s, r, s.rows[r].(patch := p'), Trim(reason));
    }
  }

  lemma EndedIsCanonical(row: Row, ended: Row, now: Time)
    requires row.patch.NoticePatch? && Canonical(row) && Allowed(ended)
    requires ended == row.(patch := row.patch.(noticeEnabled := false))
          || (ended == row.(patch := row.patch.(expireAt := Some(now))) && now % 1000 == 0)
    ensures Canonical(ended)
  {
    hide Trim, Trimmed, TidyModules;
  }

  lemma StepKeepsCanonical(s: Store, op: Op)
    requires Inv(s) && AllCanonical(s) && Orderly(op)
    ensures AllCanonical(Step(s, op).0)
  {
    hide Canonical, Edit, ChangeRollout, End, Versions, Inv;
    match op
    case EditOp(r, form, reason) => EditKeepsCanonical(s, r, form, reason);
    case CreateOp(r, identity, form, reason) => CreateKeepsCanonical(s, r, identity, form, reason);
    case DeleteOp(r, reason) => DeleteKeepsCanonical(s, r, reason);
    case EndOp(r, now, reason) => EndKeepsCanonical(s, r, now, reason);
    case RolloutOp(r, change, reason) => RolloutKeepsCanonical(s, r, change, reason);
    case RestoreOp(kind, id, eventId, reason) => RestoreKeepsCanonical(s, kind, id, eventId, reason);
    case OutsideOp(_, _) =>
  }

  lemma CreateKeepsCanonical(s: Store, r: Resource, identity: Identity, form: Form, reason: string)
    requires AllCanonical(s)
    ensures AllCanonical(Create(s, r, identity, form, reason).0)
  {
    hide Canonical, ReadForm, Allowed, Trim, KeyTaken, MaintenanceFields, KnownModules, FitsType;
    var (s', outcome) := Create(s, r, identity, form, reason);
    if outcome == Done {
      ReadFormKind(form);
      CreatedFitsType(s, r, identity, form, reason);
      WrittenIsCanonical(form, s'.rows[r]);
    }
  }

  lemma CreatedFitsType(s: Store, r: Resource, identity: Identity, form: Form, reason: string)
    requires Create(s, r, identity, form, reason).1 == Done
    ensures var s' := Create(s, r, identity, form, reason).0; r in s'.rows && FitsType(s'.rows[r])
  {
    hide Trim, KeyTaken, MaintenanceFields, KnownModules, Allowed, ReadModules, ReadPlan, ReadFlag, ReadPolicies;
  }

  lemma DeleteKeepsCanonical(s: Store, r: Resource, reason: string)
    requires AllCanonical(s)
    ensures AllCanonical(Delete(s, r, reason).0)
  {
    hide Canonical, Trim;
    var (s', outcome) := Delete(s, r, reason);
    if outcome == Done {
      forall e | e in s'.log && e.after.Some? ensures Canonical(e.after.value) {
        var i :| 0 <= i < |s'.log| && s'.log[i] == e;
        assert i < |s.log| && s.log[i] in s.log && e == Unlinked(s.log[i], r);
      }
    }
  }

  lemma RestoreKeepsCanonical(s: Store, kind: Kind, id: Option<nat>, eventId: nat, reason: string)
    requires Inv(s) && AllCanonical(s)
    ensures AllCanonical(Restore(s, kind, id, eventId, reason).0)
  {
    hide Canonical, Edit, Trim, Allowed, FormOf, Matched, Inv, AllCanonical, Versions;
    if Restore(s, kind, id, eventId, reason).0 != s {
      var r := if kind == PolicyTable then POLICY else Resource(kind, id.value);
      EditKeepsCanonical(s, r, FormOf(s.log[eventId].after.value), Trim(reason));
    }
  }

  predicate OrderlyRun(ops: seq<Op>) { forall op :: op in ops ==> Orderly(op) }

  /** Every version recorded in a run of creates, edits, deletions, rollout changes, restores and ends on whole
      milliseconds is canonical. */
  lemma {:induction false} OrderlyRunsStayCanonical(s: Store, ops: seq<Op>)
    requires Inv(s) && AllCanonical(s) && OrderlyRun(ops)
    ensures Inv(Run(s, ops)) && AllCanonical(Run(s, ops))
    decreases |ops|
  {
    hide Inv, AllCanonical, Orderly, Step;
    if ops != [] {
      var front := ops[..|ops| - 1];
      OrderlyRunsStayCanonical(s, front);
      StepKeepsInv(Run(s, front), ops[|ops| - 1]);
      assert ops[|ops| - 1] in ops;
      StepKeepsCanonical(Run(s, front), ops[|ops| - 1]);
    }
  }

  /** After any orderly run, every earlier version of every resource can be restored exactly. */
  lemma AnyVersionAfterAnyRun(s: Store, ops: seq<Op>, r: Resource, eventId: nat, reason: string)
    requires Inv(s) && AllCanonical(s) && OrderlyRun(ops)
    requires Restorable(Run(s, ops), r, eventId, reason)
    ensures var now := Run(s, ops);
      var version := now.log[eventId].after.value;
      Restore(now, r.kind, Some(r.id), eventId, reason)
      == (Commit(now, r, RestoredRow(now, r, version), Trim(reason)), Done)
  {
    hide Inv, Canonical, Restore, Versions, Trim;
    OrderlyRunsStayCanonical(s, ops);
    var now := Run(s, ops);
    assert now.log[eventId] in now.log;
    RestoreIsExactIffCanonical(now, r, eventId, reason);
  }

  // ---------------------------------------------------------------------------------------------
  // A version that does not come back
  // ---------------------------------------------------------------------------------------------

  /** An announcement ended between two milliseconds records a version no restore can give back: the version
      is not canonical, so the restored end is another one. */
  lemma EndedBetweenMillisecondsIsNotExact(row: Row, now: Time)
    requires row.patch.NoticePatch? && row.identity.NoticeIdentity? && row.rollout.None? && now % 1000 != 0
    ensures var ended := row.(patch := row.patch.(expireAt := Some(now)));
      !Canonical(ended) && ReadForm(FormOf(ended)) != Some(ended.patch)
  {
    hide ReadForm, FormOf, Trim, Trimmed;
    SnapshotReadsBack(row.(patch := row.patch.(expireAt := Some(now))));
  }
}
