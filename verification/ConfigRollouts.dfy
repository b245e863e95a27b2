/** Rollout changes on the stored flags: what set_feature_flag_rollout and rollback_feature_flag of
    20261017130000_platform_feature_flag_rollout.sql do to the rows of the configuration tables. */
module ConfigRollouts {
  import opened Text
  import opened SnapshotForms
  import opened ConfigHistory
  import opened ConfigRuns
  import FeatureRollout

  /** A stored flag with its rollout columns. */
  ghost predicate IsFlag(s: Store, r: Resource) {
    && r in s.rows && r.kind == Flags && s.rows[r].identity.FlagIdentity? && s.rows[r].patch.FlagPatch?
    && s.rows[r].rollout.Some?
  }

  /** The switch a flag's columns stand for. */
  ghost function SwitchOf(s: Store, r: Resource): FeatureRollout.Switch
    requires IsFlag(s, r)
  {
    FeatureRollout.Switch(s.rows[r].patch.flagEnabled, s.rows[r].rollout.value.current,
                          s.rows[r].rollout.value.lastGood)
  }

  /** Everything but the switch of one flag is as it was. */
  ghost predicate OnlySwitched(s: Store, s': Store, r: Resource)
    requires IsFlag(s, r) && IsFlag(s', r)
  {
    && s'.rows.Keys == s.rows.Keys && (forall k :: k in s.rows && k != r ==> s'.rows[k] == s.rows[k])
    && s'.rows[r].identity == s.rows[r].identity
    && s'.rows[r].patch == s.rows[r].patch.(flagEnabled := s'.rows[r].patch.flagEnabled)
    && s'.modules == s.modules && s'.businesses == s.businesses
  }

  lemma FlagsAreFlags(s: Store, r: Resource)
    requires Inv(s) && r in s.rows && r.kind == Flags
    ensures IsFlag(s, r) && Matched(s.rows[r])
  {
    hide Chained, Allowed, EventFits, History, Versions;
    assert RowInv(s, r);
  }

  /** A rollout change of a stored flag is the change of its switch, and of nothing else: it goes through exactly when
      the change of the switch does, and writes one event exactly when that differs from what was there. */
  lemma StoredChangeIsDo(s: Store, r: Resource, change: FeatureRollout.Change, reason: string)
    requires Inv(s) && r in s.rows && r.kind == Flags && GoodReason(reason)
    ensures IsFlag(s, r)
    ensures var (s', outcome) := Step(s, RolloutOp(r, change, reason));
      && IsFlag(s', r) && OnlySwitched(s, s', r)
      && SwitchOf(s', r) == FeatureRollout.Do(KnownTo(s), SwitchOf(s, r), change)
      && (outcome == Done <==>
            match change
            case Set(setting) => FeatureRollout.SetRollout(KnownTo(s), SwitchOf(s, r), setting).Some?
            case RollBack => FeatureRollout.Rollback(SwitchOf(s, r)).Some?)
      && s'.log == if SwitchOf(s', r) == SwitchOf(s, r) then s.log
                   else s.log + [Event(Flags, Some(r.id), Some(s.rows[r]), Some(s'.rows[r]), Trim(reason))]
  {
    hide Inv, Trim, FeatureRollout.SetRollout, FeatureRollout.Rollback, KnownTo, Matched;
    FlagsAreFlags(s, r);
  }

  /** A setting that goes through and changes a flag stores the setting and remembers what it replaced. */
  lemma SetRemembersOnTheRow(s: Store, r: Resource, setting: FeatureRollout.Rollout, reason: string)
    requires Inv(s) && ChangeRollout(s, r, FeatureRollout.Set(setting), reason).0 != s
    ensures IsFlag(s, r)
    ensures var s' := ChangeRollout(s, r, FeatureRollout.Set(setting), reason).0;
      && IsFlag(s', r) && OnlySwitched(s, s', r)
      && s'.rows[r].patch.flagEnabled == s.rows[r].patch.flagEnabled
      && s'.rows[r].rollout.value.current == FeatureRollout.Stored(setting) != s.rows[r].rollout.value.current
      && s'.rows[r].rollout.value.lastGood == Some(s.rows[r].rollout.value.current)
  {
    hide Inv, Trim, KnownTo, Matched, FeatureRollout.Stored, FeatureRollout.AllKnown;
    FlagsAreFlags(s, r);
    StoredChangeIsDo(s, r, FeatureRollout.Set(setting), reason);
  }

  /** A rollback right after such a setting goes through, whatever businesses and modules come and go in between: the
      flag has its former rollout again, is on or off as before, and remembers nothing; every other row is as it was;
      and both changes are in the log. */
  lemma RollbackGivesBackTheRow(
    s: Store, r: Resource, setting: FeatureRollout.Rollout, reason: string, again: string, modules: set<string>,
    businesses: set<string>)
    requires Inv(s) && ChangeRollout(s, r, FeatureRollout.Set(setting), reason).0 != s && GoodReason(again)
    ensures IsFlag(s, r)
    ensures var s1 := ChangeRollout(s, r, FeatureRollout.Set(setting), reason).0;
      var s2 := Step(s1, OutsideOp(modules, businesses)).0;
      var (s3, outcome) := ChangeRollout(s2, r, FeatureRollout.RollBack, again);
      && outcome == Done
      && s3.rows == s.rows[r := s.rows[r].(rollout := Some(FlagRollout(s.rows[r].rollout.value.current, None)))]
      && |s3.log| == |s.log| + 2 && s3.log[..|s.log|] == s.log
  {
    hide Inv, Trim, KnownTo, Matched, FeatureRollout.Stored, FeatureRollout.AllKnown, FeatureRollout.SetRollout;
    FlagsAreFlags(s, r);
    SetRemembersOnTheRow(s, r, setting, reason);
    StoredChangeIsDo(s, r, FeatureRollout.Set(setting), reason);
    var s1 := ChangeRollout(s, r, FeatureRollout.Set(setting), reason).0;
    RolloutKeepsInv(s, r, FeatureRollout.Set(setting), reason);
    OutsideKeepsInv(s1, modules, businesses);
    var s2 := s1.(modules := modules, businesses := businesses);
    StoredChangeIsDo(s2, r, FeatureRollout.RollBack, again);
    var s3 := ChangeRollout(s2, r, FeatureRollout.RollBack, again).0;
    assert s3.rows[r].rollout.value == FlagRollout(s.rows[r].rollout.value.current, None);
  }
}
