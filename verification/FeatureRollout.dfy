/** Staged feature rollout: packages/core/src/admin/platform-feature-rollout.ts,
    platform-feature-rollout-rules.ts and the functions of 20261017130000_platform_feature_flag_rollout.sql. */
module FeatureRollout {
  import opened Text
  import opened Decimal
  import opened Json

  datatype Stage = Internal | Pilot | SelectedPlans | All

  datatype Rollout = Rollout(stage: Stage, percentage: int, businessIds: seq<string>, planKeys: seq<string>)

  datatype Business = Business(id: string, planKey: Option<string>)

  /** The deterministic bucket of a flag and a business, abstract but always in 0..99. */
  type Buckets = (string, string) -> int

  ghost predicate InRange(bucket: Buckets) {
    forall key, id :: 0 <= bucket(key, id) < 100
  }

  predicate InRollout(bucket: Buckets, key: string, r: Rollout, b: Business) {
    || r.stage == All
    || b.id in r.businessIds
    || ((r.stage == Pilot || r.stage == SelectedPlans) && bucket(key, b.id) < r.percentage)
    || (r.stage == SelectedPlans && b.planKey.Some? && b.planKey.value in r.planKeys)
  }

  /** Who is in, stage by stage, and that nobody else is: a listed business at every stage; at Pilot also a business
      whose bucket is below the percentage; at Selected Plans also one on a listed plan; at All Customers everybody. */
  lemma WhoIsIn(bucket: Buckets, key: string, r: Rollout, b: Business)
    ensures b.id in r.businessIds ==> InRollout(bucket, key, r, b)
    ensures b.id !in r.businessIds ==>
      match r.stage
      case Internal => !InRollout(bucket, key, r, b)
      case Pilot => InRollout(bucket, key, r, b) <==> bucket(key, b.id) < r.percentage
      case SelectedPlans =>
        InRollout(bucket, key, r, b) <==>
          bucket(key, b.id) < r.percentage || exists k :: k in r.planKeys && b.planKey == Some(k)
      case All => InRollout(bucket, key, r, b)
  {}

  // Stages -------------------------------------------------------------------------------------------

  const STAGES: seq<Stage> := [Internal, Pilot, SelectedPlans, All]

  function StageIndex(s: Stage): (i: nat)
    ensures i < 4 && STAGES[i] == s
  {
    match s case Internal => 0 case Pilot => 1 case SelectedPlans => 2 case All => 3
  }

  function NextStage(s: Stage): Option<Stage> {
    if StageIndex(s) < 3 then Some(STAGES[StageIndex(s) + 1]) else None
  }

  predicate IsLater(candidate: Stage, current: Stage) { StageIndex(candidate) > StageIndex(current) }

  // Normalisation ------------------------------------------------------------------------------------

  /** [...new Set(s)]: the first of each, in order. */
  function Dedupe(s: seq<string>): (r: seq<string>)
    ensures forall x :: x in r <==> x in s
    ensures forall i, j :: 0 <= i < j < |r| ==> r[i] != r[j]
  {
    if s == [] then []
    else
      var front := Dedupe(s[..|s| - 1]);
      assert s == s[..|s| - 1] + [s[|s| - 1]];
      if s[|s| - 1] in front then front else front + [s[|s| - 1]]
  }

  /** The form's own normalisation: no percentage at Internal, plans only from Selected Plans on. */
  function Normalize(r: Rollout): Rollout {
    Rollout(r.stage, if r.stage == Internal then 0 else r.percentage, r.businessIds,
            if r.stage == Internal || r.stage == Pilot then [] else Dedupe(r.planKeys))
  }

  /** What the form accepts. */
  predicate Acceptable(r: Rollout) {
    && 0 <= r.percentage <= 100 && |r.businessIds| <= 500 && |r.planKeys| <= 50
    && (r.stage == SelectedPlans ==> r.planKeys != [])
  }

  /** Normalising a rollout changes nobody's membership. */
  lemma NormalizeKeepsMembers(bucket: Buckets, key: string, r: Rollout, b: Business)
    ensures InRollout(bucket, key, Normalize(r), b) <==> InRollout(bucket, key, r, b)
  {}

  // Widening -----------------------------------------------------------------------------------------

  /** The second setting is at least as wide in every respect. */
  predicate Widens(a: Rollout, b: Rollout) {
    && StageIndex(a.stage) <= StageIndex(b.stage)
    && a.percentage <= b.percentage
    && (forall id :: id in a.businessIds ==> id in b.businessIds)
    && forall k :: k in a.planKeys ==> k in b.planKeys
  }

  /** Each setting widens the one before it. */
  ghost predicate Widening(run: seq<Rollout>) {
    forall i, j :: 0 <= i < j < |run| && j == i + 1 ==> Widens(run[i], run[j])
  }

  /** A business in the rollout stays in through any run of widening settings, taken raw, as the form normalises them
      or as the database stores them. */
  lemma {:induction false} NobodyFallsOut(bucket: Buckets, key: string, run: seq<Rollout>, b: Business)
    requires run != [] && Widening(run)
    requires InRollout(bucket, key, run[0], b)
    ensures InRollout(bucket, key, run[|run| - 1], b)
    ensures InRollout(bucket, key, Normalize(run[|run| - 1]), b)
    ensures InRollout(bucket, key, Stored(run[|run| - 1]), b)
  {
    var last := run[|run| - 1];
    if |run| > 1 {
      var front := run[..|run| - 1];
      assert Widening(front) by {
        forall i, j | 0 <= i < j < |front| && j == i + 1 ensures Widens(front[i], front[j]) {
          assert front[i] == run[i] && front[j] == run[j];
        }
      }
      NobodyFallsOut(bucket, key, front, b);
      assert Widens(run[|run| - 2], last);
    }
    NormalizeKeepsMembers(bucket, key, last, b);
    StoredKeepsMembers(bucket, key, last, b);
  }

  ghost predicate ReachesEveryone(key: string, r: Rollout) {
    forall bucket: Buckets, b: Business :: InRange(bucket) ==> InRollout(bucket, key, r, b)
  }

  /** Some id is on no finite list. */
  lemma {:induction false} FreshId(ids: seq<string>) returns (id: string)
    ensures forall x :: x in ids ==> |x| < |id|
  {
    if ids == [] {
      id := "";
    } else {
      var other := FreshId(ids[1..]);
      assert ids == [ids[0]] + ids[1..];
      id := if |other| > |ids[0]| then other else ids[0] + "x";
    }
  }

  /** A rollout covers every business, however they fall into buckets, exactly at All Customers and, at the two stages
      with a percentage, at one hundred per cent. */
  lemma ReachesEveryoneIff(key: string, r: Rollout)
    ensures ReachesEveryone(key, r) <==>
      r.stage == All || ((r.stage == Pilot || r.stage == SelectedPlans) && r.percentage >= 100)
  {
    if r.stage == Internal || (r.stage != All && r.percentage < 100) {
      var id := FreshId(r.businessIds);
      var bucket: Buckets := (_, _) => 99;
      var outside := Business(id, None);
      assert InRange(bucket) && !InRollout(bucket, key, r, outside);
    }
  }

  /** The rollout after n presses of "next stage". */
  function Advance(r: Rollout, n: nat): Rollout
    decreases n
  {
    if n == 0 then r
    else
      match NextStage(r.stage)
      case Some(s) => Advance(r.(stage := s), n - 1)
      case None => r
  }

  /** Stepping through the stages never drops anyone and reaches All Customers, and with it everybody, in exactly the
      steps left, at most three. */
  lemma {:induction false} SteppingReachesAll(bucket: Buckets, key: string, r: Rollout, n: nat, b: Business)
    ensures Advance(r, n).stage == All <==> n + StageIndex(r.stage) >= 3
    ensures n + StageIndex(r.stage) >= 3 || n >= 3 ==> InRollout(bucket, key, Advance(r, n), b)
    ensures InRollout(bucket, key, r, b) ==> InRollout(bucket, key, Advance(r, n), b)
    decreases n
  {
    if n > 0 && NextStage(r.stage).Some? {
      SteppingReachesAll(bucket, key, r.(stage := NextStage(r.stage).value), n - 1, b);
    }
  }

  /** A stage is later than another exactly when stepping from the one arrives at the other. */
  lemma LaterIsReachedByStepping(r: Rollout, candidate: Stage)
    ensures IsLater(candidate, r.stage) <==> exists n: nat :: n > 0 && Advance(r, n).stage == candidate != r.stage
  {
    if IsLater(candidate, r.stage) {
      var n := StageIndex(candidate) - StageIndex(r.stage);
      AdvanceIs(r, n);
      assert Advance(r, n).stage == candidate;
    }
    forall n: nat ensures StageIndex(Advance(r, n).stage) >= StageIndex(r.stage) {
      AdvanceIs(r, n);
    }
  }

  lemma {:induction false} AdvanceIs(r: Rollout, n: nat)
    ensures var at := StageIndex(r.stage) + n;
      Advance(r, n) == r.(stage := if at < 3 then STAGES[at] else All)
    decreases n
  {
    if n > 0 && NextStage(r.stage).Some? {
      AdvanceIs(r.(stage := NextStage(r.stage).value), n - 1);
    }
  }

  // The stored flag ----------------------------------------------------------------------------------

  /** The part of a feature flag's row that rollout and rollback change. */
  datatype Switch = Switch(enabled: bool, rollout: Rollout, lastGood: Option<Rollout>)

  predicate Less(a: string, b: string) {
    if b == "" then false
    else if a == "" then true
    else a[0] < b[0] || (a[0] == b[0] && Less(a[1..], b[1..]))
  }

  function InsertDistinct(x: string, s: seq<string>): (r: seq<string>)
    ensures forall y :: y in r <==> y == x || y in s
  {
    if s == [] then [x]
    else if s[0] == x then s
    else if Less(x, s[0]) then [x] + s
    else
      assert s == [s[0]] + s[1..];
      [s[0]] + InsertDistinct(x, s[1..])
  }

  /** array_agg(distinct x order by x). */
  function SortDistinct(s: seq<string>): (r: seq<string>)
    ensures forall y :: y in r <==> y in s
  {
    if s == [] then []
    else
      assert s == [s[0]] + s[1..];
      InsertDistinct(s[0], SortDistinct(s[1..]))
  }

  /** The database's normalisation, which sorts and de-duplicates both lists. */
  function Stored(r: Rollout): Rollout {
    Rollout(r.stage, if r.stage == Internal then 0 else r.percentage, SortDistinct(r.businessIds),
            if r.stage == Internal || r.stage == Pilot then [] else SortDistinct(r.planKeys))
  }

  lemma StoredKeepsMembers(bucket: Buckets, key: string, r: Rollout, b: Business)
    ensures InRollout(bucket, key, Stored(r), b) <==> InRollout(bucket, key, r, b)
  {}

  /** The plan keys and business ids the database holds. */
  datatype Catalog = Catalog(plans: set<string>, businesses: set<string>)

  predicate AllKnown(known: Catalog, r: Rollout) {
    && (forall id :: id in r.businessIds ==> id in known.businesses)
    && forall k :: k in r.planKeys ==> k in known.plans
  }

  /** set_feature_flag_rollout: remembers what it replaced, and leaves everything alone when nothing changes. None when
      the percentage is out of range, a business or plan is unknown, or too many businesses are named. */
  function SetRollout(known: Catalog, s: Switch, r: Rollout): Option<Switch> {
    if r.percentage < 0 || r.percentage > 100 then None
    else if !AllKnown(known, Stored(r)) then None
    else if Stored(r) == s.rollout then Some(s)
    else if |Stored(r).businessIds| > 500 then None
    else Some(Switch(s.enabled, Stored(r), Some(s.rollout)))
  }

  lemma {:induction false} SortDistinctIsShort(s: seq<string>)
    ensures |SortDistinct(s)| <= |s|
  {
    if s != [] {
      SortDistinctIsShort(s[1..]);
      InsertDistinctIsShort(s[0], SortDistinct(s[1..]));
    }
  }

  lemma {:induction false} InsertDistinctIsShort(x: string, s: seq<string>)
    ensures |InsertDistinct(x, s)| <= |s| + 1
  {
    if s != [] {
      InsertDistinctIsShort(x, s[1..]);
    }
  }

  // The stored lists are the same whatever order and repetitions they were submitted with --------------

  lemma {:induction false} LessTotal(a: string, b: string)
    ensures !Less(a, a) && (a == b || Less(a, b) || Less(b, a))
  {
    if a != "" {
      LessTotal(a[1..], if b == "" then b else b[1..]);
      assert a == [a[0]] + a[1..] && (b != "" ==> b == [b[0]] + b[1..]);
    }
  }

  lemma {:induction false} LessTransitive(a: string, b: string, c: string)
    requires Less(a, b) && Less(b, c)
    ensures Less(a, c)
  {
    if a != "" && a[0] == b[0] && b[0] == c[0] {
      LessTransitive(a[1..], b[1..], c[1..]);
    }
  }

  ghost predicate Ascending(s: seq<string>) { forall i, j :: 0 <= i < j < |s| ==> Less(s[i], s[j]) }

  lemma {:induction false} InsertAscends(x: string, s: seq<string>)
    requires Ascending(s)
    ensures Ascending(InsertDistinct(x, s))
  {
    hide Less;
    if s != [] && s[0] != x {
      LessTotal(x, s[0]);
      if Less(x, s[0]) {
        forall i | 0 <= i < |s| ensures Less(x, s[i]) {
          if i > 0 { LessTransitive(x, s[0], s[i]); }
        }
      } else {
        InsertAscends(x, s[1..]);
        forall y | y in InsertDistinct(x, s[1..]) ensures Less(s[0], y) {
          if y != x {
            var i :| 0 <= i < |s[1..]| && s[1..][i] == y;
            assert s[i + 1] == y;
          }
        }
      }
    }
  }

  lemma {:induction false} SortAscends(s: seq<string>)
    ensures Ascending(SortDistinct(s))
  {
    hide Ascending;
    if s == [] {
      assert Ascending([]) by { NothingToSort(); }
    } else {
      SortAscends(s[1..]);
      InsertAscends(s[0], SortDistinct(s[1..]));
    }
  }

  lemma NothingToSort()
    ensures Ascending([])
  {}

  /** Two ascending lists of the same texts are equal. */
  lemma {:induction false} OneAscending(a: seq<string>, b: seq<string>)
    requires Ascending(a) && Ascending(b) && forall x :: x in a <==> x in b
    ensures a == b
  {
    hide Less;
    assert b != [] ==> b[0] in b;
    if a != [] {
      assert a[0] in b && b != [] && b[0] in a;
      SameFirst(a, b);
      assert a == [a[0]] + a[1..] && b == [b[0]] + b[1..];
      forall x ensures x in a[1..] <==> x in b[1..] {
        FirstOnce(a, x);
        FirstOnce(b, x);
      }
      OneAscending(a[1..], b[1..]);
    }
  }

  lemma FirstOnce(a: seq<string>, x: string)
    requires Ascending(a) && a != []
    ensures x in a[1..] <==> x in a && x != a[0]
  {
    hide Less;
    LessTotal(a[0], a[0]);
    if x in a[1..] {
      var i :| 0 <= i < |a[1..]| && a[1..][i] == x;
      assert Less(a[0], a[i + 1]);
    }
    assert a == [a[0]] + a[1..];
  }

  lemma SameFirst(a: seq<string>, b: seq<string>)
    requires Ascending(a) && Ascending(b) && a != [] && b != [] && a[0] in b && b[0] in a
    ensures a[0] == b[0]
  {
    hide Less;
    var i :| 0 <= i < |b| && b[i] == a[0];
    var j :| 0 <= j < |a| && a[j] == b[0];
    if a[0] != b[0] {
      LessTransitive(a[0], b[0], a[0]);
      LessTotal(a[0], a[0]);
    }
  }

  /** The same settings, whatever the order of their lists and however often an entry repeats. */
  ghost predicate SameSettings(a: Rollout, b: Rollout) {
    && a.stage == b.stage && a.percentage == b.percentage
    && (forall id :: id in a.businessIds <==> id in b.businessIds)
    && forall k :: k in a.planKeys <==> k in b.planKeys
  }

  lemma StoredAlike(a: Rollout, b: Rollout)
    requires SameSettings(a, b)
    ensures Stored(a) == Stored(b)
  {
    hide SortDistinct, Ascending;
    SortAscends(a.businessIds);
    SortAscends(b.businessIds);
    SortAscends(a.planKeys);
    SortAscends(b.planKeys);
    OneAscending(SortDistinct(a.businessIds), SortDistinct(b.businessIds));
    OneAscending(SortDistinct(a.planKeys), SortDistinct(b.planKeys));
  }

  /** So setting the same again, in whatever order, changes nothing, and what a rollback would restore stays. */
  lemma SettingAgainChangesNothing(known: Catalog, s: Switch, r: Rollout, again: Rollout)
    requires SetRollout(known, s, r).Some? && SameSettings(r, again)
    ensures var s' := SetRollout(known, s, r).value; SetRollout(known, s', again) == Some(s')
  {
    hide SortDistinct;
    StoredAlike(r, again);
  }

  /** What the form normalises meets the table's constraints, and is stored as what was submitted would be. */
  lemma NormalizedFitsTable(r: Rollout)
    requires Acceptable(r)
    ensures WellStored(Normalize(r)) && Stored(Normalize(r)) == Stored(r)
  {
    hide SortDistinct, Dedupe;
    if r.stage != Internal && r.stage != Pilot { StoredAlike(Normalize(r), r); }
  }

  /** What the form accepts goes through if and only if the database holds every business and plan it names; it then
      puts exactly the submitted businesses in the rollout. */
  lemma AcceptedIsSavedIff(known: Catalog, s: Switch, r: Rollout, bucket: Buckets, key: string, b: Business)
    requires Acceptable(r)
    ensures SetRollout(known, s, Normalize(r)).Some? <==>
      && (forall id :: id in r.businessIds ==> id in known.businesses)
      && (r.stage == SelectedPlans || r.stage == All ==> forall k :: k in r.planKeys ==> k in known.plans)
    ensures SetRollout(known, s, Normalize(r)).Some? ==>
      var saved := SetRollout(known, s, Normalize(r)).value.rollout;
      && (InRollout(bucket, key, saved, b) <==> InRollout(bucket, key, r, b))
      && WellStored(saved) && (r.stage == SelectedPlans ==> saved.planKeys != [])
  {
    hide InRollout, SortDistinct, Dedupe;
    SortDistinctIsShort(r.businessIds);
    NormalizeKeepsMembers(bucket, key, r, b);
    StoredKeepsMembers(bucket, key, Normalize(r), b);
    if r.stage == SelectedPlans {
      assert r.planKeys[0] in Dedupe(r.planKeys);
      assert r.planKeys[0] in SortDistinct(Dedupe(r.planKeys));
    }
  }

  /** The form takes any plan key and the database does not: naming a plan there is none of is accepted by the one
      and refused by the other, even when nothing else would change. */
  lemma UnknownPlanIsRefused(known: Catalog, s: Switch, plan: string)
    requires plan !in known.plans
    ensures var r := Rollout(SelectedPlans, 0, [], [plan]);
      Acceptable(r) && SetRollout(known, s, Normalize(r)).None?
  {
    hide SortDistinct, Dedupe;
    var r := Rollout(SelectedPlans, 0, [], [plan]);
    assert plan in Normalize(r).planKeys;
    assert plan in Stored(Normalize(r)).planKeys;
  }

  /** rollback_feature_flag: the remembered rollout, else off, else refused. */
  function Rollback(s: Switch): Option<Switch> {
    if s.lastGood.Some? then Some(Switch(s.enabled, s.lastGood.value, None))
    else if s.enabled then Some(s.(enabled := false))
    else None
  }

  predicate WellStored(r: Rollout) {
    && 0 <= r.percentage <= 100 && |r.businessIds| <= 500
    && (r.stage == Internal ==> r.percentage == 0)
    && (r.stage == Internal || r.stage == Pilot ==> r.planKeys == [])
  }

  predicate WellSwitched(s: Switch) {
    WellStored(s.rollout) && (s.lastGood.Some? ==> WellStored(s.lastGood.value))
  }

  datatype Change = Set(r: Rollout) | RollBack

  /** A refused change leaves the flag as it was. */
  function Do(known: Catalog, s: Switch, c: Change): Switch {
    match (match c case Set(r) => SetRollout(known, s, r) case RollBack => Rollback(s))
    case Some(s') => s'
    case None => s
  }

  /** A change and what the database holds when it is made. */
  datatype Step = Step(known: Catalog, change: Change)

  function DoAll(s: Switch, steps: seq<Step>): Switch
    decreases |steps|
  {
    if steps == [] then s
    else Do(steps[|steps| - 1].known, DoAll(s, steps[..|steps| - 1]), steps[|steps| - 1].change)
  }

  /** The table's constraints on rollout columns hold after every run, and through the saved rollouts too. */
  lemma {:induction false} ConstraintsHoldInEveryRun(s: Switch, steps: seq<Step>)
    requires WellSwitched(s)
    ensures WellSwitched(DoAll(s, steps))
    decreases |steps|
  {
    if steps != [] {
      ConstraintsHoldInEveryRun(s, steps[..|steps| - 1]);
    }
  }

  /** A rollback right after a change that took effect gives back exactly the rollout before it, whatever plans and
      businesses are left by then; one more rollback turns the flag off; and on a flag that is off, a third is
      refused. */
  lemma RollbackUndoesTheLastChange(known: Catalog, later: Catalog, s: Switch, r: Rollout)
    requires SetRollout(known, s, r).Some? && SetRollout(known, s, r).value != s
    ensures Rollback(SetRollout(known, s, r).value) == Some(Switch(s.enabled, s.rollout, None))
    ensures DoAll(s, [Step(known, Set(r)), Step(later, RollBack), Step(later, RollBack)])
         == Switch(false, s.rollout, None)
    ensures Rollback(Switch(false, s.rollout, None)).None?
  {
    hide SetRollout;
    SetRemembers(known, s, r);
    var a, b := Step(known, Set(r)), Step(later, RollBack);
    var all := [a, b, b];
    assert all[..2] == [a, b] && [a, b][..1] == [a] && [a][..0] == [];
    assert DoAll(s, [a]) == SetRollout(known, s, r).value;
    assert DoAll(s, all[..2]) == Switch(s.enabled, s.rollout, None);
  }

  lemma SetRemembers(known: Catalog, s: Switch, r: Rollout)
    requires SetRollout(known, s, r).Some? && SetRollout(known, s, r).value != s
    ensures SetRollout(known, s, r).value == Switch(s.enabled, Stored(r), Some(s.rollout))
  {}

  /** No chain of rollbacks bounces back: after two in a row the flag is off or nothing is left to restore,
      whatever happened before. */
  lemma RollbacksDoNotBounce(known: Catalog, s: Switch)
    ensures Do(known, Do(known, s, RollBack), RollBack).lastGood.None?
    ensures !Do(known, Do(known, s, RollBack), RollBack).enabled
  {}

  // Snapshots ----------------------------------------------------------------------------------------

  const STAGE_NAMES: seq<string> := ["internal", "pilot", "selected_plans", "all"]

  function StageName(s: Stage): string { STAGE_NAMES[StageIndex(s)] }

  function StageNamed(name: string): Option<Stage> {
    if name == "internal" then Some(Internal)
    else if name == "pilot" then Some(Pilot)
    else if name == "selected_plans" then Some(SelectedPlans)
    else if name == "all" then Some(All)
    else None
  }

  function Strings(s: seq<string>): (r: seq<Value>)
    ensures |r| == |s| && forall i :: 0 <= i < |s| ==> r[i] == Str(s[i])
  {
    seq(|s|, i requires 0 <= i < |s| => Str(s[i]))
  }

  /** The saved form of a rollout. */
  function Snapshot(r: Rollout): Value {
    Obj([Member("rollout_stage", Str(StageName(r.stage))),
         Member("rollout_percentage", Num(IntText(r.percentage))),
         Member("rollout_business_ids", Arr(Strings(r.businessIds))),
         Member("rollout_plan_keys", Arr(Strings(r.planKeys)))])
  }

  /** String(v), and the text an element gives Array.prototype.join. */
  function TextOf(v: Value): string
    decreases v
  {
    match v
    case Null => "null"
    case Bool(b) => if b then "true" else "false"
    case Num(lexeme) => lexeme
    case Str(s) => s
    case Arr(items) => JoinedText(items)
    case Obj(_) => "[object Object]"
  }

  function JoinedText(items: seq<Value>): string
    decreases items
  {
    if items == [] then ""
    else
      var first := if items[0] == Null then "" else TextOf(items[0]);
      if |items| == 1 then first else first + ("," + JoinedText(items[1..]))
  }

  function Texts(v: Option<Value>): seq<string> {
    match v
    case Some(Arr(items)) => seq(|items|, i requires 0 <= i < |items| => TextOf(items[i]))
    case _ => []
  }

  /** Number(v ?? 0), with 0 for anything that is not a finite whole number. */
  function Percentage(v: Option<Value>): int {
    match v
    case None => 0
    case Some(Null) => 0
    case Some(Bool(b)) => if b then 1 else 0
    case Some(Obj(_)) => 0
    case Some(value) => ReadInt(TextOf(value)).GetOr(0)
  }

  /** None for a snapshot without a known stage. */
  function FromSnapshot(v: Value): Option<Rollout> {
    if !v.Obj? then None
    else
      var stage := Field(v.entries, "rollout_stage");
      if !(stage.Some? && stage.value.Str? && StageNamed(stage.value.s).Some?) then None
      else
        Some(Rollout(StageNamed(stage.value.s).value, Percentage(Field(v.entries, "rollout_percentage")),
                     Texts(Field(v.entries, "rollout_business_ids")),
                     Texts(Field(v.entries, "rollout_plan_keys"))))
  }

  lemma StageNames(s: Stage)
    ensures StageNamed(StageName(s)) == Some(s)
  {}

  /** A saved rollout reads back unchanged. */
  lemma SnapshotReadsBack(r: Rollout)
    ensures FromSnapshot(Snapshot(r)) == Some(r)
  {
    hide StageName, StageNamed, IntText, ReadInt;
    StageNames(r.stage);
    ReadIntText(r.percentage);
    var entries := Snapshot(r).entries;
    assert entries[1..][0] == entries[1] && entries[1..][1..][0] == entries[2];
    assert entries[1..][1..][1..][0] == entries[3];
    assert Texts(Some(Arr(Strings(r.businessIds)))) == r.businessIds;
    assert Texts(Some(Arr(Strings(r.planKeys)))) == r.planKeys;
    FieldsOf(r);
  }

  /** A snapshot is one if and only if it is an object that names one of the four stages. */
  lemma SnapshotIff(v: Value)
    ensures FromSnapshot(v).Some? <==>
      && v.Obj?
      && (|| Field(v.entries, "rollout_stage") == Some(Str("internal"))
          || Field(v.entries, "rollout_stage") == Some(Str("pilot"))
          || Field(v.entries, "rollout_stage") == Some(Str("selected_plans"))
          || Field(v.entries, "rollout_stage") == Some(Str("all")))
  {
    hide Percentage, Texts, Field;
  }

  /** What is missing from a snapshot is read as nothing: no percentage, no businesses, no plans. */
  lemma MissingReadsAsNothing(v: Value)
    requires FromSnapshot(v).Some?
    ensures var r := FromSnapshot(v).value;
      && (Field(v.entries, "rollout_percentage") in {None, Some(Null)} ==> r.percentage == 0)
      && (Field(v.entries, "rollout_business_ids").None? ==> r.businessIds == [])
      && (Field(v.entries, "rollout_plan_keys").None? ==> r.planKeys == [])
  {
    hide Field, StageNamed;
  }

  lemma FieldsOf(r: Rollout)
    ensures var entries := Snapshot(r).entries;
      && Field(entries, "rollout_stage") == Some(Str(StageName(r.stage)))
      && Field(entries, "rollout_percentage") == Some(Num(IntText(r.percentage)))
      && Field(entries, "rollout_business_ids") == Some(Arr(Strings(r.businessIds)))
      && Field(entries, "rollout_plan_keys") == Some(Arr(Strings(r.planKeys)))
  {
    hide StageName, IntText;
    FieldSkips(Snapshot(r).entries);
  }

  lemma FieldSkips(entries: seq<Member>)
    requires |entries| == 4 && entries[0].key == "rollout_stage" && entries[1].key == "rollout_percentage"
    requires entries[2].key == "rollout_business_ids" && entries[3].key == "rollout_plan_keys"
    ensures Field(entries, "rollout_stage") == Some(entries[0].value)
    ensures Field(entries, "rollout_percentage") == Some(entries[1].value)
    ensures Field(entries, "rollout_business_ids") == Some(entries[2].value)
    ensures Field(entries, "rollout_plan_keys") == Some(entries[3].value)
  {
    var a, b := entries[1..], entries[2..];
    assert a[1..] == b && b[1..] == entries[3..];
    assert Field(b, "rollout_plan_keys") == Field(entries[3..], "rollout_plan_keys");
    assert Field(a, "rollout_plan_keys") == Field(b, "rollout_plan_keys");
    assert Field(a, "rollout_business_ids") == Field(b, "rollout_business_ids");
  }
}
