/** Operational alerts: evaluateAlerts of packages/core/src/admin/platform-health.ts, runOpsAlertCheck of
    platform-ops-alerts.ts beside it, and the functions of 20261010120000_platform_ops_alerts.sql. */
module OpsAlerts {
  import opened Text

  // ---------------------------------------------------------------------------------------------
  // Which alerts fire
  // ---------------------------------------------------------------------------------------------

  datatype QueueName = DomainEvents | BillingEvents | ExportJobs

  datatype QueueRow = QueueRow(name: QueueName, deadLetter: int, oldestWaitingAt: Option<int>)

  datatype WindowCount = WindowCount(failed: int, total: Option<int>)

  datatype IntegrationStatus = Working | Error | NeedsReauthorization

  /** What the rules read of a snapshot; instants are milliseconds. */
  datatype Snapshot = Snapshot(
    databaseOk: bool, checkedAt: int, queues: seq<QueueRow>, ai: WindowCount, storageError: bool,
    missingBuckets: seq<string>, connections: seq<(string, int)>, rejectedProviders: seq<string>,
    integrations: seq<IntegrationStatus>)

  datatype AlertKey =
    | DatabaseUnreachable | DomainEventsStalled | DomainEventsDead | BillingEventsDead | ExportsStuck
    | AiFailureRate | MissingBuckets | WhatsAppConnections | WebhookRejected | IntegrationsBroken

  datatype Severity = Warning | Critical

  datatype Alert = Alert(key: AlertKey, severity: Severity)

  const HOUR := 3_600_000
  const OVERDUE_HOURS := 26
  const MIN_RUNS := 10
  const FAILURE_PERCENT := 25

  /** Array.prototype.find. */
  function Find(queues: seq<QueueRow>, name: QueueName): Option<QueueRow> {
    if queues == [] then None
    else if queues[0].name == name then Some(queues[0])
    else Find(queues[1..], name)
  }

  function DeadLetters(s: Snapshot, name: QueueName): int {
    match Find(s.queues, name) case Some(q) => q.deadLetter case None => 0
  }

  function Waiting(s: Snapshot, name: QueueName): Option<int> {
    match Find(s.queues, name) case Some(q) => q.oldestWaitingAt case None => None
  }

  predicate Overdue(s: Snapshot) {
    var at := Waiting(s, DomainEvents);
    at.Some? && s.checkedAt - at.value > OVERDUE_HOURS * HOUR
  }

  predicate AiFailing(w: WindowCount) {
    w.total.GetOr(0) >= MIN_RUNS && w.failed * 100 >= FAILURE_PERCENT * w.total.GetOr(1)
  }

  function Unhealthy(connections: seq<(string, int)>): int {
    if connections == [] then 0
    else
      var (status, n) := connections[0];
      (if status != "connected" && status != "disconnected" then n else 0) + Unhealthy(connections[1..])
  }

  predicate SomeBroken(integrations: seq<IntegrationStatus>) {
    Error in integrations || NeedsReauthorization in integrations
  }

  /** An unreachable database fires alone. */
  predicate Fires(s: Snapshot, key: AlertKey) {
    if !s.databaseOk then key == DatabaseUnreachable
    else
      match key
      case DatabaseUnreachable => false
      case DomainEventsStalled => Overdue(s)
      case DomainEventsDead => DeadLetters(s, DomainEvents) > 0
      case BillingEventsDead => DeadLetters(s, BillingEvents) > 0
      case ExportsStuck => Waiting(s, ExportJobs).Some?
      case AiFailureRate => AiFailing(s.ai)
      case MissingBuckets => !s.storageError && s.missingBuckets != []
      case WhatsAppConnections => Unhealthy(s.connections) > 0
      case WebhookRejected => s.rejectedProviders != []
      case IntegrationsBroken => SomeBroken(s.integrations)
  }

  function SeverityOf(key: AlertKey): Severity {
    match key
    case DatabaseUnreachable => Critical
    case DomainEventsStalled => Critical
    case BillingEventsDead => Critical
    case MissingBuckets => Critical
    case WebhookRejected => Critical
    case _ => Warning
  }

  predicate HasKey(alerts: seq<Alert>, key: AlertKey) { exists a :: a in alerts && a.key == key }

  predicate DistinctKeys(alerts: seq<Alert>) {
    forall i, j :: 0 <= i < j < |alerts| ==> alerts[i].key != alerts[j].key
  }

  /** Exactly the firing keys, each once and with its severity. */
  ghost predicate FiringNow(s: Snapshot, alerts: seq<Alert>) {
    && DistinctKeys(alerts)
    && (forall a :: a in alerts ==> a.severity == SeverityOf(a.key))
    && forall key :: HasKey(alerts, key) <==> Fires(s, key)
  }

  const RULES: nat := 9

  /** The order in which the rules are tried. */
  function RuleKey(n: nat): AlertKey
    requires n < RULES
  {
    if n == 0 then DomainEventsStalled
    else if n == 1 then DomainEventsDead
    else if n == 2 then BillingEventsDead
    else if n == 3 then ExportsStuck
    else if n == 4 then AiFailureRate
    else if n == 5 then MissingBuckets
    else if n == 6 then WhatsAppConnections
    else if n == 7 then WebhookRejected
    else IntegrationsBroken
  }

  /** The alerts of the first n rules. */
  function FiringUpTo(s: Snapshot, n: nat): seq<Alert>
    requires n <= RULES
  {
    if n == 0 then []
    else
      var key := RuleKey(n - 1);
      FiringUpTo(s, n - 1) + (if Fires(s, key) then [Alert(key, SeverityOf(key))] else [])
  }

  function Alerts(s: Snapshot): seq<Alert> {
    if s.databaseOk then FiringUpTo(s, RULES) else [Alert(DatabaseUnreachable, Critical)]
  }

  lemma {:induction false} FiringUpToIs(s: Snapshot, n: nat)
    requires n <= RULES
    ensures var alerts := FiringUpTo(s, n);
      && DistinctKeys(alerts)
      && (forall a :: a in alerts ==> Fires(s, a.key) && a.severity == SeverityOf(a.key))
      && (forall a :: a in alerts ==> exists k: nat :: k < n && RuleKey(k) == a.key)
      && forall k: nat :: k < n && Fires(s, RuleKey(k)) ==> Alert(RuleKey(k), SeverityOf(RuleKey(k))) in alerts
  {
    hide Fires, SeverityOf;
    if n > 0 {
      FiringUpToIs(s, n - 1);
      var front := FiringUpTo(s, n - 1);
      forall i | 0 <= i < |front| ensures front[i].key != RuleKey(n - 1) {
        assert front[i] in front;
      }
    }
  }

  lemma EveryKeyHasARule(key: AlertKey)
    requires key != DatabaseUnreachable
    ensures exists k: nat :: k < RULES && RuleKey(k) == key
  {
    assert RuleKey(0) == DomainEventsStalled && RuleKey(1) == DomainEventsDead && RuleKey(2) == BillingEventsDead;
    assert RuleKey(3) == ExportsStuck && RuleKey(4) == AiFailureRate && RuleKey(5) == MissingBuckets;
    assert RuleKey(6) == WhatsAppConnections && RuleKey(7) == WebhookRejected && RuleKey(8) == IntegrationsBroken;
  }

  /** No key fires twice, and the alerts are exactly the firing keys with their severities. */
  lemma AlertsAreFiring(s: Snapshot)
    ensures FiringNow(s, Alerts(s))
  {
    hide Overdue, DeadLetters, Waiting, AiFailing, Unhealthy, SomeBroken, SeverityOf;
    var alerts := Alerts(s);
    if s.databaseOk {
      FiringUpToIs(s, RULES);
      forall key ensures HasKey(alerts, key) <==> Fires(s, key) {
        if key != DatabaseUnreachable {
          EveryKeyHasARule(key);
        }
      }
    } else {
      assert SeverityOf(DatabaseUnreachable) == Critical by { UnreachableIsCritical(); }
      assert alerts[0] in alerts;
    }
  }

  // What the alerts say of the snapshot ---------------------------------------------------------------

  /** The i-th row is the first with this name. */
  ghost predicate FirstOf(queues: seq<QueueRow>, name: QueueName, i: nat) {
    i < |queues| && queues[i].name == name && forall j :: 0 <= j < i ==> queues[j].name != name
  }

  lemma {:induction false} FindIs(queues: seq<QueueRow>, name: QueueName)
    ensures Find(queues, name).None? <==> forall i :: 0 <= i < |queues| ==> queues[i].name != name
    ensures forall i: nat :: FirstOf(queues, name, i) ==> Find(queues, name) == Some(queues[i])
  {
    if queues != [] {
      FindIs(queues[1..], name);
      assert forall i: nat :: FirstOf(queues, name, i) && i > 0 ==> FirstOf(queues[1..], name, i - 1);
      assert forall i :: 0 <= i < |queues[1..]| ==> queues[1..][i] == queues[i + 1];
    }
  }

  lemma {:induction false} UnhealthyIs(connections: seq<(string, int)>)
    requires forall c :: c in connections ==> c.1 >= 0
    ensures Unhealthy(connections) >= 0
    ensures Unhealthy(connections) > 0 <==>
      exists c :: c in connections && c.1 > 0 && c.0 != "connected" && c.0 != "disconnected"
  {
    if connections != [] {
      assert connections == [connections[0]] + connections[1..];
      UnhealthyIs(connections[1..]);
    }
  }

  /** The queue alerts, from the first row of each queue: events due for more than 26 hours, items that failed for
      good, an export that waits. A queue without a row raises none. */
  lemma QueueAlertsMean(s: Snapshot)
    requires s.databaseOk
    ensures forall i: nat :: FirstOf(s.queues, DomainEvents, i) ==>
      && (HasKey(Alerts(s), DomainEventsStalled) <==>
            s.queues[i].oldestWaitingAt.Some? && s.queues[i].oldestWaitingAt.value < s.checkedAt - 26 * 60 * 60 * 1000)
      && (HasKey(Alerts(s), DomainEventsDead) <==> s.queues[i].deadLetter > 0)
    ensures forall i: nat :: FirstOf(s.queues, BillingEvents, i) ==>
      (HasKey(Alerts(s), BillingEventsDead) <==> s.queues[i].deadLetter > 0)
    ensures forall i: nat :: FirstOf(s.queues, ExportJobs, i) ==>
      (HasKey(Alerts(s), ExportsStuck) <==> s.queues[i].oldestWaitingAt.Some?)
    ensures (forall q :: q in s.queues ==> q.name != DomainEvents) ==>
      !HasKey(Alerts(s), DomainEventsStalled) && !HasKey(Alerts(s), DomainEventsDead)
    ensures (forall q :: q in s.queues ==> q.name != BillingEvents) ==> !HasKey(Alerts(s), BillingEventsDead)
    ensures (forall q :: q in s.queues ==> q.name != ExportJobs) ==> !HasKey(Alerts(s), ExportsStuck)
  {
    hide Alerts, HasKey, Find, DistinctKeys, FirstOf, SeverityOf;
    AlertsAreFiring(s);
    FindIs(s.queues, DomainEvents);
    FindIs(s.queues, BillingEvents);
    FindIs(s.queues, ExportJobs);
  }

  /** The other alerts, from what the snapshot counts: at least ten AI runs a quarter of which failed, buckets known to
      be missing, connections that are neither on nor off, rejected webhooks, integrations in trouble. */
  lemma OtherAlertsMean(s: Snapshot)
    requires s.databaseOk
    ensures HasKey(Alerts(s), AiFailureRate) <==>
      s.ai.total.Some? && s.ai.total.value >= 10 && 4 * s.ai.failed >= s.ai.total.value
    ensures HasKey(Alerts(s), MissingBuckets) <==> !s.storageError && exists b :: b in s.missingBuckets
    ensures (forall c :: c in s.connections ==> c.1 >= 0) ==>
      (HasKey(Alerts(s), WhatsAppConnections) <==>
         exists c :: c in s.connections && c.1 > 0 && c.0 != "connected" && c.0 != "disconnected")
    ensures HasKey(Alerts(s), WebhookRejected) <==> exists p :: p in s.rejectedProviders
    ensures HasKey(Alerts(s), IntegrationsBroken) <==> exists i :: i in s.integrations && i != Working
  {
    hide Alerts, HasKey, Find, DistinctKeys, SeverityOf, Unhealthy;
    AlertsAreFiring(s);
    if forall c :: c in s.connections ==> c.1 >= 0 { UnhealthyIs(s.connections); }
    assert s.missingBuckets != [] ==> s.missingBuckets[0] in s.missingBuckets;
    assert s.rejectedProviders != [] ==> s.rejectedProviders[0] in s.rejectedProviders;
  }

  /** An unreachable database is reported alone; five alerts are critical and the others warnings. */
  lemma SeveritiesMean(s: Snapshot)
    ensures !s.databaseOk ==> forall key :: HasKey(Alerts(s), key) <==> key == DatabaseUnreachable
    ensures s.databaseOk ==> !HasKey(Alerts(s), DatabaseUnreachable)
    ensures forall a :: a in Alerts(s) ==>
      (a.severity == Critical <==>
         a.key in {DatabaseUnreachable, DomainEventsStalled, BillingEventsDead, MissingBuckets, WebhookRejected})
  {
    hide Alerts, HasKey, DistinctKeys, Overdue, DeadLetters, Waiting, AiFailing, Unhealthy, SomeBroken;
    AlertsAreFiring(s);
  }

  lemma UnreachableIsCritical()
    ensures SeverityOf(DatabaseUnreachable) == Critical
  {}

  lemma NextRule(s: Snapshot, n: nat)
    requires n < RULES
    ensures var key := RuleKey(n);
      FiringUpTo(s, n + 1) == if Fires(s, key) then FiringUpTo(s, n) + [Alert(key, SeverityOf(key))]
                              else FiringUpTo(s, n)
  {
    hide Fires, SeverityOf;
  }

  function PushIf(alerts: seq<Alert>, fires: bool, key: AlertKey, severity: Severity): seq<Alert> {
    if fires then alerts + [Alert(key, severity)] else alerts
  }

  lemma RuleByRule(s: Snapshot)
    requires s.databaseOk
    ensures FiringUpTo(s, 0) == []
    ensures FiringUpTo(s, 1) == PushIf(FiringUpTo(s, 0), Overdue(s), DomainEventsStalled, Critical)
    ensures FiringUpTo(s, 2) == PushIf(FiringUpTo(s, 1), DeadLetters(s, DomainEvents) > 0, DomainEventsDead, Warning)
    ensures FiringUpTo(s, 3) == PushIf(FiringUpTo(s, 2), DeadLetters(s, BillingEvents) > 0, BillingEventsDead, Critical)
    ensures FiringUpTo(s, 4) == PushIf(FiringUpTo(s, 3), Waiting(s, ExportJobs).Some?, ExportsStuck, Warning)
    ensures FiringUpTo(s, 5) == PushIf(FiringUpTo(s, 4), AiFailing(s.ai), AiFailureRate, Warning)
    ensures FiringUpTo(s, 6)
         == PushIf(FiringUpTo(s, 5), !s.storageError && s.missingBuckets != [], MissingBuckets, Critical)
    ensures FiringUpTo(s, 7) == PushIf(FiringUpTo(s, 6), Unhealthy(s.connections) > 0, WhatsAppConnections, Warning)
    ensures FiringUpTo(s, 8) == PushIf(FiringUpTo(s, 7), s.rejectedProviders != [], WebhookRejected, Critical)
    ensures FiringUpTo(s, 9) == PushIf(FiringUpTo(s, 8), SomeBroken(s.integrations), IntegrationsBroken, Warning)
  {
    hide FiringUpTo, Overdue, AiFailing, Unhealthy, DeadLetters, Waiting, SomeBroken;
    NoRules(s);
    NextRule(s, 0);
    NextRule(s, 1);
    NextRule(s, 2);
    NextRule(s, 3);
    NextRule(s, 4);
    NextRule(s, 5);
    NextRule(s, 6);
    NextRule(s, 7);
    NextRule(s, 8);
  }

  lemma NoRules(s: Snapshot)
    ensures FiringUpTo(s, 0) == []
  {}

  method EvaluateAlerts(s: Snapshot) returns (alerts: seq<Alert>)
    ensures alerts == Alerts(s)
  {
    hide FiringUpTo, Fires, RuleKey, SeverityOf, Overdue, AiFailing, Unhealthy, DeadLetters, Waiting, SomeBroken;
    if !s.databaseOk {
      return [Alert(DatabaseUnreachable, Critical)];
    }
    alerts := [];
    RuleByRule(s);
    if Overdue(s) {
      alerts := alerts + [Alert(DomainEventsStalled, Critical)];
    }
    assert alerts == FiringUpTo(s, 1);
    if DeadLetters(s, DomainEvents) > 0 {
      alerts := alerts + [Alert(DomainEventsDead, Warning)];
    }
    assert alerts == FiringUpTo(s, 2);
    if DeadLetters(s, BillingEvents) > 0 {
      alerts := alerts + [Alert(BillingEventsDead, Critical)];
    }
    assert alerts == FiringUpTo(s, 3);
    if Waiting(s, ExportJobs).Some? {
      alerts := alerts + [Alert(ExportsStuck, Warning)];
    }
    assert alerts == FiringUpTo(s, 4);
    if AiFailing(s.ai) {
      alerts := alerts + [Alert(AiFailureRate, Warning)];
    }
    assert alerts == FiringUpTo(s, 5);
    if !s.storageError && s.missingBuckets != [] {
      alerts := alerts + [Alert(MissingBuckets, Critical)];
    }
    assert alerts == FiringUpTo(s, 6);
    if Unhealthy(s.connections) > 0 {
      alerts := alerts + [Alert(WhatsAppConnections, Warning)];
    }
    assert alerts == FiringUpTo(s, 7);
    if s.rejectedProviders != [] {
      alerts := alerts + [Alert(WebhookRejected, Critical)];
    }
    assert alerts == FiringUpTo(s, 8);
    if SomeBroken(s.integrations) {
      alerts := alerts + [Alert(IntegrationsBroken, Warning)];
    }
    assert alerts == FiringUpTo(s, 9);
  }
}
