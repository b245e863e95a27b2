/** Alert episodes: runOpsAlertCheck of packages/core/src/admin/platform-ops-alerts.ts over the table and the
    functions of 20261010120000_platform_ops_alerts.sql, with any number of checks running at once and dying
    anywhere. */
module AlertEpisodes {
  import opened Text
  import opened OpsAlerts

  /** What became of an email; why may be empty, as the message of a caught error may. */
  datatype Delivery = Sent | NotSent(why: string)

  /** if (failure) emailErrors++; else emailed++: an empty text is not a failure here. */
  predicate CountsAsEmailed(d: Delivery) { d.Sent? || d.why == "" }

  /** One row of the table; its id is its place. */
  datatype Episode = Episode(
    key: AlertKey, severity: Severity, resolved: bool, notified: bool, notifyError: Option<string>)

  predicate OpenFor(e: Episode, key: AlertKey) { e.key == key && !e.resolved }

  predicate IsOpen(episodes: seq<Episode>, key: AlertKey) { exists e :: e in episodes && OpenFor(e, key) }

  predicate Reported(e: Episode) { e.notified || e.notifyError.Some? }

  // ---------------------------------------------------------------------------------------------
  // record_ops_alerts
  // ---------------------------------------------------------------------------------------------

  function SeverityIn(alerts: seq<Alert>, key: AlertKey): Severity
    requires HasKey(alerts, key)
  {
    if alerts[0].key == key then alerts[0].severity
    else
      assert alerts == [alerts[0]] + alerts[1..];
      SeverityIn(alerts[1..], key)
  }

  /** An open episode is resolved when its key no longer fires, and refreshed when it does. */
  function Refreshed(e: Episode, alerts: seq<Alert>): Episode {
    if e.resolved then e
    else if HasKey(alerts, e.key) then e.(severity := SeverityIn(alerts, e.key))
    else e.(resolved := true)
  }

  function RefreshedAll(episodes: seq<Episode>, alerts: seq<Alert>): (r: seq<Episode>)
    ensures |r| == |episodes|
  {
    seq(|episodes|, i requires 0 <= i < |episodes| => Refreshed(episodes[i], alerts))
  }

  /** A new episode for each key without an open one; on conflict do nothing. */
  function Opened(episodes: seq<Episode>, alerts: seq<Alert>): (r: seq<Episode>)
    ensures |episodes| <= |r| && r[..|episodes|] == episodes
    ensures forall i :: |episodes| <= i < |r| ==> !Reported(r[i])
    decreases |alerts|
  {
    if alerts == [] then episodes
    else
      var n := |alerts| - 1;
      var before := Opened(episodes, alerts[..n]);
      if IsOpen(before, alerts[n].key) then before
      else before + [Episode(alerts[n].key, alerts[n].severity, false, false, None)]
  }

  /** The table after the function; the episodes it opened and returned are the ones past the old end. */
  function Recorded(episodes: seq<Episode>, alerts: seq<Alert>): (r: seq<Episode>)
    ensures |episodes| <= |r| && forall i :: |episodes| <= i < |r| ==> !Reported(r[i])
  {
    Opened(RefreshedAll(episodes, alerts), alerts)
  }

  /** At most one open episode per key. */
  ghost predicate OneOpen(episodes: seq<Episode>) {
    forall i, j :: 0 <= i < j < |episodes| && !episodes[i].resolved && !episodes[j].resolved ==>
      episodes[i].key != episodes[j].key
  }

  lemma {:induction false} OpenedIs(episodes: seq<Episode>, alerts: seq<Alert>)
    requires OneOpen(episodes)
    ensures var r := Opened(episodes, alerts);
      && OneOpen(r)
      && (forall key :: IsOpen(r, key) <==> IsOpen(episodes, key) || HasKey(alerts, key))
      && forall i :: |episodes| <= i < |r| ==>
           !r[i].resolved && !Reported(r[i]) && HasKey(alerts, r[i].key) && !IsOpen(episodes, r[i].key)
    decreases |alerts|
  {
    if alerts != [] {
      var n := |alerts| - 1;
      OpenedIs(episodes, alerts[..n]);
      assert alerts == alerts[..n] + [alerts[n]];
      OpenOne(Opened(episodes, alerts[..n]), alerts[n]);
      var before, r := Opened(episodes, alerts[..n]), Opened(episodes, alerts);
      forall key ensures IsOpen(r, key) <==> IsOpen(episodes, key) || HasKey(alerts, key) {
        assert HasKey(alerts, key) <==> HasKey(alerts[..n], key) || key == alerts[n].key by {
          KeysOfSum(alerts[..n], alerts[n], key);
        }
        assert IsOpen(r, key) <==> IsOpen(before, key) || key == alerts[n].key;
      }
    }
  }

  lemma KeysOfSum(alerts: seq<Alert>, a: Alert, key: AlertKey)
    ensures HasKey(alerts + [a], key) <==> HasKey(alerts, key) || key == a.key
  {
    if HasKey(alerts, key) {
      var b :| b in alerts && b.key == key;
      assert b in alerts + [a];
    }
    assert a in alerts + [a];
  }

  /** The insert of one row, skipped when its key has an open episode. */
  lemma OpenOne(episodes: seq<Episode>, a: Alert)
    requires OneOpen(episodes)
    ensures var e := Episode(a.key, a.severity, false, false, None);
      var r := if IsOpen(episodes, a.key) then episodes else episodes + [e];
      OneOpen(r) && forall key :: IsOpen(r, key) <==> IsOpen(episodes, key) || key == a.key
  {
    var e := Episode(a.key, a.severity, false, false, None);
    var r := if IsOpen(episodes, a.key) then episodes else episodes + [e];
    forall key ensures IsOpen(r, key) <==> IsOpen(episodes, key) || key == a.key {
      if IsOpen(episodes, key) {
        var x :| x in episodes && OpenFor(x, key);
        assert x in r;
      }
      if !IsOpen(episodes, a.key) {
        assert e in r && OpenFor(e, a.key);
      }
    }
    if !IsOpen(episodes, a.key) {
      forall i | 0 <= i < |episodes| && !episodes[i].resolved ensures episodes[i].key != a.key {
        assert !OpenFor(episodes[i], a.key);
      }
    }
  }

  lemma RefreshedIs(episodes: seq<Episode>, alerts: seq<Alert>)
    requires OneOpen(episodes)
    ensures var r := RefreshedAll(episodes, alerts);
      OneOpen(r) && forall key :: IsOpen(r, key) <==> IsOpen(episodes, key) && HasKey(alerts, key)
  {
    hide SeverityIn;
    var r := RefreshedAll(episodes, alerts);
    forall key ensures IsOpen(r, key) <==> IsOpen(episodes, key) && HasKey(alerts, key) {
      if IsOpen(episodes, key) && HasKey(alerts, key) {
        var i :| 0 <= i < |episodes| && OpenFor(episodes[i], key);
        assert r[i] in r && OpenFor(r[i], key);
      }
      if IsOpen(r, key) {
        var i :| 0 <= i < |r| && OpenFor(r[i], key);
        assert episodes[i] in episodes && OpenFor(episodes[i], key);
      }
    }
  }

  /** After a recording the open episodes are those of the firing keys, one each; old episodes keep their key
      and their email outcome and never reopen; and an episode is opened, not yet reported, for exactly the
      firing keys that had none open. */
  lemma RecordingOpensWhatFires(episodes: seq<Episode>, alerts: seq<Alert>)
    requires OneOpen(episodes)
    ensures var r := Recorded(episodes, alerts);
      && OneOpen(r)
      && (forall key :: IsOpen(r, key) <==> HasKey(alerts, key))
      && (forall i :: 0 <= i < |episodes| ==> r[i] == Refreshed(episodes[i], alerts))
      && (forall i :: |episodes| <= i < |r| ==> !r[i].resolved && !Reported(r[i]))
      && forall key :: HasKey(alerts, key) && !IsOpen(episodes, key) <==> IsOpen(r[|episodes|..], key)
  {
    hide SeverityIn, Refreshed;
    RefreshedIs(episodes, alerts);
    var mid := RefreshedAll(episodes, alerts);
    OpenedIs(mid, alerts);
    var r := Recorded(episodes, alerts);
    forall i | 0 <= i < |episodes| ensures r[i] == Refreshed(episodes[i], alerts) {
      assert r[..|mid|][i] == mid[i];
    }
    forall key ensures HasKey(alerts, key) && !IsOpen(episodes, key) <==> IsOpen(r[|episodes|..], key) {
      if HasKey(alerts, key) && !IsOpen(episodes, key) {
        NewOnes(mid, r, key);
      }
      if IsOpen(r[|episodes|..], key) {
        var e :| e in r[|episodes|..] && OpenFor(e, key);
        var i :| |episodes| <= i < |r| && r[i] == e;
        assert HasKey(alerts, key) && !IsOpen(mid, key);
      }
    }
  }

  lemma {:induction false} SeverityIs(alerts: seq<Alert>, a: Alert)
    requires DistinctKeys(alerts) && a in alerts
    ensures HasKey(alerts, a.key) && SeverityIn(alerts, a.key) == a.severity
  {
    if alerts[0] != a {
      assert alerts == [alerts[0]] + alerts[1..];
      var i :| 0 <= i < |alerts| && alerts[i] == a;
      SeverityIs(alerts[1..], a);
    }
  }

  /** What a recording makes of an episode: a resolved one stays as it is; an open one takes the severity of its alert,
      or is resolved when there is none; and neither its key nor what is known of its email changes. */
  lemma RefreshedMeans(e: Episode, alerts: seq<Alert>)
    requires DistinctKeys(alerts)
    ensures var r := Refreshed(e, alerts);
      && r.key == e.key && r.notified == e.notified && r.notifyError == e.notifyError
      && (e.resolved ==> r == e)
      && (!e.resolved && !HasKey(alerts, e.key) ==> r.resolved && r.severity == e.severity)
      && forall a :: a in alerts && a.key == e.key && !e.resolved ==> !r.resolved && r.severity == a.severity
  {
    hide SeverityIn, DistinctKeys;
    forall a | a in alerts && a.key == e.key ensures SeverityIn(alerts, e.key) == a.severity {
      SeverityIs(alerts, a);
    }
  }

  /** A new episode has the severity of its alert. */
  lemma {:induction false} OpenedSeverities(episodes: seq<Episode>, alerts: seq<Alert>)
    ensures forall i :: |episodes| <= i < |Opened(episodes, alerts)| ==>
      Alert(Opened(episodes, alerts)[i].key, Opened(episodes, alerts)[i].severity) in alerts
    decreases |alerts|
  {
    hide IsOpen;
    if alerts != [] {
      OpenedSeverities(episodes, alerts[..|alerts| - 1]);
      assert alerts == alerts[..|alerts| - 1] + [alerts[|alerts| - 1]];
    }
  }

  lemma NewOnes(before: seq<Episode>, after: seq<Episode>, key: AlertKey)
    requires |before| <= |after| && after[..|before|] == before && IsOpen(after, key) && !IsOpen(before, key)
    ensures IsOpen(after[|before|..], key)
  {
    var e :| e in after && OpenFor(e, key);
    assert after == after[..|before|] + after[|before|..];
    assert e in after[|before|..];
  }

  // ---------------------------------------------------------------------------------------------
  // Checks as workers
  // ---------------------------------------------------------------------------------------------

  /** A check between two of its calls: with its alerts in hand, or working through the episodes it opened,
      which are the count ids from first on. sent holds the outcome of an email not yet written back. */
  datatype Worker =
    | Evaluated(alerts: seq<Alert>)
    | Notifying(firing: nat, first: nat, count: nat, addressed: bool, done: nat, sent: Option<Delivery>,
                emailed: nat, emailErrors: nat)

  datatype Attempt = Attempt(id: nat, delivery: Delivery)

  datatype State = State(episodes: seq<Episode>, workers: map<nat, Worker>, attempts: seq<Attempt>)

  datatype Report = Report(firing: nat, newlyOpened: nat, emailed: nat, emailErrors: nat)

  datatype Step =
    | Evaluate(w: nat, snapshot: Snapshot)
    | Record(w: nat)
    | FindOperators(w: nat)
    | Email(w: nat, delivery: Delivery)
    | Mark(w: nat)
    | Return(w: nat)
    | Die(w: nat)

  /** mark_ops_alert_notified. */
  function Marked(e: Episode, delivery: Delivery): Episode {
    match delivery
    case Sent => e.(notified := true, notifyError := None)
    case NotSent(why) => e.(notifyError := Some(why))
  }

  predicate CanRecord(s: State, w: nat) { w in s.workers && s.workers[w].Evaluated? }

  predicate CanAddress(s: State, w: nat) {
    w in s.workers && s.workers[w].Notifying? && s.workers[w].count > 0 && !s.workers[w].addressed
  }

  predicate CanEmail(s: State, w: nat) {
    && w in s.workers && s.workers[w].Notifying? && s.workers[w].addressed
    && s.workers[w].done < s.workers[w].count && s.workers[w].sent.None?
  }

  predicate CanMark(s: State, w: nat) {
    && w in s.workers && s.workers[w].Notifying? && s.workers[w].sent.Some?
    && s.workers[w].first + s.workers[w].done < |s.episodes|
  }

  predicate CanReturn(s: State, w: nat) {
    w in s.workers && s.workers[w].Notifying? && s.workers[w].done == s.workers[w].count
  }

  /** One call of one check. A call that fails is a Die: the check throws where it stands. */
  function Next(s: State, step: Step): State {
    match step
    case Evaluate(w, snapshot) =>
      if w in s.workers then s else s.(workers := s.workers[w := Evaluated(Alerts(snapshot))])
    case Record(w) =>
      if !CanRecord(s, w) then s
      else
        var alerts := s.workers[w].alerts;
        var episodes := Recorded(s.episodes, alerts);
        var count := |episodes| - |s.episodes|;
        s.(episodes := episodes,
           workers := s.workers[w := Notifying(|alerts|, |s.episodes|, count, false, 0, None, 0, 0)])
    case FindOperators(w) =>
      if !CanAddress(s, w) then s else s.(workers := s.workers[w := s.workers[w].(addressed := true)])
    case Email(w, delivery) =>
      if !CanEmail(s, w) then s
      else
        var worker := s.workers[w];
        s.(attempts := s.attempts + [Attempt(worker.first + worker.done, delivery)],
           workers := s.workers[w := worker.(sent := Some(delivery))])
    case Mark(w) =>
      if !CanMark(s, w) then s
      else
        var worker := s.workers[w];
        var id := worker.first + worker.done;
        var worker' := worker.(done := worker.done + 1, sent := None);
        s.(episodes := s.episodes[id := Marked(s.episodes[id], worker.sent.value)],
           workers := s.workers[w := if CountsAsEmailed(worker.sent.value)
                                     then worker'.(emailed := worker.emailed + 1)
                                     else worker'.(emailErrors := worker.emailErrors + 1)])
    case Return(w) => if CanReturn(s, w) then s.(workers := s.workers - {w}) else s
    case Die(w) => s.(workers := s.workers - {w})
  }

  function RunAll(s: State, steps: seq<Step>): State
    decreases |steps|
  {
    if steps == [] then s else RunAll(Next(s, steps[0]), steps[1..])
  }

  predicate Attempted(s: State, id: nat) { exists a :: a in s.attempts && a.id == id }

  /** The worker still has this episode's email before it. */
  predicate Holds(worker: Worker, id: nat) {
    && worker.Notifying?
    && worker.first + worker.done + (if worker.sent.Some? then 1 else 0) <= id < worker.first + worker.count
  }

  /** The worker is done with this episode. */
  predicate Finished(worker: Worker, id: nat) {
    worker.Notifying? && worker.first <= id < worker.first + worker.done
  }

  /** How many of n episodes, from first on, were notified. */
  function CountNotified(episodes: seq<Episode>, first: nat, n: nat): nat
    requires first + n <= |episodes|
  {
    if n == 0 then 0 else CountNotified(episodes, first, n - 1) + (if episodes[first + n - 1].notified then 1 else 0)
  }

  /** What the row of an episode counted as emailed says. */
  predicate LooksEmailed(e: Episode) { e.notified || e.notifyError == Some("") }

  /** How many of n episodes, from first on, look emailed. */
  function CountEmailed(episodes: seq<Episode>, first: nat, n: nat): nat
    requires first + n <= |episodes|
  {
    if n == 0 then 0
    else CountEmailed(episodes, first, n - 1) + (if LooksEmailed(episodes[first + n - 1]) then 1 else 0)
  }

  ghost predicate WorkerInv(s: State, worker: Worker) {
    worker.Notifying? ==>
      && worker.first + worker.count <= |s.episodes| && worker.done <= worker.count
      && (worker.sent.Some? ==> worker.done < worker.count)
      && (worker.sent.Some? ==> Attempt(worker.first + worker.done, worker.sent.value) in s.attempts)
      && (worker.sent.Some? ==> !Reported(s.episodes[worker.first + worker.done]))
      && (worker.sent.Some? || worker.done > 0 ==> worker.addressed)
      && (forall id: nat :: Holds(worker, id) ==> !Attempted(s, id))
      && (forall id: nat :: Finished(worker, id) ==> Reported(s.episodes[id]))
      && worker.emailed + worker.emailErrors == worker.done
      && worker.emailed == CountEmailed(s.episodes, worker.first, worker.done)
  }

  predicate Apart(a: Worker, b: Worker) {
    a.Notifying? && b.Notifying? ==>
      a.count == 0 || b.count == 0 || a.first + a.count <= b.first || b.first + b.count <= a.first
  }

  /** No two attempts for one episode. */
  ghost predicate OneAttemptEach(attempts: seq<Attempt>) {
    forall i, j :: 0 <= i < j < |attempts| ==> attempts[i].id != attempts[j].id
  }

  /** What the table says about an episode's email is what happened. */
  predicate Truthful(e: Episode, id: nat, attempts: seq<Attempt>) {
    && (e.notified ==> e.notifyError.None? && Attempt(id, Sent) in attempts)
    && (e.notifyError.Some? ==> Attempt(id, NotSent(e.notifyError.value)) in attempts)
  }

  ghost predicate Inv(s: State) {
    && OneOpen(s.episodes)
    && OneAttemptEach(s.attempts) && (forall a :: a in s.attempts ==> a.id < |s.episodes|)
    && (forall id :: 0 <= id < |s.episodes| ==> Truthful(s.episodes[id], id, s.attempts))
    && (forall w :: w in s.workers ==> WorkerInv(s, s.workers[w]))
    && forall v, w :: v in s.workers && w in s.workers && v != w ==> Apart(s.workers[v], s.workers[w])
  }

  lemma {:induction false} SameCount(a: seq<Episode>, b: seq<Episode>, first: nat, n: nat)
    requires first + n <= |a| && first + n <= |b|
    requires forall i :: first <= i < first + n ==>
      a[i].notified == b[i].notified && a[i].notifyError == b[i].notifyError
    ensures CountEmailed(a, first, n) == CountEmailed(b, first, n)
  {
    if n > 0 {
      SameCount(a, b, first, n - 1);
    }
  }

  /** A worker not concerned by a change of the table and the attempts keeps its part of the invariant. */
  lemma OtherWorker(s: State, s': State, worker: Worker)
    requires WorkerInv(s, worker) && |s.episodes| <= |s'.episodes|
    requires worker.Notifying? ==> forall i :: worker.first <= i < worker.first + worker.count ==>
      s'.episodes[i].notified == s.episodes[i].notified && s'.episodes[i].notifyError == s.episodes[i].notifyError
    requires forall a :: a in s.attempts ==> a in s'.attempts
    requires forall id: nat :: Holds(worker, id) && !Attempted(s, id) ==> !Attempted(s', id)
    ensures WorkerInv(s', worker)
  {
    hide Attempted, Holds;
    if worker.Notifying? {
      SameCount(s.episodes, s'.episodes, worker.first, worker.done);
    }
  }

  lemma RecordKeepsInv(s: State, w: nat)
    requires Inv(s) && CanRecord(s, w)
    ensures Inv(Next(s, Record(w)))
  {
    hide Recorded, OneOpen, OneAttemptEach, HasKey, SeverityIn, CountEmailed, IsOpen;
    var alerts, s' := s.workers[w].alerts, Next(s, Record(w));
    RecordingOpensWhatFires(s.episodes, alerts);
    forall id | 0 <= id < |s'.episodes| ensures Truthful(s'.episodes[id], id, s'.attempts) {
      if id < |s.episodes| {
        assert Truthful(s.episodes[id], id, s.attempts);
      }
    }
    forall v | v in s'.workers ensures WorkerInv(s', s'.workers[v]) {
      if v == w {
        FreshWorker(s', s'.workers[w]);
      } else {
        OtherWorker(s, s', s.workers[v]);
      }
    }
    forall v | v in s.workers && v != w ensures Apart(s'.workers[v], s'.workers[w]) {
      assert WorkerInv(s, s.workers[v]);
    }
  }

  lemma FreshWorker(s: State, worker: Worker)
    requires worker.Notifying? && !worker.addressed && worker.done == 0 && worker.sent.None?
    requires worker.emailed == 0 && worker.emailErrors == 0 && worker.first + worker.count <= |s.episodes|
    requires forall a :: a in s.attempts ==> a.id < worker.first
    ensures WorkerInv(s, worker)
  {}

  lemma EmailKeepsInv(s: State, w: nat, delivery: Delivery)
    requires Inv(s) && CanEmail(s, w)
    ensures Inv(Next(s, Email(w, delivery)))
  {
    hide OneOpen, CountEmailed;
    var worker, s' := s.workers[w], Next(s, Email(w, delivery));
    var id := worker.first + worker.done;
    assert WorkerInv(s, worker) && Holds(worker, id);
    assert !Attempted(s, id);
    EmailOwnWorker(s, w, delivery);
    forall v | v in s'.workers ensures WorkerInv(s', s'.workers[v]) {
      if v != w {
        OtherWorkerEmailed(s, w, delivery, v);
      }
    }
    forall i | 0 <= i < |s'.episodes| ensures Truthful(s'.episodes[i], i, s'.attempts) {
      assert Truthful(s.episodes[i], i, s.attempts);
    }
    forall v | v in s.workers && v != w
      ensures Apart(s'.workers[v], s'.workers[w]) && Apart(s'.workers[w], s'.workers[v])
    {
      assert Apart(s.workers[v], s.workers[w]);
    }
  }

  lemma EmailOwnWorker(s: State, w: nat, delivery: Delivery)
    requires Inv(s) && CanEmail(s, w)
    ensures var s' := Next(s, Email(w, delivery)); WorkerInv(s', s'.workers[w])
  {
    hide OneOpen, CountEmailed, OneAttemptEach;
    var worker, s' := s.workers[w], Next(s, Email(w, delivery));
    var id := worker.first + worker.done;
    assert WorkerInv(s, worker) && Holds(worker, id);
    assert !Attempted(s, id);
    assert Truthful(s.episodes[id], id, s.attempts);
    assert Attempt(id, delivery) in s'.attempts;
    forall x: nat | Holds(s'.workers[w], x) ensures !Attempted(s', x) {
      assert Holds(worker, x);
      assert !Attempted(s, x);
    }
  }

  lemma OtherWorkerEmailed(s: State, w: nat, delivery: Delivery, v: nat)
    requires Inv(s) && CanEmail(s, w) && v in s.workers && v != w
    ensures WorkerInv(Next(s, Email(w, delivery)), s.workers[v])
  {
    hide OneOpen, CountEmailed, OneAttemptEach, Truthful;
    var s' := Next(s, Email(w, delivery));
    var id := s.workers[w].first + s.workers[w].done;
    assert Apart(s.workers[v], s.workers[w]) && WorkerInv(s, s.workers[v]) && WorkerInv(s, s.workers[w]);
    forall x: nat | Holds(s.workers[v], x) && !Attempted(s, x) ensures !Attempted(s', x) {
      assert x != id;
    }
    OtherWorker(s, s', s.workers[v]);
  }

  lemma MarkKeepsInv(s: State, w: nat)
    requires Inv(s) && CanMark(s, w)
    ensures Inv(Next(s, Mark(w)))
  {
    hide CountEmailed, Attempted, Holds;
    var worker, s' := s.workers[w], Next(s, Mark(w));
    var id := worker.first + worker.done;
    assert WorkerInv(s, worker);
    MarkOwnWorker(s, w);
    forall v | v in s'.workers ensures WorkerInv(s', s'.workers[v]) {
      if v != w {
        assert Apart(s.workers[v], s.workers[w]) && WorkerInv(s, s.workers[v]);
        assert s'.attempts == s.attempts;
        SameAttempts(s, s');
        OtherWorker(s, s', s.workers[v]);
      }
    }
    forall i | 0 <= i < |s'.episodes| ensures Truthful(s'.episodes[i], i, s'.attempts) {
      assert Truthful(s.episodes[i], i, s.attempts);
    }
    forall v | v in s.workers && v != w
      ensures Apart(s'.workers[v], s'.workers[w]) && Apart(s'.workers[w], s'.workers[v])
    {
      assert Apart(s.workers[v], s.workers[w]);
    }
  }

  lemma SameAttempts(s: State, s': State)
    requires s'.attempts == s.attempts
    ensures forall id: nat :: Attempted(s', id) <==> Attempted(s, id)
  {}

  lemma MarkOwnWorker(s: State, w: nat)
    requires Inv(s) && CanMark(s, w)
    ensures var s' := Next(s, Mark(w)); WorkerInv(s', s'.workers[w])
  {
    hide OneOpen, OneAttemptEach, Truthful;
    var worker, s' := s.workers[w], Next(s, Mark(w));
    assert WorkerInv(s, worker);
    SameCount(s.episodes, s'.episodes, worker.first, worker.done);
    forall x: nat | Holds(s'.workers[w], x) ensures !Attempted(s', x) {
      assert Holds(worker, x);
      assert !Attempted(s, x);
    }
    forall x: nat | Finished(s'.workers[w], x) ensures Reported(s'.episodes[x]) {
      if x != worker.first + worker.done {
        assert Finished(worker, x);
      }
    }
  }

  lemma RemovalKeepsInv(s: State, w: nat)
    requires Inv(s)
    ensures Inv(s.(workers := s.workers - {w}))
  {
    hide OneOpen, OneAttemptEach, Truthful;
    var s' := s.(workers := s.workers - {w});
    SameAttempts(s, s');
    forall v | v in s'.workers ensures WorkerInv(s', s'.workers[v]) {
      OtherWorker(s, s', s.workers[v]);
    }
  }

  /** A change of one worker that concerns neither the table nor the attempts. */
  lemma WorkerStepKeepsInv(s: State, w: nat, worker: Worker)
    requires Inv(s) && WorkerInv(s, worker)
    requires if w in s.workers then s.workers[w].Notifying? && worker == s.workers[w].(addressed := true)
             else worker.Evaluated?
    ensures Inv(s.(workers := s.workers[w := worker]))
  {
    hide OneOpen, OneAttemptEach, Truthful;
    var s' := s.(workers := s.workers[w := worker]);
    SameAttempts(s, s');
    OtherWorker(s, s', worker);
    forall v | v in s'.workers && v != w ensures WorkerInv(s', s'.workers[v]) {
      OtherWorker(s, s', s.workers[v]);
    }
    forall u, v | u in s'.workers && v in s'.workers && u != v ensures Apart(s'.workers[u], s'.workers[v]) {
      assert w in s.workers && u in s.workers && v in s.workers ==> Apart(s.workers[u], s.workers[v]);
    }
  }

  lemma StepKeepsInv(s: State, step: Step)
    requires Inv(s)
    ensures Inv(Next(s, step))
  {
    hide Inv, Alerts, Recorded, Marked, WorkerInv;
    match step
    case Evaluate(w, snapshot) =>
      if w !in s.workers {
        AnyEvaluated(s, Alerts(snapshot));
        WorkerStepKeepsInv(s, w, Evaluated(Alerts(snapshot)));
      }
    case Record(w) =>
      if CanRecord(s, w) {
        RecordKeepsInv(s, w);
      }
    case FindOperators(w) =>
      if CanAddress(s, w) {
        AddressedInv(s, w);
        WorkerStepKeepsInv(s, w, s.workers[w].(addressed := true));
      }
    case Email(w, delivery) =>
      if CanEmail(s, w) {
        EmailKeepsInv(s, w, delivery);
      }
    case Mark(w) =>
      if CanMark(s, w) {
        MarkKeepsInv(s, w);
      }
    case _ => RemovalKeepsInv(s, step.w);
  }

  lemma AnyEvaluated(s: State, alerts: seq<Alert>)
    ensures WorkerInv(s, Evaluated(alerts))
  {}

  lemma AddressedInv(s: State, w: nat)
    requires Inv(s) && CanAddress(s, w)
    ensures WorkerInv(s, s.workers[w].(addressed := true))
  {
    hide OneOpen, OneAttemptEach, Truthful, Attempted, Reported, CountEmailed;
    var worker := s.workers[w];
    assert WorkerInv(s, worker);
    assert forall id: nat :: Holds(worker.(addressed := true), id) <==> Holds(worker, id);
    assert forall id: nat :: Finished(worker.(addressed := true), id) <==> Finished(worker, id);
  }

  const EMPTY: State := State([], map[], [])

  lemma EmptyHasInv()
    ensures Inv(EMPTY)
  {}

  /** Over any sequence of checks, running at once in any order and dying anywhere: at most one episode is open
      per key, no episode gets a second email attempt, and a row that says it was notified, or why not, is right. */
  lemma {:induction false} EveryRunKeepsInv(s: State, steps: seq<Step>)
    requires Inv(s)
    ensures Inv(RunAll(s, steps))
    decreases |steps|
  {
    hide Inv, Next;
    if steps != [] {
      StepKeepsInv(s, steps[0]);
      EveryRunKeepsInv(Next(s, steps[0]), steps[1..]);
    }
  }

  /** So it is for every run from an empty table: each statement of the invariant, said of its end. */
  lemma EveryRunFromEmpty(steps: seq<Step>)
    ensures var s := RunAll(EMPTY, steps);
      && OneOpen(s.episodes) && OneAttemptEach(s.attempts)
      && forall id :: 0 <= id < |s.episodes| ==> Truthful(s.episodes[id], id, s.attempts)
  {
    hide RunAll, OneOpen, OneAttemptEach, Truthful, WorkerInv;
    EmptyHasInv();
    EveryRunKeepsInv(EMPTY, steps);
  }

  lemma {:induction false} NotifiedAtMost(episodes: seq<Episode>, first: nat, n: nat)
    requires first + n <= |episodes|
    ensures CountNotified(episodes, first, n) <= n
    ensures CountNotified(episodes, first, n) == n <==> forall i :: first <= i < first + n ==> episodes[i].notified
    ensures CountNotified(episodes, first, n) == 0 <==> forall i :: first <= i < first + n ==> !episodes[i].notified
  {
    if n > 0 {
      NotifiedAtMost(episodes, first, n - 1);
    }
  }

  lemma {:induction false} EmailedAtMost(episodes: seq<Episode>, first: nat, n: nat)
    requires first + n <= |episodes|
    ensures CountEmailed(episodes, first, n) <= n
    ensures CountEmailed(episodes, first, n) == n <==> forall i :: first <= i < first + n ==> LooksEmailed(episodes[i])
    ensures CountEmailed(episodes, first, n) == 0 <==> forall i :: first <= i < first + n ==> !LooksEmailed(episodes[i])
  {
    hide LooksEmailed;
    if n > 0 {
      EmailedAtMost(episodes, first, n - 1);
    }
  }

  /** No row of the range holds an empty failure text. */
  predicate NoEmptyText(episodes: seq<Episode>, first: nat, n: nat)
    requires first + n <= |episodes|
  {
    forall i :: first <= i < first + n ==> episodes[i].notifyError != Some("")
  }

  /** Empty texts are all that keeps the two counts apart. */
  lemma {:induction false} EmailedIsNotifiedIff(episodes: seq<Episode>, first: nat, n: nat)
    requires first + n <= |episodes|
    requires forall i :: first <= i < first + n ==> episodes[i].notified ==> episodes[i].notifyError.None?
    ensures CountNotified(episodes, first, n) <= CountEmailed(episodes, first, n)
    ensures CountEmailed(episodes, first, n) == CountNotified(episodes, first, n) <==> NoEmptyText(episodes, first, n)
  {
    if n > 0 {
      EmailedIsNotifiedIff(episodes, first, n - 1);
    }
  }

  function ReportOf(worker: Worker): Report
    requires worker.Notifying?
  {
    Report(worker.firing, worker.count, worker.emailed, worker.emailErrors)
  }

  /** A check that returns has had every episode it opened attempted and reported, and its two counts add up to
      what it opened. Emailed are those whose row says so or holds an empty failure text; so the counts mean what
      they say (emailed is the number notified, no errors means that all were, none emailed that none was) if and
      only if no failure text of its episodes is empty. */
  lemma ReturnedCheckReportedAll(s: State, w: nat)
    requires Inv(s) && CanReturn(s, w)
    ensures var worker, report := s.workers[w], ReportOf(s.workers[w]);
      && worker.first + worker.count <= |s.episodes|
      && (forall id: nat :: worker.first <= id < worker.first + worker.count ==>
            Attempted(s, id) && Reported(s.episodes[id]))
      && report.emailed + report.emailErrors == report.newlyOpened == worker.count
      && (report.emailErrors == 0 <==>
            forall id :: worker.first <= id < worker.first + worker.count ==> LooksEmailed(s.episodes[id]))
      && (report.emailed == 0 <==>
            forall id :: worker.first <= id < worker.first + worker.count ==> !LooksEmailed(s.episodes[id]))
    ensures CountsMeanWhatTheySay(s, s.workers[w]) <==>
      NoEmptyText(s.episodes, s.workers[w].first, s.workers[w].count)
  {
    hide OneOpen, OneAttemptEach, CountNotified, CountEmailed, Holds, LooksEmailed;
    var worker := s.workers[w];
    assert WorkerInv(s, worker);
    EmailedAtMost(s.episodes, worker.first, worker.count);
    forall id: nat | worker.first <= id < worker.first + worker.count
      ensures Attempted(s, id) && Reported(s.episodes[id]) && Truthful(s.episodes[id], id, s.attempts)
    {
      assert Finished(worker, id);
      assert Truthful(s.episodes[id], id, s.attempts);
    }
    EmailedIsNotifiedIff(s.episodes, worker.first, worker.count);
    NotifiedAtMost(s.episodes, worker.first, worker.count);
  }

  /** The counts of a check that is through, read as the number of operators' emails that went out. */
  predicate CountsMeanWhatTheySay(s: State, worker: Worker)
    requires worker.Notifying? && worker.first + worker.count <= |s.episodes|
  {
    var report := ReportOf(worker);
    && report.emailed == CountNotified(s.episodes, worker.first, worker.count)
    && (report.emailErrors == 0 <==>
          forall id :: worker.first <= id < worker.first + worker.count ==> s.episodes[id].notified)
    && (report.emailed == 0 <==>
          forall id :: worker.first <= id < worker.first + worker.count ==> !s.episodes[id].notified)
  }

  /** An email that failed with an empty text: the check counts it as emailed, and the row does not say so. */
  lemma EmptyFailureCountsAsEmailed(s: State, w: nat)
    requires Inv(s) && CanMark(s, w) && s.workers[w].sent == Some(NotSent(""))
    ensures var s', worker := Next(s, Mark(w)), s.workers[w];
      && s'.workers[w].emailed == worker.emailed + 1 && s'.workers[w].emailErrors == worker.emailErrors
      && !s'.episodes[worker.first + worker.done].notified
      && s'.episodes[worker.first + worker.done].notifyError == Some("")
  {
    hide OneOpen, OneAttemptEach, Truthful;
    assert WorkerInv(s, s.workers[w]);
  }

  // Episodes nobody is told about ---------------------------------------------------------------------

  predicate Held(s: State, id: nat) { exists w :: w in s.workers && Holds(s.workers[w], id) }

  /** An open or past episode that no running check will email. */
  predicate Forgotten(s: State, id: nat) { id < |s.episodes| && !Attempted(s, id) && !Held(s, id) }

  lemma ForgottenStays(s: State, step: Step, id: nat)
    requires Inv(s) && Forgotten(s, id)
    ensures Forgotten(Next(s, step), id)
  {
    hide OneOpen, OneAttemptEach, Truthful, Alerts, Recorded, WorkerInv;
    var s' := Next(s, step);
    forall w | w in s'.workers ensures !Holds(s'.workers[w], id) {
      assert w in s.workers ==> !Holds(s.workers[w], id);
    }
    if step.Email? && CanEmail(s, step.w) {
      var worker := s.workers[step.w];
      assert Holds(worker, worker.first + worker.done) && !Holds(worker, id);
    }
  }

  lemma {:induction false} ForgottenForGood(s: State, steps: seq<Step>, id: nat)
    requires Inv(s) && Forgotten(s, id)
    ensures !Attempted(RunAll(s, steps), id)
    decreases |steps|
  {
    hide Inv, Next, Attempted, Held;
    if steps != [] {
      StepKeepsInv(s, steps[0]);
      ForgottenStays(s, steps[0], id);
      ForgottenForGood(Next(s, steps[0]), steps[1..], id);
    }
  }

  /** How many calls are left before the email. */
  function Distance(worker: Worker, id: nat): nat
    requires Holds(worker, id)
  {
    2 * (id - worker.first - worker.done) + (if worker.sent.Some? then 0 else 1) + (if worker.addressed then 0 else 1)
  }

  /** A check that goes on without failing gets to every episode it holds. */
  lemma {:induction false} ReachEmail(s: State, w: nat, id: nat) returns (steps: seq<Step>)
    requires Inv(s) && w in s.workers && Holds(s.workers[w], id)
    ensures Attempted(RunAll(s, steps), id)
    decreases Distance(s.workers[w], id), 1
  {
    hide OneOpen, OneAttemptEach, Truthful, CountEmailed, Reported, Inv, RunAll;
    var worker := s.workers[w];
    HolderInv(s, w);
    if !worker.addressed {
      steps := ReachAfter(s, w, id, FindOperators(w));
    } else if worker.sent.Some? {
      steps := ReachAfter(s, w, id, Mark(w));
    } else if worker.first + worker.done < id {
      steps := ReachAfter(s, w, id, Email(w, Sent));
    } else {
      steps := [Email(w, Sent)];
      OneStep(s, steps[0]);
      assert Attempt(id, Sent) in Next(s, steps[0]).attempts;
    }
  }

  lemma OneStep(s: State, step: Step)
    ensures RunAll(s, [step]) == Next(s, step)
  {
    hide Next;
    assert RunAll(Next(s, step), []) == Next(s, step);
  }

  lemma HolderInv(s: State, w: nat)
    requires Inv(s) && w in s.workers
    ensures WorkerInv(s, s.workers[w])
  {
    hide WorkerInv, OneOpen, OneAttemptEach, Truthful;
  }

  lemma {:induction false} ReachAfter(s: State, w: nat, id: nat, step: Step) returns (steps: seq<Step>)
    requires Inv(s) && w in s.workers && Holds(s.workers[w], id)
    requires var s' := Next(s, step);
      && w in s'.workers && Holds(s'.workers[w], id)
      && Distance(s'.workers[w], id) < Distance(s.workers[w], id)
    ensures Attempted(RunAll(s, steps), id)
    decreases Distance(s.workers[w], id), 0
  {
    hide Inv, Next, Attempted, Holds;
    StepKeepsInv(s, step);
    var rest := ReachEmail(Next(s, step), w, id);
    steps := [step] + rest;
    assert steps[1..] == rest;
  }

  /** An episode not yet attempted is never emailed, whatever happens from here on, if and only if no running
      check still has it before it. */
  lemma NeverEmailedIff(s: State, id: nat)
    requires Inv(s) && id < |s.episodes| && !Attempted(s, id)
    ensures (forall steps :: !Attempted(RunAll(s, steps), id)) <==> !Held(s, id)
  {
    hide Inv, Attempted, Holds, RunAll;
    if Held(s, id) {
      var w :| w in s.workers && Holds(s.workers[w], id);
      var steps := ReachEmail(s, w, id);
    } else {
      forall steps ensures !Attempted(RunAll(s, steps), id) {
        ForgottenForGood(s, steps, id);
      }
    }
  }

  /** A check that dies, or fails to find the operators, leaves every episode it had before it without an email
      for good: no other check takes it over. */
  lemma DyingForgets(s: State, w: nat, id: nat, steps: seq<Step>)
    requires Inv(s) && w in s.workers && Holds(s.workers[w], id)
    ensures id < |s.episodes| && !Attempted(RunAll(Next(s, Die(w)), steps), id)
  {
    hide OneOpen, OneAttemptEach, Truthful, CountEmailed, RunAll;
    var s' := Next(s, Die(w));
    assert WorkerInv(s, s.workers[w]);
    forall v | v in s'.workers ensures !Holds(s'.workers[v], id) {
      assert Apart(s.workers[v], s.workers[w]) && WorkerInv(s, s.workers[v]);
    }
    RemovalKeepsInv(s, w);
    ForgottenForGood(s', steps, id);
  }

  // Repeated reports ----------------------------------------------------------------------------------

  /** A problem that has an open episode and still fires at a later check is reported again if and only if the
      check between did not list it. */
  lemma ReportedAgainIff(episodes: seq<Episode>, between: seq<Alert>, later: seq<Alert>, key: AlertKey)
    requires OneOpen(episodes) && IsOpen(episodes, key) && HasKey(later, key)
    ensures var mid := Recorded(episodes, between);
      IsOpen(Recorded(mid, later)[|mid|..], key) <==> !HasKey(between, key)
  {
    hide Recorded, OneOpen, IsOpen;
    RecordingOpensWhatFires(episodes, between);
    RecordingOpensWhatFires(Recorded(episodes, between), later);
  }

  /** A check that finds the database unreachable, and then reaches it again to record that, resolves every other
      episode, so each problem that outlasts the outage is reported a second time. (If the database stays away the
      recording fails and the check dies without a trace.) */
  lemma OutageReportsAgain(episodes: seq<Episode>, outage: Snapshot, later: Snapshot, key: AlertKey)
    requires OneOpen(episodes) && IsOpen(episodes, key) && key != DatabaseUnreachable
    requires !outage.databaseOk && Fires(later, key)
    ensures var mid := Recorded(episodes, Alerts(outage));
      !IsOpen(mid, key) && IsOpen(Recorded(mid, Alerts(later))[|mid|..], key)
  {
    hide Recorded, OneOpen, IsOpen, Alerts, HasKey;
    AlertsAreFiring(outage);
    AlertsAreFiring(later);
    assert !Fires(outage, key);
    RecordingOpensWhatFires(episodes, Alerts(outage));
    ReportedAgainIff(episodes, Alerts(outage), Alerts(later), key);
  }

  // ---------------------------------------------------------------------------------------------
  // One check
  // ---------------------------------------------------------------------------------------------

  /** The table with the outcomes of the first n of the opened episodes written back. */
  function MarkedUpTo(episodes: seq<Episode>, first: nat, n: nat, deliver: nat -> Delivery): (r: seq<Episode>)
    requires first + n <= |episodes|
    ensures |r| == |episodes|
    ensures forall i :: 0 <= i < |r| ==>
      r[i] == if first <= i < first + n then Marked(episodes[i], deliver(i)) else episodes[i]
  {
    seq(|episodes|, i requires 0 <= i < |episodes| =>
      if first <= i < first + n then Marked(episodes[i], deliver(i)) else episodes[i])
  }

  function AttemptsUpTo(first: nat, n: nat, deliver: nat -> Delivery): (r: seq<Attempt>)
    ensures |r| == n
  {
    seq(n, i requires 0 <= i < n => Attempt(first + i, deliver(first + i)))
  }

  lemma NothingDone(table: seq<Episode>, first: nat, deliver: nat -> Delivery)
    requires first <= |table|
    ensures MarkedUpTo(table, first, 0, deliver) == table && AttemptsUpTo(first, 0, deliver) == []
    ensures CountEmailed(table, first, 0) == 0
  {}

  lemma NextAttempt(first: nat, n: nat, deliver: nat -> Delivery)
    ensures AttemptsUpTo(first, n + 1, deliver)
         == AttemptsUpTo(first, n, deliver) + [Attempt(first + n, deliver(first + n))]
  {}

  lemma NextMark(table: seq<Episode>, first: nat, n: nat, deliver: nat -> Delivery)
    requires first + n < |table| && !Reported(table[first + n])
    ensures var before, after := MarkedUpTo(table, first, n, deliver), MarkedUpTo(table, first, n + 1, deliver);
      && after == before[first + n := Marked(before[first + n], deliver(first + n))]
      && CountEmailed(after, first, n + 1)
         == CountEmailed(before, first, n) + (if CountsAsEmailed(deliver(first + n)) then 1 else 0)
  {
    SameCount(MarkedUpTo(table, first, n, deliver), MarkedUpTo(table, first, n + 1, deliver), first, n);
  }

  class AlertTable {
    var episodes: seq<Episode>
    ghost var attempts: seq<Attempt>

    /** None stands for a throw. deliver is what the provider makes of each email, operatorsFound and marks are
        whether the calls around it succeed. */
    method RunOpsAlertCheck(snapshot: Snapshot, operatorsFound: bool, deliver: nat -> Delivery, marks: nat -> bool)
      returns (report: Option<Report>, ghost done: nat)
      modifies this
      ensures var table, first := Recorded(old(episodes), Alerts(snapshot)), |old(episodes)|;
        var count := |table| - first;
        && done <= count && (forall i :: first <= i < first + done ==> marks(i))
        && episodes == MarkedUpTo(table, first, done, deliver)
        && (report.Some? ==>
              && done == count && attempts == old(attempts) + AttemptsUpTo(first, done, deliver)
              && report.value.firing == |Alerts(snapshot)|
              && report.value.emailed == CountEmailed(episodes, first, count)
              && report.value.emailed + report.value.emailErrors == report.value.newlyOpened == count)
        && (report.None? && !operatorsFound ==> count > 0 && done == 0 && attempts == old(attempts))
        && (report.None? && operatorsFound ==>
              && done < count && !marks(first + done)
              && attempts == old(attempts) + AttemptsUpTo(first, done + 1, deliver))
    {
      hide Recorded, Alerts, CountEmailed, Marked, MarkedUpTo, AttemptsUpTo;
      var alerts := EvaluateAlerts(snapshot);
      var first := |episodes|;
      episodes := Recorded(episodes, alerts);
      var count := |episodes| - first;
      ghost var table := episodes;
      done := 0;
      NothingDone(table, first, deliver);
      var emailed, emailErrors := 0, 0;
      if count > 0 {
        if !operatorsFound {
          return None, 0;
        }
        for i := 0 to count
          invariant done == i && |episodes| == first + count
          invariant forall k :: first <= k < first + i ==> marks(k)
          invariant episodes == MarkedUpTo(table, first, i, deliver)
          invariant attempts == old(attempts) + AttemptsUpTo(first, i, deliver)
          invariant emailed == CountEmailed(episodes, first, i) && emailed + emailErrors == i
        {
          var id := first + i;
          var delivery := deliver(id);
          attempts := attempts + [Attempt(id, delivery)];
          NextAttempt(first, i, deliver);
          if !marks(id) {
            return None, done;
          }
          NextMark(table, first, i, deliver);
          episodes := episodes[id := Marked(episodes[id], delivery)];
          if CountsAsEmailed(delivery) {
            emailed := emailed + 1;
          } else {
            emailErrors := emailErrors + 1;
          }
          done := done + 1;
        }
      }
      report := Some(Report(|alerts|, count, emailed, emailErrors));
    }
  }
}
