/** Webhook and email deliveries through the transport outbox: rows, retry jobs, and the failure email that a
    dead webhook creates. */
module Outbox {
  import opened Text

  datatype Kind = Webhook | Email

  datatype Config = Config(webhookMax: int, webhookIntervals: seq<nat>, emailMax: int, emailIntervals: seq<nat>)

  const DEFAULTS := Config(3, [5, 20, 60], 1, [])

  function MaxAttempts(config: Config, kind: Kind): int {
    Max(if kind.Webhook? then config.webhookMax else config.emailMax, 1)
  }

  function Intervals(config: Config, kind: Kind): seq<nat> {
    if kind.Webhook? then config.webhookIntervals else config.emailIntervals
  }

  /** Seconds to wait after a failed attempt; the last interval repeats, and without intervals there is no retry. */
  function RetryDelay(config: Config, kind: Kind, attempt: int): Option<nat> {
    var intervals := Intervals(config, kind);
    if intervals == [] then None else Some(intervals[Min(Max(attempt - 1, 0), |intervals| - 1)])
  }

  datatype Status = Pending | Sending | Failed | Delivered | Dead

  /** Rows are unique by key: the caller's key within a project and kind, or the dead webhook that an email reports. */
  datatype Key = Given(project: string, kind: Kind, text: string) | FailureOf(webhook: nat)

  datatype Row = Row(
    key: Key, kind: Kind, eventType: string, status: Status, attempts: nat, maxAttempts: int, nextAttemptMs: nat)

  /** A queued job for a row; the queue does not run it before it is due. */
  datatype Job = Job(row: nat, dueMs: nat)

  /** Row identifiers are positions in the table.  `sends` records when each row's deliveries began. */
  datatype Table = Table(rows: seq<Row>, jobs: multiset<Job>, nowMs: nat, sends: seq<seq<nat>>)

  const EMPTY := Table([], multiset{}, 0, [])

  predicate Waiting(row: Row) {
    row.status.Pending? || row.status.Failed?
  }

  predicate Terminal(row: Row) {
    row.status.Delivered? || row.status.Dead?
  }

  // ---- operations ----

  predicate HasKey(rows: seq<Row>, key: Key) {
    exists i :: 0 <= i < |rows| && rows[i].key == key
  }

  /** One row and one job per key. */
  function Enqueued(config: Config, s: Table, key: Key, kind: Kind, eventType: string): Table {
    if HasKey(s.rows, key) then s
    else s.(rows := s.rows + [Row(key, kind, eventType, Pending, 0, MaxAttempts(config, kind), s.nowMs)],
            jobs := s.jobs + multiset{Job(|s.rows|, s.nowMs)}, sends := s.sends + [[]])
  }

  predicate Claimable(s: Table, r: nat, nowMs: nat) {
    r < |s.rows| && Waiting(s.rows[r]) && s.rows[r].nextAttemptMs <= nowMs
  }

  function Noted(sends: seq<seq<nat>>, r: nat, nowMs: nat): seq<seq<nat>> {
    if r < |sends| then sends[r := sends[r] + [nowMs]] else sends
  }

  function Claimed(s: Table, r: nat, nowMs: nat): Table {
    if !Claimable(s, r, nowMs) then s
    else s.(rows := s.rows[r := s.rows[r].(status := Sending, attempts := s.rows[r].attempts + 1)], 
            sends := Noted(s.sends, r, nowMs))
  }

  /** A job starts: it leaves the queue and claims its row if it can. */
  function Started(s: Table, job: Job, nowMs: nat): Table {
    Claimed(s.(jobs := s.jobs - multiset{job}, nowMs := nowMs), job.row, nowMs)
  }

  predicate IsDead(config: Config, row: Row) {
    row.attempts >= row.maxAttempts || RetryDelay(config, row.kind, Max(row.attempts, 1)).None?
  }

  predicate ReportsFailure(row: Row, alerting: bool) {
    row.kind.Webhook? && alerting && row.eventType != "webhook.test"
  }

  function SetRow(s: Table, r: nat, row: Row): Table
    requires r < |s.rows|
  {
    s.(rows := s.rows[r := row])
  }

  /** The delivery in progress for a row ends.  `alerting` says that the project has protection, webhook and
      email switched on. */
  function Finished(config: Config, s: Table, r: nat, ok: bool, alerting: bool, failedMs: nat, queuedMs: nat): Table
    requires r < |s.rows|
  {
    var row, at := s.rows[r], s.(nowMs := queuedMs);
    if ok then SetRow(at, r, row.(status := Delivered))
    else if IsDead(config, row) then
      var dead := SetRow(at, r, row.(status := Dead, nextAttemptMs := failedMs));
      if ReportsFailure(row, alerting)
          then Enqueued(config, dead, FailureOf(r), Email, "webhook.delivery_failed") else dead
    else
      var delayMs := 1000 * RetryDelay(config, row.kind, Max(row.attempts, 1)).value;
      var failed := SetRow(at, r, row.(status := Failed, nextAttemptMs := failedMs + delayMs));
      failed.(jobs := s.jobs + multiset{Job(r, queuedMs + delayMs)})
  }

  class Transport {
    const config: Config
    var rows: seq<Row>
    var jobs: multiset<Job>
    ghost var nowMs: nat
    ghost var sends: seq<seq<nat>>

    ghost function State(): Table
      reads this
    {
      Table(rows, jobs, nowMs, sends)
    }

    constructor (config: Config)
      ensures this.config == config && State() == EMPTY
    {
      this.config, rows, jobs := config, [], multiset{};
      nowMs, sends := 0, [];
    }

    method CreateOrGetDeduped(key: Key, kind: Kind, eventType: string, now: nat) returns (id: nat, created: bool)
      modifies this`rows
      ensures created == !HasKey(old(rows), key) && id < |rows| && rows[id].key == key
      ensures !created ==> rows == old(rows)
      ensures created ==>
                && id == |old(rows)|
                && rows == old(rows) + [Row(key, kind, eventType, Pending, 0, MaxAttempts(config, kind), now)]
    {
      id := 0;
      while id < |rows|
        invariant id <= |rows| && rows == old(rows)
        invariant forall i | 0 <= i < id :: rows[i].key != key
      {
        if rows[id].key == key {
          return id, false;
        }
        id := id + 1;
      }
      rows := rows + [Row(key, kind, eventType, Pending, 0, MaxAttempts(config, kind), now)];
      created := true;
    }

    method Enqueue(key: Key, kind: Kind, eventType: string, now: nat)
      requires now == nowMs
      modifies this
      ensures State() == Enqueued(config, old(State()), key, kind, eventType)
    {
      var id, created := CreateOrGetDeduped(key, kind, eventType, now);
      if created {
        jobs := jobs + multiset{Job(id, now)};
        sends := sends + [[]];
      }
    }

    method ClaimForSend(id: nat, now: nat) returns (claimed: bool)
      modifies this`rows, this`sends
      ensures State() == Claimed(old(State()), id, now) && claimed == Claimable(old(State()), id, now)
    {
      claimed := id < |rows| && (rows[id].status == Pending || rows[id].status == Failed)
          && rows[id].nextAttemptMs <= now;
      if claimed {
        rows := rows[id := rows[id].(status := Sending, attempts := rows[id].attempts + 1)];
        sends := Noted(sends, id, now);
      }
    }

    method MarkFailed(id: nat, dead: bool, nextAttemptMs: nat)
      requires id < |rows|
      modifies this`rows
      ensures var status := if dead then Dead else Failed;
              rows == old(rows)[id := old(rows)[id].(status := status, nextAttemptMs := nextAttemptMs)]
    {
      rows := rows[id := rows[id].(status := if dead then Dead else Failed, nextAttemptMs := nextAttemptMs)];
    }

    method FinishDelivery(id: nat, ok: bool, alerting: bool, failedMs: nat, queuedMs: nat)
      requires id < |rows|
      modifies this
      ensures State() == Finished(config, old(State()), id, ok, alerting, failedMs, queuedMs)
    {
      nowMs := queuedMs;
      var outbox := rows[id];
      if ok {
        rows := rows[id := outbox.(status := Delivered)];
        return;
      }
      var attempts := Max(outbox.attempts, 1);
      var delaySeconds := RetryDelay(config, outbox.kind, attempts);
      if outbox.attempts >= outbox.maxAttempts || delaySeconds.None? {
        MarkFailed(id, true, failedMs);
        if outbox.kind == Webhook && outbox.eventType != "webhook.test" && alerting {
          Enqueue(FailureOf(id), Email, "webhook.delivery_failed", queuedMs);
        }
      } else {
        var delayMs := 1000 * delaySeconds.value;
        MarkFailed(id, false, failedMs + delayMs);
        jobs := jobs + multiset{Job(id, queuedMs + delayMs)};
      }
    }

    method StartJob(job: Job, now: nat) returns (claimed: bool)
      modifies this
      ensures State() == Started(old(State()), job, now) && claimed == Claimable(old(State()), job.row, now)
    {
      jobs := jobs - multiset{job};
      nowMs := now;
      assert State() == old(State()).(jobs := old(State()).jobs - multiset{job}, nowMs := now);
      claimed := ClaimForSend(job.row, now);
    }

    /** A job that runs to its end before anything else happens. */
    method ProcessOutboxDelivery(job: Job, now: nat, ok: bool, alerting: bool, failedMs: nat, queuedMs: nat)
      modifies this
      ensures !Claimable(old(State()), job.row, now) ==> State() == Started(old(State()), job, now)
      ensures Claimable(old(State()), job.row, now) ==>
                State() == Finished(config, Started(old(State()), job, now), job.row, ok, alerting, failedMs, queuedMs)
    {
      var claimed := StartJob(job, now);
      if claimed {
        FinishDelivery(job.row, ok, alerting, failedMs, queuedMs);
      }
    }
  }

  // ---- runs: callers and any number of workers ----

  datatype Step =
    | Submit(project: string, kind: Kind, text: string, eventType: string, nowMs: nat)
    | Start(job: Job, nowMs: nat)
    | Finish(row: nat, ok: bool, alerting: bool, failedMs: nat, queuedMs: nat)

  /** A step that is not possible leaves the state unchanged. */
  function Next(config: Config, s: Table, step: Step): Table {
    match step
    case Submit(project, kind, text, eventType, nowMs) =>
      if nowMs < s.nowMs then s else Enqueued(config, s.(nowMs := nowMs), Given(project, kind, text), kind, eventType)
    case Start(job, nowMs) =>
      if job !in s.jobs || nowMs < s.nowMs || nowMs < job.dueMs then s else Started(s, job, nowMs)
    case Finish(r, ok, alerting, failedMs, queuedMs) =>
      if r >= |s.rows| || !s.rows[r].status.Sending? || failedMs < s.nowMs || queuedMs < failedMs then s
      else Finished(config, s, r, ok, alerting, failedMs, queuedMs)
  }

  function Run(config: Config, steps: seq<Step>): Table {
    if steps == [] then EMPTY else Next(config, Run(config, steps[..|steps| - 1]), steps[|steps| - 1])
  }

  // ---- the invariant ----

  ghost predicate HasJob(s: Table, r: nat) {
    exists j :: j in s.jobs && j.row == r
  }

  /** A row has exactly one job while it waits and none otherwise, and the job is due only once the row can be
      claimed. */
  ghost predicate OneJobEach(s: Table) {
    && (forall j :: j in s.jobs ==>
          && s.jobs[j] == 1 && j.row < |s.rows|
          && Waiting(s.rows[j.row]) && s.rows[j.row].nextAttemptMs <= j.dueMs)
    && (forall i, j :: i in s.jobs && j in s.jobs && i.row == j.row ==> i == j)
    && (forall r: nat | r < |s.rows| && Waiting(s.rows[r]) :: HasJob(s, r))
  }

  predicate AttemptsFit(config: Config, row: Row) {
    && row.maxAttempts == MaxAttempts(config, row.kind)
    && row.attempts <= row.maxAttempts
    && (Waiting(row) ==> row.attempts < row.maxAttempts)
    && (row.status.Dead? ==> IsDead(config, row))
    && (row.status.Pending? <==> row.attempts == 0)
    && (row.status.Failed? || row.attempts >= 2 ==> Intervals(config, row.kind) != [])
  }

  ghost predicate Counted(config: Config, s: Table) {
    && |s.sends| == |s.rows|
    && (forall r: nat | r < |s.rows| :: AttemptsFit(config, s.rows[r]) && |s.sends[r]| == s.rows[r].attempts)
  }

  /** Keys are unique, and a failure email reports an earlier row that is a dead webhook. */
  ghost predicate Keyed(s: Table) {
    && (forall i, j | 0 <= i < j < |s.rows| :: s.rows[i].key != s.rows[j].key)
    && (forall i | 0 <= i < |s.rows| && s.rows[i].key.FailureOf? ::
          var w := s.rows[i].key.webhook;
          w < i && s.rows[i].kind.Email? && s.rows[w].kind.Webhook? && s.rows[w].status.Dead?
              && s.rows[w].eventType != "webhook.test")
  }

  ghost predicate Inv(config: Config, s: Table) {
    OneJobEach(s) && Counted(config, s) && Keyed(s)
  }

  ghost predicate Reportable(rows: seq<Row>, w: nat) {
    w < |rows| && rows[w].kind.Webhook? && rows[w].status.Dead? && rows[w].eventType != "webhook.test"
  }

  lemma EnqueueKeepsJobs(config: Config, s: Table, key: Key, kind: Kind, eventType: string)
    requires OneJobEach(s)
    ensures OneJobEach(Enqueued(config, s, key, kind, eventType))
  {
    var s' := Enqueued(config, s, key, kind, eventType);
    if !HasKey(s.rows, key) {
      AddJob(s, s', |s.rows|, s.nowMs);
    }
  }

  /** A row that had no job gets one. */
  lemma AddJob(s: Table, s': Table, r: nat, dueMs: nat)
    requires OneJobEach(s) && s'.jobs == s.jobs + multiset{Job(r, dueMs)}
    requires r < |s'.rows| && (r < |s.rows| ==> !Waiting(s.rows[r])) && Waiting(s'.rows[r])
            && s'.rows[r].nextAttemptMs <= dueMs
    requires r <= |s.rows| <= |s'.rows| <= Max(|s.rows|, r + 1)
    requires forall q | 0 <= q < |s.rows| && q != r :: s'.rows[q] == s.rows[q]
    ensures OneJobEach(s')
  {
    var job := Job(r, dueMs);
    assert job !in s.jobs;
    assert job in s'.jobs;
    forall q: nat | q < |s'.rows| && Waiting(s'.rows[q]) ensures HasJob(s', q) {
      if q != r {
        assert HasJob(s, q);
        var j :| j in s.jobs && j.row == q;
        assert j in s'.jobs;
      }
    }
  }

  lemma EnqueueKeepsKeys(config: Config, s: Table, key: Key, kind: Kind, eventType: string)
    requires Keyed(s) && (key.FailureOf? ==> kind.Email? && Reportable(s.rows, key.webhook))
    ensures Keyed(Enqueued(config, s, key, kind, eventType))
  {
  }

  lemma EnqueueKeepsCounts(config: Config, s: Table, key: Key, kind: Kind, eventType: string)
    requires Counted(config, s)
    ensures Counted(config, Enqueued(config, s, key, kind, eventType))
  {
  }

  lemma EnqueueKeepsInv(config: Config, s: Table, key: Key, kind: Kind, eventType: string)
    requires Inv(config, s) && (key.FailureOf? ==> kind.Email? && Reportable(s.rows, key.webhook))
    ensures Inv(config, Enqueued(config, s, key, kind, eventType))
  {
    EnqueueKeepsJobs(config, s, key, kind, eventType);
    EnqueueKeepsKeys(config, s, key, kind, eventType);
    EnqueueKeepsCounts(config, s, key, kind, eventType);
  }

  /** `s'` is `s` with row `r` moved on. */
  predicate Moved(s: Table, s': Table, r: nat) {
    && r < |s.rows| == |s'.rows|
    && !s.rows[r].status.Dead?
    && s'.rows == s.rows[r := s'.rows[r]]
    && s'.rows[r].key == s.rows[r].key && s'.rows[r].kind == s.rows[r].kind
        && s'.rows[r].eventType == s.rows[r].eventType
  }

  lemma MoveKeepsKeys(s: Table, s': Table, r: nat)
    requires Keyed(s) && Moved(s, s', r)
    ensures Keyed(s')
  {
    forall i, j | 0 <= i < j < |s'.rows| ensures s'.rows[i].key != s'.rows[j].key {
      assert s.rows[i].key != s.rows[j].key;
    }
  }

  lemma MoveKeepsCounts(config: Config, s: Table, s': Table, r: nat)
    requires Counted(config, s) && Moved(s, s', r) && AttemptsFit(config, s'.rows[r])
    requires |s'.sends| == |s.sends| && s'.sends == s.sends[r := s'.sends[r]] && |s'.sends[r]| == s'.rows[r].attempts
    ensures Counted(config, s')
  {
  }

  /** A due job always finds its row claimable. */
  lemma DueJobClaims(s: Table, job: Job, nowMs: nat)
    requires OneJobEach(s) && job in s.jobs && job.dueMs <= nowMs
    ensures Claimable(s, job.row, nowMs)
  {
  }

  /** A row that no longer waits loses its job. */
  lemma RemoveJob(s: Table, s': Table, job: Job)
    requires OneJobEach(s) && job in s.jobs && s'.jobs == s.jobs - multiset{job}
    requires |s'.rows| == |s.rows| && !Waiting(s'.rows[job.row])
    requires forall q | 0 <= q < |s.rows| && q != job.row :: s'.rows[q] == s.rows[q]
    ensures OneJobEach(s')
  {
    assert s.jobs[job] == 1;
    forall j | j in s'.jobs ensures j in s.jobs && j.row != job.row && s'.jobs[j] == s.jobs[j] {
    }
    forall r: nat | r < |s'.rows| && Waiting(s'.rows[r]) ensures HasJob(s', r) {
      assert HasJob(s, r);
      var j :| j in s.jobs && j.row == r;
      assert j in s'.jobs;
    }
  }

  lemma StartKeepsJobs(s: Table, job: Job, nowMs: nat)
    requires OneJobEach(s) && job in s.jobs && job.dueMs <= nowMs
    ensures OneJobEach(Started(s, job, nowMs))
  {
    DueJobClaims(s, job, nowMs);
    RemoveJob(s, Started(s, job, nowMs), job);
  }

  lemma StartKeepsInv(config: Config, s: Table, job: Job, nowMs: nat)
    requires Inv(config, s) && job in s.jobs && job.dueMs <= nowMs
    ensures Inv(config, Started(s, job, nowMs))
  {
    var s' := Started(s, job, nowMs);
    StartKeepsJobs(s, job, nowMs);
    DueJobClaims(s, job, nowMs);
    MoveKeepsKeys(s, s', job.row);
    MoveKeepsCounts(config, s, s', job.row);
  }

  /** A row whose delivery ended for good has no job. */
  lemma CloseKeepsJobs(s: Table, s': Table, r: nat)
    requires OneJobEach(s) && Moved(s, s', r) && !Waiting(s.rows[r]) && !Waiting(s'.rows[r]) && s'.jobs == s.jobs
    ensures OneJobEach(s')
  {
    forall q: nat | q < |s'.rows| && Waiting(s'.rows[q]) ensures HasJob(s', q) {
      assert HasJob(s, q);
      var j :| j in s.jobs && j.row == q;
      assert j in s'.jobs;
    }
  }

  /** The table once the row is closed and before any failure email. */
  function Closed(s: Table, r: nat, ok: bool, failedMs: nat, queuedMs: nat): Table
    requires r < |s.rows|
  {
    SetRow(s.(nowMs := queuedMs), r,
           if ok then s.rows[r].(status := Delivered) else s.rows[r].(status := Dead, nextAttemptMs := failedMs))
  }

  lemma CloseKeepsInv(config: Config, s: Table, r: nat, ok: bool, failedMs: nat, queuedMs: nat)
    requires Inv(config, s) && r < |s.rows| && s.rows[r].status.Sending? && (ok || IsDead(config, s.rows[r]))
    ensures Inv(config, Closed(s, r, ok, failedMs, queuedMs))
  {
    var s' := Closed(s, r, ok, failedMs, queuedMs);
    CloseKeepsJobs(s, s', r);
    MoveKeepsKeys(s, s', r);
    MoveKeepsCounts(config, s, s', r);
  }

  lemma RetryKeepsInv(config: Config, s: Table, r: nat, alerting: bool, failedMs: nat, queuedMs: nat)
    requires Inv(config, s) && r < |s.rows| && s.rows[r].status.Sending? && failedMs <= queuedMs
            && !IsDead(config, s.rows[r])
    ensures Inv(config, Finished(config, s, r, false, alerting, failedMs, queuedMs))
  {
    var s' := Finished(config, s, r, false, alerting, failedMs, queuedMs);
    var delayMs := 1000 * RetryDelay(config, s.rows[r].kind, Max(s.rows[r].attempts, 1)).value;
    AddJob(s, s', r, queuedMs + delayMs);
    MoveKeepsKeys(s, s', r);
    MoveKeepsCounts(config, s, s', r);
  }

  lemma FinishKeepsInv(config: Config, s: Table, r: nat, ok: bool, alerting: bool, failedMs: nat, queuedMs: nat)
    requires Inv(config, s) && r < |s.rows| && s.rows[r].status.Sending? && failedMs <= queuedMs
    ensures Inv(config, Finished(config, s, r, ok, alerting, failedMs, queuedMs))
  {
    if !ok && !IsDead(config, s.rows[r]) {
      RetryKeepsInv(config, s, r, alerting, failedMs, queuedMs);
    } else {
      CloseKeepsInv(config, s, r, ok, failedMs, queuedMs);
      if !ok && ReportsFailure(s.rows[r], alerting) {
        EnqueueKeepsInv(config, Closed(s, r, ok, failedMs, queuedMs), FailureOf(r), Email, "webhook.delivery_failed");
      }
    }
  }

  lemma StepKeepsInv(config: Config, s: Table, step: Step)
    requires Inv(config, s)
    ensures Inv(config, Next(config, s, step))
  {
    if Next(config, s, step) != s {
      match step
      case Submit(project, kind, text, eventType, nowMs) =>
        var later := s.(nowMs := nowMs);
        assert forall r: nat :: HasJob(later, r) == HasJob(s, r);
        EnqueueKeepsInv(config, later, Given(project, kind, text), kind, eventType);
      case Start(job, nowMs) => StartKeepsInv(config, s, job, nowMs);
      case Finish(r, ok, alerting, failedMs, queuedMs) => FinishKeepsInv(config, s, r, ok, alerting, failedMs,
          queuedMs);
    }
  }

  lemma {:induction false} RunKeepsInv(config: Config, steps: seq<Step>)
    ensures Inv(config, Run(config, steps))
  {
    if steps == [] {
    } else {
      RunKeepsInv(config, steps[..|steps| - 1]);
      StepKeepsInv(config, Run(config, steps[..|steps| - 1]), steps[|steps| - 1]);
    }
  }

  // ---- what it gives ----

  /** Per row: one outstanding job exactly while it waits, deliveries counted by `attempts` and at most
      `max_attempts`; per dead webhook at most one failure email, and none that reports a row still alive. */
  lemma CascadeIsBounded(config: Config, steps: seq<Step>)
    ensures var s := Run(config, steps);
            && |s.sends| == |s.rows|
            && (forall r: nat | r < |s.rows| ::
                |s.sends[r]| == s.rows[r].attempts <= MaxAttempts(config, s.rows[r].kind))
            && (forall r: nat | r < |s.rows| :: Waiting(s.rows[r]) <==> HasJob(s, r))
            && (forall i, j :: i in s.jobs && j in s.jobs && i.row == j.row ==> i == j && s.jobs[i] == 1)
            && (forall i, j | 0 <= i < |s.rows| && 0 <= j < |s.rows| && s.rows[i].key.FailureOf?
                && s.rows[i].key == s.rows[j].key :: i == j)
            && (forall i | 0 <= i < |s.rows| && s.rows[i].key.FailureOf? ::
                  var w := s.rows[i].key.webhook; w < i && s.rows[w].kind.Webhook? && s.rows[w].status.Dead?)
  {
    RunKeepsInv(config, steps);
  }

  /** A failed webhook delivery is the last one exactly when all attempts are used or there is no interval to wait;
      then, and only then, and if the project alerts and it was not a test, there is a failure email to send. */
  lemma FailureEmailIff(config: Config, steps: seq<Step>, r: nat, alerting: bool, failedMs: nat, queuedMs: nat)
    requires var s := Run(config, steps);
             && r < |s.rows| && s.rows[r].kind == Webhook && s.rows[r].status == Sending
             && s.nowMs <= failedMs <= queuedMs
    ensures var s := Run(config, steps);
            var s' := Next(config, s, Finish(r, false, alerting, failedMs, queuedMs));
            var over := s.rows[r].attempts >= Max(config.webhookMax, 1) || config.webhookIntervals == [];
            && r < |s'.rows| && (s'.rows[r].status == if over then Dead else Failed)
            && !HasKey(s.rows, FailureOf(r))
            && (HasKey(s'.rows, FailureOf(r)) <==> over && alerting && s.rows[r].eventType != "webhook.test")
  {
    RunKeepsInv(config, steps);
    var s := Run(config, steps);
    assert AttemptsFit(config, s.rows[r]);
    assert !HasKey(s.rows, FailureOf(r));
    if IsDead(config, s.rows[r]) {
      ClosingReports(config, s, r, alerting, failedMs, queuedMs);
    } else {
      assert forall i | 0 <= i < |s.rows| ::
          Finished(config, s, r, false, alerting, failedMs, queuedMs).rows[i].key == s.rows[i].key;
    }
  }

  lemma ClosingReports(config: Config, s: Table, r: nat, alerting: bool, failedMs: nat, queuedMs: nat)
    requires r < |s.rows| && IsDead(config, s.rows[r]) && !HasKey(s.rows, FailureOf(r))
    ensures var s' := Finished(config, s, r, false, alerting, failedMs, queuedMs);
            && r < |s'.rows| && s'.rows[r].status == Dead
            && (HasKey(s'.rows, FailureOf(r))
                <==> s.rows[r].kind == Webhook && alerting && s.rows[r].eventType != "webhook.test")
  {
    var closed := Closed(s, r, false, failedMs, queuedMs);
    var s' := Finished(config, s, r, false, alerting, failedMs, queuedMs);
    assert forall i | 0 <= i < |s.rows| :: closed.rows[i].key == s.rows[i].key;
    if s.rows[r].kind == Webhook && alerting && s.rows[r].eventType != "webhook.test" {
      assert s'.rows[|s.rows|].key == FailureOf(r);
    } else {
      assert s' == closed;
    }
  }

  /** A failing email, and a webhook that still has attempts, create no row at all. */
  lemma OnlyDeathsCreateRows(config: Config, s: Table, r: nat, ok: bool, alerting: bool, failedMs: nat, queuedMs: nat)
    requires r < |s.rows| && (ok || s.rows[r].kind == Email || !IsDead(config, s.rows[r]))
    ensures |Finished(config, s, r, ok, alerting, failedMs, queuedMs).rows| == |s.rows|
  {
  }

  /** A row is given up exactly at its last attempt, or at its first if its kind has no retry interval. */
  lemma DeadIsExhausted(config: Config, steps: seq<Step>, r: nat)
    requires r < |Run(config, steps).rows| && Run(config, steps).rows[r].status == Dead
    ensures var row := Run(config, steps).rows[r];
            var intervals := if row.kind == Webhook then config.webhookIntervals else config.emailIntervals;
            var most := Max(if row.kind == Webhook then config.webhookMax else config.emailMax, 1);
            row.attempts == if intervals == [] then 1 else most
  {
    RunKeepsInv(config, steps);
    DeadRow(config, Run(config, steps).rows[r]);
  }

  lemma DeadRow(config: Config, row: Row)
    requires AttemptsFit(config, row) && row.status == Dead
    ensures row.attempts == if Intervals(config, row.kind) == [] then 1 else MaxAttempts(config, row.kind)
  {
  }

  /** Every job that the queue runs claims its row: the "row unavailable" branch is never taken. */
  lemma EveryDueJobDelivers(config: Config, steps: seq<Step>, job: Job, nowMs: nat)
    requires job in Run(config, steps).jobs && nowMs >= job.dueMs
    ensures var s := Run(config, steps);
            var s' := Started(s, job, nowMs);
            && job.row < |s.rows| && s'.rows[job.row].status.Sending?
            && |s'.sends| == |s.sends| == |s.rows| && s'.sends[job.row] == s.sends[job.row] + [nowMs]
  {
    RunKeepsInv(config, steps);
    DueJobClaims(Run(config, steps), job, nowMs);
  }

  // ---- retries wait ----

  /** Each delivery begins at least the retry delay of the attempt before it later. */
  ghost predicate Spaced(config: Config, kind: Kind, times: seq<nat>) {
    forall i | 0 <= i < |times| - 1 :: WaitsAfter(config, kind, i + 1, times[i], times[i+1])
  }

  predicate WaitsAfter(config: Config, kind: Kind, attempt: nat, earlier: nat, later: nat) {
    RetryDelay(config, kind, attempt).Some? && earlier + 1000 * RetryDelay(config, kind, attempt).value <= later
  }

  ghost predicate TimesFit(config: Config, row: Row, times: seq<nat>, nowMs: nat) {
    && Spaced(config, row.kind, times)
    && |times| == row.attempts
    && (times != [] ==> times[|times| - 1] <= nowMs)
    && (times != [] && Waiting(row) ==> WaitsAfter(config, row.kind, |times|, times[|times| - 1], row.nextAttemptMs))
  }

  ghost predicate Timed(config: Config, s: Table) {
    |s.sends| == |s.rows| && forall r | 0 <= r < |s.rows| :: TimesFit(config, s.rows[r], s.sends[r], s.nowMs)
  }

  lemma OneMoreSend(config: Config, row: Row, times: seq<nat>, row': Row, beforeMs: nat, nowMs: nat)
    requires TimesFit(config, row, times, beforeMs) && Waiting(row) && row.nextAttemptMs <= nowMs
    requires row' == row.(status := Sending, attempts := row.attempts + 1)
    ensures TimesFit(config, row', times + [nowMs], nowMs)
  {
    var all := times + [nowMs];
    forall i | 0 <= i < |all| - 1 ensures WaitsAfter(config, row.kind, i + 1, all[i], all[i+1]) {
      assert i < |times| - 1 ==> WaitsAfter(config, row.kind, i + 1, times[i], times[i+1]);
    }
  }

  lemma StartKeepsTimes(config: Config, s: Table, job: Job, nowMs: nat)
    requires Inv(config, s) && Timed(config, s) && job in s.jobs && job.dueMs <= nowMs && s.nowMs <= nowMs
    ensures Timed(config, Started(s, job, nowMs))
  {
    var s' := Started(s, job, nowMs);
    DueJobClaims(s, job, nowMs);
    forall r | 0 <= r < |s'.rows| ensures TimesFit(config, s'.rows[r], s'.sends[r], nowMs) {
      assert TimesFit(config, s.rows[r], s.sends[r], s.nowMs);
      if r == job.row {
        OneMoreSend(config, s.rows[r], s.sends[r], s'.rows[r], s.nowMs, nowMs);
      }
    }
  }

  /** What ending one delivery leaves of the other rows, and of the send times. */
  lemma FinishTouchesOne(config: Config, s: Table, r: nat, ok: bool, alerting: bool, failedMs: nat, queuedMs: nat)
    requires r < |s.rows| == |s.sends|
    ensures var s' := Finished(config, s, r, ok, alerting, failedMs, queuedMs);
            && s'.nowMs == queuedMs && |s'.rows| == |s'.sends| >= |s.rows|
            && (forall q | 0 <= q < |s.rows| :: s'.sends[q] == s.sends[q] && (q != r ==> s'.rows[q] == s.rows[q]))
            && (forall q | |s.rows| <= q < |s'.rows| :: s'.sends[q] == [] && s'.rows[q].attempts == 0)
            && s'.rows[r].kind == s.rows[r].kind && s'.rows[r].attempts == s.rows[r].attempts
            && (Waiting(s'.rows[r]) && s.rows[r].status.Sending? && s.rows[r].attempts >= 1 ==>
                  WaitsAfter(config, s.rows[r].kind, s.rows[r].attempts, failedMs, s'.rows[r].nextAttemptMs))
  {
  }

  lemma FinishKeepsTimes(config: Config, s: Table, r: nat, ok: bool, alerting: bool, failedMs: nat, queuedMs: nat)
    requires Inv(config, s) && Timed(config, s) && r < |s.rows| && s.rows[r].status.Sending?
            && s.nowMs <= failedMs <= queuedMs
    ensures Timed(config, Finished(config, s, r, ok, alerting, failedMs, queuedMs))
  {
    var s' := Finished(config, s, r, ok, alerting, failedMs, queuedMs);
    FinishTouchesOne(config, s, r, ok, alerting, failedMs, queuedMs);
    assert AttemptsFit(config, s.rows[r]);
    forall q | 0 <= q < |s'.rows| ensures TimesFit(config, s'.rows[q], s'.sends[q], queuedMs) {
      if q < |s.rows| {
        assert TimesFit(config, s.rows[q], s.sends[q], s.nowMs);
      }
    }
  }

  lemma SubmitKeepsTimes(config: Config, s: Table, key: Key, kind: Kind, eventType: string, nowMs: nat)
    requires Timed(config, s) && s.nowMs <= nowMs
    ensures Timed(config, Enqueued(config, s.(nowMs := nowMs), key, kind, eventType))
  {
    forall r | 0 <= r < |s.rows| ensures TimesFit(config, s.rows[r], s.sends[r], nowMs) {
      assert TimesFit(config, s.rows[r], s.sends[r], s.nowMs);
    }
  }

  lemma {:induction false} RunKeepsTimes(config: Config, steps: seq<Step>)
    ensures Timed(config, Run(config, steps))
  {
    if steps == [] {
    } else {
      var s, last := Run(config, steps[..|steps| - 1]), steps[|steps| - 1];
      RunKeepsTimes(config, steps[..|steps| - 1]);
      RunKeepsInv(config, steps[..|steps| - 1]);
      if Next(config, s, last) != s {
        match last
        case Submit(project, kind, text, eventType, nowMs) =>
          SubmitKeepsTimes(config, s, Given(project, kind, text), kind, eventType, nowMs);
        case Start(job, nowMs) => StartKeepsTimes(config, s, job, nowMs);
        case Finish(r, ok, alerting, failedMs, queuedMs) => FinishKeepsTimes(config, s, r, ok, alerting, failedMs,
            queuedMs);
      }
    }
  }

  /** In every interleaving, a row's next delivery begins no sooner than the retry delay of the attempt before. */
  lemma RetriesWait(config: Config, steps: seq<Step>, r: nat, i: nat)
    requires r < |Run(config, steps).rows| && i + 1 < Run(config, steps).rows[r].attempts
    ensures var s := Run(config, steps);
            && |s.sends| == |s.rows| && |s.sends[r]| == s.rows[r].attempts
            && RetryDelay(config, s.rows[r].kind, i + 1).Some?
            && s.sends[r][i] + 1000 * RetryDelay(config, s.rows[r].kind, i + 1).value <= s.sends[r][i+1]
  {
    RunKeepsTimes(config, steps);
    var s := Run(config, steps);
    assert TimesFit(config, s.rows[r], s.sends[r], s.nowMs);
    assert WaitsAfter(config, s.rows[r].kind, i + 1, s.sends[r][i], s.sends[r][i+1]);
  }

  // ---- termination ----

  function EmailWork(config: Config): nat {
    2 * MaxAttempts(config, Email)
  }

  /** Two moves per remaining attempt, and for a live webhook enough for the failure email it may create. */
  function RowWork(config: Config, row: Row): int {
    if Terminal(row) then 0
    else
      2 * (row.maxAttempts - row.attempts) + (if row.status.Sending? then 1 else 0)
      + (if row.kind.Webhook? then EmailWork(config) else 0)
  }

  function Work(config: Config, rows: seq<Row>): int {
    if rows == [] then 0 else Work(config, rows[..|rows| - 1]) + RowWork(config, rows[|rows| - 1])
  }

  lemma {:induction false} WorkAfterChange(config: Config, rows: seq<Row>, r: nat, row: Row)
    requires r < |rows|
    ensures Work(config, rows[r := row]) == Work(config, rows) - RowWork(config, rows[r]) + RowWork(config, row)
  {
    var n := |rows| - 1;
    if r < n {
      WorkAfterChange(config, rows[..n], r, row);
      assert rows[r := row][..n] == rows[..n][r := row];
    } else {
      assert rows[r := row][..n] == rows[..n];
    }
  }

  lemma {:induction false} WorkIsNatural(config: Config, rows: seq<Row>)
    requires forall r | 0 <= r < |rows| :: rows[r].attempts <= rows[r].maxAttempts
    ensures Work(config, rows) >= 0
  {
    if rows == [] {
    } else {
      WorkIsNatural(config, rows[..|rows| - 1]);
    }
  }

  function SubmitWork(config: Config): nat {
    2 * MaxAttempts(config, Webhook) + EmailWork(config)
  }

  lemma EnqueueAddsWork(config: Config, s: Table, key: Key, kind: Kind, eventType: string)
    ensures Work(config, Enqueued(config, s, key, kind, eventType).rows)
            <= Work(config, s.rows) + (if kind.Webhook? then SubmitWork(config) else EmailWork(config))
  {
    if !HasKey(s.rows, key) {
      assert Enqueued(config, s, key, kind, eventType).rows[..|s.rows|] == s.rows;
    }
  }

  lemma StartTakesWork(config: Config, s: Table, job: Job, nowMs: nat)
    requires Inv(config, s) && job in s.jobs && job.dueMs <= nowMs
    ensures Work(config, Started(s, job, nowMs).rows) < Work(config, s.rows)
  {
    DueJobClaims(s, job, nowMs);
    WorkAfterChange(config, s.rows, job.row, Started(s, job, nowMs).rows[job.row]);
  }

  lemma CloseTakesWork(config: Config, s: Table, r: nat, ok: bool, failedMs: nat, queuedMs: nat)
    requires r < |s.rows| && s.rows[r].status.Sending? && AttemptsFit(config, s.rows[r])
    ensures Work(config, Closed(s, r, ok, failedMs, queuedMs).rows)
            < Work(config, s.rows) - if s.rows[r].kind.Webhook? then EmailWork(config) else 0
  {
    WorkAfterChange(config, s.rows, r, Closed(s, r, ok, failedMs, queuedMs).rows[r]);
  }

  lemma RetryTakesWork(config: Config, s: Table, r: nat, alerting: bool, failedMs: nat, queuedMs: nat)
    requires r < |s.rows| && s.rows[r].status.Sending? && !IsDead(config, s.rows[r])
    ensures Work(config, Finished(config, s, r, false, alerting, failedMs, queuedMs).rows) < Work(config, s.rows)
  {
    WorkAfterChange(config, s.rows, r, Finished(config, s, r, false, alerting, failedMs, queuedMs).rows[r]);
  }

  lemma FinishTakesWork(config: Config, s: Table, r: nat, ok: bool, alerting: bool, failedMs: nat, queuedMs: nat)
    requires Inv(config, s) && r < |s.rows| && s.rows[r].status.Sending?
    ensures Work(config, Finished(config, s, r, ok, alerting, failedMs, queuedMs).rows) < Work(config, s.rows)
  {
    assert AttemptsFit(config, s.rows[r]);
    if ok || IsDead(config, s.rows[r]) {
      CloseTakesWork(config, s, r, ok, failedMs, queuedMs);
      EnqueueAddsWork(config, Closed(s, r, ok, failedMs, queuedMs), FailureOf(r), Email, "webhook.delivery_failed");
    } else {
      RetryTakesWork(config, s, r, alerting, failedMs, queuedMs);
    }
  }

  /** The measure drops when a job starts and when a delivery ends, even one that creates an email. */
  lemma JobTakesWork(config: Config, s: Table, step: Step)
    requires Inv(config, s) && !step.Submit? && Next(config, s, step) != s
    ensures Work(config, Next(config, s, step).rows) < Work(config, s.rows)
  {
    match step
    case Start(job, nowMs) => StartTakesWork(config, s, job, nowMs);
    case Finish(r, ok, alerting, failedMs, queuedMs) => FinishTakesWork(config, s, r, ok, alerting, failedMs, queuedMs);
  }

  /** Job starts and delivery ends in a run. */
  function Moves(config: Config, steps: seq<Step>): nat {
    if steps == [] then 0
    else
      var before, last := Run(config, steps[..|steps| - 1]), steps[|steps| - 1];
      Moves(config, steps[..|steps| - 1]) + if !last.Submit? && Next(config, before, last) != before then 1 else 0
  }

  function Submits(steps: seq<Step>): nat {
    if steps == [] then 0
    else Submits(steps[..|steps| - 1]) + if steps[|steps| - 1].Submit? then 1 else 0
  }

  lemma {:induction false} MovesPlusWork(config: Config, steps: seq<Step>)
    ensures Moves(config, steps) + Work(config, Run(config, steps).rows) <= SubmitWork(config) * Submits(steps)
  {
    if steps == [] {
    } else {
      var s, last := Run(config, steps[..|steps| - 1]), steps[|steps| - 1];
      MovesPlusWork(config, steps[..|steps| - 1]);
      RunKeepsInv(config, steps[..|steps| - 1]);
      if last.Submit? {
        EnqueueAddsWork(config, s.(nowMs := last.nowMs), Given(last.project, last.kind, last.text), last.kind,
            last.eventType);
        assert SubmitWork(config) * (Submits(steps[..|steps| - 1]) + 1)
            == SubmitWork(config) * Submits(steps[..|steps| - 1]) + SubmitWork(config);
      } else if Next(config, s, last) != s {
        JobTakesWork(config, s, last);
      }
    }
  }

  predicate Idle(s: Table) {
    s.jobs == multiset{} && forall r | 0 <= r < |s.rows| :: !s.rows[r].status.Sending?
  }

  lemma IdleIffTerminal(config: Config, s: Table)
    requires Inv(config, s)
    ensures Idle(s) <==> forall r | 0 <= r < |s.rows| :: Terminal(s.rows[r])
  {
    forall r: nat | r < |s.rows| && Waiting(s.rows[r]) ensures s.jobs != multiset{} {
      assert HasJob(s, r);
    }
    if s.jobs != multiset{} {
      var j :| j in s.jobs;
      assert Waiting(s.rows[j.row]);
    }
  }

  /** The cascade ends: N submissions lead to a bounded number of moves over all their retries and failure
      emails, and the outbox is idle exactly when every row is delivered or dead. */
  lemma CascadeTerminates(config: Config, steps: seq<Step>)
    ensures Moves(config, steps) <= SubmitWork(config) * Submits(steps)
    ensures var s := Run(config, steps); Idle(s) <==> forall r | 0 <= r < |s.rows| :: Terminal(s.rows[r])
  {
    var s := Run(config, steps);
    MovesPlusWork(config, steps);
    RunKeepsInv(config, steps);
    WorkIsNatural(config, s.rows);
    IdleIffTerminal(config, s);
  }

  lemma ShippedRow(row: Row)
    requires AttemptsFit(DEFAULTS, row)
    ensures row.attempts <= (if row.kind.Webhook? then 3 else 1)
    ensures row.status.Failed? ==>
              row.kind.Webhook? && RetryDelay(DEFAULTS, Webhook, row.attempts)
                  == Some(if row.attempts == 1 then 5 else 20)
  {
  }

  /** With the shipped settings a webhook is tried at most three times, its retries due after 5 and 20 seconds,
      an email once, and a submission moves the outbox at most eight times. */
  lemma ShippedRetries(steps: seq<Step>)
    ensures var s := Run(DEFAULTS, steps);
            forall r | 0 <= r < |s.rows| ::
              && s.rows[r].attempts <= (if s.rows[r].kind.Webhook? then 3 else 1)
              && (s.rows[r].status.Failed? ==>
                    && s.rows[r].kind.Webhook?
                    && RetryDelay(DEFAULTS, Webhook, s.rows[r].attempts)
                        == Some(if s.rows[r].attempts == 1 then 5 else 20))
    ensures Moves(DEFAULTS, steps) <= 8 * Submits(steps)
  {
    var s := Run(DEFAULTS, steps);
    RunKeepsInv(DEFAULTS, steps);
    CascadeTerminates(DEFAULTS, steps);
    assert SubmitWork(DEFAULTS) == 8;
    forall r | 0 <= r < |s.rows|
      ensures s.rows[r].attempts <= (if s.rows[r].kind.Webhook? then 3 else 1)
      ensures s.rows[r].status.Failed? ==>
                && s.rows[r].kind.Webhook?
                && RetryDelay(DEFAULTS, Webhook, s.rows[r].attempts)
                    == Some(if s.rows[r].attempts == 1 then 5 else 20) {
      ShippedRow(s.rows[r]);
    }
  }
}
