/** The incident table of one project and the manager that upserts, merges and resolves its rows. */
module Incidents {
  import opened Text
  import opened Events

  const BLOCK := "block"
  const SOURCE_LIVE := "live"

  datatype Status = Open | Resolved | AutoResolved

  datatype Evidence = Evidence(
    count: int, reason: Option<string>, previousReason: Option<string>, requestId: Option<string>,
        source: Option<string>)

  /** A row; its id is its position in the table. */
  datatype Incident = Incident(
    provider: string, fingerprint: string, kind: string, status: Status,
    createdAt: int, lastSeenAt: Option<int>, evidence: Evidence)

  /** What is reported: a detector signal, or a protect block with its request and source. */
  datatype Report =
    | SignalReport(reason: string)
    | BlockReport(reason: string, requestId: Option<string>, source: Option<string>)

  datatype Signal = Signal(detector: string, fingerprint: string, episodeWindowSeconds: Option<int>, reason: string)

  function Seen(row: Incident): int {
    if row.lastSeenAt.Some? then row.lastSeenAt.value else row.createdAt
  }

  function EpisodeWindow(signal: Signal, fallbackSeconds: int): int {
    TICKS_PER_SECOND *
    if signal.episodeWindowSeconds.Some? && signal.episodeWindowSeconds.value > 0
    then signal.episodeWindowSeconds.value else Max(fallbackSeconds, 1)
  }

  function DedupWindow(dedupSeconds: int): int {
    TICKS_PER_SECOND * Max(dedupSeconds, 1)
  }

  function FirstEvidence(report: Report): Evidence {
    match report
    case SignalReport(reason) => Evidence(1, Some(reason), None, None, None)
    case BlockReport(reason, requestId, source) => Evidence(1, Some(reason), None, requestId, source)
  }

  /** The report's fields win, everything else of the old evidence stays, the count goes up. */
  function Merged(before: Evidence, report: Report): Evidence {
    match report
    case SignalReport(reason) => before.(count := before.count + 1, reason := Some(reason))
    case BlockReport(reason, requestId, source) =>
      before.(count := before.count + 1, reason := Some(reason), requestId := requestId, source := source)
  }

  /** As above, remembering a different earlier reason. */
  function MergedKeepingReason(before: Evidence, report: Report): Evidence {
    var merged := Merged(before, report);
    if before.reason.Some? && before.reason.value != "" && before.reason.value != report.reason
    then merged.(previousReason := before.reason) else merged
  }

  // ---- repository queries ----

  predicate MatchesKey(row: Incident, provider: string, fingerprint: string) {
    row.provider == provider && row.fingerprint == fingerprint
  }

  /** The open incident of a fingerprint seen at or after `after`; the latest created of several. */
  function FindActive(rows: seq<Incident>, provider: string, fingerprint: string, after: int): (found: Option<nat>)
    ensures found.Some? ==> found.value < |rows|
    ensures found.Some?
            ==> rows[found.value].status.Open? && MatchesKey(rows[found.value], provider, fingerprint)
                && Seen(rows[found.value]) >= after
    ensures forall i | 0 <= i < |rows| && rows[i].status.Open? && MatchesKey(rows[i], provider, fingerprint)
            && Seen(rows[i]) >= after ::
              found.Some? && rows[i].createdAt <= rows[found.value].createdAt
  {
    if rows == [] then None
    else
      var n := |rows| - 1;
      var rest := FindActive(rows[..n], provider, fingerprint, after);
      if rows[n].status.Open? && MatchesKey(rows[n], provider, fingerprint) && Seen(rows[n]) >= after
         && (rest.None? || rows[n].createdAt >= rows[rest.value].createdAt)
      then Some(n) else rest
  }

  predicate ActiveBlock(row: Incident, provider: string, after: int) {
    row.status.Open? && row.provider == provider && row.kind == BLOCK && Seen(row) >= after
  }

  /** Among the provider's active block incidents the most recently seen; of equals the latest created. */
  function FindActiveBlock(rows: seq<Incident>, provider: string, after: int): (found: Option<nat>)
    ensures found.Some? ==> found.value < |rows| && ActiveBlock(rows[found.value], provider, after)
    ensures forall i | 0 <= i < |rows| && ActiveBlock(rows[i], provider, after) ::
              && found.Some? && Seen(rows[i]) <= Seen(rows[found.value])
              && (Seen(rows[i]) == Seen(rows[found.value]) ==> rows[i].createdAt <= rows[found.value].createdAt)
  {
    if rows == [] then None
    else
      var n := |rows| - 1;
      var rest := FindActiveBlock(rows[..n], provider, after);
      if ActiveBlock(rows[n], provider, after)
         && (rest.None? || Seen(rows[n]) > Seen(rows[rest.value])
             || (Seen(rows[n]) == Seen(rows[rest.value]) && rows[n].createdAt >= rows[rest.value].createdAt))
      then Some(n) else rest
  }

  /** Ingest drops behavioural signals while this holds. */
  predicate HasActiveBlockIncident(rows: seq<Incident>, provider: string, now: int, dedupSeconds: int) {
    exists i :: 0 <= i < |rows| && ActiveBlock(rows[i], provider, now - DedupWindow(dedupSeconds))
  }

  // ---- what each operation makes of the table ----

  function Touch(rows: seq<Incident>, i: nat, evidence: Evidence, now: int): seq<Incident>
    requires i < |rows|
  {
    rows[i := rows[i].(evidence := evidence, lastSeenAt := Some(now))]
  }

  function Upsert(rows: seq<Incident>, provider: string, fingerprint: string, kind: string, report: Report,
                  window: int, now: int): seq<Incident> {
    var found := FindActive(rows, provider, fingerprint, now - window);
    if found.Some? then Touch(rows, found.value, Merged(rows[found.value].evidence, report), now)
    else rows + [Incident(provider, fingerprint, kind, Open, now, Some(now), FirstEvidence(report))]
  }

  function AfterSignal(rows: seq<Incident>, provider: string, signal: Signal, dedupSeconds: int,
                       now: int): seq<Incident> {
    Upsert(rows, provider, signal.fingerprint, signal.detector, SignalReport(signal.reason),
           EpisodeWindow(signal, dedupSeconds), now)
  }

  predicate IsCapReason(reason: string) {
    reason == "req_cap_breach" || reason == "tok_cap_breach"
  }

  predicate IsFollowUpReason(reason: string) {
    reason == "cooldown_active" || reason == "fail_closed"
  }

  function BlockFingerprint(projectId: string, provider: string, reason: string): string {
    projectId + ":" + provider + ":" + BLOCK + ":" + reason
  }

  function AfterBlock(rows: seq<Incident>, projectId: string, provider: string, report: Report, dedupSeconds: int,
                      now: int): seq<Incident>
    requires report.BlockReport?
  {
    var window := DedupWindow(dedupSeconds);
    if IsCapReason(report.reason) then
      Upsert(rows, provider, BlockFingerprint(projectId, provider, report.reason), BLOCK, report, window, now)
    else if !IsFollowUpReason(report.reason) then rows
    else
      var found := FindActiveBlock(rows, provider, now - window);
      if found.None? then rows
      else Touch(rows, found.value, MergedKeepingReason(rows[found.value].evidence, report), now)
  }

  /** An open block incident whose latest evidence is the given live request. */
  predicate Superseded(row: Incident, provider: string, requestId: string) {
    && row.status.Open? && row.provider == provider && row.kind == BLOCK
    && row.evidence.requestId == Some(requestId) && row.evidence.source == Some(SOURCE_LIVE)
  }

  function AfterReconcile(rows: seq<Incident>, provider: string, requestId: Option<string>): seq<Incident> {
    if requestId.None? || requestId.value == "" then rows
    else seq(|rows|, i requires 0 <= i < |rows| =>
               if Superseded(rows[i], provider, requestId.value) then rows[i].(status := Resolved) else rows[i])
  }

  function AfterResolve(rows: seq<Incident>, id: nat): seq<Incident> {
    if id < |rows| then rows[id := rows[id].(status := Resolved)] else rows
  }

  function AfterAutoClose(rows: seq<Incident>, cutoff: int): seq<Incident> {
    seq(|rows|, i requires 0 <= i < |rows| =>
          if rows[i].status.Open? && Seen(rows[i]) < cutoff then rows[i].(status := AutoResolved) else rows[i])
  }

  class IncidentManager {
    const projectId: string
    const dedupSeconds: int
    var rows: seq<Incident>

    constructor (projectId: string, dedupSeconds: int)
      ensures this.projectId == projectId && this.dedupSeconds == dedupSeconds && rows == []
    {
      this.projectId, this.dedupSeconds, this.rows := projectId, dedupSeconds, [];
    }

    /** Returns whether a new incident was opened, which is when notifications go out. */
    method ProcessSignal(provider: string, signal: Signal, now: int) returns (isNew: bool)
      modifies this
      ensures rows == AfterSignal(old(rows), provider, signal, dedupSeconds, now)
      ensures isNew <==> |rows| == old(|rows|) + 1
    {
      var after := now - EpisodeWindow(signal, dedupSeconds);
      var found := FindActive(rows, provider, signal.fingerprint, after);
      if found.Some? {
        var row := rows[found.value];
        row := row.(evidence := row.evidence.(count := row.evidence.count + 1, reason := Some(signal.reason)));
        row := row.(lastSeenAt := Some(now));
        rows := rows[found.value := row];
        return false;
      }
      var evidence := Evidence(1, Some(signal.reason), None, None, None);
      rows := rows + [Incident(provider, signal.fingerprint, signal.detector, Open, now, Some(now), evidence)];
      isNew := true;
    }

    method ProcessProtectBlock(provider: string, reason: string, requestId: Option<string>, source: Option<string>,
                               now: int)
      modifies this
      ensures rows == AfterBlock(old(rows), projectId, provider, BlockReport(reason, requestId, source),
              dedupSeconds, now)
    {
      var after := now - DedupWindow(dedupSeconds);
      if IsCapReason(reason) {
        var fingerprint := BlockFingerprint(projectId, provider, reason);
        var found := FindActive(rows, provider, fingerprint, after);
        if found.Some? {
          var existing := rows[found.value].evidence;
          var merged := Evidence(existing.count + 1, Some(reason), existing.previousReason, requestId, source);
          rows := rows[found.value := rows[found.value].(evidence := merged, lastSeenAt := Some(now))];
          return;
        }
        rows := rows + [Incident(provider, fingerprint, BLOCK, Open, now, Some(now),
            Evidence(1, Some(reason), None, requestId, source))];
        return;
      }
      if !IsFollowUpReason(reason) {
        return;
      }
      var found := FindActiveBlock(rows, provider, after);
      if found.None? {
        return;
      }
      var existing := rows[found.value].evidence;
      var merged := Evidence(existing.count + 1, Some(reason), existing.previousReason, requestId, source);
      if existing.reason.Some? && existing.reason.value != "" && existing.reason.value != reason {
        merged := merged.(previousReason := existing.reason);
      }
      rows := rows[found.value := rows[found.value].(evidence := merged, lastSeenAt := Some(now))];
    }

    method Reconcile(provider: string, requestId: Option<string>)
      modifies this
      ensures rows == AfterReconcile(old(rows), provider, requestId)
    {
      if requestId.None? || requestId.value == "" {
        return;
      }
      var i := |rows|;
      while i > 0
        invariant 0 <= i <= |rows| == old(|rows|)
        invariant forall j | 0 <= j < i :: rows[j] == old(rows)[j]
        invariant forall j | i <= j < |rows| :: rows[j] == AfterReconcile(old(rows), provider, requestId)[j]
      {
        i := i - 1;
        if Superseded(rows[i], provider, requestId.value) {
          rows := rows[i := rows[i].(status := Resolved)];
        }
      }
    }
  }

  // ---- runs ----

  datatype Op =
    | SignalOp(provider: string, signal: Signal)
    | BlockOp(provider: string, reason: string, requestId: Option<string>, source: Option<string>)
    | ReconcileOp(provider: string, requestId: Option<string>)
    | ResolveOp(id: nat)
    | AutoCloseOp(cutoff: int)

  datatype Timed = Timed(at: int, op: Op)

  datatype Setup = Setup(projectId: string, dedupSeconds: int)

  function Apply(setup: Setup, rows: seq<Incident>, step: Timed): seq<Incident> {
    match step.op
    case SignalOp(provider, signal) => AfterSignal(rows, provider, signal, setup.dedupSeconds, step.at)
    case BlockOp(provider, reason, requestId, source) =>
      AfterBlock(rows, setup.projectId, provider, BlockReport(reason, requestId, source), setup.dedupSeconds, step.at)
    case ReconcileOp(provider, requestId) => AfterReconcile(rows, provider, requestId)
    case ResolveOp(id) => AfterResolve(rows, id)
    case AutoCloseOp(cutoff) => AfterAutoClose(rows, cutoff)
  }

  function Run(setup: Setup, steps: seq<Timed>): seq<Incident> {
    if steps == [] then [] else Apply(setup, Run(setup, steps[..|steps| - 1]), steps[|steps| - 1])
  }

  ghost predicate InOrder(steps: seq<Timed>) {
    forall i, j | 0 <= i < j < |steps| :: steps[i].at <= steps[j].at
  }

  /** A fingerprint names its detector, hence its kind and its episode window; block fingerprints use the
      dedup window. */
  datatype Naming = Naming(kindOf: string -> string, windowOf: string -> int)

  ghost predicate ConsistentNaming(naming: Naming, setup: Setup) {
    && (forall f :: naming.kindOf(f) == BLOCK ==> naming.windowOf(f) == DedupWindow(setup.dedupSeconds))
    && (forall provider, reason | IsCapReason(reason) ::
          naming.kindOf(BlockFingerprint(setup.projectId, provider, reason)) == BLOCK)
  }

  predicate FollowsNaming(naming: Naming, setup: Setup, op: Op) {
    op.SignalOp? ==>
      && op.signal.detector == naming.kindOf(op.signal.fingerprint)
      && EpisodeWindow(op.signal, setup.dedupSeconds) == naming.windowOf(op.signal.fingerprint)
  }

  ghost predicate NamedRows(rows: seq<Incident>, naming: Naming) {
    forall i | 0 <= i < |rows| :: rows[i].kind == naming.kindOf(rows[i].fingerprint)
  }

  predicate ActiveAt(row: Incident, now: int, naming: Naming) {
    row.status.Open? && Seen(row) >= now - naming.windowOf(row.fingerprint)
  }

  /** Per provider and fingerprint, at most one open incident is active within its window. */
  ghost predicate OneActive(rows: seq<Incident>, now: int, naming: Naming) {
    forall i, j | 0 <= i < j < |rows| && MatchesKey(rows[i], rows[j].provider, rows[j].fingerprint) ::
      !(ActiveAt(rows[i], now, naming) && ActiveAt(rows[j], now, naming))
  }

  lemma UpsertKeepsOneActive(rows: seq<Incident>, provider: string, fingerprint: string, kind: string, report: Report,
                             now: int, naming: Naming)
    requires OneActive(rows, now, naming) && NamedRows(rows, naming) && kind == naming.kindOf(fingerprint)
    ensures var rows' := Upsert(rows, provider, fingerprint, kind, report, naming.windowOf(fingerprint), now);
            OneActive(rows', now, naming) && NamedRows(rows', naming)
  {
  }

  lemma StepKeepsNames(setup: Setup, naming: Naming, rows: seq<Incident>, step: Timed)
    requires ConsistentNaming(naming, setup) && FollowsNaming(naming, setup, step.op) && NamedRows(rows, naming)
    ensures NamedRows(Apply(setup, rows, step), naming)
  {
  }

  lemma {:induction false} RunKeepsNames(setup: Setup, naming: Naming, steps: seq<Timed>)
    requires ConsistentNaming(naming, setup)
    requires forall i | 0 <= i < |steps| :: FollowsNaming(naming, setup, steps[i].op)
    ensures NamedRows(Run(setup, steps), naming)
  {
    if steps == [] {
    } else {
      RunKeepsNames(setup, naming, steps[..|steps| - 1]);
      StepKeepsNames(setup, naming, Run(setup, steps[..|steps| - 1]), steps[|steps| - 1]);
    }
  }

  lemma StepKeepsOneActive(setup: Setup, naming: Naming, rows: seq<Incident>, step: Timed)
    requires ConsistentNaming(naming, setup) && FollowsNaming(naming, setup, step.op)
    requires OneActive(rows, step.at, naming) && NamedRows(rows, naming)
    ensures OneActive(Apply(setup, rows, step), step.at, naming) && NamedRows(Apply(setup, rows, step), naming)
  {
    match step.op
    case SignalOp(provider, signal) =>
      UpsertKeepsOneActive(rows, provider, signal.fingerprint, signal.detector, SignalReport(signal.reason), step.at,
          naming);
    case BlockOp(provider, reason, requestId, source) =>
      if IsCapReason(reason) {
        UpsertKeepsOneActive(rows, provider, BlockFingerprint(setup.projectId, provider, reason), BLOCK,
                             BlockReport(reason, requestId, source), step.at, naming);
      }
    case ReconcileOp(provider, requestId) =>
    case ResolveOp(id) =>
    case AutoCloseOp(cutoff) =>
  }

  lemma OneActiveLater(rows: seq<Incident>, now: int, later: int, naming: Naming)
    requires OneActive(rows, now, naming) && now <= later
    ensures OneActive(rows, later, naming)
  {
    forall i, j | 0 <= i < j < |rows| && MatchesKey(rows[i], rows[j].provider, rows[j].fingerprint)
      ensures !(ActiveAt(rows[i], later, naming) && ActiveAt(rows[j], later, naming))
    {
      assert !(ActiveAt(rows[i], now, naming) && ActiveAt(rows[j], now, naming));
    }
  }

  /** The table invariant over any run in time order that mixes signals, blocks, follow-ups,
      reconciliations and resolutions. */
  lemma {:induction false} RunKeepsOneActive(setup: Setup, naming: Naming, steps: seq<Timed>, now: int)
    requires ConsistentNaming(naming, setup) && InOrder(steps)
    requires forall i | 0 <= i < |steps| :: FollowsNaming(naming, setup, steps[i].op) && steps[i].at <= now
    ensures OneActive(Run(setup, steps), now, naming) && NamedRows(Run(setup, steps), naming)
  {
    if steps == [] {
    } else {
      var step := steps[|steps| - 1];
      RunKeepsOneActive(setup, naming, steps[..|steps| - 1], step.at);
      StepKeepsOneActive(setup, naming, Run(setup, steps[..|steps| - 1]), step);
      OneActiveLater(Run(setup, steps), step.at, now, naming);
    }
  }

  // ---- conservation of counts ----

  function SumCounts(rows: seq<Incident>, kind: string): int {
    if rows == [] then 0
    else
      var last := rows[|rows| - 1];
      SumCounts(rows[..|rows| - 1], kind) + if last.kind == kind then last.evidence.count else 0
  }

  /** Occurrences of a kind that an operation adds to the table. */
  function Accepted(setup: Setup, rows: seq<Incident>, step: Timed, kind: string): int {
    match step.op
    case SignalOp(_, signal) => if signal.detector == kind then 1 else 0
    case BlockOp(provider, reason, _, _) =>
      var lands := HasActiveBlockIncident(rows, provider, step.at, setup.dedupSeconds);
      if kind == BLOCK && (IsCapReason(reason) || (IsFollowUpReason(reason) && lands)) then 1 else 0
    case _ => 0
  }

  function AcceptedInRun(setup: Setup, steps: seq<Timed>, kind: string): int {
    if steps == [] then 0
    else AcceptedInRun(setup, steps[..|steps| - 1], kind)
         + Accepted(setup, Run(setup, steps[..|steps| - 1]), steps[|steps| - 1], kind)
  }

  lemma {:induction false} SumAfterChange(rows: seq<Incident>, i: nat, row: Incident, kind: string)
    requires i < |rows| && row.kind == rows[i].kind
    ensures SumCounts(rows[i := row], kind)
            == SumCounts(rows, kind) + if row.kind == kind then row.evidence.count - rows[i].evidence.count else 0
  {
    var n := |rows| - 1;
    if i == n {
      assert rows[i := row][..n] == rows[..n];
    } else {
      SumAfterChange(rows[..n], i, row, kind);
      assert rows[i := row][..n] == rows[..n][i := row];
    }
  }

  lemma {:induction false} SumOfSameCounts(a: seq<Incident>, b: seq<Incident>, kind: string)
    requires |a| == |b| && forall i | 0 <= i < |a| :: a[i].kind == b[i].kind && a[i].evidence == b[i].evidence
    ensures SumCounts(a, kind) == SumCounts(b, kind)
  {
    if a == [] {
    } else {
      SumOfSameCounts(a[..|a| - 1], b[..|b| - 1], kind);
    }
  }

  lemma UpsertAddsOne(rows: seq<Incident>, provider: string, fingerprint: string, kind: string, report: Report,
                      now: int, naming: Naming, counted: string)
    requires NamedRows(rows, naming) && kind == naming.kindOf(fingerprint)
    ensures SumCounts(Upsert(rows, provider, fingerprint, kind, report, naming.windowOf(fingerprint), now), counted)
            == SumCounts(rows, counted) + if kind == counted then 1 else 0
  {
    var rows' := Upsert(rows, provider, fingerprint, kind, report, naming.windowOf(fingerprint), now);
    var found := FindActive(rows, provider, fingerprint, now - naming.windowOf(fingerprint));
    if found.Some? {
      SumAfterChange(rows, found.value, rows'[found.value], counted);
    } else {
      assert rows'[..|rows'| - 1] == rows;
    }
  }

  lemma FollowUpAddsOne(rows: seq<Incident>, setup: Setup, provider: string, report: Report, now: int, kind: string)
    requires report.BlockReport? && IsFollowUpReason(report.reason)
    ensures SumCounts(AfterBlock(rows, setup.projectId, provider, report, setup.dedupSeconds, now), kind)
            == SumCounts(rows, kind)
               + if kind == BLOCK && HasActiveBlockIncident(rows, provider, now, setup.dedupSeconds) then 1 else 0
  {
    FollowUpLandsIffBlockActive(rows, provider, now, setup.dedupSeconds);
    var rows' := AfterBlock(rows, setup.projectId, provider, report, setup.dedupSeconds, now);
    var found := FindActiveBlock(rows, provider, now - DedupWindow(setup.dedupSeconds));
    if found.Some? {
      SumAfterChange(rows, found.value, rows'[found.value], kind);
    }
  }

  lemma StepConservesCounts(setup: Setup, naming: Naming, rows: seq<Incident>, step: Timed, kind: string)
    requires ConsistentNaming(naming, setup) && FollowsNaming(naming, setup, step.op) && NamedRows(rows, naming)
    ensures SumCounts(Apply(setup, rows, step), kind) == SumCounts(rows, kind) + Accepted(setup, rows, step, kind)
  {
    match step.op
    case SignalOp(provider, signal) =>
      UpsertAddsOne(rows, provider, signal.fingerprint, signal.detector, SignalReport(signal.reason), step.at,
          naming, kind);
    case BlockOp(provider, reason, requestId, source) =>
      var report := BlockReport(reason, requestId, source);
      if IsCapReason(reason) {
        UpsertAddsOne(rows, provider, BlockFingerprint(setup.projectId, provider, reason), BLOCK, report, step.at,
            naming, kind);
      } else if IsFollowUpReason(reason) {
        FollowUpAddsOne(rows, setup, provider, report, step.at, kind);
      }
    case ReconcileOp(provider, requestId) => SumOfSameCounts(Apply(setup, rows, step), rows, kind);
    case ResolveOp(id) => SumOfSameCounts(Apply(setup, rows, step), rows, kind);
    case AutoCloseOp(cutoff) => SumOfSameCounts(Apply(setup, rows, step), rows, kind);
  }

  /** A cooldown or fail-closed report lands on a row exactly when ingest would see an active block. */
  lemma FollowUpLandsIffBlockActive(rows: seq<Incident>, provider: string, now: int, dedupSeconds: int)
    ensures FindActiveBlock(rows, provider, now - DedupWindow(dedupSeconds)).Some?
            <==> HasActiveBlockIncident(rows, provider, now, dedupSeconds)
  {
  }

  /** Counts summed over open and resolved rows of a kind equal the accepted occurrences of that kind. */
  lemma {:induction false} RunConservesCounts(setup: Setup, naming: Naming, steps: seq<Timed>, kind: string)
    requires ConsistentNaming(naming, setup)
    requires forall i | 0 <= i < |steps| :: FollowsNaming(naming, setup, steps[i].op)
    ensures SumCounts(Run(setup, steps), kind) == AcceptedInRun(setup, steps, kind)
  {
    if steps == [] {
    } else {
      var before, step := steps[..|steps| - 1], steps[|steps| - 1];
      RunConservesCounts(setup, naming, before, kind);
      RunKeepsNames(setup, naming, before);
      StepConservesCounts(setup, naming, Run(setup, before), step, kind);
    }
  }

  /** Reconciliation resolves exactly the live block it supersedes and loses no count. */
  lemma ReconcileIsExact(rows: seq<Incident>, provider: string, requestId: string)
    requires requestId != ""
    ensures var rows' := AfterReconcile(rows, provider, Some(requestId));
            && |rows'| == |rows|
            && (forall i | 0 <= i < |rows| :: rows'[i] != rows[i] <==> Superseded(rows[i], provider, requestId))
            && (forall i | 0 <= i < |rows| :: !Superseded(rows'[i], provider, requestId))
            && (forall kind :: SumCounts(rows', kind) == SumCounts(rows, kind))
  {
    var rows' := AfterReconcile(rows, provider, Some(requestId));
    forall kind ensures SumCounts(rows', kind) == SumCounts(rows, kind) {
      SumOfSameCounts(rows', rows, kind);
    }
  }
}
