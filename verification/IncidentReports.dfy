/** What one report, reconciliation or closing does to the incident table, stated on the rows' own fields. */
module IncidentReports {
  import opened Text
  import opened Incidents

  function Seconds(n: int): int {
    1_000_000 * n
  }

  /** When a row was last active. */
  function ActiveAtTime(row: Incident): int {
    match row.lastSeenAt
    case Some(t) => t
    case None => row.createdAt
  }

  /** Open, of the given provider and fingerprint, and active at `since` or later. */
  predicate Extendable(row: Incident, provider: string, fingerprint: string, since: int) {
    row.status == Open && row.provider == provider && row.fingerprint == fingerprint && ActiveAtTime(row) >= since
  }

  /** `after` is `before` with row k changed or, if k is its length, appended. */
  ghost predicate ChangesOnly(before: seq<Incident>, after: seq<Incident>, k: nat) {
    && k <= |before| && |after| == (if k == |before| then |before| + 1 else |before|)
    && forall j | 0 <= j < |before| && j != k :: after[j] == before[j]
  }

  /** The row keeps its identity, is active now and has one more occurrence. */
  predicate Extends(before: Incident, after: Incident, now: int) {
    && after.provider == before.provider && after.fingerprint == before.fingerprint && after.kind == before.kind
    && after.status == before.status == Open && after.createdAt == before.createdAt
    && after.lastSeenAt == Some(now) && after.evidence.count == before.evidence.count + 1
  }

  // ---- signals ----

  /** A signal extends an open row of its fingerprint that was active within its own window, or the fallback's if
      it brings none; otherwise it opens a row.  It names its reason and leaves everything else a block may have
      recorded. */
  lemma SignalLands(setup: Setup, rows: seq<Incident>, provider: string, signal: Signal, now: int) returns (k: nat)
    ensures var rows' := Apply(setup, rows, Timed(now, SignalOp(provider, signal)));
            var own := signal.episodeWindowSeconds;
            var since := now - Seconds(if own.Some? && own.value >= 1 then own.value else Max(setup.dedupSeconds, 1));
            && ChangesOnly(rows, rows', k)
            && (k == |rows| <==>
                  forall j | 0 <= j < |rows| :: !Extendable(rows[j], provider, signal.fingerprint, since))
            && (k == |rows| ==>
                  rows'[k] == Incident(provider, signal.fingerprint, signal.detector, Open, now, Some(now),
                                       Evidence(1, Some(signal.reason), None, None, None)))
            && (k < |rows| ==>
                  && Extendable(rows[k], provider, signal.fingerprint, since) && Extends(rows[k], rows'[k], now)
                  && rows'[k].evidence
                     == rows[k].evidence.(count := rows[k].evidence.count + 1, reason := Some(signal.reason)))
  {
    var window := EpisodeWindow(signal, setup.dedupSeconds);
    var found := FindActive(rows, provider, signal.fingerprint, now - window);
    k := if found.Some? then found.value else |rows|;
  }

  // ---- blocks ----

  predicate CapReason(reason: string) {
    reason in ["req_cap_breach", "tok_cap_breach"]
  }

  /** What a block report leaves on the row it lands on. */
  predicate CarriesReport(row: Incident, reason: string, requestId: Option<string>, source: Option<string>) {
    row.evidence.reason == Some(reason) && row.evidence.requestId == requestId && row.evidence.source == source
  }

  /** A cap block extends the open row of its own reason that was active within the dedup window, or opens one.
      The row carries this report's reason, request and source; an earlier previous reason stays. */
  lemma CapBlockLands(setup: Setup, rows: seq<Incident>, provider: string, reason: string,
                      requestId: Option<string>, source: Option<string>, now: int) returns (k: nat)
    requires CapReason(reason)
    ensures var rows' := Apply(setup, rows, Timed(now, BlockOp(provider, reason, requestId, source)));
            var fingerprint := setup.projectId + ":" + provider + ":block:" + reason;
            var since := now - Seconds(Max(setup.dedupSeconds, 1));
            && ChangesOnly(rows, rows', k) && CarriesReport(rows'[k], reason, requestId, source)
            && (k == |rows| <==> forall j | 0 <= j < |rows| :: !Extendable(rows[j], provider, fingerprint, since))
            && (k == |rows| ==>
                  rows'[k] == Incident(provider, fingerprint, "block", Open, now, Some(now),
                                       Evidence(1, Some(reason), None, requestId, source)))
            && (k < |rows| ==>
                  && Extendable(rows[k], provider, fingerprint, since) && Extends(rows[k], rows'[k], now)
                  && rows'[k].evidence.previousReason == rows[k].evidence.previousReason)
  {
    var found := FindActive(rows, provider, BlockFingerprint(setup.projectId, provider, reason),
                            now - DedupWindow(setup.dedupSeconds));
    k := if found.Some? then found.value else |rows|;
  }

  /** An open block row of the provider, active within the dedup window. */
  predicate LiveBlock(row: Incident, provider: string, since: int) {
    row.status == Open && row.provider == provider && row.kind == "block" && ActiveAtTime(row) >= since
  }

  /** An earlier reason is remembered when there is one and it is not the reported one again. */
  function Remembered(before: Evidence, reason: string): Option<string> {
    if before.reason == None || before.reason == Some("") || before.reason == Some(reason) then before.previousReason
    else before.reason
  }

  lemma FollowUpEvidence(before: Evidence, reason: string, requestId: Option<string>, source: Option<string>)
    ensures MergedKeepingReason(before, BlockReport(reason, requestId, source))
            == Evidence(before.count + 1, Some(reason),
                        Remembered(before, reason), requestId, source)
  {
  }

  lemma FollowUpRow(rows: seq<Incident>, provider: string, since: int) returns (k: nat)
    requires exists j :: 0 <= j < |rows| && LiveBlock(rows[j], provider, since)
    ensures FindActiveBlock(rows, provider, since) == Some(k) && k < |rows| && LiveBlock(rows[k], provider, since)
    ensures forall j | 0 <= j < |rows| && LiveBlock(rows[j], provider, since) ::
              ActiveAtTime(rows[j]) <= ActiveAtTime(rows[k])
  {
    var j :| 0 <= j < |rows| && LiveBlock(rows[j], provider, since);
    assert ActiveBlock(rows[j], provider, since);
    k := FindActiveBlock(rows, provider, since).value;
    forall i | 0 <= i < |rows| && LiveBlock(rows[i], provider, since)
      ensures ActiveAtTime(rows[i]) <= ActiveAtTime(rows[k]) {
      assert ActiveBlock(rows[i], provider, since);
    }
  }

  /** A cooldown or fail-closed report lands on the most recently active block row, if there is one.  The row
      carries this report's reason, request and source, and remembers a different earlier reason. */
  lemma FollowUpLands(setup: Setup, rows: seq<Incident>, provider: string, reason: string,
                      requestId: Option<string>, source: Option<string>, now: int) returns (k: nat)
    requires reason in ["cooldown_active", "fail_closed"]
    requires exists j :: 0 <= j < |rows| && LiveBlock(rows[j], provider, now - Seconds(Max(setup.dedupSeconds, 1)))
    ensures var rows' := Apply(setup, rows, Timed(now, BlockOp(provider, reason, requestId, source)));
            var since := now - Seconds(Max(setup.dedupSeconds, 1));
            && k < |rows| && ChangesOnly(rows, rows', k) && CarriesReport(rows'[k], reason, requestId, source)
            && LiveBlock(rows[k], provider, since) && Extends(rows[k], rows'[k], now)
            && (forall j | 0 <= j < |rows| && LiveBlock(rows[j], provider, since) ::
                  ActiveAtTime(rows[j]) <= ActiveAtTime(rows[k]))
            && rows'[k].evidence.previousReason == Remembered(rows[k].evidence, reason)
  {
    k := FollowUpRow(rows, provider, now - DedupWindow(setup.dedupSeconds));
    FollowUpEvidence(rows[k].evidence, reason, requestId, source);
    assert reason[0] == 'c' || reason[0] == 'f';
  }

  /** Any other report changes nothing, and neither does a follow-up without a live block. */
  lemma OtherReportsAreDropped(setup: Setup, rows: seq<Incident>, provider: string, reason: string,
                               requestId: Option<string>, source: Option<string>, now: int)
    requires !CapReason(reason)
    requires reason in ["cooldown_active", "fail_closed"] ==>
               forall j | 0 <= j < |rows| :: !LiveBlock(rows[j], provider, now - Seconds(Max(setup.dedupSeconds, 1)))
    ensures Apply(setup, rows, Timed(now, BlockOp(provider, reason, requestId, source))) == rows
  {
    var found := FindActiveBlock(rows, provider, now - DedupWindow(setup.dedupSeconds));
    if found.Some? {
      assert LiveBlock(rows[found.value], provider, now - Seconds(Max(setup.dedupSeconds, 1)));
    }
  }

  // ---- reconciliation ----


  /** After any run: once a block report of a request has landed on a row, reconciling that request resolves the row
      if the report was live, and reconciling any other request, or one that was not live, leaves the row as it is. */
  lemma ReconcileFindsReport(setup: Setup, naming: Naming, steps: seq<Timed>, provider: string, reason: string,
                             requestId: string, source: Option<string>, now: int, other: Option<string>)
    returns (k: nat)
    requires ConsistentNaming(naming, setup) && requestId != ""
    requires forall i | 0 <= i < |steps| :: FollowsNaming(naming, setup, steps[i].op)
    requires var rows := Run(setup, steps);
             || CapReason(reason)
             || (&& reason in ["cooldown_active", "fail_closed"]
                 && var since := now - Seconds(Max(setup.dedupSeconds, 1));
                    exists j :: 0 <= j < |rows| && LiveBlock(rows[j], provider, since))
    ensures var rows := Run(setup, steps);
            var rows' := Apply(setup, rows, Timed(now, BlockOp(provider, reason, Some(requestId), source)));
            var later := Apply(setup, rows', Timed(now, ReconcileOp(provider, other)));
            && ChangesOnly(rows, rows', k) && CarriesReport(rows'[k], reason, Some(requestId), source)
            && |later| == |rows'|
            && later[k] == if other == Some(requestId) && source == Some("live") then rows'[k].(status := Resolved)
                           else rows'[k]
  {
    var rows := Run(setup, steps);
    if CapReason(reason) {
      k := CapBlockLands(setup, rows, provider, reason, Some(requestId), source, now);
      var op := BlockOp(provider, reason, Some(requestId), source);
      RunKeepsNames(setup, naming, steps);
      StepKeepsNames(setup, naming, rows, Timed(now, op));
    } else {
      k := FollowUpLands(setup, rows, provider, reason, Some(requestId), source, now);
    }
  }

  // ---- closing ----

  /** Resolving by hand marks that row and no other; automatic closing marks exactly the open rows last active
      before the cutoff. */
  lemma ClosingIsExact(setup: Setup, rows: seq<Incident>, id: nat, cutoff: int, now: int, i: nat)
    requires i < |rows|
    ensures var resolved := Apply(setup, rows, Timed(now, ResolveOp(id)));
            |resolved| == |rows| && resolved[i] == if i == id then rows[i].(status := Resolved) else rows[i]
    ensures var closed := Apply(setup, rows, Timed(now, AutoCloseOp(cutoff)));
            && |closed| == |rows|
            && closed[i] == if rows[i].status == Open && ActiveAtTime(rows[i]) < cutoff
                            then rows[i].(status := AutoResolved) else rows[i]
  {
  }

  /** Reconciliation resolves exactly the provider's open block rows whose latest report is that live request. */
  lemma ReconcilingIsExact(setup: Setup, rows: seq<Incident>, provider: string, requestId: string, now: int, i: nat)
    requires i < |rows|
    ensures var later := Apply(setup, rows, Timed(now, ReconcileOp(provider, Some(requestId))));
            var latest := rows[i].evidence;
            && |later| == |rows|
            && later[i] == if && rows[i].status == Open && rows[i].provider == provider && rows[i].kind == "block"
                              && requestId != "" && latest.requestId == Some(requestId) && latest.source == Some("live")
                           then rows[i].(status := Resolved) else rows[i]
  {
  }

  lemma StepKeepsClosed(setup: Setup, rows: seq<Incident>, step: Timed, i: nat)
    requires i < |rows| && rows[i].status != Open && (step.op.ResolveOp? ==> step.op.id != i)
    ensures i < |Apply(setup, rows, step)| && Apply(setup, rows, step)[i] == rows[i]
  {
  }

  /** A row that is no longer open never changes again, whatever is reported, reconciled or closed later. */
  lemma {:induction false} ClosedIsFinal(setup: Setup, steps: seq<Timed>, m: nat, i: nat)
    requires m <= |steps| && i < |Run(setup, steps[..m])| && Run(setup, steps[..m])[i].status != Open
    requires forall k | m <= k < |steps| && steps[k].op.ResolveOp? :: steps[k].op.id != i
    ensures i < |Run(setup, steps)| && Run(setup, steps)[i] == Run(setup, steps[..m])[i]
    decreases |steps|
  {
    if m == |steps| {
      assert steps[..m] == steps;
    } else {
      var front := steps[..|steps| - 1];
      assert front[..m] == steps[..m];
      ClosedIsFinal(setup, front, m, i);
      StepKeepsClosed(setup, Run(setup, front), steps[|steps| - 1], i);
    }
  }
}
