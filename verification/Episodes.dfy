/** Online dedup is offline partitioning: the incidents of a fingerprint are the maximal runs of its
    signals whose neighbours are at most one window apart. */
module Episodes {
  import opened Text
  import opened Sorting
  import opened Incidents

  // ---- the offline partition ----

  function Flatten(parts: seq<seq<int>>): seq<int> {
    if parts == [] then [] else Flatten(parts[..|parts| - 1]) + parts[|parts| - 1]
  }

  function First(part: seq<int>): int {
    if part == [] then 0 else part[0]
  }

  function Last(part: seq<int>): int {
    if part == [] then 0 else part[|part| - 1]
  }

  /** A nonempty part whose neighbours are within the window. */
  predicate Dense(part: seq<int>, window: int) {
    part != [] && forall j | 0 <= j < |part| - 1 :: part[j+1] - part[j] <= window
  }

  /** The times, cut exactly at the gaps wider than the window. */
  ghost predicate IsGapPartition(parts: seq<seq<int>>, times: seq<int>, window: int) {
    && Flatten(parts) == times
    && (forall i | 0 <= i < |parts| :: Dense(parts[i], window))
    && (forall i | 0 <= i < |parts| - 1 :: First(parts[i+1]) - Last(parts[i]) > window)
  }

  function GapPartition(times: seq<int>, window: int): seq<seq<int>> {
    if times == [] then []
    else
      var t := times[|times| - 1];
      var before := GapPartition(times[..|times| - 1], window);
      if before != [] && t - Last(before[|before| - 1]) <= window
      then before[|before| - 1 := before[|before| - 1] + [t]]
      else before + [[t]]
  }

  lemma PartGrows(before: seq<seq<int>>, times: seq<int>, t: int, window: int)
    requires IsGapPartition(before, times, window) && before != [] && t - Last(before[|before| - 1]) <= window
    ensures IsGapPartition(before[|before| - 1 := before[|before| - 1] + [t]], times + [t], window)
  {
    var n := |before| - 1;
    var parts := before[n := before[n] + [t]];
    assert parts[..n] == before[..n];
    assert Dense(before[n], window);
    assert Dense(before[n] + [t], window);
    assert First(parts[n]) == First(before[n]);
  }

  lemma PartStarts(before: seq<seq<int>>, times: seq<int>, t: int, window: int)
    requires IsGapPartition(before, times, window)
    requires before != [] ==> t - Last(before[|before| - 1]) > window
    ensures IsGapPartition(before + [[t]], times + [t], window)
  {
    assert (before + [[t]])[..|before|] == before;
  }

  lemma {:induction false} GapPartitionCuts(times: seq<int>, window: int)
    ensures IsGapPartition(GapPartition(times, window), times, window)
  {
    if times == [] {
    } else {
      var n, t := |times| - 1, times[|times| - 1];
      var before := GapPartition(times[..n], window);
      GapPartitionCuts(times[..n], window);
      assert times == times[..n] + [t];
      if before != [] && Dense(before[|before| - 1], window) && t - Last(before[|before| - 1]) <= window {
        PartGrows(before, times[..n], t, window);
      } else {
        PartStarts(before, times[..n], t, window);
      }
    }
  }

  /** There is one gap partition only. */
  lemma {:induction false} GapPartitionUnique(a: seq<seq<int>>, b: seq<seq<int>>, times: seq<int>, window: int)
    requires IsGapPartition(a, times, window) && IsGapPartition(b, times, window)
    ensures a == b
    decreases |a|
  {
    NoPartsNoTimes(a, times, window);
    NoPartsNoTimes(b, times, window);
    if a != [] {
      var m, n := |a| - 1, |b| - 1;
      LongerLastPart(a, b, times, window);
      LongerLastPart(b, a, times, window);
      LastPartIsSuffix(a, times, window);
      LastPartIsSuffix(b, times, window);
      assert a[m] == b[n];
      var rest := times[..|times| - |a[m]|];
      assert Flatten(a[..m]) + a[m] == times && Flatten(b[..n]) + b[n] == times;
      assert Flatten(a[..m]) == rest && Flatten(b[..n]) == rest;
      FrontIsPartition(a, times, window);
      FrontIsPartition(b, times, window);
      GapPartitionUnique(a[..m], b[..n], rest, window);
      assert a == a[..m] + [a[m]] && b == b[..n] + [b[n]];
    }
  }

  lemma FrontIsPartition(parts: seq<seq<int>>, times: seq<int>, window: int)
    requires IsGapPartition(parts, times, window) && parts != []
    ensures IsGapPartition(parts[..|parts| - 1], Flatten(parts[..|parts| - 1]), window)
  {
    var front := parts[..|parts| - 1];
    forall i | 0 <= i < |front| - 1 ensures First(front[i+1]) - Last(front[i]) > window {
      assert front[i+1] == parts[i+1];
    }
  }

  lemma NoPartsNoTimes(parts: seq<seq<int>>, times: seq<int>, window: int)
    requires IsGapPartition(parts, times, window)
    ensures parts == [] <==> times == []
  {
    if parts != [] {
      assert Dense(parts[|parts| - 1], window);
    }
  }

  lemma LastPartIsSuffix(parts: seq<seq<int>>, times: seq<int>, window: int)
    requires IsGapPartition(parts, times, window) && parts != []
    ensures var x := parts[|parts| - 1];
            && 0 < |x| <= |times| && x == times[|times| - |x|..]
            && (|x| < |times| ==> times[|times| - |x| - 1 + 1] - times[|times| - |x| - 1] > window)
            && (forall k | |times| - |x| <= k < |times| - 1 :: times[k+1] - times[k] <= window)
  {
    var m := |parts| - 1;
    var x, front := parts[m], Flatten(parts[..m]);
    assert times == front + x && Dense(parts[m], window);
    forall k | |times| - |x| <= k < |times| - 1 ensures times[k+1] - times[k] <= window {
      var j := k - |front|;
      assert times[k] == x[j] && times[k+1] == x[j+1];
    }
    if |x| < |times| {
      assert First(parts[m-1+1]) - Last(parts[m-1]) > window;
      assert Dense(parts[m-1], window);
      assert parts[..m][m-1] == parts[m-1];
      assert front == Flatten(parts[..m][..m-1]) + parts[m-1];
      assert times[|front| - 1] == front[|front| - 1] == Last(parts[m-1]);
    }
  }

  lemma LongerLastPart(a: seq<seq<int>>, b: seq<seq<int>>, times: seq<int>, window: int)
    requires IsGapPartition(a, times, window) && IsGapPartition(b, times, window) && a != [] && b != []
    ensures |a[|a| - 1]| >= |b[|b| - 1]|
  {
    LastPartIsSuffix(a, times, window);
    LastPartIsSuffix(b, times, window);
  }

  // ---- the online table ----

  datatype Episode = Episode(first: int, last: int, count: int)

  function Summary(row: Incident): Episode {
    Episode(row.createdAt, Seen(row), row.evidence.count)
  }

  function PartSummary(part: seq<int>): Episode {
    Episode(First(part), Last(part), |part|)
  }

  function OfKey(provider: string, fingerprint: string): Incident -> bool {
    (row: Incident) => MatchesKey(row, provider, fingerprint)
  }

  /** A fingerprint of one provider, and its episode window. */
  datatype Key = Key(provider: string, fingerprint: string, window: int)

  /** The incidents of one fingerprint, in order of creation. */
  function RowsOf(rows: seq<Incident>, provider: string, fingerprint: string): seq<Incident> {
    Filter(rows, OfKey(provider, fingerprint))
  }

  predicate IsSignalOf(op: Op, provider: string, fingerprint: string) {
    op.SignalOp? && op.provider == provider && op.signal.fingerprint == fingerprint
  }

  /** The times of a fingerprint's signals in a run. */
  function SignalTimes(steps: seq<Timed>, provider: string, fingerprint: string): seq<int> {
    if steps == [] then []
    else
      var n := |steps| - 1;
      SignalTimes(steps[..n], provider, fingerprint)
      + if IsSignalOf(steps[n].op, provider, fingerprint) then [steps[n].at] else []
  }

  /** Reports and reconciliations of any kind, and automatic closing of rows outside the window; but no
      resolution by hand, which may end an episode early. */
  predicate LetsRunOn(step: Timed, window: int) {
    match step.op
    case ResolveOp(_) => false
    case AutoCloseOp(cutoff) => cutoff <= step.at - window
    case _ => true
  }

  /** The table holds the partition: one row per part, with its first time, last time and size, still open
      unless it was last seen before the window. */
  ghost predicate Tracks(rows: seq<Incident>, parts: seq<seq<int>>, key: Key, now: int) {
    var mine := RowsOf(rows, key.provider, key.fingerprint);
    && |mine| == |parts|
    && forall i | 0 <= i < |mine| ::
         (mine[i].status.Open? || Seen(mine[i]) < now - key.window) && Summary(mine[i]) == PartSummary(parts[i])
  }

  lemma TracksLater(rows: seq<Incident>, parts: seq<seq<int>>, key: Key, now: int, later: int)
    requires Tracks(rows, parts, key, now) && now <= later
    ensures Tracks(rows, parts, key, later)
  {
  }

  lemma {:induction false} FilterCount(rows: seq<Incident>, i: nat, j: nat, p: Incident -> bool)
    requires i < j < |rows| && p(rows[i]) && p(rows[j])
    ensures exists k :: 0 <= k < |Filter(rows, p)| - 1 && Filter(rows, p)[k] == rows[i]
  {
    assert rows == rows[..j] + rows[j..];
    FilterAppend(rows[..j], rows[j..], p);
    FilterContents(rows[..j], p);
    FilterContents(rows[j..], p);
    assert rows[..j][i] in Filter(rows[..j], p);
    assert rows[j..][0] in Filter(rows[j..], p);
    var k :| 0 <= k < |Filter(rows[..j], p)| && Filter(rows[..j], p)[k] == rows[i];
    assert Filter(rows, p)[k] == rows[i];
  }

  lemma {:induction false} NothingPasses(rows: seq<Incident>, p: Incident -> bool)
    requires forall i | 0 <= i < |rows| :: !p(rows[i])
    ensures Filter(rows, p) == []
  {
    if rows == [] {
    } else {
      NothingPasses(rows[1..], p);
    }
  }

  /** Rewriting a row of another key changes nothing; rewriting the last row of the key, just that. */
  lemma FilterAfterChange(rows: seq<Incident>, i: nat, row: Incident, p: Incident -> bool)
    requires i < |rows| && p(row) == p(rows[i])
    requires p(row) ==> forall j | i < j < |rows| :: !p(rows[j])
    ensures var mine := Filter(rows, p);
            if p(row) then mine != [] && mine[|mine| - 1] == rows[i]
                && Filter(rows[i := row], p) == mine[..|mine| - 1] + [row]
            else Filter(rows[i := row], p) == mine
  {
    assert rows == rows[..i] + ([rows[i]] + rows[i+1..]);
    assert rows[i := row] == rows[..i] + ([row] + rows[i+1..]);
    FilterAppend(rows[..i], [rows[i]] + rows[i+1..], p);
    FilterAppend(rows[..i], [row] + rows[i+1..], p);
    FilterAppend([rows[i]], rows[i+1..], p);
    FilterAppend([row], rows[i+1..], p);
    assert [row][1..] == [] && [rows[i]][1..] == [];
    assert Filter([row], p) == (if p(row) then [row] else [])
        && Filter([rows[i]], p) == (if p(row) then [rows[i]] else []);
    if p(row) {
      NothingPasses(rows[i+1..], p);
    }
  }

  /** Only the newest incident of a fingerprint can still be active, and it is when the gap allows. */
  lemma ActiveIsLast(rows: seq<Incident>, parts: seq<seq<int>>, times: seq<int>, key: Key, now: int)
    requires IsGapPartition(parts, times, key.window) && Tracks(rows, parts, key, now)
    requires forall i | 0 <= i < |times| :: times[i] <= now
    ensures var found := FindActive(rows, key.provider, key.fingerprint, now - key.window);
            && (found.Some? <==> parts != [] && now - Last(parts[|parts| - 1]) <= key.window)
            && (found.Some? ==>
                  forall j | found.value < j < |rows| :: !MatchesKey(rows[j], key.provider, key.fingerprint))
  {
    var provider, fingerprint, window := key.provider, key.fingerprint, key.window;
    var p := OfKey(provider, fingerprint);
    var mine := RowsOf(rows, provider, fingerprint);
    var found := FindActive(rows, provider, fingerprint, now - window);
    forall k | 0 <= k < |mine| - 1 ensures Seen(mine[k]) < now - window {
      assert First(parts[k+1]) - Last(parts[k]) > window;
      PartTimes(parts, k + 1);
      assert Dense(parts[k+1], window) && parts[k+1][0] in times;
      assert Summary(mine[k]) == PartSummary(parts[k]);
    }
    if found.Some? {
      forall j | found.value < j < |rows| ensures !MatchesKey(rows[j], provider, fingerprint) {
        if p(rows[j]) {
          FilterCount(rows, found.value, j, p);
          assert false;
        }
      }
      FilterAfterChange(rows, found.value, rows[found.value], p);
      assert Summary(mine[|mine| - 1]) == PartSummary(parts[|parts| - 1]);
    } else if parts != [] {
      FilterContents(rows, p);
      var last := mine[|mine| - 1];
      assert last in mine && Summary(last) == PartSummary(parts[|parts| - 1]);
      assert Seen(last) < now - window;
    }
  }

  lemma {:induction false} PartTimes(parts: seq<seq<int>>, i: nat)
    requires i < |parts|
    ensures forall t :: t in parts[i] ==> t in Flatten(parts)
  {
    if i < |parts| - 1 {
      PartTimes(parts[..|parts| - 1], i);
    }
  }

  lemma PartitionExtends(times: seq<int>, window: int, now: int)
    ensures var parts := GapPartition(times, window);
            GapPartition(times + [now], window)
            == if parts != [] && now - Last(parts[|parts| - 1]) <= window
               then parts[|parts| - 1 := parts[|parts| - 1] + [now]] else parts + [[now]]
    ensures IsGapPartition(GapPartition(times, window), times, window)
  {
    assert (times + [now])[..|times|] == times;
    GapPartitionCuts(times, window);
  }

  /** One more signal extends the table exactly as one more time extends the partition. */
  lemma SignalTracks(rows: seq<Incident>, times: seq<int>, key: Key, kind: string, report: Report, now: int)
    requires Tracks(rows, GapPartition(times, key.window), key, now)
    requires report.SignalReport? && forall i | 0 <= i < |times| :: times[i] <= now
    ensures Tracks(Upsert(rows, key.provider, key.fingerprint, kind, report, key.window, now),
                   GapPartition(times + [now], key.window), key, now)
  {
    var parts := GapPartition(times, key.window);
    PartitionExtends(times, key.window, now);
    ActiveIsLast(rows, parts, times, key, now);
    if FindActive(rows, key.provider, key.fingerprint, now - key.window).Some? {
      UpsertExtends(rows, parts, key, kind, report, now);
    } else {
      UpsertStarts(rows, parts, key, kind, report, now);
    }
  }

  lemma UpsertTouches(rows: seq<Incident>, key: Key, kind: string, report: Report, now: int)
    returns (i: nat, evidence: Evidence)
    requires report.SignalReport?
    requires FindActive(rows, key.provider, key.fingerprint, now - key.window).Some?
    ensures FindActive(rows, key.provider, key.fingerprint, now - key.window) == Some(i) && i < |rows|
    ensures MatchesKey(rows[i], key.provider, key.fingerprint) && rows[i].status.Open?
    ensures evidence.count == rows[i].evidence.count + 1
    ensures Upsert(rows, key.provider, key.fingerprint, kind, report, key.window, now) == Touch(rows, i, evidence, now)
  {
    i := FindActive(rows, key.provider, key.fingerprint, now - key.window).value;
    evidence := Merged(rows[i].evidence, report);
  }

  lemma UpsertExtends(rows: seq<Incident>, parts: seq<seq<int>>, key: Key, kind: string, report: Report, now: int)
    requires Tracks(rows, parts, key, now) && report.SignalReport? && parts != [] && parts[|parts| - 1] != []
    requires var found := FindActive(rows, key.provider, key.fingerprint, now - key.window);
             found.Some? && forall j | found.value < j < |rows| :: !MatchesKey(rows[j], key.provider, key.fingerprint)
    ensures Tracks(Upsert(rows, key.provider, key.fingerprint, kind, report, key.window, now),
                   parts[|parts| - 1 := parts[|parts| - 1] + [now]], key, now)
  {
    var i, evidence := UpsertTouches(rows, key, kind, report, now);
    ExtendLast(rows, parts, key, i, evidence, now);
  }

  lemma UpsertStarts(rows: seq<Incident>, parts: seq<seq<int>>, key: Key, kind: string, report: Report, now: int)
    requires Tracks(rows, parts, key, now) && report.SignalReport?
    requires FindActive(rows, key.provider, key.fingerprint, now - key.window).None?
    ensures Tracks(Upsert(rows, key.provider, key.fingerprint, kind, report, key.window, now),
                   parts + [[now]], key, now)
  {
    AppendNew(rows, parts, key,
              Incident(key.provider, key.fingerprint, kind, Open, now, Some(now), FirstEvidence(report)), now);
  }

  lemma ExtendLast(rows: seq<Incident>, parts: seq<seq<int>>, key: Key, i: nat, evidence: Evidence, now: int)
    requires Tracks(rows, parts, key, now) && parts != [] && parts[|parts| - 1] != []
    requires i < |rows| && MatchesKey(rows[i], key.provider, key.fingerprint) && rows[i].status.Open?
    requires evidence.count == rows[i].evidence.count + 1
    requires forall j | i < j < |rows| :: !MatchesKey(rows[j], key.provider, key.fingerprint)
    ensures Tracks(Touch(rows, i, evidence, now), parts[|parts| - 1 := parts[|parts| - 1] + [now]], key, now)
  {
    var m := |parts| - 1;
    var mine := RowsOf(rows, key.provider, key.fingerprint);
    var rows' := Touch(rows, i, evidence, now);
    FilterAfterChange(rows, i, rows'[i], OfKey(key.provider, key.fingerprint));
    assert mine[m] == rows[i];
    SummaryGrows(rows[i], rows'[i], parts[m], now);
    assert RowsOf(rows', key.provider, key.fingerprint) == mine[..m] + [rows'[i]];
  }

  lemma SummaryGrows(row: Incident, row': Incident, part: seq<int>, now: int)
    requires part != [] && Summary(row) == PartSummary(part)
    requires row'.createdAt == row.createdAt && row'.lastSeenAt == Some(now)
    requires row'.evidence.count == row.evidence.count + 1
    ensures Summary(row') == PartSummary(part + [now])
  {
  }

  lemma AppendNew(rows: seq<Incident>, parts: seq<seq<int>>, key: Key, row: Incident, now: int)
    requires Tracks(rows, parts, key, now) && MatchesKey(row, key.provider, key.fingerprint) && row.status.Open?
    requires row.lastSeenAt == Some(row.createdAt) && row.evidence.count == 1
    ensures Tracks(rows + [row], parts + [[row.createdAt]], key, now)
  {
    var p := OfKey(key.provider, key.fingerprint);
    FilterAppend(rows, [row], p);
    assert [row][1..] == [] && Filter([row], p) == [row];
  }

  /** Operations on other keys leave the fingerprint's rows alone. */
  lemma OtherKeyKeepsRows(rows: seq<Incident>, otherProvider: string, otherFingerprint: string, kind: string,
                          report: Report,
                          window: int, now: int, provider: string, fingerprint: string)
    requires otherProvider != provider || otherFingerprint != fingerprint
    ensures RowsOf(Upsert(rows, otherProvider, otherFingerprint, kind, report, window, now), provider, fingerprint)
            == RowsOf(rows, provider, fingerprint)
  {
    var p := OfKey(provider, fingerprint);
    var rows' := Upsert(rows, otherProvider, otherFingerprint, kind, report, window, now);
    var found := FindActive(rows, otherProvider, otherFingerprint, now - window);
    if found.Some? {
      FilterAfterChange(rows, found.value, rows'[found.value], p);
    } else {
      FilterAppend(rows, [rows'[|rows|]], p);
      assert [rows'[|rows|]][1..] == [];
    }
  }

  lemma BlockKeepsSignalRows(setup: Setup, naming: Naming, rows: seq<Incident>, step: Timed, provider: string,
                             fingerprint: string)
    requires ConsistentNaming(naming, setup) && NamedRows(rows, naming) && step.op.BlockOp?
            && naming.kindOf(fingerprint) != BLOCK
    ensures RowsOf(Apply(setup, rows, step), provider, fingerprint) == RowsOf(rows, provider, fingerprint)
  {
    var op := step.op;
    var report := BlockReport(op.reason, op.requestId, op.source);
    if IsCapReason(op.reason) {
      OtherKeyKeepsRows(rows, op.provider, BlockFingerprint(setup.projectId, op.provider, op.reason), BLOCK, report,
                        DedupWindow(setup.dedupSeconds), step.at, provider, fingerprint);
    } else if IsFollowUpReason(op.reason) {
      var found := FindActiveBlock(rows, op.provider, step.at - DedupWindow(setup.dedupSeconds));
      if found.Some? {
        assert rows[found.value].fingerprint != fingerprint;
        FilterAfterChange(rows, found.value, Apply(setup, rows, step)[found.value], OfKey(provider, fingerprint));
      }
    }
  }

  /** Changes to rows of other keys leave the fingerprint's rows alone. */
  lemma {:induction false} SameWhereItMatters(rows: seq<Incident>, rows': seq<Incident>, p: Incident -> bool)
    requires |rows| == |rows'|
    requires forall i | 0 <= i < |rows| :: p(rows[i]) == p(rows'[i]) && (p(rows[i]) ==> rows[i] == rows'[i])
    ensures Filter(rows', p) == Filter(rows, p)
  {
    if rows == [] {
    } else {
      SameWhereItMatters(rows[1..], rows'[1..], p);
    }
  }

  lemma {:induction false} ClosingCommutes(rows: seq<Incident>, cutoff: int, p: Incident -> bool)
    requires forall row, status :: p(row) == p(row.(status := status))
    ensures Filter(AfterAutoClose(rows, cutoff), p) == AfterAutoClose(Filter(rows, p), cutoff)
  {
    if rows == [] {
    } else {
      ClosingCommutes(rows[1..], cutoff, p);
      assert AfterAutoClose(rows, cutoff)[1..] == AfterAutoClose(rows[1..], cutoff);
    }
  }

  /** Closing rows outside the window ends no episode that a later signal could extend. */
  lemma ClosingTracks(rows: seq<Incident>, parts: seq<seq<int>>, key: Key, cutoff: int, now: int)
    requires Tracks(rows, parts, key, now) && cutoff <= now - key.window
    ensures Tracks(AfterAutoClose(rows, cutoff), parts, key, now)
  {
    ClosingCommutes(rows, cutoff, OfKey(key.provider, key.fingerprint));
  }

  lemma ReconcileKeepsSignalRows(rows: seq<Incident>, naming: Naming, provider: string, requestId: Option<string>,
                                 key: Key)
    requires NamedRows(rows, naming) && naming.kindOf(key.fingerprint) != BLOCK
    ensures RowsOf(AfterReconcile(rows, provider, requestId), key.provider, key.fingerprint)
            == RowsOf(rows, key.provider, key.fingerprint)
  {
    SameWhereItMatters(rows, AfterReconcile(rows, provider, requestId), OfKey(key.provider, key.fingerprint));
  }

  lemma {:induction false} SignalTimesBounded(steps: seq<Timed>, provider: string, fingerprint: string, now: int)
    requires forall i | 0 <= i < |steps| :: steps[i].at <= now
    ensures forall i | 0 <= i < |SignalTimes(steps, provider, fingerprint)| ::
            SignalTimes(steps, provider, fingerprint)[i] <= now
  {
    if steps == [] {
    } else {
      SignalTimesBounded(steps[..|steps| - 1], provider, fingerprint, now);
    }
  }

  /** One step of the run extends the table exactly as it extends the signal times. */
  lemma StepTracks(setup: Setup, naming: Naming, rows: seq<Incident>, times: seq<int>, step: Timed, key: Key)
    requires ConsistentNaming(naming, setup) && NamedRows(rows, naming) && FollowsNaming(naming, setup, step.op)
    requires naming.kindOf(key.fingerprint) != BLOCK && key.window == naming.windowOf(key.fingerprint)
    requires LetsRunOn(step, key.window) && forall i | 0 <= i < |times| :: times[i] <= step.at
    requires Tracks(rows, GapPartition(times, key.window), key, step.at)
    ensures var times' := if IsSignalOf(step.op, key.provider, key.fingerprint) then times + [step.at] else times;
            Tracks(Apply(setup, rows, step), GapPartition(times', key.window), key, step.at)
  {
    match step.op
    case SignalOp(provider, signal) =>
      if IsSignalOf(step.op, key.provider, key.fingerprint) {
        SignalTracks(rows, times, key, signal.detector, SignalReport(signal.reason), step.at);
      } else {
        OtherKeyKeepsRows(rows, provider, signal.fingerprint, signal.detector, SignalReport(signal.reason),
                          naming.windowOf(signal.fingerprint), step.at, key.provider, key.fingerprint);
      }
    case BlockOp(_, _, _, _) => BlockKeepsSignalRows(setup, naming, rows, step, key.provider, key.fingerprint);
    case ReconcileOp(provider, requestId) => ReconcileKeepsSignalRows(rows, naming, provider, requestId, key);
    case AutoCloseOp(cutoff) => ClosingTracks(rows, GapPartition(times, key.window), key, cutoff, step.at);
  }

  /** Over every run in time order of reports, reconciliations and automatic closing, mixed with those of any
      other fingerprint, the incidents of a behavioural fingerprint are exactly the gap partition of its own
      signal times. */
  lemma {:induction false} OnlineIsOffline(setup: Setup, naming: Naming, steps: seq<Timed>, key: Key, now: int)
    requires ConsistentNaming(naming, setup) && naming.kindOf(key.fingerprint) != BLOCK
    requires key.window == naming.windowOf(key.fingerprint) && InOrder(steps)
    requires forall i | 0 <= i < |steps| ::
               FollowsNaming(naming, setup, steps[i].op) && LetsRunOn(steps[i], key.window) && steps[i].at <= now
    ensures Tracks(Run(setup, steps), GapPartition(SignalTimes(steps, key.provider, key.fingerprint), key.window),
            key, now)
  {
    if steps == [] {
    } else {
      var before, step := steps[..|steps| - 1], steps[|steps| - 1];
      var times := SignalTimes(before, key.provider, key.fingerprint);
      OnlineIsOffline(setup, naming, before, key, step.at);
      RunKeepsNames(setup, naming, before);
      SignalTimesBounded(before, key.provider, key.fingerprint, step.at);
      StepTracks(setup, naming, Run(setup, before), times, step, key);
      assert SignalTimes(steps, key.provider, key.fingerprint)
          == if IsSignalOf(step.op, key.provider, key.fingerprint) then times + [step.at] else times;
      TracksLater(Run(setup, steps), GapPartition(SignalTimes(steps, key.provider, key.fingerprint), key.window),
          key, step.at, now);
    }
  }
}
