/** Loop suspicion: a rapid run of consecutive successes with one signature. */
module LoopSuspect {
  import opened Text
  import opened Sorting
  import opened Events

  /** "project:provider:model:environment:endpoint:feature:fingerprint" of one event or context. */
  function Signature(projectId: string, provider: string, model: Option<string>, environment: Option<string>,
                     endpoint: Option<string>, feature: Option<string>, fingerprint: Option<string>): string {
    projectId + ":" + provider + ":" + OrNonEmpty(NormalizedModel(model), "na") + ":" + Or(environment, "na") + ":" +
    Endpoint(endpoint) + ":" + Feature(feature) + ":" + OrNonEmpty(Strip(Or(fingerprint, "unknown")), "unknown")
  }

  function EventSignature(e: Event, projectId: string): string {
    Signature(projectId, e.provider, e.requestedModel, e.environment, e.endpoint, e.feature, e.fingerprint)
  }

  function ContextSignature(ctx: DetectionContext): string {
    Signature(ctx.projectId, ctx.provider, ctx.requestedModel, ctx.environment, ctx.endpoint, ctx.feature,
        ctx.fingerprint)
  }

  predicate IsFailure(e: Event) {
    || (e.httpStatus.Some? && e.httpStatus.value >= 400)
    || Lower(Strip(Or(e.status, ""))) in {"error", "failed", "fail"}
    || (e.errorType.Some? && e.errorType.value != "")
  }

  function OfProvider(provider: string): Event -> bool {
    (e: Event) => e.provider == provider
  }

  function Cutoff(ctx: DetectionContext): int {
    ctx.now - ctx.config.loopWindowSeconds * TICKS_PER_SECOND
  }

  predicate InWindowAndStream(e: Event, ctx: DetectionContext) {
    e.createdAt >= Cutoff(ctx) && EventSignature(e, ctx.projectId) == ContextSignature(ctx)
  }

  predicate GapTooLarge(newer: int, older: int, ctx: DetectionContext) {
    (newer - older) as real > ctx.config.loopMaxGapSeconds * TICKS_PER_SECOND as real
  }

  // ---- the walk, described by its longest admissible prefix ----

  function Successes(s: seq<Event>): nat {
    if s == [] then 0 else Successes(s[..|s| - 1]) + if IsFailure(s[|s| - 1]) then 0 else 1
  }

  /** Arrival time of the last success in a newest-first prefix. */
  function LastSuccessAt(s: seq<Event>): Option<int> {
    if s == [] then None
    else if IsFailure(s[|s| - 1]) then LastSuccessAt(s[..|s| - 1])
    else Some(s[|s| - 1].createdAt)
  }

  /** The event at position i is in the window and the stream, and follows the nearest newer success
      within the gap. */
  predicate Follows(s: seq<Event>, i: nat, ctx: DetectionContext)
    requires i < |s|
  {
    && InWindowAndStream(s[i], ctx)
    && (LastSuccessAt(s[..i]).Some? ==> !GapTooLarge(LastSuccessAt(s[..i]).value, s[i].createdAt, ctx))
  }

  /** The walk may consume the first n events of the newest-first list. */
  ghost predicate Admissible(s: seq<Event>, n: nat, ctx: DetectionContext) {
    n <= |s| && forall i | 0 <= i < n :: Follows(s, i, ctx)
  }

  lemma OneFurther(s: seq<Event>, i: nat, ctx: DetectionContext)
    requires i < |s| && Admissible(s, i, ctx) && Follows(s, i, ctx)
    ensures Admissible(s, i + 1, ctx)
  {
  }

  /** Length of the longest admissible prefix. */
  function LongestAdmissible(s: seq<Event>, ctx: DetectionContext): (n: nat)
    ensures Admissible(s, n, ctx)
    ensures n < |s| ==> !Follows(s, n, ctx)
  {
    LongestFrom(s, 0, ctx)
  }

  function LongestFrom(s: seq<Event>, i: nat, ctx: DetectionContext): (n: nat)
    requires Admissible(s, i, ctx)
    ensures Admissible(s, n, ctx)
    ensures n < |s| ==> !Follows(s, n, ctx)
    decreases |s| - i
  {
    if i < |s| && Follows(s, i, ctx) then (OneFurther(s, i, ctx); LongestFrom(s, i + 1, ctx)) else i
  }

  /** The provider's events, newest arrival first. */
  function ProviderNewestFirst(ctx: DetectionContext): seq<Event> {
    SortBy(Filter(ctx.recentEvents, OfProvider(ctx.provider)), NewestCreated)
  }

  /** The number of successes in the longest admissible newest-first prefix of the provider's events. */
  function SequenceCount(ctx: DetectionContext): nat {
    var s := ProviderNewestFirst(ctx);
    Successes(s[..LongestAdmissible(s, ctx)])
  }

  method CountSequence(ctx: DetectionContext) returns (count: nat)
    ensures count == SequenceCount(ctx)
  {
    var ordered := SortBy(ctx.recentEvents, NewestCreated);
    FilterSort(ctx.recentEvents, NewestCreated, OfProvider(ctx.provider));
    ghost var walked, n := ProviderNewestFirst(ctx), 0;
    var previous: Option<int> := None;
    count := 0;
    var i := 0;
    while i < |ordered|
      invariant 0 <= i <= |ordered|
      invariant Admissible(walked, n, ctx)
      invariant walked[n..] == Filter(ordered[i..], OfProvider(ctx.provider))
      invariant count == Successes(walked[..n])
      invariant previous == LastSuccessAt(walked[..n])
    {
      var e := ordered[i];
      FilterHead(ordered, i, OfProvider(ctx.provider));
      i := i + 1;
      if e.provider != ctx.provider {
        continue;
      }
      NextWalked(walked, n, e, Filter(ordered[i..], OfProvider(ctx.provider)), ctx);
      if !InWindowAndStream(e, ctx) || (previous.Some? && GapTooLarge(previous.value, e.createdAt, ctx)) {
        WalkStops(walked, n, ctx);
        return;
      }
      n := n + 1;
      if IsFailure(e) {
        continue;
      }
      count := count + 1;
      previous := Some(e.createdAt);
    }
    WalkEnds(walked, n, ctx);
  }

  /** The next event of the provider is the next one of the walk; it continues the walk when it follows. */
  lemma NextWalked(walked: seq<Event>, n: nat, e: Event, rest: seq<Event>, ctx: DetectionContext)
    requires n <= |walked| && walked[n..] == [e] + rest && Admissible(walked, n, ctx)
    ensures n < |walked| && walked[n] == e && walked[n+1..] == rest
    ensures Successes(walked[..n+1]) == Successes(walked[..n]) + if IsFailure(e) then 0 else 1
    ensures LastSuccessAt(walked[..n+1]) == if IsFailure(e) then LastSuccessAt(walked[..n]) else Some(e.createdAt)
    ensures Follows(walked, n, ctx) <==>
              && InWindowAndStream(e, ctx)
              && (LastSuccessAt(walked[..n]).Some? ==> !GapTooLarge(LastSuccessAt(walked[..n]).value, e.createdAt, ctx))
    ensures Follows(walked, n, ctx) ==> Admissible(walked, n + 1, ctx)
  {
    assert walked[n..][0] == e && walked[n..][1..] == rest;
    Consume(walked, n);
  }

  lemma FilterHead(s: seq<Event>, i: nat, p: Event -> bool)
    requires i < |s|
    ensures Filter(s[i..], p) == if p(s[i]) then [s[i]] + Filter(s[i+1..], p) else Filter(s[i+1..], p)
  {
    assert s[i..][0] == s[i] && s[i..][1..] == s[i+1..];
  }

  lemma Consume(s: seq<Event>, n: nat)
    requires n < |s|
    ensures Successes(s[..n+1]) == Successes(s[..n]) + if IsFailure(s[n]) then 0 else 1
    ensures LastSuccessAt(s[..n+1]) == if IsFailure(s[n]) then LastSuccessAt(s[..n]) else Some(s[n].createdAt)
  {
    assert s[..n+1][..n] == s[..n] && s[..n+1][n] == s[n];
  }

  lemma {:induction false} SuccessesGrow(s: seq<Event>, m: nat, n: nat)
    requires m <= n <= |s|
    ensures Successes(s[..m]) <= Successes(s[..n])
  {
    if m == n {
    } else {
      SuccessesGrow(s, m, n - 1);
      Consume(s, n - 1);
    }
  }

  lemma WalkEnds(s: seq<Event>, n: nat, ctx: DetectionContext)
    requires Admissible(s, n, ctx) && s[n..] == []
    ensures LongestAdmissible(s, ctx) == n
  {
    assert n == |s|;
  }

  lemma WalkStops(s: seq<Event>, n: nat, ctx: DetectionContext)
    requires n < |s| && Admissible(s, n, ctx) && !Follows(s, n, ctx)
    ensures LongestAdmissible(s, ctx) == n
  {
  }

  // ---- detection ----

  function GrowthTokens(ctx: DetectionContext): Option<int> {
    if ctx.explosionTokens.Some? then ctx.explosionTokens
    else if ctx.currentEvent.Some? && ctx.currentEvent.value.explosionTokens.Some? then
      ctx.currentEvent.value.explosionTokens
    else if ctx.estimatedNextTokens.Some? then ctx.estimatedNextTokens
    else if ctx.currentEvent.Some? then Some(ctx.currentEvent.value.totalTokens)
    else None
  }

  /** The same request stream is growing into a large context: not a stable loop. */
  predicate LooksLikeContextGrowth(ctx: DetectionContext) {
    && GrowthTokens(ctx).Some?
    && var current := Max(GrowthTokens(ctx).value, 0);
       && current >= ctx.config.growthMinTokens
       && (ctx.previousTokens.None? || current > Max(ctx.previousTokens.value, 0))
  }

  /** Parallel work is not a loop, unless the sequence is twice the required length. */
  predicate SuppressedByConcurrency(ctx: DetectionContext, count: nat) {
    && ctx.requests60s.Some? && ctx.requests60s.value >= ctx.config.loopConcurrencyThreshold
    && count < ctx.config.loopCount * 2
  }

  predicate LoopSuspected(ctx: DetectionContext) {
    && ctx.recentEvents != []
    && !LooksLikeContextGrowth(ctx)
    && !SuppressedByConcurrency(ctx, SequenceCount(ctx))
    && SequenceCount(ctx) >= ctx.config.loopCount
  }

  datatype Signal = Signal(fingerprint: string, sequenceCount: nat, episodeWindowSeconds: int)

  method Detect(ctx: DetectionContext) returns (signal: Option<Signal>)
    ensures signal.Some? <==> LoopSuspected(ctx)
    ensures signal.Some? ==>
              && signal.value.sequenceCount == SequenceCount(ctx)
              && signal.value.episodeWindowSeconds == ctx.config.loopWindowSeconds
              && signal.value.fingerprint
                  == ctx.projectId + ":" + ctx.provider + ":loop_suspect:" + ContextSignature(ctx)
  {
    if ctx.recentEvents == [] || LooksLikeContextGrowth(ctx) {
      return None;
    }
    var count := CountSequence(ctx);
    if SuppressedByConcurrency(ctx, count) || count < ctx.config.loopCount {
      return None;
    }
    signal := Some(Signal(ctx.projectId + ":" + ctx.provider + ":loop_suspect:" + ContextSignature(ctx),
                          count, ctx.config.loopWindowSeconds));
  }

  // ---- order-blindness and span ----

  ghost predicate DistinctArrival(events: seq<Event>) {
    DistinctKeys(events, NewestCreated)
  }

  /** Permuting the provider's events, and adding or removing events of other providers anywhere,
      leaves the count unchanged when the provider's arrival times are distinct. */
  lemma CountIsOrderBlind(ctx: DetectionContext, other: seq<Event>)
    requires DistinctArrival(Filter(ctx.recentEvents, OfProvider(ctx.provider)))
    requires multiset(Filter(ctx.recentEvents, OfProvider(ctx.provider)))
            == multiset(Filter(other, OfProvider(ctx.provider)))
    ensures SequenceCount(ctx.(recentEvents := other)) == SequenceCount(ctx)
  {
    var a := Filter(ctx.recentEvents, OfProvider(ctx.provider));
    var b := Filter(other, OfProvider(ctx.provider));
    SortByIsSort(a, NewestCreated);
    SortByIsSort(b, NewestCreated);
    DistinctPermutation(a, SortBy(a, NewestCreated), NewestCreated);
    SortedUnique(SortBy(a, NewestCreated), SortBy(b, NewestCreated), NewestCreated);
    SameWalk(SortBy(a, NewestCreated), ctx, ctx.(recentEvents := other));
  }

  lemma SameWalk(s: seq<Event>, ctx: DetectionContext, ctx': DetectionContext)
    requires ctx' == ctx.(recentEvents := ctx'.recentEvents)
    ensures LongestAdmissible(s, ctx) == LongestAdmissible(s, ctx')
  {
    assert forall i | 0 <= i < |s| :: Follows(s, i, ctx) == Follows(s, i, ctx');
    assert forall n :: Admissible(s, n, ctx) == Admissible(s, n, ctx');
  }

  /** The counted successes of a prefix, newest and oldest arrival. */
  function FirstSuccessAt(s: seq<Event>): Option<int> {
    if s == [] then None
    else if IsFailure(s[0]) then FirstSuccessAt(s[1..])
    else Some(s[0].createdAt)
  }

  /** The counted events of an admissible prefix span at most (count - 1) maximal gaps. */
  lemma {:induction false} CountedSpan(s: seq<Event>, n: nat, ctx: DetectionContext)
    requires Admissible(s, n, ctx) && Successes(s[..n]) >= 1 && ctx.config.loopMaxGapSeconds >= 0.0
    ensures FirstSuccessAt(s[..n]).Some? && LastSuccessAt(s[..n]).Some?
    ensures SpanWithin(FirstSuccessAt(s[..n]).value, LastSuccessAt(s[..n]).value, Successes(s[..n]) - 1, ctx)
  {
    PrefixStep(s, n, ctx);
    var front := s[..n-1];
    if Successes(front) == 0 {
      NoSuccess(front);
    } else {
      CountedSpan(s, n - 1, ctx);
      if !IsFailure(s[n-1]) {
        SpanExtends(FirstSuccessAt(front).value, LastSuccessAt(front).value, s[n-1].createdAt, Successes(front) - 1,
            ctx);
      }
    }
  }

  /** What the n-th event of an admissible prefix adds to the walk. */
  lemma PrefixStep(s: seq<Event>, n: nat, ctx: DetectionContext)
    requires 1 <= n && Admissible(s, n, ctx)
    ensures var front, e := s[..n-1], s[n-1];
            && Admissible(s, n - 1, ctx)
            && Successes(s[..n]) == Successes(front) + (if IsFailure(e) then 0 else 1)
            && LastSuccessAt(s[..n]) == (if IsFailure(e) then LastSuccessAt(front) else Some(e.createdAt))
            && FirstSuccessAt(s[..n]) == (if FirstSuccessAt(front).Some? then FirstSuccessAt(front)
                                          else if IsFailure(e) then None else Some(e.createdAt))
            && (LastSuccessAt(front).Some? ==> !GapTooLarge(LastSuccessAt(front).value, e.createdAt, ctx))
  {
    assert s[..n][..n-1] == s[..n-1] && s[..n][n-1] == s[n-1];
    FirstSuccessOfPrefix(s[..n]);
    assert Follows(s, n - 1, ctx);
  }

  /** From `newer` down to `older` is at most `gaps` maximal gaps. */
  predicate SpanWithin(newer: int, older: int, gaps: int, ctx: DetectionContext) {
    (newer - older) as real <= gaps as real * (ctx.config.loopMaxGapSeconds * TICKS_PER_SECOND as real)
  }

  lemma SpanExtends(newer: int, middle: int, older: int, gaps: int, ctx: DetectionContext)
    requires SpanWithin(newer, middle, gaps, ctx) && !GapTooLarge(middle, older, ctx)
    ensures SpanWithin(newer, older, gaps + 1, ctx)
  {
    var gap := ctx.config.loopMaxGapSeconds * TICKS_PER_SECOND as real;
    assert (gaps + 1) as real * gap == gaps as real * gap + gap;
  }

  lemma {:induction false} FirstSuccessOfPrefix(s: seq<Event>)
    requires s != []
    ensures var front := s[..|s| - 1];
            FirstSuccessAt(s) == if FirstSuccessAt(front).Some? then FirstSuccessAt(front)
                                 else if IsFailure(s[|s| - 1]) then None else Some(s[|s| - 1].createdAt)
  {
    if |s| > 1 {
      FirstSuccessOfPrefix(s[1..]);
      assert s[..|s| - 1][1..] == s[1..][..|s[1..]| - 1];
    }
  }

  lemma {:induction false} NoSuccess(s: seq<Event>)
    requires Successes(s) == 0
    ensures FirstSuccessAt(s).None? && LastSuccessAt(s).None?
  {
    if s == [] {
    } else {
      NoSuccess(s[..|s| - 1]);
      FirstSuccessOfPrefix(s);
    }
  }

  /** The reported count never covers more than (count - 1) gaps of arrival time. */
  lemma ReportedSpan(ctx: DetectionContext)
    requires SequenceCount(ctx) >= 1 && ctx.config.loopMaxGapSeconds >= 0.0
    ensures var s := ProviderNewestFirst(ctx);
            var prefix := s[..LongestAdmissible(s, ctx)];
            && FirstSuccessAt(prefix).Some? && LastSuccessAt(prefix).Some?
            && SpanWithin(FirstSuccessAt(prefix).value, LastSuccessAt(prefix).value, SequenceCount(ctx) - 1, ctx)
  {
    var s := ProviderNewestFirst(ctx);
    var n := LongestAdmissible(s, ctx);
    assert SequenceCount(ctx) == Successes(s[..n]);
    CountedSpan(s, n, ctx);
  }
}
