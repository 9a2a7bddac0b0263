/** Token explosion: request contexts that are large, or that grow step by step. */
module TokenExplosion {
  import opened Text
  import opened Sorting
  import opened Events

  /** What makes a past event part of the current request stream. */
  datatype Stream = Stream(
    provider: string,
    requestedModel: Option<string>,
    endpoint: Option<string>,
    feature: Option<string>,
    currentId: Option<string>)

  function StreamOf(ctx: DetectionContext): Stream {
    Stream(ctx.provider, ctx.requestedModel, ctx.endpoint, ctx.feature,
           if ctx.currentEvent.Some? then Some(ctx.currentEvent.value.id) else None)
  }

  function RequestSignature(endpoint: Option<string>, feature: Option<string>): string {
    Endpoint(endpoint) + ":" + Feature(feature)
  }

  predicate InStream(e: Event, stream: Stream) {
    && e.provider == stream.provider
    && NormalizedModel(e.requestedModel) == NormalizedModel(stream.requestedModel)
    && !(stream.currentId.Some? && e.id == stream.currentId.value)
    && RequestSignature(e.endpoint, e.feature) == RequestSignature(stream.endpoint, stream.feature)
  }

  function Matcher(stream: Stream): Event -> bool {
    e => InStream(e, stream)
  }

  function EventTokens(e: Event): (n: nat) {
    if e.explosionTokens.Some? then Max(e.explosionTokens.value, 0) else Max(e.totalTokens, 0)
  }

  function TokensOf(events: seq<Event>): seq<int> {
    seq(|events|, i requires 0 <= i < |events| => EventTokens(events[i]))
  }

  /** The stream's past events in input order. */
  function Matching(events: seq<Event>, stream: Stream): seq<Event> {
    Filter(events, Matcher(stream))
  }

  // ---- the two lookups ----

  /** Tokens of the newest event of the stream; of several equally new ones, the one listed first. */
  function PreviousTokens(events: seq<Event>, stream: Stream): Option<int> {
    var past := Matching(events, stream);
    if past == [] then None else Some(EventTokens(FirstLeast(past, NewestTs)))
  }

  method ResolvePreviousTokens(events: seq<Event>, stream: Stream) returns (previous: Option<int>)
    ensures previous == PreviousTokens(events, stream)
  {
    var ordered := SortBy(events, NewestTs);
    FilterSort(events, NewestTs, Matcher(stream));
    var i := 0;
    while i < |ordered|
      invariant 0 <= i <= |ordered|
      invariant Filter(ordered, Matcher(stream)) == Filter(ordered[i..], Matcher(stream))
    {
      if InStream(ordered[i], stream) {
        assert ordered[i..][0] == ordered[i];
        var past := Matching(events, stream);
        assert SortBy(past, NewestTs)[0] == ordered[i];
        SortByIsSort(past, NewestTs);
        HeadOfSort(past, NewestTs);
        return Some(EventTokens(ordered[i]));
      }
      assert ordered[i..][1..] == ordered[i+1..];
      i := i + 1;
    }
    SortByIsSort(Matching(events, stream), NewestTs);
    previous := None;
  }

  /** Past tokens oldest first, then the current ones; empty when too short for the required count. */
  function TokenSequence(events: seq<Event>, stream: Stream, current: int, requiredCount: int): seq<int> {
    var points := Max(requiredCount, 0) + 1;
    if points <= 1 then [current]
    else
      var full := TokensOf(SortBy(Matching(events, stream), OldestTs)) + [Max(current, 0)];
      if |full| < points then [] else full
  }

  lemma TokensOfNext(ordered: seq<Event>, i: nat, stream: Stream)
    requires i < |ordered|
    ensures TokensOf(Filter(ordered[..i+1], Matcher(stream)))
            == TokensOf(Filter(ordered[..i], Matcher(stream)))
               + if InStream(ordered[i], stream) then [EventTokens(ordered[i])] else []
  {
    assert ordered[..i+1] == ordered[..i] + [ordered[i]];
    FilterAppend(ordered[..i], [ordered[i]], Matcher(stream));
  }

  method ResolveTokenSequence(events: seq<Event>, stream: Stream, current: int, requiredCount: int)
    returns (sequence: seq<int>)
    ensures sequence == TokenSequence(events, stream, current, requiredCount)
  {
    var points := Max(requiredCount, 0) + 1;
    if points <= 1 {
      return [current];
    }
    var ordered := SortBy(events, OldestTs);
    FilterSort(events, OldestTs, Matcher(stream));
    sequence := [];
    var i := 0;
    while i < |ordered|
      invariant 0 <= i <= |ordered|
      invariant sequence == TokensOf(Filter(ordered[..i], Matcher(stream)))
    {
      TokensOfNext(ordered, i, stream);
      if InStream(ordered[i], stream) {
        sequence := sequence + [EventTokens(ordered[i])];
      }
      i := i + 1;
    }
    assert ordered[..i] == ordered;
    sequence := sequence + [Max(current, 0)];
    if |sequence| < points {
      sequence := [];
    }
  }

  /** The penultimate element of the ascending sequence belongs to the last-listed newest event. */
  lemma PenultimateIsLastNewest(events: seq<Event>, stream: Stream, current: int, requiredCount: int)
    requires requiredCount >= 1 && TokenSequence(events, stream, current, requiredCount) != []
    ensures var s := TokenSequence(events, stream, current, requiredCount);
            var past := Matching(events, stream);
            && |s| >= 2 && past != []
            && s[|s| - 2] == EventTokens(LastGreatest(past, OldestTs)) && s[|s| - 1] == Max(current, 0)
  {
    var past := Matching(events, stream);
    SortByIsSort(past, OldestTs);
    LastOfSort(past, OldestTs);
  }

  /** The two lookups sort in opposite directions.  They agree on "the previous value" exactly when the
      first-listed and the last-listed of the newest events of the stream carry the same tokens. */
  lemma TwoSortOrdersAgree(events: seq<Event>, stream: Stream, current: int, requiredCount: int)
    requires requiredCount >= 1 && TokenSequence(events, stream, current, requiredCount) != []
    ensures var s := TokenSequence(events, stream, current, requiredCount);
            var past := Matching(events, stream);
            && past != []
            && (PreviousTokens(events, stream) == Some(s[|s| - 2])
                <==> EventTokens(FirstLeast(past, NewestTs)) == EventTokens(LastGreatest(past, OldestTs)))
  {
    PenultimateIsLastNewest(events, stream, current, requiredCount);
  }

  /** No two of these events share a client timestamp. */
  ghost predicate DistinctTs(events: seq<Event>) {
    forall i, j | 0 <= i < j < |events| :: events[i].ts != events[j].ts
  }

  lemma {:induction false} OneNewest(past: seq<Event>)
    requires past != [] && DistinctTs(past)
    ensures FirstLeast(past, NewestTs) == LastGreatest(past, OldestTs)
    ensures FirstLeast(past, NewestTs) in past
  {
    if |past| > 1 {
      OneNewest(past[1..]);
      var rest := FirstLeast(past[1..], NewestTs);
      var j :| 0 <= j < |past[1..]| && past[1..][j] == rest;
      assert past[j+1] == rest;
    }
  }

  lemma {:induction false} MatchingDistinct(events: seq<Event>, stream: Stream)
    requires DistinctTs(events)
    ensures DistinctTs(Matching(events, stream))
    ensures forall e :: e in Matching(events, stream) ==> e in events
  {
    if events == [] {
    } else {
      MatchingDistinct(events[1..], stream);
      var rest := Matching(events[1..], stream);
      forall i | 0 <= i < |rest| ensures rest[i].ts != events[0].ts {
        assert rest[i] in events[1..];
        var j :| 0 <= j < |events[1..]| && events[1..][j] == rest[i];
        assert events[j+1] == rest[i];
      }
    }
  }

  /** With distinct timestamps the descending first match is exactly the penultimate ascending point. */
  lemma DistinctTsAgree(events: seq<Event>, stream: Stream, current: int, requiredCount: int)
    requires DistinctTs(events)
    requires requiredCount >= 1 && TokenSequence(events, stream, current, requiredCount) != []
    ensures var s := TokenSequence(events, stream, current, requiredCount);
            |s| >= 2 && PreviousTokens(events, stream) == Some(s[|s| - 2])
  {
    MatchingDistinct(events, stream);
    PenultimateIsLastNewest(events, stream, current, requiredCount);
    OneNewest(Matching(events, stream));
  }

  // ---- growth ----

  /** Python's s[-n:]. */
  function LastPoints(s: seq<int>, n: int): seq<int> {
    if n <= 0 then s[Min(-n, |s|)..]
    else if n >= |s| then s
    else s[|s| - n..]
  }

  /** The points at or above the floor. */
  function Eligible(s: seq<int>, floor: int): seq<int> {
    if s == [] then []
    else if s[0] >= floor then [s[0]] + Eligible(s[1..], floor)
    else Eligible(s[1..], floor)
  }

  /** Ratios of neighbouring points, skipping those whose predecessor is not positive. */
  function AdjacentGrowth(s: seq<int>): seq<real> {
    if |s| < 2 then []
    else (if s[0] > 0 then [s[1] as real / s[0] as real] else []) + AdjacentGrowth(s[1..])
  }

  /** The points whose neighbours are compared. */
  function GrowthPoints(sequence: seq<int>, floor: int, count: int): seq<int> {
    var eligible := Eligible(sequence, floor);
    if |eligible| >= count + 1 then LastPoints(eligible, count + 1) else eligible
  }

  predicate RatiosReach(ratios: seq<real>, threshold: real) {
    forall i | 0 <= i < |ratios| :: ratios[i] >= threshold
  }

  function CurrentTokens(ctx: DetectionContext): Option<int> {
    if ctx.explosionTokens.Some? then ctx.explosionTokens
    else if ctx.currentEvent.Some? && ctx.currentEvent.value.explosionTokens.Some? then
      ctx.currentEvent.value.explosionTokens
    else if ctx.estimatedNextTokens.Some? then ctx.estimatedNextTokens
    else if ctx.currentEvent.Some? then Some(Max(ctx.currentEvent.value.totalTokens, 0))
    else None
  }

  function ContextSequence(ctx: DetectionContext, current: int): seq<int> {
    TokenSequence(ctx.recentEvents, StreamOf(ctx), current, ctx.config.growthCount)
  }

  predicate GrowsStepwise(ctx: DetectionContext, current: int) {
    && current >= ctx.config.growthMinTokens
    && ContextSequence(ctx, current) != []
    && var points := GrowthPoints(ContextSequence(ctx, current), ctx.config.growthMinTokens, ctx.config.growthCount);
       var ratios := AdjacentGrowth(points);
       |ratios| == ctx.config.growthCount && RatiosReach(ratios, ctx.config.growthRatio)
  }

  /** Live traffic in the current window, but not so much that requests run side by side. */
  predicate SequentialTraffic(ctx: DetectionContext) {
    && ctx.requests60s.Some? && ctx.requests60s.value > 0
    && ctx.tokens60s.Some? && ctx.tokens60s.value > 0
    && ctx.requests60s.value < ctx.config.growthConcurrencyThreshold
  }

  predicate GrowthHit(ctx: DetectionContext) {
    CurrentTokens(ctx).Some? && GrowsStepwise(ctx, CurrentTokens(ctx).value) && SequentialTraffic(ctx)
  }

  predicate AbsoluteHit(ctx: DetectionContext) {
    CurrentTokens(ctx).Some? && CurrentTokens(ctx).value >= ctx.config.explosionAbs
  }

  datatype Signal = Signal(fingerprint: string, absoluteHit: bool, growthHit: bool, tokens: int,
    episodeWindowSeconds: int)

  method Detect(ctx: DetectionContext) returns (signal: Option<Signal>)
    ensures signal.Some? <==> AbsoluteHit(ctx) || GrowthHit(ctx)
    ensures signal.Some? ==> signal.value.absoluteHit == AbsoluteHit(ctx) && signal.value.growthHit == GrowthHit(ctx)
    ensures signal.Some? ==> signal.value.absoluteHit == (signal.value.tokens >= ctx.config.explosionAbs)
    ensures signal.Some? ==>
              signal.value.fingerprint
              == ctx.projectId + ":" + ctx.provider + ":" + OrNonEmpty(NormalizedModel(ctx.requestedModel), "na")
                 + ":token_explosion"
    ensures signal.Some? ==> Some(signal.value.tokens) == CurrentTokens(ctx) && signal.value.episodeWindowSeconds == 60
  {
    if CurrentTokens(ctx).None? {
      return None;
    }
    var tokens := CurrentTokens(ctx).value;
    var absHit := tokens >= ctx.config.explosionAbs;
    var growthHit := false;
    if tokens >= ctx.config.growthMinTokens {
      var sequence := ResolveTokenSequence(ctx.recentEvents, StreamOf(ctx), tokens, ctx.config.growthCount);
      if sequence != [] {
        var ratios := AdjacentGrowth(GrowthPoints(sequence, ctx.config.growthMinTokens, ctx.config.growthCount));
        growthHit := |ratios| == ctx.config.growthCount && RatiosReach(ratios, ctx.config.growthRatio);
      }
    }
    var requests := if ctx.requests60s.Some? then ctx.requests60s.value else 0;
    var liveTokens := if ctx.tokens60s.Some? then ctx.tokens60s.value else 0;
    if requests <= 0 || liveTokens <= 0 {
      growthHit := false;
    }
    if ctx.requests60s.Some? && ctx.requests60s.value >= ctx.config.growthConcurrencyThreshold {
      growthHit := false;
    }
    if !(absHit || growthHit) {
      return None;
    }
    var fingerprint := ctx.projectId + ":" + ctx.provider + ":"
        + OrNonEmpty(NormalizedModel(ctx.requestedModel), "na") + ":token_explosion";
    signal := Some(Signal(fingerprint, absHit, growthHit, tokens, 60));
  }

  predicate GrowsBy(previous: int, current: int, ratio: real) {
    current as real >= ratio * previous as real
  }

  /** A chain: every point at or above the floor and at least `ratio` times its predecessor. */
  ghost predicate Chain(points: seq<int>, floor: int, ratio: real) {
    && (forall i | 0 <= i < |points| :: points[i] >= floor)
    && (forall i | 0 <= i < |points| - 1 :: GrowsBy(points[i], points[i+1], ratio))
  }

  lemma {:induction false} AdjacentGrowthPointwise(s: seq<int>, ratio: real)
    requires forall i | 0 <= i < |s| :: s[i] >= 1
    ensures |AdjacentGrowth(s)| == if s == [] then 0 else |s| - 1
    ensures forall i | 0 <= i < |AdjacentGrowth(s)| :: AdjacentGrowth(s)[i] >= ratio <==> GrowsBy(s[i], s[i+1], ratio)
  {
    if |s| >= 2 {
      var rest := s[1..];
      AdjacentGrowthPointwise(rest, ratio);
      RatioMeans(s[0], s[1], ratio);
      var head := s[1] as real / s[0] as real;
      assert AdjacentGrowth(s) == [head] + AdjacentGrowth(rest);
      forall i | 0 < i < |AdjacentGrowth(s)| ensures AdjacentGrowth(s)[i] >= ratio <==> GrowsBy(s[i], s[i+1], ratio) {
        assert AdjacentGrowth(s)[i] == AdjacentGrowth(rest)[i-1];
        assert rest[i-1] == s[i] && rest[i-1+1] == s[i+1];
      }
    }
  }

  lemma AdjacentGrowthIsChain(s: seq<int>, floor: int, ratio: real)
    requires floor >= 1 && (forall i | 0 <= i < |s| :: s[i] >= floor)
    ensures |AdjacentGrowth(s)| == if s == [] then 0 else |s| - 1
    ensures RatiosReach(AdjacentGrowth(s), ratio) <==> Chain(s, floor, ratio)
  {
    AdjacentGrowthPointwise(s, ratio);
    if Chain(s, floor, ratio) {
      forall i | 0 <= i < |AdjacentGrowth(s)| ensures AdjacentGrowth(s)[i] >= ratio {
        assert GrowsBy(s[i], s[i+1], ratio);
      }
    } else {
      var i :| 0 <= i < |s| - 1 && !GrowsBy(s[i], s[i+1], ratio);
      assert AdjacentGrowth(s)[i] < ratio;
    }
  }

  lemma RatioMeans(previous: int, current: int, ratio: real)
    requires previous >= 1
    ensures current as real / previous as real >= ratio <==> GrowsBy(previous, current, ratio)
  {
    var q := current as real / previous as real;
    assert q * previous as real == current as real;
  }

  lemma {:induction false} EligibleAtFloor(s: seq<int>, floor: int)
    ensures forall i | 0 <= i < |Eligible(s, floor)| :: Eligible(s, floor)[i] >= floor
    ensures s != [] && s[|s| - 1] >= floor
            ==> Eligible(s, floor) != [] && Eligible(s, floor)[|Eligible(s, floor)| - 1] == s[|s| - 1]
    ensures |s| >= 2 && s[|s| - 1] >= floor && s[|s| - 2] >= floor ==>
              |Eligible(s, floor)| >= 2 && Eligible(s, floor)[|Eligible(s, floor)| - 2] == s[|s| - 2]
  {
    if s == [] {
    } else {
      EligibleAtFloor(s[1..], floor);
      if |s| == 2 && s[0] >= floor && s[1] >= floor {
        assert Eligible(s, floor) == [s[0]] + Eligible(s[1..], floor);
        assert Eligible(s[1..], floor) == [s[1]] + Eligible(s[1..][1..], floor);
      }
    }
  }

  /** What a growth hit says: the last `growthCount + 1` points at or above the floor form a chain that
      ends in the current tokens. */
  lemma GrowthHitIsChain(ctx: DetectionContext)
    requires ctx.config.growthCount >= 1 && ctx.config.growthMinTokens >= 1
    ensures GrowthHit(ctx) <==>
            && ctx.requests60s.Some? && 0 < ctx.requests60s.value < ctx.config.growthConcurrencyThreshold
            && ctx.tokens60s.Some? && 0 < ctx.tokens60s.value
            && CurrentTokens(ctx).Some? && CurrentTokens(ctx).value >= ctx.config.growthMinTokens
            && var eligible := Eligible(ContextSequence(ctx, CurrentTokens(ctx).value), ctx.config.growthMinTokens);
               && |eligible| >= ctx.config.growthCount + 1
               && Chain(eligible[|eligible| - ctx.config.growthCount - 1..], ctx.config.growthMinTokens,
                   ctx.config.growthRatio)
    ensures GrowthHit(ctx) ==>
              var s := ContextSequence(ctx, CurrentTokens(ctx).value);
              s != [] && s[|s| - 1] == CurrentTokens(ctx).value
  {
    if CurrentTokens(ctx).Some? && CurrentTokens(ctx).value >= ctx.config.growthMinTokens {
      var s := ContextSequence(ctx, CurrentTokens(ctx).value);
      EligibleAtFloor(s, ctx.config.growthMinTokens);
      var points := GrowthPoints(s, ctx.config.growthMinTokens, ctx.config.growthCount);
      AdjacentGrowthIsChain(points, ctx.config.growthMinTokens, ctx.config.growthRatio);
    }
  }

  ghost function Pow(base: real, exponent: nat): real {
    if exponent == 0 then 1.0 else base * Pow(base, exponent - 1)
  }

  lemma {:induction false} ChainIsGeometric(points: seq<int>, floor: int, ratio: real)
    requires points != [] && floor >= 1 && ratio >= 0.0 && Chain(points, floor, ratio)
    ensures points[|points| - 1] as real >= Pow(ratio, |points| - 1) * floor as real
  {
    if |points| > 1 {
      var front := points[..|points| - 1];
      ChainIsGeometric(front, floor, ratio);
      var p := Pow(ratio, |front| - 1) * floor as real;
      var last := points[|points| - 2] as real;
      assert front[|front| - 1] == points[|points| - 2];
      assert GrowsBy(points[|points| - 2], points[|points| - 2 + 1], ratio);
      assert ratio * last >= ratio * p;
      assert ratio * p == Pow(ratio, |points| - 1) * floor as real;
    }
  }

  lemma LastOfSuffix(s: seq<int>, k: nat)
    requires k + 1 <= |s|
    ensures |s[|s| - k - 1..]| == k + 1 && s[|s| - k - 1..][k] == s[|s| - 1]
  {
  }

  lemma GrowthEndsInCurrent(ctx: DetectionContext)
    requires ctx.config.growthCount >= 1 && ctx.config.growthMinTokens >= 1 && GrowthHit(ctx)
    ensures var eligible := Eligible(ContextSequence(ctx, CurrentTokens(ctx).value), ctx.config.growthMinTokens);
            eligible != [] && eligible[|eligible| - 1] == CurrentTokens(ctx).value
  {
    GrowthHitIsChain(ctx);
    EligibleAtFloor(ContextSequence(ctx, CurrentTokens(ctx).value), ctx.config.growthMinTokens);
  }

  lemma GrowthChain(ctx: DetectionContext) returns (points: seq<int>)
    requires ctx.config.growthCount >= 1 && ctx.config.growthMinTokens >= 1 && GrowthHit(ctx)
    ensures |points| == ctx.config.growthCount + 1 && points[|points| - 1] == CurrentTokens(ctx).value
    ensures Chain(points, ctx.config.growthMinTokens, ctx.config.growthRatio)
  {
    GrowthHitIsChain(ctx);
    GrowthEndsInCurrent(ctx);
    var eligible := Eligible(ContextSequence(ctx, CurrentTokens(ctx).value), ctx.config.growthMinTokens);
    points := eligible[|eligible| - ctx.config.growthCount - 1..];
    LastOfSuffix(eligible, ctx.config.growthCount);
  }

  /** Growth is geometric: a hit at ratio r over k steps means at least r^k times the floor. */
  lemma GrowthIsGeometric(ctx: DetectionContext)
    requires ctx.config.growthCount >= 1 && ctx.config.growthMinTokens >= 1 && ctx.config.growthRatio >= 0.0
    requires GrowthHit(ctx)
    ensures CurrentTokens(ctx).value as real
            >= Pow(ctx.config.growthRatio, ctx.config.growthCount) * ctx.config.growthMinTokens as real
  {
    var points := GrowthChain(ctx);
    ChainIsGeometric(points, ctx.config.growthMinTokens, ctx.config.growthRatio);
  }
}
