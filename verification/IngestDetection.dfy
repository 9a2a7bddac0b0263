/** The detection context that ingest builds, and how the two detectors behave on it together. */
module IngestDetection {
  import opened Text
  import opened Sorting
  import opened Events
  import T = TokenExplosion
  import L = LoopSuspect

  function IngestProvider(event: Event): string {
    OrNonEmpty(Strip(event.provider), "unknown")
  }

  function BuildContext(projectId: string, event: Event, recent: seq<Event>, requests60s: int, tokens60s: int,
                        now: int, config: DetectorConfig): DetectionContext {
    var provider := IngestProvider(event);
    var stream := T.Stream(provider, event.requestedModel, event.endpoint, event.feature, Some(event.id));
    DetectionContext(projectId, provider, event.requestedModel, event.environment, now, Some(requests60s),
        Some(tokens60s),
                     event.endpoint, event.feature, event.fingerprint, Some(event.totalTokens), event.explosionTokens,
                     T.PreviousTokens(recent, stream), Some(event), recent, config)
  }

  /** The tokens of the first-listed newest past event of the context's stream. */
  function FirstNewestTokens(ctx: DetectionContext): Option<int> {
    T.PreviousTokens(ctx.recentEvents, T.StreamOf(ctx))
  }

  /** Under a growth hit the loop detector stands down exactly when the first-listed newest past event
      of the stream carries fewer tokens than the current request. */
  lemma StandDownExactly(projectId: string, event: Event, recent: seq<Event>, requests60s: int, tokens60s: int,
                         now: int, config: DetectorConfig)
    requires config.growthCount >= 1 && config.growthMinTokens >= 1 && config.growthRatio > 1.0
    requires T.GrowthHit(BuildContext(projectId, event, recent, requests60s, tokens60s, now, config))
    ensures var ctx := BuildContext(projectId, event, recent, requests60s, tokens60s, now, config);
            && FirstNewestTokens(ctx).Some?
            && (L.LooksLikeContextGrowth(ctx) <==> FirstNewestTokens(ctx).value < T.CurrentTokens(ctx).value)
  {
    var ctx := BuildContext(projectId, event, recent, requests60s, tokens60s, now, config);
    T.GrowthHitIsChain(ctx);
    T.PenultimateIsLastNewest(recent, T.StreamOf(ctx), T.CurrentTokens(ctx).value, config.growthCount);
  }

  /** The last-listed newest past event is always below the current request under a growth hit. */
  lemma GrowthBeatsLastNewest(ctx: DetectionContext)
    requires ctx.config.growthCount >= 1 && ctx.config.growthMinTokens >= 1 && ctx.config.growthRatio > 1.0
    requires T.GrowthHit(ctx)
    ensures var past := T.Matching(ctx.recentEvents, T.StreamOf(ctx));
            past != [] && T.EventTokens(LastGreatest(past, OldestTs)) < T.CurrentTokens(ctx).value
  {
    var current, floor, k := T.CurrentTokens(ctx).value, ctx.config.growthMinTokens, ctx.config.growthCount;
    var s := T.ContextSequence(ctx, current);
    T.GrowthHitIsChain(ctx);
    T.PenultimateIsLastNewest(ctx.recentEvents, T.StreamOf(ctx), current, k);
    T.EligibleAtFloor(s, floor);
    var previous := s[|s| - 2];
    if previous >= floor {
      var eligible := T.Eligible(s, floor);
      var points := eligible[|eligible| - k - 1..];
      assert points[k - 1] == previous && points[k] == current;
      assert T.GrowsBy(points[k - 1], points[k - 1 + 1], ctx.config.growthRatio);
      GrowsStrictly(previous, current, ctx.config.growthRatio);
    }
  }

  lemma GrowsStrictly(previous: int, current: int, ratio: real)
    requires previous >= 1 && ratio > 1.0 && T.GrowsBy(previous, current, ratio)
    ensures current > previous
  {
    assert ratio * previous as real > previous as real;
  }

  /** Growth and loop exclude each other: on the context ingest builds from events with distinct client
      timestamps, a growth hit silences the loop detector. */
  lemma GrowthExcludesLoop(projectId: string, event: Event, recent: seq<Event>, requests60s: int, tokens60s: int,
                           now: int, config: DetectorConfig)
    requires config.growthCount >= 1 && config.growthMinTokens >= 1 && config.growthRatio > 1.0
    requires T.DistinctTs(recent)
    ensures var ctx := BuildContext(projectId, event, recent, requests60s, tokens60s, now, config);
            !(T.GrowthHit(ctx) && L.LoopSuspected(ctx))
  {
    var ctx := BuildContext(projectId, event, recent, requests60s, tokens60s, now, config);
    if T.GrowthHit(ctx) {
      StandDownExactly(projectId, event, recent, requests60s, tokens60s, now, config);
      GrowthBeatsLastNewest(ctx);
      T.MatchingDistinct(recent, T.StreamOf(ctx));
      T.OneNewest(T.Matching(recent, T.StreamOf(ctx)));
    }
  }

  function SampleEvent(id: string, time: int, arrival: int, tokens: int): Event {
    Event(id, time, arrival, "p", None, None, tokens, None, None, None, None, None, None, None)
  }

  const TIED_CONFIG := DetectorConfig(5, 30, 1, 2.0, 30, 10000, 1.5, 1, 1, 8)

  /** Two past events at the same instant, 10 and 2 tokens, and a current request of 3 tokens. */
  function TiedEvents(): seq<Event> {
    [SampleEvent("a", 50, 51, 10), SampleEvent("b", 50, 52, 2), SampleEvent("c", 60, 60, 3)]
  }

  function TiedContext(): DetectionContext {
    BuildContext("j", TiedEvents()[2], TiedEvents(), 3, 15, 60, TIED_CONFIG)
  }

  lemma TiedMatches()
    ensures IngestProvider(TiedEvents()[2]) == "p"
    ensures T.Matching(TiedEvents(), T.StreamOf(TiedContext())) == TiedEvents()[..2]
  {
    var events := TiedEvents();
    assert IngestProvider(events[2]) == "p";
    var m := T.Matcher(T.StreamOf(TiedContext()));
    assert m(events[0]) && m(events[1]) && !m(events[2]);
    assert events[2..] == [events[2]] && Filter(events[2..], m) == [] by {
      assert Filter(events[2..][1..], m) == [];
    }
    assert events[1..][1..] == events[2..] && Filter(events[1..], m) == [events[1]];
  }

  lemma TiedSequence()
    ensures T.ContextSequence(TiedContext(), 3) == [10, 2, 3]
    ensures TiedContext().previousTokens == Some(10)
  {
    var a, b := TiedEvents()[0], TiedEvents()[1];
    TiedMatches();
    assert TiedEvents()[..2] == [a, b];
    assert [a, b][1..] == [b] && [b][1..] == [];
    assert SortBy([b], OldestTs) == [b] && SortBy([a, b], OldestTs) == [a, b];
    assert FirstLeast([a, b], NewestTs) == a;
    assert T.TokensOf([a, b]) == [10, 2];
  }

  lemma TiedEligible()
    ensures T.Eligible([10, 2, 3], 1) == [10, 2, 3]
    ensures [10, 2, 3][1..] == [2, 3] && T.Chain([2, 3], 1, 1.5)
  {
    var s := [10, 2, 3];
    assert s[1..] == [2, 3] && [2, 3][1..] == [3] && [3][1..] == [];
    assert T.Eligible([3], 1) == [3] && T.Eligible([2, 3], 1) == [2, 3];
  }

  lemma TiedGrowthHits()
    ensures T.GrowthHit(TiedContext())
    ensures TiedContext().previousTokens == Some(10)
  {
    TiedSequence();
    TiedEligible();
    T.GrowthHitIsChain(TiedContext());
  }

  /** With tied timestamps both signals can fire. */
  lemma TiedTimestampsBothFire()
    ensures T.GrowthHit(TiedContext()) && L.LoopSuspected(TiedContext())
  {
    TiedGrowthHits();
    TiedMatches();
    var ctx := TiedContext();
    assert L.EventSignature(TiedEvents()[2], "j") == L.ContextSignature(ctx);
    CountsNewest(ctx, TiedEvents()[2]);
  }

  /** An in-window success of the context's own signature that arrived last is counted. */
  lemma CountsNewest(ctx: DetectionContext, e: Event)
    requires e in ctx.recentEvents && e.provider == ctx.provider
    requires L.InWindowAndStream(e, ctx) && !L.IsFailure(e)
    requires forall other :: other in ctx.recentEvents && other != e ==> other.createdAt < e.createdAt
    ensures L.SequenceCount(ctx) >= 1
  {
    var mine := Filter(ctx.recentEvents, L.OfProvider(ctx.provider));
    FilterContents(ctx.recentEvents, L.OfProvider(ctx.provider));
    assert e in mine;
    HeadOfSort(mine, NewestCreated);
    LeastIsUnique(mine, e);
    var s := L.ProviderNewestFirst(ctx);
    assert s[0] == e && L.Follows(s, 0, ctx);
    var n := L.LongestAdmissible(s, ctx);
    assert L.Admissible(s, 1, ctx);
    assert n >= 1;
    L.SuccessesGrow(s, 1, n);
    L.Consume(s, 0);
  }

  lemma {:induction false} LeastIsUnique(s: seq<Event>, e: Event)
    requires e in s
    requires forall other :: other in s && other != e ==> other.createdAt < e.createdAt
    ensures s != [] && FirstLeast(s, NewestCreated) == e
  {
    if |s| > 1 {
      LeastIsMember(s[1..]);
      if e in s[1..] {
        LeastIsUnique(s[1..], e);
      }
    }
  }

  lemma {:induction false} LeastIsMember(s: seq<Event>)
    requires s != []
    ensures FirstLeast(s, NewestCreated) in s
  {
    if |s| > 1 {
      LeastIsMember(s[1..]);
    }
  }
}
